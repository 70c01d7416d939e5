/** routers/jobs.py: paging through the job table, the placeholder "match"
    endpoint, and lookup by id. All three only read the table, which is passed
    in as a value and so cannot change. */
module Jobs {
  import opened Common
  import opened Query
  import opened Models

  /** The query-string defaults of `GET /jobs/`. */
  const DefaultSkip: nat := 0
  const DefaultLimit: nat := 100

  /** One entry of `GET /jobs/match`. */
  datatype JobMatch = JobMatch(job: Job, matchPercentage: int, missingSkills: seq<string>)

  /** The constants every placeholder match carries. */
  const MatchPercentage := 95
  const MissingSkills := ["Kubernetes"]
  const MatchCount: nat := 5

  /** `GET /jobs/?skip=..&limit=..`: the rows from position `skip` on, at most
      `limit` of them, in table order. */
  function ListJobs(jobs: seq<Job>, skip: nat, limit: nat): (r: seq<Job>)
    ensures |r| == Min(limit, if skip <= |jobs| then |jobs| - skip else 0)
    ensures forall i :: 0 <= i < |r| ==> r[i] == jobs[skip + i]
  {
    Limit(Offset(jobs, skip), limit)
  }

  /** The listing is exactly the slice `jobs[skip .. min(skip + limit, n)]`. */
  lemma ListJobsIsSlice(jobs: seq<Job>, skip: nat, limit: nat)
    requires skip <= |jobs|
    ensures ListJobs(jobs, skip, limit) == jobs[skip..Min(skip + limit, |jobs|)]
  {
  }

  /** With the defaults, the listing is the first hundred jobs; an empty table lists nothing. */
  lemma ListJobsDefaults(jobs: seq<Job>)
    ensures ListJobs(jobs, DefaultSkip, DefaultLimit) == jobs[..Min(100, |jobs|)]
    ensures jobs == [] ==> ListJobs(jobs, DefaultSkip, DefaultLimit) == []
  {
    assert Offset(jobs, 0) == jobs;
  }

  /** The placeholder match for one job. */
  function Matched(job: Job): JobMatch {
    JobMatch(job, MatchPercentage, MissingSkills)
  }

  /** `GET /jobs/match`: the first five jobs of the table, each paired with the
      fixed match percentage and missing-skill list. */
  method MatchJobs(jobs: seq<Job>) returns (results: seq<JobMatch>)
    ensures |results| == Min(MatchCount, |jobs|)
    ensures forall i :: 0 <= i < |results| ==> results[i].job == jobs[i]
    ensures forall m :: m in results ==> m.matchPercentage == 95 && m.missingSkills == ["Kubernetes"]
  {
    var limited := Limit(jobs, MatchCount);
    results := [];
    var i := 0;
    while i < |limited|
      invariant 0 <= i <= |limited|
      invariant |results| == i
      invariant forall k :: 0 <= k < i ==> results[k] == Matched(limited[k])
    {
      results := results + [Matched(limited[i])];
      i := i + 1;
    }
  }

  /** `GET /jobs/{job_id}`: the first job with that id, or 404 "Job not found". */
  function JobDetail(jobs: seq<Job>, jobId: int): (r: Result<Job, Error>)
    ensures r.Success? <==> exists j :: j in jobs && j.id == jobId
    ensures r.Success? ==> r.value in jobs && r.value.id == jobId
    ensures r.Success? ==> exists k :: 0 <= k < |jobs| && jobs[k] == r.value &&
                             forall e :: 0 <= e < k ==> jobs[e].id != jobId
    ensures r.Failure? ==> r.error == NotFound("Job not found")
  {
    match IndexWhere(jobs, (j: Job) => j.id == jobId)
    case Some(k) => Success(jobs[k])
    case None => Failure(NotFound("Job not found"))
  }
}
