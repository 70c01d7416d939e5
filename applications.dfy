/** routers/applications.py: a user's job applications. Every operation is
    scoped to the calling user's id; creating one first checks that the job
    exists, and updating one changes only the fields the body supplies. */
module Applications {
  import opened Common
  import opened Query
  import opened Models
  import Jobs

  /** Python's `if value:` on an optional string: present and non-empty. */
  predicate Supplied(v: Option<string>) {
    v.Some? && v.value != []
  }

  function OwnedBy(caller: int): Application -> bool {
    (a: Application) => a.userId == caller
  }

  /** The filter of lines 49-52: this id, and this owner. */
  function Target(applicationId: int, caller: int): Application -> bool {
    (a: Application) => a.id == applicationId && a.userId == caller
  }

  /** Lines 57-60: the row after an update body has been applied to it.
      Identity, owner, job and creation time always stay. */
  function Revised(a: Application, u: ApplicationUpdate): (r: Application)
    ensures r.id == a.id && r.userId == a.userId && r.jobId == a.jobId && r.createdAt == a.createdAt
    ensures Supplied(u.status) ==> r.status == u.status.value
    ensures !Supplied(u.status) ==> r.status == a.status
    ensures Supplied(u.notes) ==> r.notes == u.notes
    ensures !Supplied(u.notes) ==> r.notes == a.notes
  {
    a.(status := if Supplied(u.status) then u.status.value else a.status,
       notes := if Supplied(u.notes) then u.notes else a.notes)
  }

  /** An empty body leaves the row as it was. */
  lemma RevisedByEmptyBody(a: Application)
    ensures Revised(a, ApplicationUpdate(None, None)) == a
      && Revised(a, ApplicationUpdate(Some(""), Some(""))) == a
  {
  }

  /** Sending the same body twice has the effect of sending it once. */
  lemma RevisedIdempotent(a: Application, u: ApplicationUpdate)
    ensures Revised(Revised(a, u), u) == Revised(a, u)
  {
  }

  /** The table after `PUT /applications/{applicationId}` by `caller`: the
      first row with that id and owner is revised, every other row is kept. */
  function Updated(rows: seq<Application>, caller: int, applicationId: int, u: ApplicationUpdate): (r: seq<Application>)
    ensures |r| == |rows|
    ensures forall i :: 0 <= i < |rows| ==>
      r[i].id == rows[i].id && r[i].userId == rows[i].userId &&
      r[i].jobId == rows[i].jobId && r[i].createdAt == rows[i].createdAt
    ensures forall i :: 0 <= i < |rows| && !Target(applicationId, caller)(rows[i]) ==> r[i] == rows[i]
    ensures forall k ::
              (&& 0 <= k < |rows|
               && Target(applicationId, caller)(rows[k])
               && (forall j :: 0 <= j < k ==> !Target(applicationId, caller)(rows[j])))
              ==> r[k] == Revised(rows[k], u)
    ensures (forall a :: a in rows ==> !Target(applicationId, caller)(a)) ==> r == rows
  {
    match IndexWhere(rows, Target(applicationId, caller))
    case None => rows
    case Some(k) => rows[k := Revised(rows[k], u)]
  }

  /** Applying the same update twice gives the same table as applying it once. */
  lemma UpdatedIdempotent(rows: seq<Application>, caller: int, applicationId: int, u: ApplicationUpdate)
    ensures Updated(Updated(rows, caller, applicationId, u), caller, applicationId, u)
         == Updated(rows, caller, applicationId, u)
  {
    var once := Updated(rows, caller, applicationId, u);
    IndexWhereAgree(rows, once, Target(applicationId, caller));
    match IndexWhere(rows, Target(applicationId, caller))
    case None =>
    case Some(k) =>
      assert once[k] == Revised(rows[k], u);
  }

  /** The application table together with the id counter and the database
      clock that supply `id` and `created_at` for new rows. */
  class ApplicationTable {
    var rows: seq<Application>
    var nextId: int
    var clock: int

    /** Ids are handed out in increasing order and no row is newer than the clock. */
    ghost predicate Valid()
      reads this
    {
      && (forall i :: 0 <= i < |rows| ==> rows[i].id < nextId && rows[i].createdAt <= clock)
      && (forall i, j :: 0 <= i < j < |rows| ==> rows[i].id < rows[j].id)
    }

    constructor ()
      ensures Valid() && rows == [] && nextId == 1
    {
      rows, nextId, clock := [], 1, 0;
    }

    /** `GET /applications/`: the caller's applications, in table order. */
    function ListFor(caller: int): (r: seq<Application>)
      reads this
      ensures forall a :: a in r <==> a in rows && a.userId == caller
      ensures |r| <= |rows|
    {
      Where(rows, OwnedBy(caller))
    }

    /** `POST /applications/` by `caller` at database time `now`. */
    method Create(caller: int, request: ApplicationCreate, jobs: seq<Job>, now: int)
      returns (r: Result<Application, Error>)
      requires Valid() && clock <= now
      modifies this
      ensures Valid()
      ensures Jobs.JobDetail(jobs, request.jobId).Failure? ==>
        r == Failure(NotFound("Job not found")) &&
        rows == old(rows) && nextId == old(nextId) && clock == old(clock)
      ensures Jobs.JobDetail(jobs, request.jobId).Success? ==>
        && r.Success?
        && r.value == Application(old(nextId), caller, request.jobId,
                                  request.status.GetOr(DefaultStatus), request.notes, now)
        && rows == old(rows) + [r.value]
        && nextId == old(nextId) + 1 && clock == now
      ensures r.Success? ==> forall a :: a in old(rows) ==> a.id < r.value.id
      ensures r.Success? ==> ListFor(caller) == old(ListFor(caller)) + [r.value]
      ensures forall other :: other != caller ==> ListFor(other) == old(ListFor(other))
    {
      var job := Jobs.JobDetail(jobs, request.jobId);
      if job.Failure? {
        return Failure(NotFound("Job not found"));
      }
      var row := Application(nextId, caller, request.jobId,
                             request.status.GetOr(DefaultStatus), request.notes, now);
      forall p | true ensures Where(rows + [row], p) == Where(rows, p) + (if p(row) then [row] else []) {
        WhereSnoc(rows, row, p);
      }
      rows := rows + [row];
      nextId := nextId + 1;
      clock := now;
      r := Success(row);
    }

    /** `PUT /applications/{applicationId}` by `caller`. */
    method Update(caller: int, applicationId: int, u: ApplicationUpdate)
      returns (r: Result<Application, Error>)
      requires Valid()
      modifies this
      ensures Valid() && nextId == old(nextId) && clock == old(clock)
      ensures rows == Updated(old(rows), caller, applicationId, u)
      ensures r.Failure? <==> forall a :: a in old(rows) ==> !(a.id == applicationId && a.userId == caller)
      ensures r.Failure? ==> r.error == NotFound("Application not found") && rows == old(rows)
      ensures r.Success? ==>
                exists k :: && 0 <= k < |old(rows)|
                            && old(rows)[k].id == applicationId && old(rows)[k].userId == caller
                            && r.value == Revised(old(rows)[k], u) && rows == old(rows)[k := r.value]
    {
      match IndexWhere(rows, Target(applicationId, caller))
      case None =>
        r := Failure(NotFound("Application not found"));
      case Some(k) =>
        var revised := Revised(rows[k], u);
        rows := rows[k := revised];
        r := Success(revised);
    }
  }
}
