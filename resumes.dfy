/** routers/resume.py, the resume table: the caller's five newest resumes,
    lookup of one owned resume, the upload that records a placeholder row, the
    "update" that changes nothing, and the row `analyze-match` writes for a
    signed-in caller. */
module Resumes {
  import opened Common
  import opened Query
  import opened JsonData
  import opened Models
  import opened ResumeAnalysis

  const LatestCount: nat := 5
  const UploadPrefix := "/uploads/"
  const AnalyzedPrefix := "http://localhost:8000/uploads/"

  /** Lines 172 and 177: the `parsed_data` an upload stores before any analysis. */
  const PendingParsedData := JObject(map["skills" := StringList(["Pending Analysis"]),
                                         "education" := JString("Pending Analysis")])

  function OwnedBy(caller: int): Resume -> bool {
    (x: Resume) => x.userId == caller
  }

  /** The filter of lines 160 and 192: this id, and this owner. */
  function Target(resumeId: int, caller: int): Resume -> bool {
    (x: Resume) => x.id == resumeId && x.userId == caller
  }

  /** Ordered by `created_at`, newest first. */
  predicate NewestFirst(s: seq<Resume>) {
    forall i, j :: 0 <= i < j < |s| ==> s[i].createdAt >= s[j].createdAt
  }

  /** Each row at least as new as the next one. */
  predicate Descending(s: seq<Resume>) {
    forall i :: 0 < i < |s| ==> s[i - 1].createdAt >= s[i].createdAt
  }

  lemma {:induction false} DescendingIsNewestFirst(s: seq<Resume>)
    requires Descending(s)
    ensures NewestFirst(s)
  {
    if |s| > 1 {
      var t := s[1..];
      DescendingIsNewestFirst(t);
      forall i, j | 0 <= i < j < |s| ensures s[i].createdAt >= s[j].createdAt {
        if i == 0 {
          if j > 1 {
            assert t[0] == s[1] && t[j - 1] == s[j];
          }
        } else {
          assert t[i - 1] == s[i] && t[j - 1] == s[j];
        }
      }
    }
  }

  function InsertByDate(x: Resume, s: seq<Resume>): (r: seq<Resume>)
    requires Descending(s)
    ensures Descending(r)
    ensures |r| == |s| + 1 && (r[0] == x || (s != [] && r[0] == s[0]))
    ensures multiset(r) == multiset(s) + multiset{x}
  {
    if s == [] || s[0].createdAt <= x.createdAt then
      [x] + s
    else
      var rest := InsertByDate(x, s[1..]);
      assert s == [s[0]] + s[1..];
      [s[0]] + rest
  }

  /** `.order_by(created_at.desc())`; rows with equal `created_at` keep table order. */
  function SortByDate(s: seq<Resume>): (r: seq<Resume>)
    ensures Descending(r)
    ensures multiset(r) == multiset(s)
  {
    if s == [] then []
    else
      assert s == [s[0]] + s[1..];
      InsertByDate(s[0], SortByDate(s[1..]))
  }

  /** Cutting a newest-first listing after `k` rows leaves out nothing newer
      than what it keeps. */
  lemma OmittedNotNewer(sorted: seq<Resume>, k: nat)
    requires NewestFirst(sorted) && k <= |sorted|
    ensures forall x, y :: x in sorted && x !in sorted[..k] && y in sorted[..k] ==> x.createdAt <= y.createdAt
  {
    forall x, y | x in sorted && x !in sorted[..k] && y in sorted[..k] ensures x.createdAt <= y.createdAt {
      var i :| 0 <= i < |sorted| && sorted[i] == x;
      var j :| 0 <= j < k && sorted[..k][j] == y;
    }
  }

  /** The five newest of a user's resumes (lines 156): newest first, at most
      five, and nothing left out that is newer than a row kept. */
  function Newest(mine: seq<Resume>): (r: seq<Resume>)
    ensures |r| == Min(LatestCount, |mine|)
    ensures multiset(r) <= multiset(mine)
    ensures NewestFirst(r)
    ensures forall x, y :: x in mine && x !in r && y in r ==> x.createdAt <= y.createdAt
  {
    var sorted := SortByDate(mine);
    assert |sorted| == |multiset(sorted)| == |multiset(mine)| == |mine|;
    var r := sorted[..Min(LatestCount, |sorted|)];
    assert sorted == r + sorted[|r|..];
    assert multiset(sorted) == multiset(r) + multiset(sorted[|r|..]);
    DescendingIsNewestFirst(sorted);
    OmittedNotNewer(sorted, |r|);
    assert forall x :: x in mine ==> x in sorted by {
      forall x | x in mine ensures x in sorted {
        assert x in multiset(mine);
      }
    }
    r
  }

  /** The resume table together with the id counter and the database clock
      that supply `id` and `created_at` for new rows. */
  class ResumeTable {
    var rows: seq<Resume>
    var nextId: int
    var clock: int

    /** Ids are handed out in increasing order and no row is newer than the clock. */
    ghost predicate Valid()
      reads this
    {
      && (forall i :: 0 <= i < |rows| ==> rows[i].id < nextId && rows[i].createdAt <= clock)
      && (forall i, j :: 0 <= i < j < |rows| ==> rows[i].id < rows[j].id)
    }

    constructor ()
      ensures Valid() && rows == [] && nextId == 1
    {
      rows, nextId, clock := [], 1, 0;
    }

    /** `GET /resume/` (line 156): the caller's resumes, newest first, at most five,
        and none left out that is newer than one listed. */
    function Latest(caller: int): (r: seq<Resume>)
      reads this
      ensures |r| == Min(LatestCount, |Where(rows, OwnedBy(caller))|)
      ensures forall x :: x in r ==> x in rows && x.userId == caller
      ensures multiset(r) <= multiset(Where(rows, OwnedBy(caller)))
      ensures NewestFirst(r)
      ensures forall x, y :: x in Where(rows, OwnedBy(caller)) && x !in r && y in r ==>
                x.createdAt <= y.createdAt
    {
      var r := Newest(Where(rows, OwnedBy(caller)));
      assert forall x :: x in r ==> x in Where(rows, OwnedBy(caller)) by {
        forall x | x in r ensures x in Where(rows, OwnedBy(caller)) {
          assert x in multiset(r);
        }
      }
      r
    }

    /** `GET /resume/{resume_id}` (lines 160-163): the resume with that id if the
        caller owns it, and 404 otherwise. */
    function Find(resumeId: int, caller: int): (r: Result<Resume, Error>)
      reads this
      ensures r.Success? <==> exists x :: x in rows && x.id == resumeId && x.userId == caller
      ensures r.Success? ==> r.value in rows && r.value.id == resumeId && r.value.userId == caller
      ensures r.Failure? ==> r.error == NotFound("Resume not found")
    {
      match IndexWhere(rows, Target(resumeId, caller))
      case Some(k) => Success(rows[k])
      case None => Failure(NotFound("Resume not found"))
    }

    /** Appends `row` under the next id at database time `now`. */
    method Insert(row: Resume, now: int) returns (r: Resume)
      requires Valid() && clock <= now
      modifies this
      ensures Valid() && nextId == old(nextId) + 1 && clock == now
      ensures r == row.(id := old(nextId), createdAt := now)
      ensures rows == old(rows) + [r]
      ensures forall x :: x in old(rows) ==> x.id < r.id
      ensures Find(r.id, r.userId) == Success(r)
      ensures forall other :: other != r.userId ==> Where(rows, OwnedBy(other)) == Where(old(rows), OwnedBy(other))
    {
      r := row.(id := nextId, createdAt := now);
      forall p | true ensures Where(rows + [r], p) == Where(rows, p) + (if p(r) then [r] else []) {
        WhereSnoc(rows, r, p);
      }
      rows := rows + [r];
      nextId := nextId + 1;
      clock := now;
    }

    /** `POST /resume/upload` (lines 171-183) by `caller` at database time `now`. */
    method Upload(caller: int, filename: string, now: int) returns (r: Resume)
      requires Valid() && clock <= now
      modifies this
      ensures Valid() && nextId == old(nextId) + 1 && clock == now
      ensures r == Resume(old(nextId), caller, UploadPrefix + filename, PendingParsedData, JNull, JNull, 0, now)
      ensures rows == old(rows) + [r]
      ensures forall x :: x in old(rows) ==> x.id < r.id
      ensures Find(r.id, caller) == Success(r)
      ensures forall other :: other != caller ==> Latest(other) == old(Latest(other))
    {
      ghost var before := rows;
      r := Insert(Resume(0, caller, UploadPrefix + filename, PendingParsedData, JNull, JNull, 0, 0), now);
      forall other | other != caller ensures Latest(other) == old(Latest(other)) {
        assert Where(rows, OwnedBy(other)) == Where(before, OwnedBy(other));
      }
    }

    /** `PUT /resume/update` (lines 192-198): the body has no fields, so an owned
        resume is returned as stored; the table is not touched. */
    method Update(caller: int, resumeId: int, data: ResumeBase) returns (r: Result<Resume, Error>)
      ensures r == Find(resumeId, caller)
      ensures r.Success? <==> exists x :: x in rows && x.id == resumeId && x.userId == caller
      ensures r.Success? ==> r.value in rows && r.value.id == resumeId && r.value.userId == caller
    {
      r := Find(resumeId, caller);
    }

    /** `POST /resume/analyze-match` (lines 28-152) at database time `now`:
        `gemini` and `google` are the two key variables, `caller` the signed-in
        user if there is one. */
    method AnalyzeMatch(filename: string, doc: Document, jobDescription: string,
                        gemini: Option<string>, google: Option<string>, engine: Engine,
                        caller: Option<int>, now: int)
      returns (response: AnalysisResponse)
      requires Valid() && clock <= now
      modifies this
      ensures Valid()
      ensures var o := Analyze(ExtractedText(filename, doc), jobDescription, ChosenKey(gemini, google),
                               engine, caller.Some?);
        && response == o.response
        && (o.saved.None? ==> rows == old(rows) && nextId == old(nextId) && clock == old(clock))
        && (o.saved.Some? ==>
              rows == old(rows) + [Resume(old(nextId), caller.value, AnalyzedPrefix + filename,
                                          o.saved.value.parsedData, o.saved.value.candidateName,
                                          o.saved.value.recommendedFields, o.saved.value.score, now)])
      ensures caller.None? ==> rows == old(rows)
      ensures var o := Analyze(ExtractedText(filename, doc), jobDescription, ChosenKey(gemini, google),
                               engine, caller.Some?);
        o.saved.Some? ==> nextId == old(nextId) + 1 && clock == now
    {
      var text := ExtractText(filename, doc);
      var o := Analyze(text, jobDescription, ChosenKey(gemini, google), engine, caller.Some?);
      if o.saved.Some? {
        var s := o.saved.value;
        var row := Insert(Resume(0, caller.value, AnalyzedPrefix + filename, s.parsedData,
                                 s.candidateName, s.recommendedFields, s.score, 0), now);
      }
      response := o.response;
    }
  }
}
