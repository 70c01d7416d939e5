/** The SQLAlchemy query operations the routers use, over a table held as a
    sequence of rows in insertion order. */
module Query {
  import opened Common

  /** `query.filter(p).all()`: the rows satisfying `p`, in table order. */
  function Where<T(==,!new)>(rows: seq<T>, p: T -> bool): (r: seq<T>)
    ensures |r| <= |rows|
    ensures forall x :: x in r <==> x in rows && p(x)
    ensures multiset(r) <= multiset(rows)
  {
    if rows == [] then []
    else
      var rest := Where(rows[1..], p);
      assert rows == [rows[0]] + rows[1..];
      (if p(rows[0]) then [rows[0]] else []) + rest
  }

  /** Filtering distributes over appending rows, so `Where` keeps table order. */
  lemma {:induction false} WhereAppend<T(!new)>(a: seq<T>, b: seq<T>, p: T -> bool)
    ensures Where(a + b, p) == Where(a, p) + Where(b, p)
  {
    if a == [] {
      assert a + b == b;
    } else {
      assert (a + b)[0] == a[0];
      assert (a + b)[1..] == a[1..] + b;
      WhereAppend(a[1..], b, p);
    }
  }

  /** Appending one row extends a filtered listing by that row exactly when it matches. */
  lemma WhereSnoc<T(!new)>(rows: seq<T>, x: T, p: T -> bool)
    ensures Where(rows + [x], p) == Where(rows, p) + (if p(x) then [x] else [])
  {
    WhereAppend(rows, [x], p);
    assert [x][1..] == [];
  }

  /** `query.filter(p).first()`, as a position: the first row satisfying `p`. */
  function IndexWhere<T>(rows: seq<T>, p: T -> bool): (r: Option<nat>)
    ensures r.Some? ==> r.value < |rows| && p(rows[r.value])
    ensures r.Some? ==> forall j :: 0 <= j < r.value ==> !p(rows[j])
    ensures r.None? <==> forall j :: 0 <= j < |rows| ==> !p(rows[j])
  {
    if rows == [] then None
    else if p(rows[0]) then Some(0)
    else
      match IndexWhere(rows[1..], p)
      case None => None
      case Some(i) => Some(i + 1)
  }

  /** Two tables whose rows agree on `p` row by row have the same first match. */
  lemma {:induction false} IndexWhereAgree<T>(s: seq<T>, t: seq<T>, p: T -> bool)
    requires |s| == |t|
    requires forall j :: 0 <= j < |s| ==> p(s[j]) == p(t[j])
    ensures IndexWhere(s, p) == IndexWhere(t, p)
  {
    if s != [] {
      IndexWhereAgree(s[1..], t[1..], p);
    }
  }

  /** `query.limit(n).all()`: at most the first `n` rows. */
  function Limit<T>(rows: seq<T>, n: nat): (r: seq<T>)
    ensures |r| == Min(n, |rows|)
    ensures forall i :: 0 <= i < |r| ==> r[i] == rows[i]
  {
    rows[..Min(n, |rows|)]
  }

  /** `query.offset(k)`: the rows after the first `k`. */
  function Offset<T>(rows: seq<T>, k: nat): (r: seq<T>)
    ensures |r| == if k <= |rows| then |rows| - k else 0
    ensures forall i :: 0 <= i < |r| ==> r[i] == rows[k + i]
  {
    if k <= |rows| then rows[k..] else []
  }
}
