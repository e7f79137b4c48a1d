/** The result-set operations the services apply to a table held as a sequence of rows in
    storage order: `.first()`, a `WHERE` filter, and `UPDATE ... WHERE`. */
module Query {
  import opened Errors

  /** Position of the first row satisfying `p`. */
  function FirstIndex<T>(rows: seq<T>, p: T -> bool): (r: Option<nat>)
    ensures r.None? <==> forall i :: 0 <= i < |rows| ==> !p(rows[i])
    ensures r.Some? ==> r.value < |rows| && p(rows[r.value])
    ensures r.Some? ==> forall j :: 0 <= j < r.value ==> !p(rows[j])
  {
    if |rows| == 0 then None
    else if p(rows[0]) then Some(0)
    else match FirstIndex(rows[1..], p)
      case None => None
      case Some(k) => Some(k + 1)
  }

  /** `.first()` of `rows WHERE p`: the earliest matching row, or None. */
  function First<T>(rows: seq<T>, p: T -> bool): (r: Option<T>)
    ensures r.None? <==> forall i :: 0 <= i < |rows| ==> !p(rows[i])
    ensures r.Some? ==> r.value in rows && p(r.value)
  {
    match FirstIndex(rows, p)
    case None => None
    case Some(k) => Some(rows[k])
  }

  /** When exactly one position matches, `.first()` is the row there. */
  lemma FirstOfOnly<T>(rows: seq<T>, p: T -> bool, k: nat)
    requires k < |rows| && p(rows[k])
    requires forall j :: 0 <= j < |rows| && j != k ==> !p(rows[j])
    ensures First(rows, p) == Some(rows[k])
  {
    assert FirstIndex(rows, p).Some?;
  }

  /** Appending a row changes `.first()` only when nothing matched before. */
  lemma FirstAppend<T>(rows: seq<T>, x: T, p: T -> bool)
    ensures First(rows + [x], p) ==
              if First(rows, p).Some? then First(rows, p) else if p(x) then Some(x) else None
  {
    var all := rows + [x];
    match FirstIndex(rows, p)
    case None =>
      if p(x) {
        FirstOfOnly(all, p, |rows|);
      } else {
        assert forall i :: 0 <= i < |all| ==> !p(all[i]) by {
          forall i | 0 <= i < |all| ensures !p(all[i]) {
            if i < |rows| { assert all[i] == rows[i]; }
          }
        }
      }
    case Some(k) =>
      var r := FirstIndex(all, p);
      assert all[k] == rows[k];
      assert r.Some? && r.value <= k;
      assert all[r.value] == rows[r.value];
      assert r.value == k;
  }

  /** `rows WHERE p`, in storage order. */
  function Where<T>(rows: seq<T>, p: T -> bool): (r: seq<T>)
    ensures |r| <= |rows|
    ensures forall i :: 0 <= i < |r| ==> r[i] in rows && p(r[i])
    ensures forall i :: 0 <= i < |rows| && p(rows[i]) ==> rows[i] in r
  {
    if |rows| == 0 then [] else (if p(rows[0]) then [rows[0]] else []) + Where(rows[1..], p)
  }

  /** A filter splits over concatenation. */
  lemma {:induction false} WhereConcat<T>(a: seq<T>, b: seq<T>, p: T -> bool)
    ensures Where(a + b, p) == Where(a, p) + Where(b, p)
  {
    if |a| > 0 {
      assert (a + b)[1..] == a[1..] + b;
      WhereConcat(a[1..], b, p);
    } else {
      assert a + b == b;
    }
  }

  /** A filter that nothing passes is empty. */
  lemma {:induction false} WhereNone<T>(rows: seq<T>, p: T -> bool)
    requires forall i :: 0 <= i < |rows| ==> !p(rows[i])
    ensures Where(rows, p) == []
  {
    if |rows| > 0 {
      WhereNone(rows[1..], p);
    }
  }

  /** A filter that every row passes keeps the table. */
  lemma {:induction false} WhereAll<T>(rows: seq<T>, p: T -> bool)
    requires forall i :: 0 <= i < |rows| ==> p(rows[i])
    ensures Where(rows, p) == rows
  {
    if |rows| > 0 {
      WhereAll(rows[1..], p);
    }
  }

  /** A filter that exactly one position passes selects that row alone. */
  lemma {:induction false} WhereOnly<T>(rows: seq<T>, p: T -> bool, k: nat)
    requires k < |rows| && p(rows[k])
    requires forall j :: 0 <= j < |rows| && j != k ==> !p(rows[j])
    ensures Where(rows, p) == [rows[k]]
  {
    if k == 0 {
      WhereNone(rows[1..], p);
    } else {
      WhereOnly(rows[1..], p, k - 1);
    }
  }

  /** A filter keeps no row exactly when no position passes it. */
  lemma WhereEmpty<T>(rows: seq<T>, p: T -> bool)
    ensures |Where(rows, p)| == 0 <==> forall i :: 0 <= i < |rows| ==> !p(rows[i])
  {
    if forall i :: 0 <= i < |rows| ==> !p(rows[i]) {
      WhereNone(rows, p);
    }
  }

  /** Two positions of `rows` pass `p`. */
  predicate TwoPass<T>(rows: seq<T>, p: T -> bool) {
    exists i, j :: 0 <= i < j < |rows| && p(rows[i]) && p(rows[j])
  }

  /** A filter keeps at least two rows exactly when two positions pass it. */
  lemma {:induction false} WhereAtLeastTwo<T>(rows: seq<T>, p: T -> bool)
    ensures |Where(rows, p)| >= 2 <==> TwoPass(rows, p)
  {
    if |rows| > 0 {
      var tail := rows[1..];
      var w := Where(tail, p);
      assert Where(rows, p) == (if p(rows[0]) then [rows[0]] else []) + w;
      WhereAtLeastTwo(tail, p);
      if TwoPass(rows, p) {
        var i, j :| 0 <= i < j < |rows| && p(rows[i]) && p(rows[j]);
        assert rows[j] == tail[j - 1];
        if i == 0 {
          assert tail[j - 1] in w;
        } else {
          assert rows[i] == tail[i - 1];
          assert TwoPass(tail, p);
        }
      }
      if |Where(rows, p)| >= 2 {
        if p(rows[0]) {
          assert |w| >= 1 && w[0] in tail && p(w[0]);
          var j :| 0 <= j < |tail| && tail[j] == w[0];
          assert rows[j + 1] == tail[j];
          assert TwoPass(rows, p);
        } else {
          assert TwoPass(tail, p);
          var i, j :| 0 <= i < j < |tail| && p(tail[i]) && p(tail[j]);
          assert rows[i + 1] == tail[i] && rows[j + 1] == tail[j];
          assert TwoPass(rows, p);
        }
      }
    }
  }

  /** `UPDATE rows SET f WHERE p`: matching rows are replaced in place. */
  function UpdateWhere<T>(rows: seq<T>, p: T -> bool, f: T -> T): (r: seq<T>)
    ensures |r| == |rows|
    ensures forall i :: 0 <= i < |rows| ==> r[i] == if p(rows[i]) then f(rows[i]) else rows[i]
  {
    seq(|rows|, i requires 0 <= i < |rows| => if p(rows[i]) then f(rows[i]) else rows[i])
  }
}
