/** The two query shapes the user model is built from, over a table held as a
    sequence of rows in result order: `->where(p)->count()` and `->where(p)->first()`. */
module Query {
  import opened Wrappers

  /** `->where(p)->count()`: the number of rows satisfying `p`. */
  function Count<T>(rows: seq<T>, p: T -> bool): (n: nat)
    ensures n <= |rows|
    ensures n == 0 <==> forall i :: 0 <= i < |rows| ==> !p(rows[i])
  {
    if rows == [] then 0
    else (if p(rows[0]) then 1 else 0) + Count(rows[1..], p)
  }

  /** `->where(p)->first()`: the position of the first row satisfying `p`, if any. */
  function FirstIndex<T>(rows: seq<T>, p: T -> bool): (r: Option<nat>)
    ensures r.Some? ==> r.value < |rows| && p(rows[r.value])
    ensures r.Some? ==> forall j :: 0 <= j < r.value ==> !p(rows[j])
    ensures r.None? <==> forall i :: 0 <= i < |rows| ==> !p(rows[i])
  {
    FirstIndexFrom(rows, p, 0)
  }

  function FirstIndexFrom<T>(rows: seq<T>, p: T -> bool, k: nat): (r: Option<nat>)
    requires k <= |rows|
    requires forall j :: 0 <= j < k ==> !p(rows[j])
    ensures r.Some? ==> k <= r.value < |rows| && p(rows[r.value])
    ensures r.Some? ==> forall j :: 0 <= j < r.value ==> !p(rows[j])
    ensures r.None? <==> forall i :: 0 <= i < |rows| ==> !p(rows[i])
    decreases |rows| - k
  {
    if k == |rows| then None
    else if p(rows[k]) then Some(k)
    else FirstIndexFrom(rows, p, k + 1)
  }

  /** A count of exactly one means one matching row and no other: a duplicate
      row makes the count at least two. */
  lemma {:induction false} CountIsOne<T>(rows: seq<T>, p: T -> bool)
    ensures Count(rows, p) == 1 <==>
      exists i :: 0 <= i < |rows| && p(rows[i]) && forall j :: 0 <= j < |rows| && p(rows[j]) ==> j == i
  {
    if rows != [] {
      var tail := rows[1..];
      CountIsOne(tail, p);
      if Count(rows, p) == 1 {
        if p(rows[0]) {
          assert Count(tail, p) == 0;
          assert forall j :: 0 <= j < |rows| && p(rows[j]) ==> j == 0 by {
            forall j | 0 < j < |rows| ensures !p(rows[j]) { assert rows[j] == tail[j - 1]; }
          }
        } else {
          var i :| 0 <= i < |tail| && p(tail[i]) && forall j :: 0 <= j < |tail| && p(tail[j]) ==> j == i;
          assert p(rows[i + 1]);
          forall j | 0 <= j < |rows| && p(rows[j]) ensures j == i + 1 {
            assert j != 0;
            assert tail[j - 1] == rows[j];
          }
        }
      }
      if exists i :: 0 <= i < |rows| && p(rows[i]) && forall j :: 0 <= j < |rows| && p(rows[j]) ==> j == i {
        var i :| 0 <= i < |rows| && p(rows[i]) && forall j :: 0 <= j < |rows| && p(rows[j]) ==> j == i;
        if i == 0 {
          forall j | 0 <= j < |tail| ensures !p(tail[j]) { assert tail[j] == rows[j + 1]; }
        } else {
          assert tail[i - 1] == rows[i];
          forall j | 0 <= j < |tail| && p(tail[j]) ensures j == i - 1 { assert tail[j] == rows[j + 1]; }
        }
      }
    }
  }

  /** A query whose condition does not tell two tables apart row by row finds the
      same first position in both. */
  lemma FirstIndexAgrees<T>(rows: seq<T>, rows': seq<T>, p: T -> bool)
    requires |rows| == |rows'|
    requires forall i :: 0 <= i < |rows| ==> p(rows[i]) == p(rows'[i])
    ensures FirstIndex(rows, p) == FirstIndex(rows', p)
  {
  }

  /** The same for a count. */
  lemma {:induction false} CountAgrees<T>(rows: seq<T>, rows': seq<T>, p: T -> bool)
    requires |rows| == |rows'|
    requires forall i :: 0 <= i < |rows| ==> p(rows[i]) == p(rows'[i])
    ensures Count(rows, p) == Count(rows', p)
  {
    if rows != [] {
      assert forall i :: 0 <= i < |rows| - 1 ==> rows[1..][i] == rows[i + 1] && rows'[1..][i] == rows'[i + 1];
      CountAgrees(rows[1..], rows'[1..], p);
    }
  }
}
