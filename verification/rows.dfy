/**
 The table operations the account handlers issue against the object-relational
 mapper, over a table held as a sequence of rows:
 - `Get`    is `.objects.get(...)`: no row, exactly one row, or several rows;
 - `First`  is `.objects.filter(...).first()`: the first matching row by
   position (the least key when the table is kept in key order; see
   `Accounts.FirstIsLeastId`);
 - `Delete` is `.objects.filter(...).delete()`: every matching row removed;
 - `RemoveAt` is `instance.delete()` on one row already looked up.
 A filter is a predicate on rows; callers build it with a named function so
 that the same term appears in a handler and in its contract.
 */
module Rows {

  datatype Option<+T> = None | Some(value: T)

  /** The three ways `.get()` can end: `DoesNotExist`, one row, `MultipleObjectsReturned`. */
  datatype Lookup = Missing | Unique(index: nat) | Several

  /** No row of `rows` satisfies `p`. */
  ghost predicate NoMatch<T>(rows: seq<T>, p: T -> bool)
  {
    forall i :: 0 <= i < |rows| ==> !p(rows[i])
  }

  /** At least two rows satisfy `p`: the case in which `.get()` raises `MultipleObjectsReturned`. */
  ghost predicate TwoMatches<T>(rows: seq<T>, p: T -> bool)
  {
    exists a, b :: 0 <= a < b < |rows| && p(rows[a]) && p(rows[b])
  }

  /** Row `k` is the one and only row satisfying `p`. */
  ghost predicate IsOnlyMatch<T>(rows: seq<T>, p: T -> bool, k: int)
  {
    && 0 <= k < |rows|
    && p(rows[k])
    && forall j :: 0 <= j < |rows| && j != k ==> !p(rows[j])
  }

  /** Row `k` satisfies `p` and no row before it does. */
  ghost predicate IsFirstMatch<T>(rows: seq<T>, p: T -> bool, k: int)
  {
    && 0 <= k < |rows|
    && p(rows[k])
    && forall j :: 0 <= j < k ==> !p(rows[j])
  }

  /** Position of the first row at or after `from` that satisfies `p`; `|rows|` when there is none. */
  function IndexFrom<T>(rows: seq<T>, p: T -> bool, from: nat): (r: nat)
    requires from <= |rows|
    ensures from <= r <= |rows|
    ensures r < |rows| ==> p(rows[r])
    ensures forall j :: from <= j < r ==> !p(rows[j])
    decreases |rows| - from
  {
    if from == |rows| then |rows|
    else if p(rows[from]) then from
    else IndexFrom(rows, p, from + 1)
  }

  /** `.get()`: succeeds only when exactly one row matches. */
  function Get<T>(rows: seq<T>, p: T -> bool): (r: Lookup)
    ensures r.Missing? <==> NoMatch(rows, p)
    ensures r.Unique? ==> IsOnlyMatch(rows, p, r.index)
    ensures r.Several? <==> TwoMatches(rows, p)
    ensures forall k :: IsOnlyMatch(rows, p, k) ==> r == Unique(k)
  {
    var i := IndexFrom(rows, p, 0);
    if i == |rows| then Missing
    else
      var j := IndexFrom(rows, p, i + 1);
      if j == |rows| then Unique(i) else Several
  }

  /**
   `.filter().first()`: the first matching row by position, if any (the least
   key when the table is kept in key order; see `Accounts.FirstIsLeastId`).
   */
  function First<T>(rows: seq<T>, p: T -> bool): (r: Option<nat>)
    ensures r.None? <==> NoMatch(rows, p)
    ensures r.Some? ==> IsFirstMatch(rows, p, r.value)
    ensures forall k :: IsFirstMatch(rows, p, k) ==> r == Some(k)
  {
    var i := IndexFrom(rows, p, 0);
    if i == |rows| then None else Some(i)
  }

  /** `.filter().delete()`: removes every row satisfying `p` and keeps every other row, as often as it occurred. */
  function Delete<T(!new)>(rows: seq<T>, p: T -> bool): (r: seq<T>)
    ensures forall x :: x in r <==> x in rows && !p(x)
    ensures forall x :: !p(x) ==> multiset(r)[x] == multiset(rows)[x]
    ensures |r| <= |rows|
    decreases |rows|
  {
    if |rows| == 0 then []
    else
      assert rows == [rows[0]] + rows[1..];
      (if p(rows[0]) then [] else [rows[0]]) + Delete(rows[1..], p)
  }

  /** Deleting one looked-up row: the row at position `k` goes, the others keep their order. */
  function RemoveAt<T>(rows: seq<T>, k: nat): (r: seq<T>)
    requires k < |rows|
    ensures |r| == |rows| - 1
    ensures multiset(r) == multiset(rows) - multiset{rows[k]}
    ensures forall j :: 0 <= j < k ==> r[j] == rows[j]
    ensures forall j :: k <= j < |r| ==> r[j] == rows[j + 1]
  {
    assert rows == rows[..k] + [rows[k]] + rows[k + 1..];
    rows[..k] + rows[k + 1..]
  }

  /** Deleting by a filter leaves no row that satisfies it, and deleting again changes nothing. */
  lemma {:induction false} DeleteIdempotent<T(!new)>(rows: seq<T>, p: T -> bool)
    ensures NoMatch(Delete(rows, p), p)
    ensures Delete(Delete(rows, p), p) == Delete(rows, p)
    decreases |rows|
  {
    if |rows| > 0 {
      DeleteIdempotent(rows[1..], p);
      var tail := Delete(rows[1..], p);
      if p(rows[0]) {
        assert Delete(rows, p) == tail;
      } else {
        var d := [rows[0]] + tail;
        assert Delete(rows, p) == d;
        assert d[1..] == tail;
        assert Delete(d, p) == [rows[0]] + Delete(tail, p);
      }
    }
  }
}
