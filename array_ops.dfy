/**
 * The JavaScript array operations that the scheduler's callback list is maintained with:
 * `Array.prototype.indexOf` (first position under identity, -1 when absent) and
 * `Array.prototype.splice`, whose negative start counts from the end of the array.
 */
module ArrayOps {

  /** Concatenation is associative (stated once, so callers need not re-derive it element by element). */
  lemma AppendAssoc<T>(a: seq<T>, b: seq<T>, c: seq<T>)
    ensures a + (b + c) == (a + b) + c
  {
  }

  /** `s.indexOf(x)`: the first position of `x` in `s`, or -1 when `x` does not occur. */
  function IndexOf<T(==)>(s: seq<T>, x: T): (r: int)
    ensures -1 <= r < |s|
    ensures r == -1 <==> x !in s
    ensures 0 <= r ==> s[r] == x && x !in s[..r]
  {
    if |s| == 0 then -1
    else if s[0] == x then 0
    else
      var k := IndexOf(s[1..], x);
      assert k >= 0 ==> s[..k + 1] == [s[0]] + s[1..][..k];
      if k == -1 then -1 else k + 1
  }

  function Max(a: int, b: int): int { if a < b then b else a }

  function Min(a: int, b: int): int { if a < b then a else b }

  /**
   * What `s.splice(start, deleteCount)` leaves in the array: a negative `start` is taken
   * relative to the end (and clamped at 0), a start past the end is clamped to the length,
   * and no more than the elements that are there are deleted.
   */
  function Splice<T>(s: seq<T>, start: int, deleteCount: nat): (r: seq<T>)
    ensures |s| - deleteCount <= |r| <= |s|
    ensures 0 <= start < |s| && deleteCount == 1 ==> r == s[..start] + s[start + 1..]
    ensures start == -1 && |s| > 0 && deleteCount >= 1 ==> r == s[..|s| - 1]
  {
    var from := if start < 0 then Max(|s| + start, 0) else Min(start, |s|);
    var upto := Min(from + deleteCount, |s|);
    s[..from] + s[upto..]
  }

  /**
   * What `remove(x)` is meant to leave, stated element by element: the first occurrence of `x`
   * is taken out and the rest kept in order; when `x` does not occur at all, the last element
   * goes instead (and nothing, from an empty list).
   */
  function Remove<T(==)>(s: seq<T>, x: T): (r: seq<T>)
    ensures |r| == if |s| == 0 then 0 else |s| - 1
  {
    if |s| == 0 then []
    else if s[0] == x then s[1..]
    else if x in s then [s[0]] + Remove(s[1..], x)
    else s[..|s| - 1]
  }

  /** `splice(indexOf(x), 1)` is exactly `Remove`, for present and absent `x` alike. */
  lemma {:induction false} SpliceAtIndexOf<T>(s: seq<T>, x: T)
    ensures Splice(s, IndexOf(s, x), 1) == Remove(s, x)
  {
    if |s| == 0 {
    } else if s[0] == x {
      assert Splice(s, 0, 1) == s[..0] + s[1..];
    } else if x !in s {
      assert Splice(s, -1, 1) == s[..|s| - 1];
    } else {
      SpliceAtIndexOf(s[1..], x);
      var k := IndexOf(s[1..], x);
      assert IndexOf(s, x) == k + 1;
      assert Splice(s[1..], k, 1) == s[1..][..k] + s[1..][k + 1..];
      assert Splice(s, k + 1, 1) == s[..k + 1] + s[k + 2..];
      assert s[..k + 1] == [s[0]] + s[1..][..k];
      assert s[k + 2..] == s[1..][k + 1..];
      AppendAssoc([s[0]], s[1..][..k], s[1..][k + 1..]);
    }
  }

  /** Where `Remove` cuts: right at `indexOf(x)` when `x` is present, the last element otherwise. */
  lemma RemoveFirstOrLast<T>(s: seq<T>, x: T)
    ensures x in s ==> Remove(s, x) == s[..IndexOf(s, x)] + s[IndexOf(s, x) + 1..]
    ensures x !in s ==> Remove(s, x) == if |s| == 0 then [] else s[..|s| - 1]
  {
    SpliceAtIndexOf(s, x);
  }

  /** Removing a present element takes exactly one copy of it out of the list. */
  lemma RemovePresentIsPermutation<T>(s: seq<T>, x: T)
    requires x in s
    ensures |Remove(s, x)| == |s| - 1
    ensures multiset(Remove(s, x)) == multiset(s) - multiset{x}
  {
    RemoveFirstOrLast(s, x);
    var i := IndexOf(s, x);
    assert s == s[..i] + [x] + s[i + 1..];
    calc {
      multiset(s);
      multiset(s[..i]) + multiset{x} + multiset(s[i + 1..]);
      multiset(Remove(s, x)) + multiset{x};
    }
  }

  /** An element that occurs once is gone after one removal. */
  lemma RemoveSoleOccurrence<T>(s: seq<T>, x: T)
    requires multiset(s)[x] == 1
    ensures x !in Remove(s, x)
  {
    RemovePresentIsPermutation(s, x);
    assert multiset(Remove(s, x))[x] == 0;
  }

  /** Adding an element that was not in the list and then removing it restores the list. */
  lemma AddThenRemove<T>(s: seq<T>, x: T)
    requires x !in s
    ensures Remove(s + [x], x) == s
  {
    var t := s + [x];
    RemoveFirstOrLast(t, x);
    assert x in t && t[|s|] == x;
    var i := IndexOf(t, x);
    assert i == |s|;
    assert t[..i] == s;
  }

  /** `Remove` applied `n` times: what `n` calls of `remove(x)` do to the list. */
  function RemovedTimes<T(==)>(s: seq<T>, x: T, n: nat): seq<T> {
    if n == 0 then s else Remove(RemovedTimes(s, x, n - 1), x)
  }

  /** Removals compose: `a` removals followed by `b` removals are `a + b` removals. */
  lemma {:induction false} RemovedTimesAdd<T>(s: seq<T>, x: T, a: nat, b: nat)
    ensures RemovedTimes(RemovedTimes(s, x, a), x, b) == RemovedTimes(s, x, a + b)
  {
    if b > 0 {
      RemovedTimesAdd(s, x, a, b - 1);
    }
  }

  /** Two rounds of removals in a row, seen as one: the form in which callers chain them. */
  lemma RemovedTimesChain<T>(s0: seq<T>, s1: seq<T>, s2: seq<T>, x: T, a: nat, b: nat)
    requires s1 == RemovedTimes(s0, x, a) && s2 == RemovedTimes(s1, x, b)
    ensures s2 == RemovedTimes(s0, x, a + b)
  {
    RemovedTimesAdd(s0, x, a, b);
  }
}
