/**
  Calendar items as the renderer sees them, and the in-place ordering that
  `changeMsg` applies to them with `sort.Slice` before building the schedule.
  Instants are integers (nanoseconds on a common time line), so the source's
  `Before` comparison is `<` here.
*/
module Schedule {

  /** One calendar event: its summary, start instant and end instant. */
  datatype Item = Item(summary: string, start: int, end: int)

  /** Non-decreasing by start instant. */
  predicate SortedByStart(s: seq<Item>) {
    forall p, q :: 0 <= p < q < |s| ==> s[p].start <= s[q].start
  }

  /** Items that share a start instant also share their end instant. */
  predicate TiesAgreeOnEnd(s: seq<Item>) {
    forall p, q :: 0 <= p < |s| && 0 <= q < |s| && s[p].start == s[q].start ==> s[p].end == s[q].end
  }

  /**
    Sorts the items in place by start instant, as `sort.Slice` with the
    `Before` comparison does. Like `sort.Slice`, nothing is promised about
    the relative order of items with equal starts.
  */
  method SortByStart(a: array<Item>)
    modifies a
    ensures SortedByStart(a[..])
    ensures multiset(a[..]) == multiset(old(a[..]))
  {
    var i := 0;
    while i < a.Length
      invariant 0 <= i <= a.Length
      invariant SortedByStart(a[..i])
      invariant multiset(a[..]) == multiset(old(a[..]))
    {
      InsertAt(a, i);
      i := i + 1;
    }
    assert a[..a.Length] == a[..];
  }

  /** One pass of the insertion: moves `a[i]` left past every larger start. */
  method InsertAt(a: array<Item>, i: nat)
    requires i < a.Length
    requires SortedByStart(a[..i])
    modifies a
    ensures SortedByStart(a[..i + 1])
    ensures multiset(a[..]) == multiset(old(a[..]))
  {
    var j := i;
    while 0 < j && a[j].start < a[j - 1].start
      invariant 0 <= j <= i
      invariant forall p, q :: 0 <= p < q <= i && p != j && q != j ==> a[p].start <= a[q].start
      invariant forall q :: j < q <= i ==> a[j].start <= a[q].start
      invariant multiset(a[..]) == multiset(old(a[..]))
    {
      SwapDown(a, j);
      j := j - 1;
    }
  }

  /** Exchanges `a[j - 1]` and `a[j]`. */
  method SwapDown(a: array<Item>, j: nat)
    requires 0 < j < a.Length
    modifies a
    ensures a[j - 1] == old(a[j]) && a[j] == old(a[j - 1])
    ensures forall k :: 0 <= k < a.Length && k != j - 1 && k != j ==> a[k] == old(a[k])
    ensures multiset(a[..]) == multiset(old(a[..]))
  {
    a[j - 1], a[j] := a[j], a[j - 1];
  }

  /**
    Any two orderings of the same items that are both sorted by start show
    the same start instant at every position: the order of the start
    instants does not depend on the order the items arrived in.
  */
  lemma {:induction false} SortedStartsAgree(s: seq<Item>, t: seq<Item>)
    requires SortedByStart(s) && SortedByStart(t)
    requires multiset(s) == multiset(t)
    ensures |s| == |t|
    ensures forall k :: 0 <= k < |s| ==> s[k].start == t[k].start
    decreases |s|
  {
    assert |s| == |multiset(s)| == |multiset(t)| == |t|;
    if |s| > 0 {
      var j := FirstPlacedAt(s, t);
      var t' := Without(t, j);
      assert s == [s[0]] + s[1..];
      assert multiset(s[1..]) == multiset(s) - multiset{s[0]};
      SortedStartsAgree(s[1..], t');
      forall k | 0 < k < |s|
        ensures s[k].start == t[k].start
      {
        assert s[k] == s[1..][k - 1];
        if k - 1 < j {
          assert t[0].start <= t[k - 1].start <= t[k].start <= t[j].start;
        }
      }
    }
  }

  /** `t` with the element at index `j` taken out. */
  function Without(t: seq<Item>, j: nat): (r: seq<Item>)
    requires j < |t|
    ensures |r| == |t| - 1
    ensures forall k :: 0 <= k < |r| ==> r[k] == (if k < j then t[k] else t[k + 1])
    ensures multiset(r) == multiset(t) - multiset{t[j]}
    ensures SortedByStart(t) ==> SortedByStart(r)
  {
    assert t == t[..j] + [t[j]] + t[j + 1..];
    t[..j] + t[j + 1..]
  }

  /**
    For two sorted orderings of the same non-empty items: an index at which
    `t` holds the first item of `s`; both first items share their start.
  */
  lemma FirstPlacedAt(s: seq<Item>, t: seq<Item>) returns (j: nat)
    requires SortedByStart(s) && SortedByStart(t)
    requires multiset(s) == multiset(t) && |s| > 0
    ensures j < |t| && t[j] == s[0]
    ensures t[0].start == s[0].start
  {
    assert s[0] in multiset(t);
    j :| 0 <= j < |t| && t[j] == s[0];
    assert t[0] in multiset(s);
    var i :| 0 <= i < |s| && s[i] == t[0];
  }

  /**
    Two sorted orderings of the same items are position-by-position equal in
    start and end, provided items with the same start also have the same end.
  */
  lemma SortedSlotsAgree(s: seq<Item>, t: seq<Item>)
    requires SortedByStart(s) && SortedByStart(t)
    requires multiset(s) == multiset(t)
    requires TiesAgreeOnEnd(s)
    ensures |s| == |t|
    ensures forall k :: 0 <= k < |s| ==> s[k].start == t[k].start && s[k].end == t[k].end
  {
    SortedStartsAgree(s, t);
    forall k | 0 <= k < |s|
      ensures s[k].end == t[k].end
    {
      assert t[k] in multiset(s);
      var m :| 0 <= m < |s| && s[m] == t[k];
    }
  }
}
