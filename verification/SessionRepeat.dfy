/** Aggregating sessions again changes nothing. */
module SessionRepeat {
  import Sorting
  import opened EventSessions

  predicate SameSortKey(a: Event, b: Event) {
    SameKey(a, b) && a.start == b.start && a.id == b.id
  }

  // ----- one merged session

  lemma MinStartIsFirst(g: seq<Event>)
    requires g != [] && forall i :: 0 <= i < |g| ==> g[0].start <= g[i].start
    ensures MinStart(g) == g[0].start
  {
    var i := StartIsLeast(g);
  }

  /** A session ends no later than one of its events. */
  lemma MergedEnd(g: seq<Event>) returns (i: nat)
    requires g != []
    ensures i < |g| && EndOf(Merge(g)) <= EndOf(g[i])
  {
    i := EndIsGreatest(g);
    var first := StartIsLeast(g);
  }

  lemma MergeOfOne(e: Event)
    requires e.triggered.Some?
    ensures Merge([e]) == e
  {
    assert AnyTrigger([e]) <==> DidTrigger([e][0]);
    assert AllEligible([e]) <==> [e][0].eligible;
  }

  // ----- the merged list as the input of a second pass

  predicate SplitsAt(m: seq<Event>, k: int, gapMs: int)
    requires 0 < k < |m|
  {
    Splits(m[..k], m[k], gapMs)
  }

  predicate Origin(s: seq<Event>, e: Event) {
    exists i :: 0 <= i < |s| && SameSortKey(e, s[i])
  }

  /** Every merged event splits from the ones before, in the same order, no later than the input. */
  ghost predicate Settled(s: seq<Event>, m: seq<Event>, gapMs: int) {
    && PreviousEnd(m) <= PreviousEnd(s)
    && (forall k :: 0 < k < |m| ==> SplitsAt(m, k, gapMs))
    && Sorting.SortedBy(m, EventLe)
    && (forall k :: 0 <= k < |m| ==> Origin(s, m[k]) && m[k].triggered.Some?)
  }

  lemma OriginGrows(s: seq<Event>, e: Event, x: Event)
    requires Origin(s, x)
    ensures Origin(s + [e], x)
  {
    var i :| 0 <= i < |s| && SameSortKey(x, s[i]);
    assert SameSortKey(x, (s + [e])[i]);
  }

  lemma SplitsAtPrefix(m: seq<Event>, x: Event, k: int, gapMs: int)
    requires 0 < k < |m|
    ensures SplitsAt(m + [x], k, gapMs) <==> SplitsAt(m, k, gapMs)
  {
    assert (m + [x])[..k] == m[..k];
  }

  lemma Opens(s: seq<Event>, m: seq<Event>, e: Event, x: Event, gapMs: int)
    requires Settled(s, m, gapMs) && Sorting.SortedBy(s + [e], EventLe)
    requires SameSortKey(x, e) && x.triggered.Some? && EndOf(x) <= EndOf(e)
    requires m == [] || Splits(m, x, gapMs)
    ensures Settled(s + [e], m + [x], gapMs)
  {
    var s', m' := s + [e], m + [x];
    PreviousEndStep(s, e);
    PreviousEndStep(m, x);
    assert m'[..|m|] == m && s'[|s|] == e;
    assert SameSortKey(x, s'[|s|]);
    forall k | 0 < k < |m'| ensures SplitsAt(m', k, gapMs) {
      if k < |m| { SplitsAtPrefix(m, x, k, gapMs); }
    }
    forall k | 0 <= k < |m| ensures Origin(s', m[k]) && EventLe(m[k], x) {
      OriginGrows(s, e, m[k]);
      var i :| 0 <= i < |s| && SameSortKey(m[k], s[i]);
      assert EventLe(s'[i], s'[|s|]);
    }
  }

  lemma Grows(s: seq<Event>, p: seq<Event>, x: Event, e: Event, y: Event, gapMs: int)
    requires Settled(s, p + [x], gapMs) && SameSortKey(x, y) && y.triggered.Some?
    requires EndOf(y) <= PreviousEnd(s + [e])
    ensures Settled(s + [e], p + [y], gapMs)
  {
    var s', m, m' := s + [e], p + [x], p + [y];
    PreviousEndStep(s, e);
    PreviousEndStep(p, x);
    PreviousEndStep(p, y);
    assert m[|p|] == x && m'[|p|] == y && m[..|p|] == p == m'[..|p|];
    forall k | 0 < k < |m'| ensures SplitsAt(m', k, gapMs) {
      SplitsAtSame(p, x, y, k, gapMs);
    }
    forall k | 0 <= k < |m'| ensures Origin(s', m'[k]) {
      OriginGrows(s, e, m[k]);
      if k == |p| { OriginSame(s', x, y); }
    }
    SortedSame(p, x, y);
  }

  lemma SplitsAtSame(p: seq<Event>, x: Event, y: Event, k: int, gapMs: int)
    requires SameSortKey(x, y) && 0 < k <= |p| && SplitsAt(p + [x], k, gapMs)
    ensures SplitsAt(p + [y], k, gapMs)
  {
    assert (p + [x])[..k] == (p + [y])[..k];
  }

  lemma OriginSame(s: seq<Event>, x: Event, y: Event)
    requires SameSortKey(x, y) && Origin(s, x)
    ensures Origin(s, y)
  {
    var i :| 0 <= i < |s| && SameSortKey(x, s[i]);
    assert SameSortKey(y, s[i]);
  }

  lemma SortedSame(p: seq<Event>, x: Event, y: Event)
    requires SameSortKey(x, y) && Sorting.SortedBy(p + [x], EventLe)
    ensures Sorting.SortedBy(p + [y], EventLe)
  {
    var m, m' := p + [x], p + [y];
    forall i, j | 0 <= i < j < |m'| ensures EventLe(m'[i], m'[j]) {
      assert EventLe(m[i], m[j]);
    }
  }

  lemma SortedOneKey(s: seq<Event>, i: nat, j: nat)
    requires Sorting.SortedBy(s, EventLe) && i <= j < |s| && SameKey(s[i], s[j])
    ensures s[i].start <= s[j].start
  {
    if i < j { assert EventLe(s[i], s[j]); }
  }

  /** The open session starts with its first event. */
  lemma CurrentStart(s: seq<Event>, scan: Scan)
    requires s != [] && Partition(s, scan) && Sorting.SortedBy(s, EventLe)
    ensures scan.current != [] && MinStart(scan.current) == scan.current[0].start
  {
    var g, n := scan.current, |Flatten(scan.closed)|;
    forall i | 0 <= i < |g| ensures g[0].start <= g[i].start {
      assert g[0] == s[n] && g[i] == s[n + i] && SameKey(g[0], g[i]);
      SortedOneKey(s, n, n + i);
    }
    MinStartIsFirst(g);
  }

  lemma CurrentEnd(s: seq<Event>, scan: Scan)
    requires s != [] && Partition(s, scan)
    ensures scan.current != [] && EndOf(Merge(scan.current)) <= PreviousEnd(s)
  {
    var i := MergedEnd(scan.current);
    var n := |Flatten(scan.closed)|;
    assert scan.current[i] == s[n + i];
    EndsBounded(s, n + i);
  }

  function Merged(s: seq<Event>, gapMs: int): seq<Event> {
    MergeAll(Sessions(s, gapMs))
  }

  lemma MergedForm(s: seq<Event>, gapMs: int)
    requires s != []
    ensures Merged(s, gapMs) == MergeAll(ScanAll(s, gapMs).closed) + [Merge(ScanAll(s, gapMs).current)]
  {
    MergeAllStep(ScanAll(s, gapMs).closed, ScanAll(s, gapMs).current);
  }

  lemma SettledStep(s: seq<Event>, e: Event, gapMs: int)
    requires Sorting.SortedBy(s + [e], EventLe) && Settled(s, Merged(s, gapMs), gapMs)
    ensures Settled(s + [e], Merged(s + [e], gapMs), gapMs)
  {
    var s', scan, m := s + [e], ScanAll(s, gapMs), Merged(s, gapMs);
    assert forall i :: 0 <= i < |s| ==> s'[i] == s[i];
    ScanStep(s, e, gapMs);
    MergedForm(s', gapMs);
    ScanPartitions(s', gapMs);
    CurrentStart(s', ScanAll(s', gapMs));
    CurrentEnd(s', ScanAll(s', gapMs));
    if s == [] {
      Opens(s, m, e, Merge([e]), gapMs);
    } else {
      MergedForm(s, gapMs);
      ScanPartitions(s, gapMs);
      CurrentStart(s, scan);
      var last := scan.current[|scan.current| - 1];
      assert SameKey(scan.current[0], last);
      if Splits(s, e, gapMs) {
        Opens(s, m, e, Merge([e]), gapMs);
      } else {
        Grows(s, MergeAll(scan.closed), Merge(scan.current), e, Merge(scan.current + [e]), gapMs);
      }
    }
  }

  lemma {:induction false} MergedSettled(s: seq<Event>, gapMs: int)
    requires Sorting.SortedBy(s, EventLe)
    ensures Settled(s, Merged(s, gapMs), gapMs)
  {
    if s != [] {
      var front := s[..|s| - 1];
      assert s == front + [s[|s| - 1]];
      MergedSettled(front, gapMs);
      SettledStep(front, s[|s| - 1], gapMs);
    }
  }

  /** Where every event splits, every session is a single event. */
  lemma {:induction false} AllSplit(m: seq<Event>, gapMs: int, k: nat)
    requires k <= |m| && (forall i :: 0 < i < |m| ==> SplitsAt(m, i, gapMs))
    requires forall i :: 0 <= i < |m| ==> m[i].triggered.Some?
    ensures Merged(m[..k], gapMs) == m[..k]
  {
    if k > 0 {
      var front, e := m[..k - 1], m[k - 1];
      assert m[..k] == front + [e];
      AllSplit(m, gapMs, k - 1);
      ScanStep(front, e, gapMs);
      MergedForm(m[..k], gapMs);
      MergeOfOne(e);
      if k > 1 {
        assert SplitsAt(m, k - 1, gapMs);
        MergedForm(front, gapMs);
        MergeAllStep(ScanAll(front, gapMs).closed, ScanAll(front, gapMs).current);
      }
    }
  }

  /** `aggregate_events` is idempotent on every input. */
  lemma AggregateTwice(events: seq<Event>, gapMs: int)
    ensures Aggregate(Aggregate(events, gapMs), gapMs) == Aggregate(events, gapMs)
  {
    var ordered := Sorting.Sort(events, EventLe);
    EventOrder();
    Sorting.SortSorts(events, EventLe);
    MergedSettled(ordered, gapMs);
    var m := Merged(ordered, gapMs);
    Sorting.SortOfSorted(m, EventLe);
    AllSplit(m, gapMs, |m|);
    assert m[..|m|] == m;
  }
}
