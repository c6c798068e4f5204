/** When sessions split, and when they do not. */
module SessionGaps {
  import opened Options
  import Sorting
  import opened EventSessions

  /** Every end is at least the `-1` the loop starts from; so it is for events that start at or after
      zero and whose end is zero or at least their start. */
  predicate NormalEnds(s: seq<Event>) {
    forall i :: 0 <= i < |s| ==> if s[i].end == 0 then s[i].start >= -1 else s[i].end >= -1
  }

  lemma {:induction false} PreviousEndAttained(s: seq<Event>) returns (m: nat)
    requires s != [] && NormalEnds(s)
    ensures m < |s| && EndOf(s[m]) == PreviousEnd(s)
  {
    var front := s[..|s| - 1];
    if front == [] || PreviousEnd(front) < EndOf(s[|s| - 1]) {
      m := |s| - 1;
    } else {
      m := PreviousEndAttained(front);
    }
  }

  /** Between events of one key, a split happens exactly when every earlier event of the sorted input,
      of whatever key, ended more than the gap before. */
  lemma SplitsIff(s: seq<Event>, e: Event, gapMs: int)
    requires s != [] && NormalEnds(s) && SameKey(s[|s| - 1], e)
    ensures Splits(s, e, gapMs) <==> FarBehind(s, e, gapMs)
  {
    forall i | 0 <= i < |s| ensures EndOf(s[i]) <= PreviousEnd(s) { EndsBounded(s, i); }
    var m := PreviousEndAttained(s);
    assert FarBehind(s, e, gapMs) ==> e.start - EndOf(s[m]) > gapMs * MS;
  }

  function Next(scan: Scan, k: nat): seq<Event> {
    if k + 1 < |scan.closed| then scan.closed[k + 1] else scan.current
  }

  /** A closed session is far behind the next one of its key. */
  predicate GapsReal(scan: Scan, gapMs: int) {
    forall k :: 0 <= k < |scan.closed| ==>
      scan.closed[k] != [] && Next(scan, k) != []
      && (SameKey(scan.closed[k][0], Next(scan, k)[0]) ==> FarBehind(scan.closed[k], Next(scan, k)[0], gapMs))
  }

  lemma SplitIsFar(s: seq<Event>, e: Event, gapMs: int)
    requires s != [] && Splits(s, e, gapMs) && SameKey(s[|s| - 1], e)
    ensures FarBehind(s, e, gapMs)
  {
    forall i | 0 <= i < |s| ensures e.start - EndOf(s[i]) > gapMs * MS { EndsBounded(s, i); }
  }

  lemma CurrentIsFar(s: seq<Event>, scan: Scan, e: Event, gapMs: int)
    requires Partition(s, scan) && FarBehind(s, e, gapMs)
    ensures FarBehind(scan.current, e, gapMs)
  {
    var n := |Flatten(scan.closed)|;
    assert forall i :: 0 <= i < |scan.current| ==> scan.current[i] == s[n + i];
  }

  lemma GapsRealStep(s: seq<Event>, e: Event, gapMs: int)
    requires GapsReal(ScanAll(s, gapMs), gapMs)
    ensures GapsReal(ScanAll(s + [e], gapMs), gapMs)
  {
    ScanStep(s, e, gapMs);
    if s != [] {
      ScanPartitions(s, gapMs);
      var scan := ScanAll(s, gapMs);
      if Splits(s, e, gapMs) && SameKey(scan.current[0], e) {
        assert SameKey(scan.current[0], scan.current[|scan.current| - 1]);
        SplitIsFar(s, e, gapMs);
        CurrentIsFar(s, scan, e, gapMs);
      }
    }
  }

  lemma {:induction false} ScanGapsReal(s: seq<Event>, gapMs: int)
    ensures GapsReal(ScanAll(s, gapMs), gapMs)
  {
    if s != [] {
      ScanGapsReal(s[..|s| - 1], gapMs);
      GapsRealStep(s[..|s| - 1], s[|s| - 1], gapMs);
      assert s == s[..|s| - 1] + [s[|s| - 1]];
    }
  }

  /** Two successive sessions of one key are separated by a real gap, whatever the other keys. */
  lemma SplitOnlyAcrossRealGap(s: seq<Event>, gapMs: int, k: nat)
    requires k + 1 < |Sessions(s, gapMs)| && SameKey(Sessions(s, gapMs)[k][0], Sessions(s, gapMs)[k + 1][0])
    ensures FarBehind(Sessions(s, gapMs)[k], Sessions(s, gapMs)[k + 1][0], gapMs)
  {
    ScanGapsReal(s, gapMs);
    assert Next(ScanAll(s, gapMs), k) == Sessions(s, gapMs)[k + 1];
  }

  // ----- single key: exactly the maximal gap-connected runs

  predicate InOrder(s: seq<Event>) {
    forall i, j :: 0 <= i < j < |s| ==> s[i].start <= s[j].start
  }

  lemma OneKeyInOrder(s: seq<Event>)
    requires OneKey(s) && Sorting.SortedBy(s, EventLe)
    ensures InOrder(s)
  {
    forall i, j | 0 <= i < j < |s| ensures s[i].start <= s[j].start {
      assert SameKey(s[i], s[j]) && EventLe(s[i], s[j]);
    }
  }

  predicate Near(e: Event, earlier: Event, gapMs: int) {
    Pause(earlier, e) <= gapMs * 1_000_000
  }

  /** Each event is within the gap of an earlier one of the same run. */
  predicate Linked(g: seq<Event>, gapMs: int) {
    forall i :: 0 < i < |g| ==> LinkedAt(g, i, gapMs)
  }

  predicate LinkedAt(g: seq<Event>, i: int, gapMs: int)
    requires 0 < i < |g|
  {
    exists j :: 0 <= j < i && Near(g[i], g[j], gapMs)
  }

  /** No event of `h` is within the gap of one of `g`. */
  predicate FarApart(g: seq<Event>, h: seq<Event>, gapMs: int) {
    forall i, j :: 0 <= i < |g| && 0 <= j < |h| ==> !Near(h[j], g[i], gapMs)
  }

  lemma LinkedStep(g: seq<Event>, e: Event, gapMs: int, m: nat)
    requires Linked(g, gapMs) && m < |g| && Near(e, g[m], gapMs)
    ensures Linked(g + [e], gapMs)
  {
    var g' := g + [e];
    forall i | 0 < i < |g'| ensures LinkedAt(g', i, gapMs) {
      if i < |g| {
        assert LinkedAt(g, i, gapMs);
        var j :| 0 <= j < i && Near(g[i], g[j], gapMs);
        assert Near(g'[i], g'[j], gapMs);
      } else {
        assert Near(g'[i], g'[m], gapMs);
      }
    }
  }

  /** Runs linked inside, pairwise far apart. */
  predicate Maximal(groups: seq<seq<Event>>, gapMs: int) {
    && (forall k :: 0 <= k < |groups| ==> Linked(groups[k], gapMs))
    && (forall j, k :: 0 <= j < k < |groups| ==> FarApart(groups[j], groups[k], gapMs))
  }

  lemma {:induction false} InFlatten(groups: seq<seq<Event>>, j: nat, a: nat) returns (i: nat)
    requires j < |groups| && a < |groups[j]|
    ensures i < |Flatten(groups)| && Flatten(groups)[i] == groups[j][a]
  {
    var front := groups[..|groups| - 1];
    if j == |groups| - 1 {
      i := |Flatten(front)| + a;
    } else {
      i := InFlatten(front, j, a);
    }
  }

  lemma {:induction false} OfFlatten(groups: seq<seq<Event>>, i: nat) returns (j: nat, a: nat)
    requires i < |Flatten(groups)|
    ensures j < |groups| && a < |groups[j]| && groups[j][a] == Flatten(groups)[i]
  {
    var front := groups[..|groups| - 1];
    if i < |Flatten(front)| {
      j, a := OfFlatten(front, i);
    } else {
      j, a := |groups| - 1, i - |Flatten(front)|;
    }
  }

  /** A new run that starts far behind all events so far. */
  lemma RunOpens(groups: seq<seq<Event>>, e: Event, gapMs: int)
    requires Maximal(groups, gapMs) && FarBehind(Flatten(groups), e, gapMs)
    ensures Maximal(groups + [[e]], gapMs)
  {
    forall j | 0 <= j < |groups| ensures FarApart(groups[j], [e], gapMs) {
      forall a | 0 <= a < |groups[j]| ensures !Near(e, groups[j][a], gapMs) {
        var i := InFlatten(groups, j, a);
      }
    }
  }

  /** The last run takes in an event that is near one of its own and starts no earlier. */
  lemma RunGrows(groups: seq<seq<Event>>, g: seq<Event>, e: Event, gapMs: int, m: nat)
    requires Maximal(groups + [g], gapMs) && g != [] && g[0].start <= e.start && m < |g| && Near(e, g[m], gapMs)
    ensures Maximal(groups + [g + [e]], gapMs)
  {
    assert (groups + [g])[|groups|] == g;
    LinkedStep(g, e, gapMs, m);
    forall j | 0 <= j < |groups| ensures FarApart(groups[j], g + [e], gapMs) {
      assert FarApart((groups + [g])[j], g, gapMs);
      forall a, b | 0 <= a < |groups[j]| && 0 <= b < |g + [e]| ensures !Near((g + [e])[b], groups[j][a], gapMs) {
        assert !Near(g[if b < |g| then b else 0], groups[j][a], gapMs);
      }
    }
    forall k | 0 <= k < |groups| ensures Linked(groups[k], gapMs) {
      assert Linked((groups + [g])[k], gapMs);
    }
    forall j, k | 0 <= j < k < |groups| ensures FarApart(groups[j], groups[k], gapMs) {
      assert FarApart((groups + [g])[j], (groups + [g])[k], gapMs);
    }
  }

  /** An event near some earlier one, but far from all closed runs, is near the open run. */
  lemma NearCurrent(closed: seq<seq<Event>>, current: seq<Event>, e: Event, gapMs: int, m: nat) returns (c: nat)
    requires Maximal(closed + [current], gapMs) && current != [] && current[0].start <= e.start
    requires m < |Flatten(closed) + current| && Near(e, (Flatten(closed) + current)[m], gapMs)
    ensures c < |current| && Near(e, current[c], gapMs)
  {
    var n := |Flatten(closed)|;
    forall i | 0 <= i < n ensures !Near(e, Flatten(closed)[i], gapMs) {
      var j, a := OfFlatten(closed, i);
      assert FarApart((closed + [current])[j], (closed + [current])[|closed|], gapMs);
      assert !Near(current[0], closed[j][a], gapMs);
    }
    c := m - n;
  }

  lemma MaximalStep(s: seq<Event>, e: Event, gapMs: int)
    requires InOrder(s + [e]) && OneKey(s + [e]) && NormalEnds(s) && Maximal(Sessions(s, gapMs), gapMs)
    ensures Maximal(Sessions(s + [e], gapMs), gapMs)
  {
    ScanStep(s, e, gapMs);
    if s != [] {
      ScanPartitions(s, gapMs);
      var s', scan := s + [e], ScanAll(s, gapMs);
      assert s'[|s| - 1] == s[|s| - 1] && s'[|s|] == e && SameKey(s'[|s| - 1], s'[|s|]);
      SessionsPartition(s, gapMs);
      if Splits(s, e, gapMs) {
        SplitIsFar(s, e, gapMs);
        RunOpens(Sessions(s, gapMs), e, gapMs);
      } else {
        var m := PreviousEndAttained(s);
        var n := |Flatten(scan.closed)|;
        assert s'[n] == scan.current[0] && s'[n].start <= s'[|s|].start;
        var c := NearCurrent(scan.closed, scan.current, e, gapMs, m);
        RunGrows(scan.closed, scan.current, e, gapMs, c);
      }
    }
  }

  lemma {:induction false} OrderedSessionsMaximal(s: seq<Event>, gapMs: int)
    requires InOrder(s) && OneKey(s) && NormalEnds(s)
    ensures Maximal(Sessions(s, gapMs), gapMs)
  {
    if s != [] {
      var front := s[..|s| - 1];
      assert s == front + [s[|s| - 1]];
      OrderedSessionsMaximal(front, gapMs);
      MaximalStep(front, s[|s| - 1], gapMs);
    }
  }

  /** For sorted events of one key the sessions are exactly the maximal gap-connected runs: inside a
      session every event is within the gap of an earlier one, and across sessions none ever is. */
  lemma SingleKeySessions(s: seq<Event>, gapMs: int)
    requires Sorting.SortedBy(s, EventLe) && OneKey(s) && NormalEnds(s)
    ensures Maximal(Sessions(s, gapMs), gapMs) && Flatten(Sessions(s, gapMs)) == s
  {
    OneKeyInOrder(s);
    OrderedSessionsMaximal(s, gapMs);
    SessionsPartition(s, gapMs);
  }

  // ----- several keys: a real gap need not split

  function Sample(id: string, camera: string, start: int, end: int): Event {
    Event(id, camera, "t", "x", "x", 0.0, true, None, 0.0, start, end)
  }

  /** A long event of camera `a` keeps two events of camera `b`, ten milliseconds apart, in one session
      although the gap allowed is one millisecond. */
  lemma RealGapNotSplit()
    ensures var a := Sample("1", "a", 0, 1_000_000_000);
            var b, c := Sample("2", "b", 0, 1), Sample("3", "b", 10_000_000, 10_000_001);
            && Sessions([a, b, c], 1) == [[a], [b, c]]
            && SameKey(b, c) && !Near(c, b, 1)
  {
    var a, b, c := Sample("1", "a", 0, 1_000_000_000), Sample("2", "b", 0, 1), Sample("3", "b", 10_000_000, 10_000_001);
    assert [] + [a] == [a] && [a] + [b] == [a, b] && [a, b] + [c] == [a, b, c];
    assert "a"[0] != "b"[0];
    assert !SameKey(a, b);
    ScanStep([], a, 1);
    ScanStep([a], b, 1);
    assert ScanAll([a, b], 1) == Scan([[a]], [b]);
    PreviousEndStep([], a);
    PreviousEndStep([a], b);
    assert !Splits([a, b], c, 1);
    ScanStep([a, b], c, 1);
    assert ScanAll([a, b, c], 1) == Scan([[a]], [b, c]);
  }
}
