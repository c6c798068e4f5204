/** Collapsing evaluation events into sessions, and counting them. */
module EventSessions {
  import opened Options
  import Sorting

  const MS: int := 1_000_000

  datatype Event = Event(
    id: string,
    camera: string,
    track: string,
    trueLabel: string,
    predictedLabel: string,
    score: real,
    eligible: bool,
    triggered: Option<bool>,
    latencyMs: real,
    start: int,
    end: int)

  predicate DidTrigger(e: Event) {
    if e.triggered.Some? then e.triggered.value else e.predictedLabel == "smoking"
  }

  predicate SameKey(a: Event, b: Event) {
    a.camera == b.camera && a.track == b.track
  }

  /** `event.end_ns or event.start_ns`. */
  function EndOf(e: Event): int {
    if e.end != 0 then e.end else e.start
  }

  predicate Before(a: string, b: string) {
    a != b && Sorting.LexLe(a, b)
  }

  /** The sort key: camera, track, start, event id. */
  predicate EventLe(a: Event, b: Event) {
    || Before(a.camera, b.camera)
    || (a.camera == b.camera
        && (|| Before(a.track, b.track)
            || (a.track == b.track && (a.start < b.start || (a.start == b.start && Sorting.LexLe(a.id, b.id))))))
  }

  lemma BeforeTransitive(a: string, b: string, c: string)
    requires Sorting.LexLe(a, b) && Sorting.LexLe(b, c) && (a != b || b != c)
    ensures Before(a, c)
  {
    Sorting.LexTransitive(a, b, c);
    if a == c { Sorting.LexAntisymmetric(a, b); }
  }

  lemma EventLeTotal(a: Event, b: Event)
    ensures EventLe(a, b) || EventLe(b, a)
  {
    Sorting.LexTotal(a.camera, b.camera);
    Sorting.LexTotal(a.track, b.track);
    Sorting.LexTotal(a.id, b.id);
  }

  lemma EventLeTransitive(a: Event, b: Event, c: Event)
    requires EventLe(a, b) && EventLe(b, c)
    ensures EventLe(a, c)
  {
    if a.camera != b.camera || b.camera != c.camera {
      assert Sorting.LexLe(a.camera, b.camera) && Sorting.LexLe(b.camera, c.camera) by {
        Sorting.LexTotal(a.camera, a.camera);
        Sorting.LexTotal(c.camera, c.camera);
      }
      BeforeTransitive(a.camera, b.camera, c.camera);
    } else if a.track != b.track || b.track != c.track {
      assert Sorting.LexLe(a.track, b.track) && Sorting.LexLe(b.track, c.track) by {
        Sorting.LexTotal(a.track, a.track);
        Sorting.LexTotal(c.track, c.track);
      }
      BeforeTransitive(a.track, b.track, c.track);
    } else if a.start == b.start == c.start {
      Sorting.LexTransitive(a.id, b.id, c.id);
    }
  }

  lemma EventOrder()
    ensures Sorting.TotalPreorder(EventLe)
  {
    forall a, b ensures EventLe(a, b) || EventLe(b, a) { EventLeTotal(a, b); }
    forall a, b, c | EventLe(a, b) && EventLe(b, c) ensures EventLe(a, c) { EventLeTransitive(a, b, c); }
  }

  /** Sorted input: by camera, then track, then start, then id, each in the order of strings or numbers;
      the same events as before, and those alike in all four in the order they came. */
  lemma SortedInput(events: seq<Event>)
    ensures var ordered := Sorting.Sort(events, EventLe);
            && multiset(ordered) == multiset(events)
            && (forall i, j :: 0 <= i < j < |ordered| ==> KeysInOrder(ordered[i], ordered[j]))
            && (forall e :: Sorting.Alike(ordered, e, EventLe) == Sorting.Alike(events, e, EventLe))
  {
    EventOrder();
    Sorting.SortSorts(events, EventLe);
    Sorting.SortContents(events, EventLe);
    forall e ensures Sorting.Alike(Sorting.Sort(events, EventLe), e, EventLe) == Sorting.Alike(events, e, EventLe) {
      Sorting.SortIsStable(events, e, EventLe);
    }
    var ordered := Sorting.Sort(events, EventLe);
    forall i, j | 0 <= i < j < |ordered| ensures KeysInOrder(ordered[i], ordered[j]) {
      InOrderIff(ordered[i], ordered[j]);
    }
  }

  predicate KeysInOrder(a: Event, b: Event) {
    && Sorting.LexLe(a.camera, b.camera)
    && (a.camera == b.camera ==> Sorting.LexLe(a.track, b.track))
    && (a.camera == b.camera && a.track == b.track ==> a.start <= b.start)
    && (a.camera == b.camera && a.track == b.track && a.start == b.start ==> Sorting.LexLe(a.id, b.id))
  }

  lemma InOrderIff(a: Event, b: Event)
    ensures EventLe(a, b) <==> KeysInOrder(a, b)
  {
    Sorting.LexTotal(a.camera, a.camera);
    Sorting.LexTotal(a.track, a.track);
  }

  // ----- merging a session

  function MaxEnd(g: seq<Event>): int
    requires g != []
  {
    if |g| == 1 then g[0].end
    else if MaxEnd(g[..|g| - 1]) < g[|g| - 1].end then g[|g| - 1].end else MaxEnd(g[..|g| - 1])
  }

  function MinStart(g: seq<Event>): int
    requires g != []
  {
    if |g| == 1 then g[0].start
    else if g[|g| - 1].start < MinStart(g[..|g| - 1]) then g[|g| - 1].start else MinStart(g[..|g| - 1])
  }

  function MaxLatency(g: seq<Event>): real
    requires g != []
  {
    if |g| == 1 then g[0].latencyMs
    else if MaxLatency(g[..|g| - 1]) < g[|g| - 1].latencyMs then g[|g| - 1].latencyMs else MaxLatency(g[..|g| - 1])
  }

  /** The first event of the highest score. */
  function Best(g: seq<Event>): (b: nat)
    requires g != []
    ensures b < |g|
  {
    if |g| == 1 then 0
    else if g[Best(g[..|g| - 1])].score < g[|g| - 1].score then |g| - 1 else Best(g[..|g| - 1])
  }

  predicate AllEligible(g: seq<Event>) {
    forall i :: 0 <= i < |g| ==> g[i].eligible
  }

  predicate AnyTrigger(g: seq<Event>) {
    exists i :: 0 <= i < |g| && DidTrigger(g[i])
  }

  function Merge(g: seq<Event>): Event
    requires g != []
  {
    Event(g[0].id, g[0].camera, g[0].track, g[0].trueLabel, g[Best(g)].predictedLabel, g[Best(g)].score,
          AllEligible(g), Some(AnyTrigger(g)), MaxLatency(g), MinStart(g), MaxEnd(g))
  }

  function MergeAll(groups: seq<seq<Event>>): seq<Event>
    requires forall k :: 0 <= k < |groups| ==> groups[k] != []
  {
    seq(|groups|, k requires 0 <= k < |groups| => Merge(groups[k]))
  }

  // ----- sessions

  /** `previous_end` after `s`: the latest end of all events so far, of any key, and at least -1. */
  function PreviousEnd(s: seq<Event>): int {
    if s == [] then -1
    else if PreviousEnd(s[..|s| - 1]) < EndOf(s[|s| - 1]) then EndOf(s[|s| - 1]) else PreviousEnd(s[..|s| - 1])
  }

  predicate Splits(before: seq<Event>, e: Event, gapMs: int)
    requires before != []
  {
    !SameKey(before[|before| - 1], e) || e.start - PreviousEnd(before) > gapMs * MS
  }

  /** The sessions closed so far and the one still open. */
  datatype Scan = Scan(closed: seq<seq<Event>>, current: seq<Event>)

  function ScanAll(ordered: seq<Event>, gapMs: int): (scan: Scan)
    ensures forall k :: 0 <= k < |scan.closed| ==> scan.closed[k] != []
    ensures scan.current == [] <==> ordered == []
  {
    if ordered == [] then Scan([], [])
    else
      var front, e := ordered[..|ordered| - 1], ordered[|ordered| - 1];
      var scan := ScanAll(front, gapMs);
      if front == [] then Scan([], [e])
      else if Splits(front, e, gapMs) then Scan(scan.closed + [scan.current], [e])
      else scan.(current := scan.current + [e])
  }

  function Sessions(ordered: seq<Event>, gapMs: int): (groups: seq<seq<Event>>)
    ensures forall k :: 0 <= k < |groups| ==> groups[k] != []
  {
    if ordered == [] then [] else ScanAll(ordered, gapMs).closed + [ScanAll(ordered, gapMs).current]
  }

  function Aggregate(events: seq<Event>, gapMs: int): seq<Event> {
    MergeAll(Sessions(Sorting.Sort(events, EventLe), gapMs))
  }

  lemma ScanStep(s: seq<Event>, e: Event, gapMs: int)
    ensures ScanAll(s + [e], gapMs) ==
            var scan := ScanAll(s, gapMs);
            if s == [] then Scan([], [e])
            else if Splits(s, e, gapMs) then Scan(scan.closed + [scan.current], [e])
            else scan.(current := scan.current + [e])
  {
    assert (s + [e])[..|s|] == s;
  }

  lemma PreviousEndStep(s: seq<Event>, e: Event)
    ensures PreviousEnd(s + [e]) == if PreviousEnd(s) < EndOf(e) then EndOf(e) else PreviousEnd(s)
  {
    assert (s + [e])[..|s|] == s;
  }

  lemma MergeAllStep(groups: seq<seq<Event>>, g: seq<Event>)
    requires g != [] && forall k :: 0 <= k < |groups| ==> groups[k] != []
    ensures forall k :: 0 <= k < |groups + [g]| ==> (groups + [g])[k] != []
    ensures MergeAll(groups + [g]) == MergeAll(groups) + [Merge(g)]
  {
  }

  /** What the loop variables hold after the events `done`. */
  ghost predicate Progress(done: seq<Event>, gapMs: int, result: seq<Event>, current: seq<Event>,
                           key: Option<(string, string)>, previousEnd: int) {
    && previousEnd == PreviousEnd(done)
    && result == MergeAll(ScanAll(done, gapMs).closed) && current == ScanAll(done, gapMs).current
    && (done != [] ==> key == Some((done[|done| - 1].camera, done[|done| - 1].track)))
  }

  lemma ProgressStep(done: seq<Event>, gapMs: int, result: seq<Event>, current: seq<Event>,
                     key: Option<(string, string)>, previousEnd: int, e: Event)
    requires Progress(done, gapMs, result, current, key, previousEnd)
    ensures var split := current != [] && (Some((e.camera, e.track)) != key || e.start - previousEnd > gapMs * MS);
            Progress(done + [e], gapMs, if split then result + [Merge(current)] else result,
                     if split then [e] else current + [e], Some((e.camera, e.track)),
                     if previousEnd < EndOf(e) then EndOf(e) else previousEnd)
  {
    ScanStep(done, e, gapMs);
    PreviousEndStep(done, e);
    if done != [] {
      assert Some((e.camera, e.track)) != key <==> !SameKey(done[|done| - 1], e);
      if Splits(done, e, gapMs) { MergeAllStep(ScanAll(done, gapMs).closed, current); }
    }
  }

  lemma ProgressEnds(ordered: seq<Event>, gapMs: int, result: seq<Event>, current: seq<Event>,
                     key: Option<(string, string)>, previousEnd: int)
    requires Progress(ordered, gapMs, result, current, key, previousEnd)
    ensures MergeAll(Sessions(ordered, gapMs)) == if current == [] then result else result + [Merge(current)]
  {
    if current != [] { MergeAllStep(ScanAll(ordered, gapMs).closed, current); }
  }

  /** `aggregate_events`: sort, then loop; a negative gap is an error. */
  method AggregateEvents(events: seq<Event>, gapMs: int) returns (sessions: Option<seq<Event>>)
    ensures gapMs < 0 ==> sessions == None
    ensures gapMs >= 0 ==> sessions == Some(Aggregate(events, gapMs))
  {
    if gapMs < 0 { return None; }
    var result := AggregateOrdered(Sorting.Sort(events, EventLe), gapMs);
    sessions := Some(result);
  }

  method AggregateOrdered(ordered: seq<Event>, gapMs: int) returns (result: seq<Event>)
    ensures result == MergeAll(Sessions(ordered, gapMs))
  {
    var current: seq<Event> := [];
    result := [];
    var key: Option<(string, string)> := None;
    var previousEnd := -1;
    for i := 0 to |ordered|
      invariant Progress(ordered[..i], gapMs, result, current, key, previousEnd)
    {
      var e := ordered[i];
      ProgressStep(ordered[..i], gapMs, result, current, key, previousEnd, e);
      Sorting.PrefixGrows(ordered, i);
      var eventKey := Some((e.camera, e.track));
      if current != [] && (eventKey != key || e.start - previousEnd > gapMs * MS) {
        result := result + [Merge(current)];
        current := [];
      }
      current := current + [e];
      key := eventKey;
      previousEnd := if previousEnd < EndOf(e) then EndOf(e) else previousEnd;
    }
    assert ordered[..|ordered|] == ordered;
    ProgressEnds(ordered, gapMs, result, current, key, previousEnd);
    if current != [] {
      result := result + [Merge(current)];
    }
  }

  // ----- what sessions are

  function Flatten(groups: seq<seq<Event>>): seq<Event> {
    if groups == [] then [] else Flatten(groups[..|groups| - 1]) + groups[|groups| - 1]
  }

  predicate OneKey(g: seq<Event>) {
    forall i, j :: 0 <= i < |g| && 0 <= j < |g| ==> g[i].camera == g[j].camera && g[i].track == g[j].track
  }

  /** The nanoseconds from the end of an earlier event to `e`; without an end its start counts. */
  function Pause(earlier: Event, e: Event): int {
    if earlier.end == 0 then e.start - earlier.start else e.start - earlier.end
  }

  /** Every event of the list ended more than the gap before `e` starts. */
  predicate FarBehind(s: seq<Event>, e: Event, gapMs: int) {
    forall i :: 0 <= i < |s| ==> Pause(s[i], e) > gapMs * 1_000_000
  }

  lemma {:induction false} EndsBounded(s: seq<Event>, i: nat)
    requires i < |s|
    ensures EndOf(s[i]) <= PreviousEnd(s)
  {
    if i < |s| - 1 { EndsBounded(s[..|s| - 1], i); }
  }

  predicate Partition(s: seq<Event>, scan: Scan) {
    && Flatten(scan.closed) + scan.current == s
    && OneKey(scan.current) && (forall k :: 0 <= k < |scan.closed| ==> OneKey(scan.closed[k]))
    && (s != [] ==> scan.current != [] && scan.current[|scan.current| - 1] == s[|s| - 1])
  }

  lemma OneKeyGrows(g: seq<Event>, e: Event)
    requires g != [] && OneKey(g) && SameKey(g[|g| - 1], e)
    ensures OneKey(g + [e])
  {
  }

  lemma PartitionStep(s: seq<Event>, e: Event, gapMs: int)
    requires Partition(s, ScanAll(s, gapMs))
    ensures Partition(s + [e], ScanAll(s + [e], gapMs))
  {
    ScanStep(s, e, gapMs);
    if s != [] {
      if Splits(s, e, gapMs) {
        PartitionSplits(s, e, ScanAll(s, gapMs));
      } else {
        PartitionGrows(s, e, ScanAll(s, gapMs));
      }
    }
  }

  lemma PartitionSplits(s: seq<Event>, e: Event, scan: Scan)
    requires s != [] && Partition(s, scan)
    ensures Partition(s + [e], Scan(scan.closed + [scan.current], [e]))
  {
    assert (scan.closed + [scan.current])[..|scan.closed|] == scan.closed;
  }

  lemma PartitionGrows(s: seq<Event>, e: Event, scan: Scan)
    requires s != [] && Partition(s, scan) && SameKey(s[|s| - 1], e)
    ensures Partition(s + [e], scan.(current := scan.current + [e]))
  {
    OneKeyGrows(scan.current, e);
  }

  lemma {:induction false} ScanPartitions(s: seq<Event>, gapMs: int)
    ensures Partition(s, ScanAll(s, gapMs))
  {
    if s != [] {
      var front, e := s[..|s| - 1], s[|s| - 1];
      assert s == front + [e];
      ScanPartitions(front, gapMs);
      PartitionStep(front, e, gapMs);
    }
  }

  /** The sessions are the sorted events cut into contiguous runs of one key. */
  lemma SessionsPartition(s: seq<Event>, gapMs: int)
    ensures Flatten(Sessions(s, gapMs)) == s
    ensures forall k :: 0 <= k < |Sessions(s, gapMs)| ==> OneKey(Sessions(s, gapMs)[k])
  {
    ScanPartitions(s, gapMs);
    var scan := ScanAll(s, gapMs);
    assert (scan.closed + [scan.current])[..|scan.closed|] == scan.closed;
  }

  lemma {:induction false} StartIsLeast(g: seq<Event>) returns (i: nat)
    requires g != []
    ensures i < |g| && g[i].start == MinStart(g) && forall j :: 0 <= j < |g| ==> MinStart(g) <= g[j].start
  {
    if |g| == 1 { return 0; }
    var front := g[..|g| - 1];
    i := StartIsLeast(front);
    assert forall j :: 0 <= j < |front| ==> g[j] == front[j];
    if g[|g| - 1].start < g[i].start { i := |g| - 1; }
  }

  lemma {:induction false} EndIsGreatest(g: seq<Event>) returns (i: nat)
    requires g != []
    ensures i < |g| && g[i].end == MaxEnd(g) && forall j :: 0 <= j < |g| ==> g[j].end <= MaxEnd(g)
  {
    if |g| == 1 { return 0; }
    var front := g[..|g| - 1];
    i := EndIsGreatest(front);
    assert forall j :: 0 <= j < |front| ==> g[j] == front[j];
    if g[i].end < g[|g| - 1].end { i := |g| - 1; }
  }

  lemma {:induction false} LatencyIsGreatest(g: seq<Event>) returns (i: nat)
    requires g != []
    ensures i < |g| && g[i].latencyMs == MaxLatency(g) && forall j :: 0 <= j < |g| ==> g[j].latencyMs <= MaxLatency(g)
  {
    if |g| == 1 { return 0; }
    var front := g[..|g| - 1];
    i := LatencyIsGreatest(front);
    assert forall j :: 0 <= j < |front| ==> g[j] == front[j];
    if g[i].latencyMs < g[|g| - 1].latencyMs { i := |g| - 1; }
  }

  lemma {:induction false} BestIsFirstGreatest(g: seq<Event>)
    requires g != []
    ensures forall j :: 0 <= j < |g| ==> g[j].score <= g[Best(g)].score
    ensures forall j :: 0 <= j < Best(g) ==> g[j].score < g[Best(g)].score
  {
    if |g| > 1 {
      var front := g[..|g| - 1];
      BestIsFirstGreatest(front);
      assert forall j :: 0 <= j < |front| ==> g[j] == front[j];
    }
  }

  /** The event says so itself, or says nothing and is labelled as smoking. */
  predicate Alarms(e: Event) {
    e.triggered == Some(true) || (e.triggered == None && e.predictedLabel == "smoking")
  }

  lemma AlarmsIff(g: seq<Event>)
    ensures AnyTrigger(g) <==> exists i :: 0 <= i < |g| && Alarms(g[i])
  {
    if i :| 0 <= i < |g| && Alarms(g[i]) {
      assert DidTrigger(g[i]);
    }
    if i :| 0 <= i < |g| && DidTrigger(g[i]) {
      assert Alarms(g[i]);
    }
  }

  /** A session spans its events, scores as its best and, among equals, takes the earliest. */
  lemma MergeIsEnvelope(g: seq<Event>)
    requires g != []
    ensures var m := Merge(g);
            && (forall i :: 0 <= i < |g| ==>
                  m.start <= g[i].start && g[i].end <= m.end && g[i].latencyMs <= m.latencyMs && g[i].score <= m.score)
            && (exists i :: 0 <= i < |g| && g[i].start == m.start)
            && (exists i :: 0 <= i < |g| && g[i].end == m.end)
            && (exists i :: 0 <= i < |g| && g[i].latencyMs == m.latencyMs)
            && m.id == g[0].id && m.camera == g[0].camera && m.track == g[0].track && m.trueLabel == g[0].trueLabel
            && (m.eligible <==> forall i :: 0 <= i < |g| ==> g[i].eligible)
            && m.triggered == Some(exists i :: 0 <= i < |g| && Alarms(g[i]))
            && (exists i :: 0 <= i < |g| && g[i].score == m.score && g[i].predictedLabel == m.predictedLabel
                            && forall j :: 0 <= j < i ==> g[j].score < m.score)
  {
    AlarmsIff(g);
    var first := StartIsLeast(g);
    var last := EndIsGreatest(g);
    var slowest := LatencyIsGreatest(g);
    BestIsFirstGreatest(g);
    assert g[Best(g)].score == Merge(g).score;
  }
}
