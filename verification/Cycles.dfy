/** The approach-dwell-retreat detector. */
module Cycles {
  import opened Options
  import opened Observations

  datatype Config = Config(minDwellMs: int, minIntervalMs: int, maxIntervalMs: int) {
    predicate Valid() {
      minDwellMs >= 0 && 0 <= minIntervalMs <= maxIntervalMs
    }
  }

  datatype Cycle = Cycle(approach: int, retreat: int, intervalMs: int)

  datatype Detector = Detector(approach: Option<int>, last: Option<int>, cycles: seq<Cycle>, seen: set<Fingerprint>)

  const FRESH: Detector := Detector(None, None, [], {})

  predicate Approaches(config: Config, o: Observation) {
    o.Eligible() && o.contact == Mouth && o.handToMouth && o.mouthDwellMs >= config.minDwellMs
  }

  predicate Retreats(config: Config, o: Observation) {
    o.Eligible() && o.contact == Mouth && o.handRetreat && !Approaches(config, o)
  }

  function Observe(config: Config, d: Detector, o: Observation): Detector {
    if FingerprintOf(o) in d.seen then d
    else
      var noted := d.(seen := d.seen + {FingerprintOf(o)});
      if d.last.Some? && o.at < d.last.value then noted
      else React(config, noted.(last := Some(o.at)), o)
  }

  function React(config: Config, d: Detector, o: Observation): Detector {
    if !o.qualityEligible || !o.poseEligible then d
    else if o.contact != Mouth then
      if o.handRetreat then d.(approach := None) else d
    else if o.handToMouth && o.mouthDwellMs >= config.minDwellMs then
      if d.approach == None then d.(approach := Some(o.at)) else d
    else if !o.handRetreat || d.approach == None then d
    else
      var intervalMs := (o.at - d.approach.value) / MS;
      var closed := d.(approach := None);
      if config.minIntervalMs <= intervalMs <= config.maxIntervalMs then
        closed.(cycles := d.cycles + [Cycle(d.approach.value, o.at, intervalMs)])
      else closed
  }

  /** A fresh detector run over `s`. */
  function Detect(config: Config, s: seq<Observation>): Detector {
    if s == [] then FRESH else Observe(config, Detect(config, s[..|s| - 1]), s[|s| - 1])
  }

  class CycleDetector {
    const config: Config
    var approach: Option<int>
    var last: Option<int>
    var cycles: seq<Cycle>
    var seen: set<Fingerprint>

    ghost function Snapshot(): Detector
      reads this
    {
      Detector(approach, last, cycles, seen)
    }

    constructor (config: Config)
      ensures this.config == config && Snapshot() == FRESH
    {
      this.config := config;
      approach, last, cycles, seen := None, None, [], {};
    }

    method ObserveOne(o: Observation) returns (found: Option<Cycle>)
      modifies this
      ensures Snapshot() == Observe(config, old(Snapshot()), o)
      ensures cycles == old(cycles) + if found.Some? then [found.value] else []
    {
      found := None;
      if FingerprintOf(o) in seen { return; }
      seen := seen + {FingerprintOf(o)};
      if last.Some? && o.at < last.value { return; }
      last := Some(o.at);
      if !o.qualityEligible || !o.poseEligible { return; }
      if o.contact != Mouth {
        if o.handRetreat { approach := None; }
        return;
      }
      if o.handToMouth && o.mouthDwellMs >= config.minDwellMs {
        if approach == None { approach := Some(o.at); }
        return;
      }
      if !o.handRetreat || approach == None { return; }
      var intervalMs, approachAt := (o.at - approach.value) / MS, approach.value;
      approach := None;
      if !(config.minIntervalMs <= intervalMs <= config.maxIntervalMs) { return; }
      found := Some(Cycle(approachAt, o.at, intervalMs));
      cycles := cycles + [found.value];
    }
  }

  // ----- what the detector reports

  predicate OpenedBy(config: Config, s: seq<Observation>, at: int, i: int) {
    0 <= i < |s| && Approaches(config, s[i]) && s[i].at == at
  }

  /** A cycle stands on a real approach and a later observation of a real retreat. */
  predicate WitnessedBy(config: Config, s: seq<Observation>, c: Cycle, i: int, j: int) {
    && OpenedBy(config, s, c.approach, i) && i < j < |s| && Retreats(config, s[j]) && s[j].at == c.retreat
  }

  ghost predicate CycleOk(config: Config, s: seq<Observation>, c: Cycle) {
    && c.approach <= c.retreat && c.intervalMs == (c.retreat - c.approach) / MS
    && config.minIntervalMs <= c.intervalMs <= config.maxIntervalMs
    && exists i, j :: WitnessedBy(config, s, c, i, j)
  }

  ghost predicate DetectorOk(config: Config, s: seq<Observation>, d: Detector) {
    && (forall k :: 0 <= k < |d.cycles| ==> CycleOk(config, s, d.cycles[k]))
    && (forall j, k :: 0 <= j < |d.cycles| && 0 <= k < |d.cycles| && k == j + 1 ==>
         d.cycles[j].retreat <= d.cycles[k].approach)
    && (d.cycles != [] ==> d.last.Some? && d.cycles[|d.cycles| - 1].retreat <= d.last.value)
    && (d.approach.Some? ==>
          && d.last.Some? && d.approach.value <= d.last.value
          && (exists i :: OpenedBy(config, s, d.approach.value, i))
          && (d.cycles != [] ==> d.cycles[|d.cycles| - 1].retreat <= d.approach.value))
  }

  lemma WitnessesStay(config: Config, s: seq<Observation>, o: Observation, d: Detector)
    requires DetectorOk(config, s, d)
    ensures DetectorOk(config, s + [o], d)
  {
    var s' := s + [o];
    forall k | 0 <= k < |d.cycles| ensures CycleOk(config, s', d.cycles[k]) {
      assert CycleOk(config, s, d.cycles[k]);
      var i, j :| WitnessedBy(config, s, d.cycles[k], i, j);
      assert WitnessedBy(config, s', d.cycles[k], i, j);
    }
    if d.approach.Some? {
      var i :| OpenedBy(config, s, d.approach.value, i);
      assert OpenedBy(config, s', d.approach.value, i);
    }
  }

  lemma CycleAppended(config: Config, s: seq<Observation>, d: Detector, c: Cycle)
    requires DetectorOk(config, s, d) && d.approach == Some(c.approach) && d.last == Some(c.retreat)
               && CycleOk(config, s, c)
    ensures DetectorOk(config, s, d.(approach := None, cycles := d.cycles + [c]))
  {
  }

  lemma ApproachDropped(config: Config, s: seq<Observation>, d: Detector)
    requires DetectorOk(config, s, d)
    ensures DetectorOk(config, s, d.(approach := None))
  {
  }

  lemma ApproachOpened(config: Config, s: seq<Observation>, d: Detector, at: int, i: int)
    requires DetectorOk(config, s, d) && d.last == Some(at) && OpenedBy(config, s, at, i)
    ensures DetectorOk(config, s, d.(approach := Some(at)))
  {
  }

  lemma ReactKeeps(config: Config, s: seq<Observation>, d: Detector, o: Observation)
    requires DetectorOk(config, s + [o], d) && d.last == Some(o.at)
    requires d.approach.Some? ==> d.approach.value <= o.at && exists i :: OpenedBy(config, s, d.approach.value, i)
    ensures DetectorOk(config, s + [o], React(config, d, o))
  {
    var s' := s + [o];
    ApproachDropped(config, s', d);
    if Approaches(config, o) {
      ApproachOpened(config, s', d, o.at, |s|);
    } else if Retreats(config, o) && d.approach.Some? {
      var c := Cycle(d.approach.value, o.at, (o.at - d.approach.value) / MS);
      if config.minIntervalMs <= c.intervalMs <= config.maxIntervalMs {
        var i :| OpenedBy(config, s, d.approach.value, i);
        assert WitnessedBy(config, s', c, i, |s|);
        CycleAppended(config, s', d, c);
      }
    }
  }

  lemma FirstReact(config: Config, o: Observation)
    ensures DetectorOk(config, [o], React(config, FRESH.(last := Some(o.at), seen := {FingerprintOf(o)}), o))
  {
    if Approaches(config, o) { assert OpenedBy(config, [o], o.at, 0); }
  }

  lemma MovedKeeps(config: Config, s: seq<Observation>, d: Detector, at: int, seen: set<Fingerprint>)
    requires DetectorOk(config, s, d) && d.last.Some? && d.last.value <= at
    ensures DetectorOk(config, s, d.(last := Some(at), seen := seen))
  {
  }

  lemma ObserveKeeps(config: Config, s: seq<Observation>, d: Detector, o: Observation)
    requires DetectorOk(config, s, d) && (if s == [] then d == FRESH else d.last.Some?)
    ensures DetectorOk(config, s + [o], Observe(config, d, o)) && Observe(config, d, o).last.Some?
  {
    var seen := d.seen + {FingerprintOf(o)};
    if d.last == None {
      assert s + [o] == [o];
      FirstReact(config, o);
    } else if FingerprintOf(o) in d.seen || o.at < d.last.value {
      WitnessesStay(config, s, o, d);
      MovedKeeps(config, s + [o], d, d.last.value, seen);
    } else {
      var moved := d.(last := Some(o.at), seen := seen);
      MovedKeeps(config, s, d, o.at, seen);
      WitnessesStay(config, s, o, moved);
      ReactKeeps(config, s, moved, o);
    }
  }

  /** Every reported cycle has a real approach and a real later retreat, its interval lies within the
      configured bounds, and successive cycles do not overlap — for any input whatsoever. */
  lemma {:induction false} DetectedCyclesAreReal(config: Config, s: seq<Observation>)
    ensures DetectorOk(config, s, Detect(config, s))
    ensures s != [] ==> Detect(config, s).last.Some?
  {
    if s != [] {
      var front, o := s[..|s| - 1], s[|s| - 1];
      assert s == front + [o];
      DetectedCyclesAreReal(config, front);
      ObserveKeeps(config, front, Detect(config, front), o);
    }
  }

  lemma DetectStep(config: Config, s: seq<Observation>, o: Observation)
    ensures Detect(config, s + [o]) == Observe(config, Detect(config, s), o)
  {
    assert (s + [o])[..|s|] == s && (s + [o])[|s|] == o;
  }

  /** Cycles are appended, never withdrawn. */
  lemma CyclesGrow(config: Config, s: seq<Observation>, o: Observation)
    ensures Detect(config, s).cycles <= Detect(config, s + [o]).cycles
  {
    DetectStep(config, s, o);
  }

  // ----- and it misses none

  /** Distinct messages in time order: what a track hands to its detector. */
  predicate Clean(s: seq<Observation>) {
    Ordered(s) && forall i, j :: 0 <= i < j < |s| ==> FingerprintOf(s[i]) != FingerprintOf(s[j])
  }

  /** A retreat, from the mouth or from elsewhere, ends any open approach. */
  predicate Clears(config: Config, o: Observation) {
    o.Eligible() && o.handRetreat && !Approaches(config, o)
  }

  /** The approach at `i` is the first since the last retreat, and no retreat has followed it. */
  predicate OpenAt(config: Config, s: seq<Observation>, i: int) {
    && 0 <= i < |s| && Approaches(config, s[i])
    && (forall c :: i < c < |s| ==> !Clears(config, s[c]))
    && (forall k :: 0 <= k < i && Approaches(config, s[k]) ==> exists c :: k < c < i && Clears(config, s[c]))
  }

  lemma OpenAtStep(config: Config, s: seq<Observation>, o: Observation, i: int)
    ensures i != |s| ==> (OpenAt(config, s + [o], i) <==> OpenAt(config, s, i) && !Clears(config, o))
    ensures OpenAt(config, s + [o], |s|) <==> Approaches(config, o) && forall k :: !OpenAt(config, s, k)
  {
    var s' := s + [o];
    assert forall k :: 0 <= k < |s| ==> s'[k] == s[k];
    if OpenAt(config, s, i) && !Clears(config, o) {
      forall k | 0 <= k < i && Approaches(config, s'[k]) ensures exists c :: k < c < i && Clears(config, s'[c]) {
        var c :| k < c < i && Clears(config, s[c]);
        assert Clears(config, s'[c]);
      }
    }
    if i != |s| && OpenAt(config, s', i) {
      assert s'[|s|] == o;
      forall k | 0 <= k < i && Approaches(config, s[k]) ensures exists c :: k < c < i && Clears(config, s[c]) {
        assert Approaches(config, s'[k]);
        var c :| k < c < i && Clears(config, s'[c]);
        assert Clears(config, s[c]);
      }
    }
    if Approaches(config, o) && forall k :: !OpenAt(config, s, k) {
      forall k | 0 <= k < |s| && Approaches(config, s'[k]) ensures exists c :: k < c < |s| && Clears(config, s'[c]) {
        ClearedAfter(config, s, k);
        var c :| k < c < |s| && Clears(config, s[c]);
        assert Clears(config, s'[c]);
      }
    }
  }

  /** When nothing is open, every approach has been followed by a retreat. */
  lemma {:induction false} ClearedAfter(config: Config, s: seq<Observation>, k: nat)
    requires k < |s| && Approaches(config, s[k]) && forall i :: !OpenAt(config, s, i)
    ensures exists c :: k < c < |s| && Clears(config, s[c])
    decreases k
  {
    if j :| 0 <= j < k && Approaches(config, s[j]) && forall c :: j < c < k ==> !Clears(config, s[c]) {
      ClearedAfter(config, s, j);
      var c :| j < c < |s| && Clears(config, s[c]);
      assert k < c;
    } else {
      assert !OpenAt(config, s, k);
    }
  }

  lemma {:induction false} SeenOnClean(config: Config, s: seq<Observation>)
    requires Clean(s)
    ensures Detect(config, s).seen == (set i | 0 <= i < |s| :: FingerprintOf(s[i]))
    ensures Detect(config, s).last == if s == [] then None else Some(s[|s| - 1].at)
  {
    if s != [] {
      var front, o := s[..|s| - 1], s[|s| - 1];
      assert Clean(front) && forall i :: 0 <= i < |front| ==> s[i] == front[i];
      SeenOnClean(config, front);
    }
  }

  /** Nothing is filtered on clean input: the detector reacts to every message. */
  lemma CleanStep(config: Config, s: seq<Observation>, o: Observation)
    requires Clean(s + [o])
    ensures Clean(s)
    ensures var d := Detect(config, s);
            Detect(config, s + [o]) == React(config, d.(last := Some(o.at), seen := d.seen + {FingerprintOf(o)}), o)
  {
    CleanPrefix(s, o);
    SeenOnClean(config, s);
    DetectStep(config, s, o);
  }

  lemma CleanPrefix(s: seq<Observation>, o: Observation)
    requires Clean(s + [o])
    ensures Clean(s) && (s != [] ==> s[|s| - 1].at <= o.at)
    ensures forall i :: 0 <= i < |s| ==> FingerprintOf(s[i]) != FingerprintOf(o)
  {
    var s' := s + [o];
    assert s'[|s|] == o && forall k :: 0 <= k < |s| ==> s'[k] == s[k];
  }

  /** On clean input the detector holds exactly the open approach. */
  lemma {:induction false} OpenApproach(config: Config, s: seq<Observation>)
    requires Clean(s)
    ensures forall i :: OpenAt(config, s, i) ==> Detect(config, s).approach == Some(s[i].at)
    ensures Detect(config, s).approach.Some? ==> exists i :: OpenAt(config, s, i)
  {
    if s != [] {
      var front, o := s[..|s| - 1], s[|s| - 1];
      assert s == front + [o];
      CleanStep(config, front, o);
      OpenApproach(config, front);
      OpenAtStep(config, front, o, |front|);
      forall i ensures i != |front| ==> (OpenAt(config, s, i) <==> OpenAt(config, front, i) && !Clears(config, o)) {
        OpenAtStep(config, front, o, i);
      }
      var d, d' := Detect(config, front), Detect(config, s);
      assert d'.approach ==
             if Approaches(config, o) && d.approach == None then Some(o.at)
             else if Clears(config, o) then None
             else d.approach;
      if d.approach.Some? && !Clears(config, o) {
        var i :| OpenAt(config, front, i);
        assert OpenAt(config, s, i);
      }
    }
  }

  predicate InBounds(config: Config, from: int, to: int) {
    config.minIntervalMs <= (to - from) / MS <= config.maxIntervalMs
  }

  /** A cycle is reported at `o` exactly when `o` retreats from the mouth while an approach is open and
      the interval between the two is within bounds; nothing else is ever reported. */
  lemma CycleReportedIff(config: Config, s: seq<Observation>, o: Observation)
    requires Clean(s + [o])
    ensures var before, after := Detect(config, s).cycles, Detect(config, s + [o]).cycles;
            && (forall i :: OpenAt(config, s, i) && Retreats(config, o) && InBounds(config, s[i].at, o.at) ==>
                  after == before + [Cycle(s[i].at, o.at, (o.at - s[i].at) / MS)])
            && ((forall i :: OpenAt(config, s, i) ==> !(Retreats(config, o) && InBounds(config, s[i].at, o.at))) ==>
                 after == before)
  {
    CleanStep(config, s, o);
    OpenApproach(config, s);
  }
}
