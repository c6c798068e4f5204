/** The incremental track against declarative functions of the messages and of the window. */
module TrackHistory {
  import opened Options
  import opened Observations
  import Cycles
  import opened Tracks

  // ----- the seen set and the clock of a track

  predicate Keys(ms: seq<Observation>, seen: set<Fingerprint>) {
    && (forall i :: 0 <= i < |ms| ==> FingerprintOf(ms[i]) in seen)
    && (forall f :: f in seen ==> exists i :: 0 <= i < |ms| && FingerprintOf(ms[i]) == f)
  }

  /** `last` is the time of the latest first message. */
  predicate Clock(ms: seq<Observation>, last: Option<int>) {
    && (last == None <==> ms == [])
    && (last.Some? ==>
          && (forall i {:trigger IsFirst(ms, i)} :: 0 <= i < |ms| && IsFirst(ms, i) ==> ms[i].at <= last.value)
          && (exists i {:trigger IsFirst(ms, i)} :: 0 <= i < |ms| && IsFirst(ms, i) && ms[i].at == last.value))
  }

  /** What an accepted message does to everything but stage, transitions and detector. */
  predicate Extends(config: Config, t: Track, t': Track, o: Observation) {
    && t'.seen == t.seen + {FingerprintOf(o)} && t'.last == Some(o.at)
    && t'.window == (if Gap(config, t, o) then [] else t.window) + [o]
    && t'.first == if Gap(config, t, o) || t.first == None then Some(o.at) else t.first
  }

  lemma AdvanceFrame(t: Track, o: Observation)
    ensures Advance(t, o) == t.(stage := Advance(t, o).stage, transitions := Advance(t, o).transitions)
  {
  }

  /** The three things that can happen to a message. */
  predicate Cases(config: Config, t: Track, t': Track, o: Observation) {
    if FingerprintOf(o) in t.seen then t' == t
    else if t.last.Some? && o.at < t.last.value then t' == t.(seen := t.seen + {FingerprintOf(o)})
    else Extends(config, t, t', o)
  }

  lemma IngestCases(config: Config, t: Track, o: Observation)
    ensures Cases(config, t, Ingest(config, t, o).0, o)
  {
    AdvanceFrame(Appended(config, Opened(config, t.(seen := t.seen + {FingerprintOf(o)}), o), o), o);
  }

  lemma IngestedStep(config: Config, ms: seq<Observation>, o: Observation)
    ensures Ingested(config, ms + [o]) == Ingest(config, Ingested(config, ms), o).0
  {
    assert (ms + [o])[..|ms|] == ms && (ms + [o])[|ms|] == o;
  }

  lemma IngestedCases(config: Config, ms: seq<Observation>, o: Observation)
    ensures Cases(config, Ingested(config, ms), Ingested(config, ms + [o]), o)
  {
    IngestedStep(config, ms, o);
    IngestCases(config, Ingested(config, ms), o);
  }

  lemma FirstsOfPrefix(ms: seq<Observation>, o: Observation)
    ensures forall i :: 0 <= i < |ms| ==> (ms + [o])[i] == ms[i] && (IsFirst(ms + [o], i) <==> IsFirst(ms, i))
  {
  }

  /** The seen set and the clock decide exactly what the messages decide. */
  lemma Classified(ms: seq<Observation>, o: Observation, seen: set<Fingerprint>, last: Option<int>)
    requires Keys(ms, seen) && Clock(ms, last)
    ensures FingerprintOf(o) in seen <==> !IsFirst(ms + [o], |ms|)
    ensures IsAccepted(ms + [o], |ms|) <==> FingerprintOf(o) !in seen && (last.Some? ==> last.value <= o.at)
  {
    var ms' := ms + [o];
    FirstsOfPrefix(ms, o);
    assert ms'[|ms|] == o;
    if last.Some? && last.value > o.at {
      var i :| 0 <= i < |ms| && IsFirst(ms, i) && ms[i].at == last.value;
      assert IsFirst(ms', i);
    }
  }

  /** What happens to the next message is decided by the messages alone. */
  lemma NextMessage(config: Config, ms: seq<Observation>, o: Observation)
    requires Keys(ms, Ingested(config, ms).seen) && Clock(ms, Ingested(config, ms).last)
    ensures var t, t' := Ingested(config, ms), Ingested(config, ms + [o]);
            && (if IsAccepted(ms + [o], |ms|) then
                  && Extends(config, t, t', o) && FingerprintOf(o) !in t.seen
                  && (t.last.Some? ==> t.last.value <= o.at)
                else t' == t.(seen := t.seen + {FingerprintOf(o)}))
            && (!IsFirst(ms + [o], |ms|) ==> t' == t)
  {
    var t := Ingested(config, ms);
    IngestedCases(config, ms, o);
    Classified(ms, o, t.seen, t.last);
    if FingerprintOf(o) in t.seen { assert t.seen + {FingerprintOf(o)} == t.seen; }
  }

  lemma {:induction false} SeenAndClock(config: Config, ms: seq<Observation>)
    ensures Keys(ms, Ingested(config, ms).seen) && Clock(ms, Ingested(config, ms).last)
  {
    if ms != [] {
      var front, o := ms[..|ms| - 1], ms[|ms| - 1];
      assert ms == front + [o];
      SeenAndClock(config, front);
      NextMessage(config, front, o);
      KeysStep(front, o, Ingested(config, front).seen, Ingested(config, ms).seen);
      ClockStep(front, o, Ingested(config, front).last, Ingested(config, ms).last);
    }
  }

  lemma KeysStep(ms: seq<Observation>, o: Observation, seen: set<Fingerprint>, seen': set<Fingerprint>)
    requires Keys(ms, seen) && seen' == seen + {FingerprintOf(o)}
    ensures Keys(ms + [o], seen')
  {
    var ms' := ms + [o];
    forall f | f in seen' ensures exists i :: 0 <= i < |ms'| && FingerprintOf(ms'[i]) == f {
      if f in seen {
        var i :| 0 <= i < |ms| && FingerprintOf(ms[i]) == f;
        assert FingerprintOf(ms'[i]) == f;
      } else {
        assert FingerprintOf(ms'[|ms|]) == f;
      }
    }
  }

  lemma ClockStep(ms: seq<Observation>, o: Observation, last: Option<int>, last': Option<int>)
    requires Clock(ms, last)
    requires last' == if IsAccepted(ms + [o], |ms|) then Some(o.at) else last
    ensures Clock(ms + [o], last')
  {
    var ms' := ms + [o];
    FirstsOfPrefix(ms, o);
    if IsAccepted(ms', |ms|) {
      assert IsFirst(ms', |ms|) && ms'[|ms|].at == o.at;
    } else {
      assert ms != [];
      var i :| 0 <= i < |ms| && IsFirst(ms, i) && ms[i].at == last.value;
      assert IsFirst(ms', i) && ms'[i].at == last.value;
    }
  }

  // ----- the window

  /** `w` is the longest gap-free suffix of `s`. */
  ghost predicate LongestGapFreeSuffix(s: seq<Observation>, w: seq<Observation>, toleranceMs: int) {
    && |w| <= |s| && w == s[|s| - |w|..] && GapFree(w, toleranceMs)
    && forall k :: 0 <= k <= |s| && GapFree(s[k..], toleranceMs) ==> |s| - k <= |w|
  }

  predicate Joined(s: seq<Observation>, i: int, toleranceMs: int)
    requires 0 < i < |s|
  {
    s[i].at - s[i - 1].at <= toleranceMs * MS
  }

  /** The window of `s` starts at `k`: joined from there on, and cut off from what precedes. */
  predicate StartsAt(s: seq<Observation>, k: int, toleranceMs: int) {
    && 0 <= k <= |s| && (k == |s| ==> s == [])
    && (forall i :: k < i < |s| ==> Joined(s, i, toleranceMs))
    && (k > 0 ==> !Joined(s, k, toleranceMs))
  }

  lemma StartIsLongest(s: seq<Observation>, k: int, toleranceMs: int)
    requires StartsAt(s, k, toleranceMs)
    ensures LongestGapFreeSuffix(s, s[k..], toleranceMs)
  {
    var w := s[k..];
    forall i, j | 0 <= i < j < |w| && j == i + 1 ensures w[j].at - w[i].at <= toleranceMs * MS {
      assert Joined(s, k + j, toleranceMs);
    }
    forall j | 0 <= j < k ensures !GapFree(s[j..], toleranceMs) {
      assert s[j..][k - j] == s[k] && s[j..][k - j - 1] == s[k - 1];
    }
  }

  lemma StartMoves(s: seq<Observation>, k: int, o: Observation, toleranceMs: int)
    requires StartsAt(s, k, toleranceMs)
    ensures StartsAt(s + [o], if s != [] && o.at - s[|s| - 1].at > toleranceMs * MS then |s| else k, toleranceMs)
  {
    var s' := s + [o];
    forall i | 0 < i < |s| ensures Joined(s', i, toleranceMs) <==> Joined(s, i, toleranceMs) {
    }
  }

  ghost predicate WindowOk(config: Config, t: Track, accepted: seq<Observation>, k: int) {
    && StartsAt(accepted, k, config.toleranceMs) && t.window == accepted[k..] && Ordered(accepted)
    && (if accepted == [] then t.first == None && t.last == None
        else t.first == Some(accepted[k].at) && t.last == Some(accepted[|accepted| - 1].at))
  }

  lemma OrderedStep(s: seq<Observation>, o: Observation)
    requires Ordered(s) && (s != [] ==> s[|s| - 1].at <= o.at)
    ensures Ordered(s + [o])
  {
  }

  lemma WindowStep(config: Config, t: Track, t': Track, accepted: seq<Observation>, k: int, o: Observation)
    returns (k': int)
    requires WindowOk(config, t, accepted, k) && Extends(config, t, t', o)
    requires t.last.Some? ==> t.last.value <= o.at
    ensures WindowOk(config, t', accepted + [o], k')
  {
    StartMoves(accepted, k, o, config.toleranceMs);
    OrderedStep(accepted, o);
    k' := if Gap(config, t, o) then |accepted| else k;
    assert (accepted + [o])[k'..] == (if Gap(config, t, o) then [] else accepted[k..]) + [o];
  }

  lemma AcceptedStep(ms: seq<Observation>, o: Observation)
    ensures Accepted(ms + [o]) == Accepted(ms) + if IsAccepted(ms + [o], |ms|) then [o] else []
  {
    assert (ms + [o])[..|ms|] == ms && (ms + [o])[|ms|] == o;
  }

  /** Track and accepted messages move together. */
  lemma InStep(config: Config, ms: seq<Observation>, o: Observation)
    ensures var t, t' := Ingested(config, ms), Ingested(config, ms + [o]);
            if IsAccepted(ms + [o], |ms|) then
              && Extends(config, t, t', o) && (t.last.Some? ==> t.last.value <= o.at) && FingerprintOf(o) !in t.seen
              && Accepted(ms + [o]) == Accepted(ms) + [o]
            else t' == t.(seen := t'.seen) && Accepted(ms + [o]) == Accepted(ms)
  {
    SeenAndClock(config, ms);
    NextMessage(config, ms, o);
    AcceptedStep(ms, o);
  }

  lemma WindowAdvances(config: Config, ms: seq<Observation>, o: Observation, k: int) returns (k': int)
    requires WindowOk(config, Ingested(config, ms), Accepted(ms), k)
    ensures WindowOk(config, Ingested(config, ms + [o]), Accepted(ms + [o]), k')
  {
    InStep(config, ms, o);
    k' := k;
    if IsAccepted(ms + [o], |ms|) {
      k' := WindowStep(config, Ingested(config, ms), Ingested(config, ms + [o]), Accepted(ms), k, o);
    }
  }

  lemma {:induction false} WindowStarts(config: Config, ms: seq<Observation>) returns (k: int)
    ensures WindowOk(config, Ingested(config, ms), Accepted(ms), k)
  {
    k := 0;
    if ms != [] {
      var front, o := ms[..|ms| - 1], ms[|ms| - 1];
      assert ms == front + [o];
      k := WindowStarts(config, front);
      k := WindowAdvances(config, front, o, k);
    }
  }

  predicate Shaped(t: Track) {
    && (if t.window == [] then t.first == None && t.last == None
        else t.first == Some(t.window[0].at) && t.last == Some(t.window[|t.window| - 1].at))
    && Ordered(t.window)
  }

  lemma WindowShape(config: Config, t: Track, accepted: seq<Observation>, k: int)
    requires WindowOk(config, t, accepted, k)
    ensures Shaped(t) && (t.window == [] <==> accepted == [])
  {
    assert forall i :: 0 <= i < |t.window| ==> t.window[i] == accepted[k + i];
  }

  /** After any messages the window is the longest suffix, with no gap above the tolerance, of the
      accepted ones; `first` and `last` are its ends, and it is empty only before the first message. */
  lemma WindowIsLongestSuffix(config: Config, ms: seq<Observation>)
    ensures var t := Ingested(config, ms);
            && LongestGapFreeSuffix(Accepted(ms), t.window, config.toleranceMs) && Shaped(t)
            && (t.window == [] <==> Accepted(ms) == [])
  {
    var k := WindowStarts(config, ms);
    StartIsLongest(Accepted(ms), k, config.toleranceMs);
    WindowShape(config, Ingested(config, ms), Accepted(ms), k);
  }

  // ----- batch recomputation of detector and stage

  predicate SomeIneligible(w: seq<Observation>) {
    exists i :: 0 <= i < |w| && !w[i].Eligible()
  }

  predicate SomeEvidence(w: seq<Observation>) {
    exists i :: 0 <= i < |w| && (w[i].objectLabel != None || w[i].smokeScore > 0.0)
  }

  /** The stage that four facts about a window amount to. */
  function Summary(empty: bool, ineligible: bool, evidence: bool, cycles: bool): Stage {
    if empty then Detected
    else if ineligible then Completed
    else if !evidence then Object
    else if !cycles then Temporal
    else Review
  }

  function StageOf(config: Config, w: seq<Observation>): Stage {
    Summary(w == [], SomeIneligible(w), SomeEvidence(w), Cycles.Detect(config.cycle, w).cycles != [])
  }

  /** Transitions form one path from `Detected` to the current stage, without standing still or
      going back in time. */
  predicate Path(transitions: seq<Transition>, stage: Stage) {
    && (transitions == [] ==> stage == Detected)
    && (transitions != [] ==> transitions[0].from == Detected && transitions[|transitions| - 1].to == stage)
    && (forall i, j :: 0 <= i < |transitions| && 0 <= j < |transitions| && j == i + 1 ==>
          transitions[i].to == transitions[j].from && transitions[i].at <= transitions[j].at)
    && (forall i :: 0 <= i < |transitions| ==> transitions[i].from != transitions[i].to && Labelled(transitions[i]))
  }

  /** A transition says why: a new window by a gap, the end by bad quality or pose, a review by a cycle;
      the others need no reason. */
  predicate Labelled(transition: Transition) {
    match transition.to
    case Detected => transition.reasons == [TrackGap]
    case Completed => transition.reasons == [QualityRejected] || transition.reasons == [PoseRejected]
    case Review => transition.reasons == [CycleDetected]
    case _ => transition.reasons == []
  }

  predicate PathUntil(t: Track, at: int) {
    Path(t.transitions, t.stage) && (t.transitions != [] ==> t.transitions[|t.transitions| - 1].at <= at)
  }

  lemma ShiftKeepsPath(t: Track, to: Stage, at: int, reasons: seq<Reason>)
    requires PathUntil(t, at) && Labelled(Transition(t.stage, to, at, reasons))
    ensures PathUntil(Shift(t, to, at, reasons), at)
  {
  }

  lemma QualityKeepsPath(t: Track, o: Observation)
    requires PathUntil(t, o.at)
    ensures PathUntil(QualityGate(t, o), o.at)
  {
    ShiftKeepsPath(t, Completed, o.at, [QualityRejected]);
    ShiftKeepsPath(t, Quality, o.at, []);
  }

  lemma PoseKeepsPath(t: Track, o: Observation)
    requires PathUntil(t, o.at)
    ensures PathUntil(PoseGate(t, o), o.at)
  {
    ShiftKeepsPath(t, Completed, o.at, [PoseRejected]);
    ShiftKeepsPath(t, Pose, o.at, []);
  }

  lemma LaterGatesKeepPath(t: Track, o: Observation)
    requires PathUntil(t, o.at)
    ensures PathUntil(ObjectGate(t, o), o.at) && PathUntil(EvidenceGate(t, o), o.at) && PathUntil(CycleGate(t, o), o.at)
  {
    ShiftKeepsPath(t, Object, o.at, []);
    ShiftKeepsPath(t, Temporal, o.at, []);
    ShiftKeepsPath(t, Review, o.at, [CycleDetected]);
  }

  lemma AdvanceKeepsPath(t: Track, o: Observation)
    requires PathUntil(t, o.at)
    ensures PathUntil(Advance(t, o), o.at)
  {
    QualityKeepsPath(t, o);
    var t1 := QualityGate(t, o);
    PoseKeepsPath(t1, o);
    var t2 := PoseGate(t1, o);
    LaterGatesKeepPath(t2, o);
    var t3 := ObjectGate(t2, o);
    LaterGatesKeepPath(t3, o);
    LaterGatesKeepPath(EvidenceGate(t3, o), o);
  }

  /** The stage of a grown window follows from the stage before and the new observation alone. */
  lemma StageStep(config: Config, w: seq<Observation>, o: Observation, t: Track)
    requires t.detector == Cycles.Detect(config.cycle, w + [o])
    requires t.stage == StageOf(config, w)
    ensures Advance(t, o).stage == StageOf(config, w + [o])
  {
    Cycles.CyclesGrow(config.cycle, w, o);
    OneMore(w, o);
    var cycles := Cycles.Detect(config.cycle, w).cycles != [];
    assert w == [] ==> !cycles && !SomeIneligible(w) && !SomeEvidence(w);
    AdvanceStage(t, o, w == [], SomeIneligible(w), SomeEvidence(w), cycles);
  }

  lemma AdvanceStage(t: Track, o: Observation, empty: bool, ineligible: bool, evidence: bool, cycles: bool)
    requires t.stage == Summary(empty, ineligible, evidence, cycles)
    requires empty ==> !ineligible && !evidence && !cycles
    requires cycles ==> t.CycleCount() > 0
    ensures Advance(t, o).stage ==
            Summary(false, ineligible || !o.Eligible(), evidence || ShowsEvidence(o), t.CycleCount() > 0)
  {
  }

  lemma OneMore(w: seq<Observation>, o: Observation)
    ensures SomeIneligible(w + [o]) <==> SomeIneligible(w) || !o.Eligible()
    ensures SomeEvidence(w + [o]) <==> SomeEvidence(w) || ShowsEvidence(o)
  {
    var w' := w + [o];
    assert w'[|w|] == o && forall i :: 0 <= i < |w| ==> w'[i] == w[i];
  }

  predicate Recomputed(config: Config, t: Track) {
    && t.detector == Cycles.Detect(config.cycle, t.window)
    && t.stage == StageOf(config, t.window)
    && Path(t.transitions, t.stage)
    && (t.transitions != [] ==> t.last.Some? && t.transitions[|t.transitions| - 1].at <= t.last.value)
  }

  lemma OpenedIsRecomputed(config: Config, t: Track, o: Observation)
    requires Recomputed(config, t) && (t.window == [] <==> t.last == None)
    requires t.last.Some? ==> t.last.value <= o.at
    ensures var base := Opened(config, t, o);
            && base.detector == Cycles.Detect(config.cycle, base.window) && base.stage == StageOf(config, base.window)
            && PathUntil(base, o.at)
  {
  }

  lemma AcceptStep(config: Config, base: Track, o: Observation)
    requires base.detector == Cycles.Detect(config.cycle, base.window) && base.stage == StageOf(config, base.window)
    requires PathUntil(base, o.at)
    ensures Recomputed(config, Advance(Appended(config, base, o), o))
  {
    var grown := Appended(config, base, o);
    Cycles.DetectStep(config.cycle, base.window, o);
    StageStep(config, base.window, o, grown);
    AdvanceKeepsPath(grown, o);
    AdvanceFrame(grown, o);
  }

  lemma RecomputedStep(config: Config, t: Track, o: Observation)
    requires Recomputed(config, t) && (t.window == [] <==> t.last == None)
    ensures Recomputed(config, Ingest(config, t, o).0)
  {
    var noted := t.(seen := t.seen + {FingerprintOf(o)});
    if FingerprintOf(o) !in t.seen && (t.last.Some? ==> t.last.value <= o.at) {
      OpenedIsRecomputed(config, noted, o);
      AcceptStep(config, Opened(config, noted, o), o);
    }
  }

  /** Incremental equals batch: the live detector is a fresh one run over the window, the stage is the
      declared function of the window, and the transitions are one connected path ending there. */
  lemma {:induction false} IncrementalIsBatch(config: Config, ms: seq<Observation>)
    ensures Recomputed(config, Ingested(config, ms))
  {
    if ms != [] {
      var front := ms[..|ms| - 1];
      IncrementalIsBatch(config, front);
      WindowIsLongestSuffix(config, front);
      RecomputedStep(config, Ingested(config, front), ms[|ms| - 1]);
    }
  }

  /** More than the tolerance after the last accepted message. */
  predicate FarFrom(accepted: seq<Observation>, o: Observation, toleranceMs: int) {
    accepted != [] && o.at > accepted[|accepted| - 1].at + toleranceMs * 1_000_000
  }

  /** A track ends with the observation that was not good enough, for quality before pose. */
  lemma CompletedBecause(t: Track, o: Observation)
    requires t.stage != Completed && Advance(t, o).stage == Completed
    ensures var transitions := Advance(t, o).transitions;
            && transitions != [] && !(o.qualityEligible && o.poseEligible)
            && var last := transitions[|transitions| - 1];
            && last.to == Completed && last.at == o.at
            && last.reasons == if o.qualityEligible then [PoseRejected] else [QualityRejected]
  {
  }

  lemma ReasonsOf(config: Config, t: Track, o: Observation, accepted: seq<Observation>)
    requires t.last == if accepted == [] then None else Some(accepted[|accepted| - 1].at)
    ensures var reasons, late := Ingest(config, t, o).1, t.last.Some? && o.at < t.last.value;
            && (reasons == [Redelivered] <==> FingerprintOf(o) in t.seen)
            && (reasons == [OutOfOrder] <==> FingerprintOf(o) !in t.seen && late)
            && var kept, far := FingerprintOf(o) !in t.seen && !late, FarFrom(accepted, o, config.toleranceMs);
            && (reasons == [TrackGap] <==> kept && far)
            && (reasons == [] <==> kept && !far)
  {
  }

  /** The reasons reported for a message say what became of it. */
  lemma ReportedReasons(config: Config, ms: seq<Observation>, o: Observation)
    ensures var reasons := Ingest(config, Ingested(config, ms), o).1;
            var accepted, far := IsAccepted(ms + [o], |ms|), FarFrom(Accepted(ms), o, config.toleranceMs);
            && (reasons == [Redelivered] <==> !IsFirst(ms + [o], |ms|))
            && (reasons == [OutOfOrder] <==> IsFirst(ms + [o], |ms|) && !accepted)
            && (reasons == [TrackGap] <==> accepted && far)
            && (reasons == [] <==> accepted && !far)
  {
    var t := Ingested(config, ms);
    var k := WindowStarts(config, ms);
    ReasonsOf(config, t, o, Accepted(ms));
    SeenAndClock(config, ms);
    Classified(ms, o, t.seen, t.last);
  }

  // ----- re-deliveries

  lemma FirstsStep(ms: seq<Observation>, o: Observation)
    ensures Firsts(ms + [o]) == Firsts(ms) + if IsFirst(ms + [o], |ms|) then [o] else []
  {
    assert (ms + [o])[..|ms|] == ms && (ms + [o])[|ms|] == o;
  }

  lemma SameStep(config: Config, ms: seq<Observation>, other: seq<Observation>, o: Observation)
    requires Ingested(config, ms) == Ingested(config, other)
    ensures Ingested(config, ms + [o]) == Ingested(config, other + [o])
  {
    IngestedStep(config, ms, o);
    IngestedStep(config, other, o);
  }

  lemma Ignored(config: Config, ms: seq<Observation>, again: Observation)
    requires exists i :: 0 <= i < |ms| && FingerprintOf(ms[i]) == FingerprintOf(again)
    ensures Ingested(config, ms + [again]) == Ingested(config, ms)
  {
    assert !IsFirst(ms + [again], |ms|) by {
      var i :| 0 <= i < |ms| && FingerprintOf(ms[i]) == FingerprintOf(again);
      assert (ms + [again])[i] == ms[i];
    }
    SeenAndClock(config, ms);
    NextMessage(config, ms, again);
  }

  /** Striking out every re-delivery leaves the track exactly as it was. */
  lemma {:induction false} RedeliveriesDoNotMatter(config: Config, ms: seq<Observation>)
    ensures Ingested(config, ms) == Ingested(config, Firsts(ms))
  {
    if ms != [] {
      var front, o := ms[..|ms| - 1], ms[|ms| - 1];
      assert ms == front + [o];
      RedeliveriesDoNotMatter(config, front);
      FirstsStep(front, o);
      if IsFirst(front + [o], |front|) {
        SameStep(config, front, Firsts(front), o);
      } else {
        Ignored(config, front, o);
        assert Firsts(ms) == Firsts(front);
      }
    }
  }

  lemma SplitLast(ms: seq<Observation>, after: seq<Observation>)
    requires after != []
    ensures ms + after == (ms + after[..|after| - 1]) + [after[|after| - 1]]
  {
  }

  lemma {:induction false} SameAfter(config: Config, ms: seq<Observation>, other: seq<Observation>,
                                     after: seq<Observation>)
    requires Ingested(config, ms) == Ingested(config, other)
    ensures Ingested(config, ms + after) == Ingested(config, other + after)
  {
    if after == [] {
      assert ms + after == ms && other + after == other;
    } else {
      var front, o := after[..|after| - 1], after[|after| - 1];
      SameAfter(config, ms, other, front);
      SplitLast(ms, after);
      SplitLast(other, after);
      SameStep(config, ms + front, other + front, o);
    }
  }

  /** Inserting a re-delivery anywhere after its original changes nothing, now or later. */
  lemma InsertingRedelivery(config: Config, before: seq<Observation>, again: Observation, after: seq<Observation>)
    requires exists i :: 0 <= i < |before| && FingerprintOf(before[i]) == FingerprintOf(again)
    ensures Ingested(config, before + [again] + after) == Ingested(config, before + after)
  {
    Ignored(config, before, again);
    SameAfter(config, before + [again], before, after);
  }

  /** The window holds distinct messages in time order, so its detector filters nothing. */
  lemma {:induction false} WindowIsClean(config: Config, ms: seq<Observation>)
    ensures var t := Ingested(config, ms);
            Cycles.Clean(t.window) && forall i :: 0 <= i < |t.window| ==> FingerprintOf(t.window[i]) in t.seen
  {
    if ms != [] {
      var front, o := ms[..|ms| - 1], ms[|ms| - 1];
      assert ms == front + [o];
      WindowIsClean(config, front);
      IngestedCases(config, front, o);
      WindowIsLongestSuffix(config, ms);
    }
  }

  // ----- cycles and persistence

  /** The time a cycle takes is at least its reported interval. */
  lemma {:induction false} CyclesFit(config: Cycles.Config, s: seq<Observation>, cycles: seq<Cycles.Cycle>,
                                     first: int, k: nat)
    requires config.Valid() && k <= |cycles|
    requires forall i :: 0 <= i < |cycles| ==> Cycles.CycleOk(config, s, cycles[i])
    requires forall i, j :: 0 <= i < |cycles| && 0 <= j < |cycles| && j == i + 1 ==>
               cycles[i].retreat <= cycles[j].approach
    requires forall i :: 0 <= i < |s| ==> first <= s[i].at
    ensures k > 0 ==> cycles[k - 1].retreat - first >= k * config.minIntervalMs * MS
  {
    if k > 0 {
      var c := cycles[k - 1];
      assert Cycles.CycleOk(config, s, c);
      var i, j :| Cycles.WitnessedBy(config, s, c, i, j);
      assert first <= c.approach;
      assert c.retreat - c.approach >= config.minIntervalMs * MS;
      CyclesFit(config, s, cycles, first, k - 1);
      assert k * config.minIntervalMs * MS == (k - 1) * config.minIntervalMs * MS + config.minIntervalMs * MS;
    }
  }

  lemma {:induction false} GapsAddUp(w: seq<Observation>, toleranceMs: int, k: nat)
    requires GapFree(w, toleranceMs) && k < |w|
    ensures w[k].at - w[0].at <= k * toleranceMs * MS
  {
    if k > 0 {
      GapsAddUp(w, toleranceMs, k - 1);
      assert w[k].at - w[k - 1].at <= toleranceMs * MS;
      assert k * toleranceMs * MS == (k - 1) * toleranceMs * MS + toleranceMs * MS;
    }
  }

  lemma FloorBounds(x: int, lo: int, hi: int)
    requires lo * MS <= x <= hi * MS
    ensures lo <= x / MS <= hi
  {
  }

  lemma LastCycleInside(config: Cycles.Config, w: seq<Observation>)
    requires w != [] && Ordered(w) && Cycles.Detect(config, w).cycles != []
    ensures var cycles := Cycles.Detect(config, w).cycles; cycles[|cycles| - 1].retreat <= w[|w| - 1].at
  {
    Cycles.DetectedCyclesAreReal(config, w);
    var cycles := Cycles.Detect(config, w).cycles;
    var c := cycles[|cycles| - 1];
    assert Cycles.CycleOk(config, w, c);
    var i, j :| Cycles.WitnessedBy(config, w, c, i, j);
    assert w[j].at <= w[|w| - 1].at;
  }

  lemma SpanBounds(config: Config, w: seq<Observation>)
    requires config.Valid() && w != [] && Ordered(w) && GapFree(w, config.toleranceMs)
    ensures |Cycles.Detect(config.cycle, w).cycles| * config.cycle.minIntervalMs <= (w[|w| - 1].at - w[0].at) / MS
            <= (|w| - 1) * config.toleranceMs
  {
    Cycles.DetectedCyclesAreReal(config.cycle, w);
    var cycles := Cycles.Detect(config.cycle, w).cycles;
    GapsAddUp(w, config.toleranceMs, |w| - 1);
    CyclesFit(config.cycle, w, cycles, w[0].at, |cycles|);
    if cycles != [] { LastCycleInside(config.cycle, w); }
    FloorBounds(w[|w| - 1].at - w[0].at, |cycles| * config.cycle.minIntervalMs, (|w| - 1) * config.toleranceMs);
  }

  /** For every reachable track with a non-empty window: cycles are ordered, disjoint and inside the
      window, and the reported persistence lies between what they need and what the gaps allow. */
  lemma PersistenceBounds(config: Config, ms: seq<Observation>)
    requires config.Valid()
    ensures var t := Ingested(config, ms);
            && Cycles.DetectorOk(config.cycle, t.window, t.detector)
            && (t.window != [] ==>
                  && t.PersistenceMs() == (t.window[|t.window| - 1].at - t.window[0].at) / 1_000_000
                  && t.CycleCount() * config.cycle.minIntervalMs <= t.PersistenceMs()
                  && t.PersistenceMs() <= (|t.window| - 1) * config.toleranceMs)
  {
    var t := Ingested(config, ms);
    IncrementalIsBatch(config, ms);
    WindowIsLongestSuffix(config, ms);
    Cycles.DetectedCyclesAreReal(config.cycle, t.window);
    if t.window != [] { SpanBounds(config, t.window); }
  }
}
