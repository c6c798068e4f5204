/** The cascade engine: a track and the evidence policy applied to its window. */
module Engine {
  import opened Observations
  import Cycles
  import T = Tracks
  import H = TrackHistory
  import V = Evidence

  datatype Policy = Policy(track: T.Config, evidence: V.Config) {
    predicate Valid() {
      track.Valid() && evidence.Valid()
    }
  }

  function Decide(policy: Policy, t: T.Track): V.Decision {
    V.Evaluate(policy.evidence, t.window, t.CycleCount())
  }

  /** The decision after a message sequence. */
  function Decided(policy: Policy, ms: seq<Observation>): V.Decision {
    Decide(policy, T.Ingested(policy.track, ms))
  }

  class CascadeEngine {
    const policy: Policy
    var track: T.TrackState
    var lastReasons: seq<T.Reason>

    ghost predicate Valid()
      reads this, track, track.detector
    {
      track.config == policy.track && track.Valid()
    }

    constructor (policy: Policy)
      ensures Valid() && this.policy == policy && track.Snapshot() == T.START && lastReasons == []
      ensures fresh(track) && fresh(track.detector)
    {
      this.policy := policy;
      track := new T.TrackState(policy.track);
      lastReasons := [];
    }

    method Ingest(o: Observation) returns (decision: V.Decision)
      requires Valid()
      modifies this`lastReasons, track, track.detector
      ensures Valid() && (track.detector == old(track.detector) || fresh(track.detector))
      ensures (track.Snapshot(), lastReasons) == T.Ingest(policy.track, old(track.Snapshot()), o)
      ensures decision == Decide(policy, track.Snapshot())
    {
      lastReasons := track.IngestOne(o);
      decision := V.Evaluate(policy.evidence, track.window, |track.detector.cycles|);
    }
  }

  predicate AllValid(ms: seq<Observation>) {
    forall i :: 0 <= i < |ms| ==> ms[i].Valid()
  }

  lemma {:induction false} AcceptedAreMessages(ms: seq<Observation>, o: Observation)
    requires o in Accepted(ms)
    ensures o in ms
  {
    if ms != [] && o in Accepted(ms[..|ms| - 1]) {
      AcceptedAreMessages(ms[..|ms| - 1], o);
    }
  }

  lemma WindowIsValid(config: T.Config, ms: seq<Observation>)
    requires AllValid(ms)
    ensures AllValid(T.Ingested(config, ms).window)
  {
    H.WindowIsLongestSuffix(config, ms);
    var w := T.Ingested(config, ms).window;
    forall i | 0 <= i < |w| ensures w[i].Valid() {
      assert w[i] in Accepted(ms);
      AcceptedAreMessages(ms, w[i]);
    }
  }

  /** The engine verifies, and then alone allows audio, exactly when the window is convincing with the
      cycles a fresh detector finds in it, each of them standing on a real approach and retreat. */
  lemma EngineVerifiedIff(policy: Policy, ms: seq<Observation>)
    requires policy.Valid() && AllValid(ms)
    ensures var w := T.Ingested(policy.track, ms).window;
            var d := Cycles.Detect(policy.track.cycle, w);
            && (Decided(policy, ms).outcome == V.Verified <==> V.Convincing(policy.evidence, w, |d.cycles|))
            && (Decided(policy, ms).audioEligible <==> Decided(policy, ms).outcome == V.Verified)
            && Cycles.DetectorOk(policy.track.cycle, w, d)
  {
    var t := T.Ingested(policy.track, ms);
    H.IncrementalIsBatch(policy.track, ms);
    Cycles.DetectedCyclesAreReal(policy.track.cycle, t.window);
    WindowIsValid(policy.track, ms);
    V.VerifiedIff(policy.evidence, t.window, t.CycleCount());
  }

  /** A verified track stands at `Object` or `Review`, never anywhere else. */
  lemma VerifiedStage(policy: Policy, ms: seq<Observation>)
    requires policy.Valid() && AllValid(ms) && Decided(policy, ms).outcome == V.Verified
    ensures T.Ingested(policy.track, ms).stage in {T.Object, T.Review}
  {
    EngineVerifiedIff(policy, ms);
    H.IncrementalIsBatch(policy.track, ms);
  }

  predicate SpoiledAt(w: seq<Observation>, i: int) {
    0 <= i < |w| && (V.Vetoes(w[i]) || !w[i].Eligible())
  }

  /** Message `o`, arriving after `ms`, opens a new window. */
  predicate GapAt(config: T.Config, ms: seq<Observation>, o: Observation) {
    T.Ingest(config, T.Ingested(config, ms), o).1 == [T.TrackGap]
  }

  /** No message of `more`, arriving after `ms`, is separated by a track gap. */
  predicate NoGap(config: T.Config, ms: seq<Observation>, more: seq<Observation>) {
    forall k {:trigger more[..k]} :: 0 <= k < |more| ==> !GapAt(config, ms + more[..k], more[k])
  }

  lemma WindowGrowsWithoutGap(config: T.Config, t: T.Track, o: Observation)
    requires T.Ingest(config, t, o).1 != [T.TrackGap]
    ensures t.window <= T.Ingest(config, t, o).0.window
  {
    H.IngestCases(config, t, o);
  }

  lemma WindowGrowsByOne(config: T.Config, ms: seq<Observation>, o: Observation)
    requires !GapAt(config, ms, o)
    ensures T.Ingested(config, ms).window <= T.Ingested(config, ms + [o]).window
  {
    H.IngestedStep(config, ms, o);
    WindowGrowsWithoutGap(config, T.Ingested(config, ms), o);
  }

  lemma SplitAt(ms: seq<Observation>, more: seq<Observation>, n: nat)
    requires 0 < n <= |more|
    ensures ms + more[..n] == (ms + more[..n - 1]) + [more[n - 1]]
  {
  }

  lemma {:induction false} WindowGrows(config: T.Config, ms: seq<Observation>, more: seq<Observation>, n: nat)
    requires NoGap(config, ms, more) && n <= |more|
    ensures T.Ingested(config, ms).window <= T.Ingested(config, ms + more[..n]).window
  {
    if n == 0 {
      assert ms + more[..0] == ms;
    } else {
      WindowGrows(config, ms, more, n - 1);
      SplitAt(ms, more, n);
      WindowGrowsByOne(config, ms + more[..n - 1], more[n - 1]);
    }
  }

  /** After a vetoed or ineligible observation nothing is verified until a track gap. */
  lemma SpoiledUntilGap(policy: Policy, ms: seq<Observation>, more: seq<Observation>, i: int)
    requires policy.Valid() && AllValid(ms + more)
    requires SpoiledAt(T.Ingested(policy.track, ms).window, i) && NoGap(policy.track, ms, more)
    ensures Decided(policy, ms + more).outcome != V.Verified && !Decided(policy, ms + more).audioEligible
  {
    WindowGrows(policy.track, ms, more, |more|);
    assert more[..|more|] == more;
    EngineVerifiedIff(policy, ms + more);
    assert SpoiledAt(T.Ingested(policy.track, ms + more).window, i);
  }

  /** Re-deliveries change no decision. */
  lemma DecisionsIgnoreRedeliveries(policy: Policy, ms: seq<Observation>)
    ensures Decided(policy, ms) == Decided(policy, Firsts(ms))
  {
    H.RedeliveriesDoNotMatter(policy.track, ms);
  }
}
