/** Ordered aggregation of one camera/track pair: re-deliveries, gaps, stages. */
module Tracks {
  import opened Options
  import opened Observations
  import Cycles

  datatype Stage = Detected | Quality | Pose | Object | Temporal | Review | Completed

  datatype Reason = QualityRejected | PoseRejected | CycleDetected | OutOfOrder | Redelivered | TrackGap

  datatype Transition = Transition(from: Stage, to: Stage, at: int, reasons: seq<Reason>)

  datatype Config = Config(toleranceMs: int, cycle: Cycles.Config) {
    predicate Valid() {
      toleranceMs >= 0 && cycle.Valid()
    }
  }

  datatype Track = Track(
    stage: Stage,
    first: Option<int>,
    last: Option<int>,
    window: seq<Observation>,
    transitions: seq<Transition>,
    seen: set<Fingerprint>,
    detector: Cycles.Detector)
  {
    function CycleCount(): nat {
      |detector.cycles|
    }

    /** `persistence_ms`. */
    function PersistenceMs(): int {
      if first == None || last == None then 0 else (last.value - first.value) / MS
    }
  }

  const START: Track := Track(Detected, None, None, [], [], {}, Cycles.FRESH)

  function Shift(t: Track, to: Stage, at: int, reasons: seq<Reason>): Track {
    if t.stage == to then t
    else t.(stage := to, transitions := t.transitions + [Transition(t.stage, to, at, reasons)])
  }

  predicate ShowsEvidence(o: Observation) {
    o.objectLabel.Some? || o.smokeScore > 0.0
  }

  function QualityGate(t: Track, o: Observation): Track {
    if !o.qualityEligible then Shift(t, Completed, o.at, [QualityRejected])
    else if t.stage == Detected then Shift(t, Quality, o.at, [])
    else t
  }

  function PoseGate(t: Track, o: Observation): Track {
    if o.qualityEligible && !o.poseEligible then Shift(t, Completed, o.at, [PoseRejected])
    else if o.qualityEligible && t.stage == Quality then Shift(t, Pose, o.at, [])
    else t
  }

  function ObjectGate(t: Track, o: Observation): Track {
    if o.qualityEligible && o.poseEligible && t.stage == Pose then Shift(t, Object, o.at, []) else t
  }

  function EvidenceGate(t: Track, o: Observation): Track {
    if t.stage == Object && ShowsEvidence(o) then Shift(t, Temporal, o.at, []) else t
  }

  function CycleGate(t: Track, o: Observation): Track {
    if t.stage == Temporal && t.CycleCount() > 0 then Shift(t, Review, o.at, [CycleDetected]) else t
  }

  /** The cascade of stage checks after an observation has been appended. */
  function Advance(t: Track, o: Observation): Track {
    CycleGate(EvidenceGate(ObjectGate(PoseGate(QualityGate(t, o), o), o), o), o)
  }

  predicate Gap(config: Config, t: Track, o: Observation) {
    t.last.Some? && o.at - t.last.value > config.toleranceMs * MS
  }

  /** A gap beyond the tolerance opens a new window on the same track. */
  function Opened(config: Config, t: Track, o: Observation): Track {
    if Gap(config, t, o) then
      t.(window := [], detector := Cycles.FRESH, first := Some(o.at), stage := Detected,
         transitions := t.transitions + [Transition(t.stage, Detected, o.at, [TrackGap])])
    else if t.first == None then t.(first := Some(o.at))
    else t
  }

  function Appended(config: Config, t: Track, o: Observation): Track {
    t.(last := Some(o.at), window := t.window + [o], detector := Cycles.Observe(config.cycle, t.detector, o))
  }

  function Ingest(config: Config, t: Track, o: Observation): (Track, seq<Reason>) {
    if FingerprintOf(o) in t.seen then (t, [Redelivered])
    else
      var noted := t.(seen := t.seen + {FingerprintOf(o)});
      if t.last.Some? && o.at < t.last.value then (noted, [OutOfOrder])
      else (Advance(Appended(config, Opened(config, noted, o), o), o), if Gap(config, t, o) then [TrackGap] else [])
  }

  /** The track after a message sequence. */
  function Ingested(config: Config, ms: seq<Observation>): Track {
    if ms == [] then START else Ingest(config, Ingested(config, ms[..|ms| - 1]), ms[|ms| - 1]).0
  }

  class TrackState {
    const config: Config
    var stage: Stage
    var first: Option<int>
    var last: Option<int>
    var window: seq<Observation>
    var transitions: seq<Transition>
    var seen: set<Fingerprint>
    var detector: Cycles.CycleDetector

    ghost predicate Valid()
      reads this, detector
    {
      detector.config == config.cycle
    }

    ghost function Snapshot(): Track
      reads this, detector
    {
      Track(stage, first, last, window, transitions, seen, detector.Snapshot())
    }

    constructor (config: Config)
      ensures Valid() && fresh(detector) && this.config == config && Snapshot() == START
    {
      this.config := config;
      stage, first, last, window, transitions, seen := Detected, None, None, [], [], {};
      detector := new Cycles.CycleDetector(config.cycle);
    }

    method MoveTo(to: Stage, at: int, reasons: seq<Reason>)
      requires Valid()
      modifies this`stage, this`transitions
      ensures Valid() && Snapshot() == Shift(old(Snapshot()), to, at, reasons)
    {
      if stage != to {
        transitions := transitions + [Transition(stage, to, at, reasons)];
        stage := to;
      }
    }

    method MoveOn(o: Observation)
      requires Valid()
      modifies this`stage, this`transitions
      ensures Valid() && Snapshot() == Advance(old(Snapshot()), o)
    {
      if !o.qualityEligible {
        MoveTo(Completed, o.at, [QualityRejected]);
      } else if stage == Detected {
        MoveTo(Quality, o.at, []);
      }
      if o.qualityEligible && !o.poseEligible {
        MoveTo(Completed, o.at, [PoseRejected]);
      } else if o.qualityEligible && stage == Quality {
        MoveTo(Pose, o.at, []);
      }
      if o.qualityEligible && o.poseEligible && stage == Pose {
        MoveTo(Object, o.at, []);
      }
      if stage == Object && ShowsEvidence(o) {
        MoveTo(Temporal, o.at, []);
      }
      if stage == Temporal && |detector.cycles| > 0 {
        MoveTo(Review, o.at, [CycleDetected]);
      }
    }

    method IngestOne(o: Observation) returns (reasons: seq<Reason>)
      requires Valid()
      modifies this, detector
      ensures Valid() && (detector == old(detector) || fresh(detector))
      ensures (Snapshot(), reasons) == Ingest(config, old(Snapshot()), o)
    {
      if FingerprintOf(o) in seen { return [Redelivered]; }
      seen := seen + {FingerprintOf(o)};
      if last.Some? && o.at < last.value { return [OutOfOrder]; }
      reasons := OpenWindow(o);
      last := Some(o.at);
      window := window + [o];
      var found := detector.ObserveOne(o);
      MoveOn(o);
    }

    /** A gap forgets the window and its detector, but not what was seen. */
    method OpenWindow(o: Observation) returns (reasons: seq<Reason>)
      requires Valid()
      modifies this`window, this`detector, this`first, this`stage, this`transitions
      ensures Valid() && (detector == old(detector) || fresh(detector))
      ensures Snapshot() == Opened(config, old(Snapshot()), o)
      ensures reasons == if Gap(config, old(Snapshot()), o) then [TrackGap] else []
    {
      reasons := [];
      if last.Some? && o.at - last.value > config.toleranceMs * MS {
        window := [];
        detector := new Cycles.CycleDetector(config.cycle);
        first := Some(o.at);
        var previous := stage;
        stage := Detected;
        transitions := transitions + [Transition(previous, Detected, o.at, [TrackGap])];
        reasons := [TrackGap];
      } else if first == None {
        first := Some(o.at);
      }
    }
  }
}
