/** The cycle detector on any input: re-deliveries and late messages count for nothing. */
module CycleHistory {
  import opened Options
  import opened Observations
  import opened Cycles
  import H = TrackHistory

  // ----- the accepted messages are distinct and in order

  lemma {:induction false} AcceptedIsFirst(ms: seq<Observation>, x: Observation) returns (i: nat)
    requires x in Accepted(ms)
    ensures i < |ms| && ms[i] == x && IsFirst(ms, i)
  {
    var front, last := ms[..|ms| - 1], |ms| - 1;
    if x in Accepted(front) {
      i := AcceptedIsFirst(front, x);
      assert IsFirst(ms, i);
    } else {
      i := last;
    }
  }

  lemma AcceptedBefore(ms: seq<Observation>, o: Observation, x: Observation)
    requires IsAccepted(ms + [o], |ms|) && x in Accepted(ms)
    ensures x.at <= o.at && FingerprintOf(x) != FingerprintOf(o)
  {
    var i := AcceptedIsFirst(ms, x);
    H.FirstsOfPrefix(ms, o);
    assert IsFirst(ms + [o], i) && (ms + [o])[i] == x && (ms + [o])[|ms|] == o;
  }

  lemma CleanAppend(s: seq<Observation>, o: Observation)
    requires Clean(s) && forall x :: x in s ==> x.at <= o.at && FingerprintOf(x) != FingerprintOf(o)
    ensures Clean(s + [o])
  {
    forall i | 0 <= i < |s| ensures s[i].at <= o.at && FingerprintOf(s[i]) != FingerprintOf(o) {
      assert s[i] in s;
    }
  }

  lemma {:induction false} AcceptedIsClean(ms: seq<Observation>)
    ensures Clean(Accepted(ms))
  {
    if ms != [] {
      var front, o := ms[..|ms| - 1], ms[|ms| - 1];
      assert ms == front + [o];
      AcceptedIsClean(front);
      H.AcceptedStep(front, o);
      if IsAccepted(front + [o], |front|) {
        forall x | x in Accepted(front) ensures x.at <= o.at && FingerprintOf(x) != FingerprintOf(o) {
          AcceptedBefore(front, o, x);
        }
        CleanAppend(Accepted(front), o);
      }
    }
  }

  // ----- the detector sees the accepted messages only

  /** Same cycles, same open approach. */
  predicate Same(d: Detector, e: Detector) {
    d.cycles == e.cycles && d.approach == e.approach
  }

  lemma ReactSame(config: Config, d: Detector, e: Detector, o: Observation)
    requires Same(d, e)
    ensures Same(React(config, d, o), React(config, e, o))
    ensures React(config, d, o).seen == d.seen && React(config, d, o).last == d.last
  {
  }

  predicate Tracks(ms: seq<Observation>, d: Detector, e: Detector) {
    H.Keys(ms, d.seen) && H.Clock(ms, d.last) && Same(d, e)
  }

  lemma ObserveTracks(config: Config, ms: seq<Observation>, o: Observation, d: Detector, e: Detector, e': Detector)
    requires Tracks(ms, d, e)
    requires if IsAccepted(ms + [o], |ms|) then Same(e', React(config, e.(last := Some(o.at)), o)) else e' == e
    ensures Tracks(ms + [o], Observe(config, d, o), e')
  {
    var d', seen := Observe(config, d, o), d.seen + {FingerprintOf(o)};
    H.Classified(ms, o, d.seen, d.last);
    if IsAccepted(ms + [o], |ms|) {
      ReactSame(config, d.(seen := seen, last := Some(o.at)), e.(last := Some(o.at)), o);
    } else if FingerprintOf(o) in d.seen {
      assert seen == d.seen;
    }
    H.KeysStep(ms, o, d.seen, d'.seen);
    H.ClockStep(ms, o, d.last, d'.last);
  }

  /** On any input the detector finds exactly the cycles, and holds exactly the approach, that it finds and
      holds on the accepted messages: the first of each retry key, none older than an earlier one. */
  lemma {:induction false} DetectorFilters(config: Config, ms: seq<Observation>)
    ensures Tracks(ms, Detect(config, ms), Detect(config, Accepted(ms)))
    ensures Clean(Accepted(ms))
  {
    AcceptedIsClean(ms);
    if ms != [] {
      var front, o := ms[..|ms| - 1], ms[|ms| - 1];
      assert ms == front + [o];
      DetectorFilters(config, front);
      DetectStep(config, front, o);
      H.AcceptedStep(front, o);
      var e := Detect(config, Accepted(front));
      if IsAccepted(front + [o], |front|) {
        CleanStep(config, Accepted(front), o);
        ReactSame(config, e.(last := Some(o.at), seen := e.seen + {FingerprintOf(o)}), e.(last := Some(o.at)), o);
      } else {
        assert Accepted(ms) == Accepted(front);
      }
      ObserveTracks(config, front, o, Detect(config, front), e, Detect(config, Accepted(ms)));
    }
  }
}
