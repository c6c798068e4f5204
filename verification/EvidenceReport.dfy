/** The whole evidence decision, read off the observations: which veto is named, which reason wins, which
    signals are listed. */
module EvidenceReport {
  import opened Options
  import opened Observations
  import Sorting
  import V = Evidence
  import opened Evidence

  // ----- which veto is named

  /** The recognised names are tried in the order of strings. */
  lemma VetoesSorted(i: nat, j: nat)
    requires i <= j < |VETOES|
    ensures Sorting.LexLe(VETOES[i], VETOES[j])
    decreases j - i
  {
    if i == j {
      Sorting.LexTotal(VETOES[i], VETOES[j]);
    } else {
      NextVeto(i);
      VetoesSorted(i + 1, j);
      Sorting.LexTransitive(VETOES[i], VETOES[i + 1], VETOES[j]);
    }
  }

  lemma NextVeto(i: nat)
    requires i + 1 < |VETOES|
    ensures Sorting.LexLe(VETOES[i], VETOES[i + 1])
  {
    var a, b := VETOES[i], VETOES[i + 1];
    if i == 0 {
      assert a[..6] == "betel_" == b[..6];
      Sorting.LexByDifference(a, b, 6);
    } else if i == 2 {
      assert a[..1] == "c" == b[..1];
      Sorting.LexByDifference(a, b, 1);
    } else if i == 6 || i == 8 {
      Sorting.LexByPrefix(a, b);
    } else if i == 9 {
      assert a[..1] == "p" == b[..1];
      Sorting.LexByDifference(a, b, 1);
    } else {
      Sorting.LexByDifference(a, b, 0);
    }
  }

  /** `v` is the first recognised name of `names` in the order of strings. */
  predicate FirstName(names: set<string>, v: string) {
    v in names && Recognised(v) && forall w :: w in names && Recognised(w) ==> Sorting.LexLe(v, w)
  }

  lemma {:induction false} FirstVetoIs(names: set<string>, from: nat) returns (i: nat)
    requires from <= |VETOES| && FirstVeto(names, from).Some?
    ensures from <= i < |VETOES| && VETOES[i] in names && VetoCode(VETOES[i]) == FirstVeto(names, from)
    ensures forall j :: from <= j < i ==> VETOES[j] !in names
    decreases |VETOES| - from
  {
    if VETOES[from] in names {
      i := from;
    } else {
      i := FirstVetoIs(names, from + 1);
    }
  }

  lemma FirstVetoNamed(names: set<string>)
    ensures FirstVeto(names, 0) == None <==> forall v :: v in names ==> !Recognised(v)
    ensures FirstVeto(names, 0).Some? ==>
              exists v :: FirstName(names, v) && v in VetoNames(FirstVeto(names, 0).value)
  {
    FirstVetoFinds(names, 0);
    if FirstVeto(names, 0).Some? {
      var i := FirstVetoIs(names, 0);
      KnownVetoes(VETOES[i]);
      VetoCodeIff(VETOES[i], FirstVeto(names, 0).value);
      forall w | w in names && Recognised(w) ensures Sorting.LexLe(VETOES[i], w) {
        KnownVetoes(w);
        var j :| 0 <= j < |VETOES| && VETOES[j] == w;
        VetoesSorted(i, j);
      }
      assert FirstName(names, VETOES[i]);
    } else {
      forall v | v in names ensures !Recognised(v) {
        KnownVetoes(v);
      }
    }
  }

  /** The reason an observation is vetoed for: its first recognised veto name, else a hand at the nose,
      else its object. */
  predicate VetoedFor(o: Observation, code: Code) {
    if exists v :: v in o.vetoes && Recognised(v) then exists v :: FirstName(o.vetoes, v) && v in VetoNames(code)
    else if o.contact == Nose then code == NoseTouch
    else o.objectLabel.Some? && o.objectLabel.value in VetoNames(code)
  }

  lemma ObservationVetoedFor(o: Observation)
    requires ObservationVeto(o).Some?
    ensures VetoedFor(o, ObservationVeto(o).value)
  {
    FirstVetoNamed(o.vetoes);
    if FirstVeto(o.vetoes, 0) == None && o.contact != Nose {
      VetoCodeIff(o.objectLabel.value, ObservationVeto(o).value);
    }
  }

  /** The first vetoed observation names the reason. */
  lemma {:induction false} VetoReasonNamed(items: seq<Observation>) returns (i: nat)
    requires VetoReason(items).Some?
    ensures i < |items| && Vetoes(items[i]) && VetoedFor(items[i], VetoReason(items).value)
    ensures forall j :: 0 <= j < i ==> !Vetoes(items[j])
  {
    ObservationVetoIff(items[0]);
    if ObservationVeto(items[0]).Some? {
      ObservationVetoedFor(items[0]);
      i := 0;
    } else {
      var k := VetoReasonNamed(items[1..]);
      i := k + 1;
      forall j | 0 <= j < i ensures !Vetoes(items[j]) {
        assert j > 0 ==> items[j] == items[1..][j - 1];
      }
    }
  }

  // ----- which reason wins

  predicate SomeVeto(items: seq<Observation>) {
    exists i :: 0 <= i < |items| && Vetoes(items[i])
  }

  predicate SomeBadQuality(items: seq<Observation>) {
    exists i :: 0 <= i < |items| && !items[i].qualityEligible
  }

  predicate SomeBadPose(items: seq<Observation>) {
    exists i :: 0 <= i < |items| && !items[i].poseEligible
  }

  /** Too few cycles or too short. */
  predicate TooBrief(config: Config, items: seq<Observation>, cycleCount: nat) {
    cycleCount < config.minCycles || !Persists(items, config.minPersistenceMs)
  }

  /** What speaks against an announcement. */
  datatype Objections = Objections(veto: bool, quality: bool, pose: bool, failed: bool, brief: bool, few: bool)

  function Found(config: Config, items: seq<Observation>, cycleCount: nat): Objections {
    Objections(SomeVeto(items), SomeBadQuality(items), SomeBadPose(items), config.rejectOnUnclear && VlmFailed(items),
               TooBrief(config, items, cycleCount), SupportedFamilies(items) < config.minChannels)
  }

  /** The first objection, in this order, decides: a veto, bad quality, bad pose, a failed VLM, too little
      persistence, too few families of evidence.  Without any the track is verified and may be announced. */
  predicate Decides(o: Objections, d: Decision) {
    var tainted := o.veto || o.quality || o.pose;
    && (o.veto <==> exists code :: VetoNames(code) != {} && d.reasons == [code, IsRejected])
    && (!o.veto && o.quality <==> d.reasons == [QualityRejected, IsRejected])
    && (!o.veto && !o.quality && o.pose <==> d.reasons == [PoseRejected, IsRejected])
    && (!tainted && o.failed <==> d.outcome == Outcome.Unclear)
    && (!tainted && !o.failed && o.brief <==> d.reasons == [PersistenceInsufficient, IsRejected])
    && (!tainted && !o.failed && !o.brief && o.few <==> d.reasons == [IndependentEvidenceInsufficient, IsRejected])
    && var verified := !tainted && !o.failed && !o.brief && !o.few;
    && (verified <==> d.reasons == [CycleDetected, TwoIndependentChannels, IsVerified])
    && (verified <==> d.outcome == Verified) && (verified <==> d.audioEligible)
  }

  lemma ChainDecides(config: Config, items: seq<Observation>, cycleCount: nat, o: Objections)
    requires o.veto <==> VetoReason(items).Some?
    requires o.veto ==> VetoNames(VetoReason(items).value) != {}
    requires (o.quality <==> !AllQuality(items)) && (o.pose <==> !AllPose(items))
    requires o.failed <==> SomeBlocking(items) && config.rejectOnUnclear
    requires o.brief <==> cycleCount < config.minCycles || MaxPersistence(items) < config.minPersistenceMs
    requires o.few <==> |V.Positive(Signals(Scores(items)))| < config.minChannels
    ensures Decides(o, Evaluate(config, items, cycleCount))
    ensures Evaluate(config, items, cycleCount).cycleCount == cycleCount
  {
    var d := Evaluate(config, items, cycleCount);
    if o.veto { assert d.reasons == [VetoReason(items).value, IsRejected]; }
    OtherReasons();
  }

  /** The reasons that are not vetoes. */
  lemma OtherReasons()
    ensures VetoNames(QualityRejected) == VetoNames(PoseRejected) == VetoNames(PersistenceInsufficient) == {}
    ensures VetoNames(IndependentEvidenceInsufficient) == VetoNames(VlmTimeout) == VetoNames(VlmMalformed) == {}
    ensures VetoNames(VlmUnclear) == {}
  {
  }

  /** The decision on every input. */
  lemma DecisionReasons(config: Config, items: seq<Observation>, cycleCount: nat)
    requires forall i :: 0 <= i < |items| ==> items[i].Valid()
    ensures Decides(Found(config, items, cycleCount), Evaluate(config, items, cycleCount))
    ensures Evaluate(config, items, cycleCount).cycleCount == cycleCount
  {
    VetoReasonIff(items);
    BlockingIff(items);
    PersistenceIff(items, config.minPersistenceMs);
    PositiveCount(items);
    if SomeVeto(items) {
      var i := VetoReasonNamed(items);
      VetoCodes(items[i], VetoReason(items).value);
    }
    ChainDecides(config, items, cycleCount, Found(config, items, cycleCount));
  }

  lemma VetoCodes(o: Observation, code: Code)
    requires VetoedFor(o, code)
    ensures VetoNames(code) != {}
  {
    assert "nose" in VetoNames(NoseTouch);
  }

  // ----- which signals are listed

  /** Some observation brings the family up, be it with a score of zero. */
  predicate Mentions(o: Observation, f: Family) {
    || o.positiveChannels * Producers(f) != {}
    || (f == ObjectFamily && ShowsSmokingObject(o))
    || (f == SmokeFamily && o.smokeScore > 0.0)
  }

  predicate Mentioned(items: seq<Observation>, f: Family) {
    exists i :: 0 <= i < |items| && Mentions(items[i], f)
  }

  lemma ObservationMentions(scores: map<Family, real>, o: Observation, f: Family)
    ensures f in WithObservation(scores, o) <==> f in scores || Mentions(o, f)
  {
    FamiliesIff(o.positiveChannels, f);
  }

  lemma {:induction false} ScoredIffMentioned(items: seq<Observation>, f: Family)
    ensures f in Scores(items) <==> Mentioned(items, f)
  {
    if items != [] {
      var front, o := items[..|items| - 1], items[|items| - 1];
      ScoredIffMentioned(front, f);
      ObservationMentions(Scores(front), o, f);
      MentionedStep(front, o, f);
      assert items == front + [o];
    }
  }

  lemma MentionedStep(items: seq<Observation>, o: Observation, f: Family)
    ensures Mentioned(items + [o], f) <==> Mentioned(items, f) || Mentions(o, f)
  {
    var more := items + [o];
    assert more[|items|] == o && forall i :: 0 <= i < |items| ==> more[i] == items[i];
  }

  /** The place of a family by its name: object, smoke, temporal, vlm. */
  function Rank(f: Family): nat {
    match f
    case ObjectFamily => 0
    case SmokeFamily => 1
    case TemporalFamily => 2
    case VlmFamily => 3
  }

  predicate Lists(signals: seq<Signal>, f: Family) {
    exists i :: 0 <= i < |signals| && signals[i].family == f
  }

  lemma AppendLists(a: seq<Signal>, b: seq<Signal>, f: Family)
    ensures Lists(a + b, f) <==> Lists(a, f) || Lists(b, f)
  {
    var c := a + b;
    if Lists(a, f) {
      var i :| 0 <= i < |a| && a[i].family == f;
      assert c[i].family == f;
    }
    if Lists(b, f) {
      var i :| 0 <= i < |b| && b[i].family == f;
      assert c[|a| + i].family == f;
    }
  }

  lemma OneLists(scores: map<Family, real>, g: Family, f: Family)
    ensures Lists(SignalOf(scores, g), f) <==> f == g && g in scores
  {
    if g in scores { assert SignalOf(scores, g)[0].family == g; }
  }

  lemma SignalsList(scores: map<Family, real>, f: Family)
    ensures Lists(Signals(scores), f) <==> f in scores
  {
    var o, s := SignalOf(scores, ObjectFamily), SignalOf(scores, SmokeFamily);
    var t, v := SignalOf(scores, TemporalFamily), SignalOf(scores, VlmFamily);
    AppendLists(o + s + t, v, f);
    AppendLists(o + s, t, f);
    AppendLists(o, s, f);
    OneLists(scores, ObjectFamily, f);
    OneLists(scores, SmokeFamily, f);
    OneLists(scores, TemporalFamily, f);
    OneLists(scores, VlmFamily, f);
  }

  /** True to the scores, in order, and all before `rank`. */
  predicate InOrder(signals: seq<Signal>, scores: map<Family, real>, rank: nat) {
    && (forall i :: 0 <= i < |signals| ==> signals[i].family in scores && Rank(signals[i].family) < rank)
    && (forall i :: 0 <= i < |signals| && signals[i].family in scores ==>
          signals[i].score == scores[signals[i].family] && signals[i].positive == (signals[i].score > 0.0))
    && (forall i, j :: 0 <= i < j < |signals| ==> Rank(signals[i].family) < Rank(signals[j].family))
  }

  lemma OneMoreInOrder(signals: seq<Signal>, scores: map<Family, real>, f: Family)
    requires InOrder(signals, scores, Rank(f))
    ensures InOrder(signals + SignalOf(scores, f), scores, Rank(f) + 1)
  {
  }

  lemma SignalsInOrder(scores: map<Family, real>)
    ensures InOrder(Signals(scores), scores, 4)
  {
    var o, s := SignalOf(scores, ObjectFamily), SignalOf(scores, SmokeFamily);
    var t := SignalOf(scores, TemporalFamily);
    OneMoreInOrder([], scores, ObjectFamily);
    assert [] + o == o;
    OneMoreInOrder(o, scores, SmokeFamily);
    OneMoreInOrder(o + s, scores, TemporalFamily);
    OneMoreInOrder(o + s + t, scores, VlmFamily);
  }

  /** The decision lists, in the order of their names, exactly the families some observation mentions, each
      once, with its largest contribution, and as positive exactly when that is above zero. */
  lemma EvidenceListed(config: Config, items: seq<Observation>, cycleCount: nat)
    requires forall i :: 0 <= i < |items| ==> items[i].Valid()
    ensures var evidence := Evaluate(config, items, cycleCount).evidence;
            && (forall i, j :: 0 <= i < j < |evidence| ==> Rank(evidence[i].family) < Rank(evidence[j].family))
            && (forall f :: Lists(evidence, f) <==> Mentioned(items, f))
            && (forall i :: 0 <= i < |evidence| ==>
                  && evidence[i].score == Score(Scores(items), evidence[i].family)
                  && (evidence[i].positive <==> Supported(items, evidence[i].family)))
  {
    SignalsInOrder(Scores(items));
    forall f ensures Lists(Signals(Scores(items)), f) <==> Mentioned(items, f) {
      SignalsList(Scores(items), f);
      ScoredIffMentioned(items, f);
    }
    forall f ensures Score(Scores(items), f) > 0.0 <==> Supported(items, f) {
      PositiveIffSupported(items, f);
    }
    Carried(config, items, cycleCount);
  }

  lemma Carried(config: Config, items: seq<Observation>, cycleCount: nat)
    ensures Evaluate(config, items, cycleCount).evidence == Signals(Scores(items))
  {
  }
}
