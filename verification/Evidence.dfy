/** Evidence aggregation and veto precedence. */
module Evidence {
  import opened Options
  import opened Observations

  datatype Family = ObjectFamily | SmokeFamily | TemporalFamily | VlmFamily

  datatype Code =
    | NoseTouch | Chewing | Phone | Drink | Food | PenOrToothpick
    | QualityRejected | PoseRejected
    | VlmUnclear | VlmTimeout | VlmMalformed
    | PersistenceInsufficient | IndependentEvidenceInsufficient
    | CycleDetected | TwoIndependentChannels
    | IsVerified | IsRejected | IsUnclear

  datatype Outcome = Verified | Rejected | Unclear

  datatype Signal = Signal(family: Family, score: real, positive: bool)

  datatype Decision = Decision(outcome: Outcome, reasons: seq<Code>, evidence: seq<Signal>, audioEligible: bool,
                               cycleCount: nat)

  datatype Config = Config(minCycles: int, minPersistenceMs: int, minChannels: int, rejectOnUnclear: bool) {
    predicate Valid() {
      minCycles >= 1 && minPersistenceMs >= 0 && minChannels >= 1
    }
  }

  /** Producer names outside this list are not evidence. */
  function Alias(channel: string): Option<Family> {
    if channel in {"object", "cigarette", "vape", "heated_tobacco"} then Some(ObjectFamily)
    else if channel in {"smoke", "ember"} then Some(SmokeFamily)
    else if channel in {"temporal", "cycle"} then Some(TemporalFamily)
    else if channel == "vlm" then Some(VlmFamily)
    else None
  }

  predicate SmokingLabel(name: Option<string>) {
    name in {Some("cigarette"), Some("vape"), Some("heated_tobacco")}
  }

  function VetoCode(name: string): Option<Code> {
    if name in {"nose", "nose_touch"} then Some(NoseTouch)
    else if name in {"chewing", "betel_nut", "betel_quid"} then Some(Chewing)
    else if name == "phone" then Some(Phone)
    else if name in {"drink", "cup"} then Some(Drink)
    else if name == "food" then Some(Food)
    else if name in {"pen", "toothpick", "pen_toothpick"} then Some(PenOrToothpick)
    else None
  }

  /** The recognised veto names in sorted order, which is the order they are tried in. */
  const VETOES: seq<string> :=
    ["betel_nut", "betel_quid", "chewing", "cup", "drink", "food", "nose", "nose_touch", "pen", "pen_toothpick",
     "phone", "toothpick"]

  function FirstVeto(names: set<string>, from: nat): Option<Code>
    requires from <= |VETOES|
    decreases |VETOES| - from
  {
    if from == |VETOES| then None
    else if VETOES[from] in names then VetoCode(VETOES[from])
    else FirstVeto(names, from + 1)
  }

  function ObservationVeto(o: Observation): Option<Code> {
    if FirstVeto(o.vetoes, 0).Some? then FirstVeto(o.vetoes, 0)
    else if o.contact == Nose then Some(NoseTouch)
    else if o.objectLabel.Some? then VetoCode(o.objectLabel.value)
    else None
  }

  /** `_veto_reason`: the first observation that carries a veto decides. */
  function VetoReason(items: seq<Observation>): Option<Code> {
    if items == [] then None
    else if ObservationVeto(items[0]).Some? then ObservationVeto(items[0])
    else VetoReason(items[1..])
  }

  // ----- channels

  function Score(scores: map<Family, real>, f: Family): real {
    if f in scores then scores[f] else 0.0
  }

  function Raised(scores: map<Family, real>, f: Family, score: real): map<Family, real> {
    scores[f := if Score(scores, f) < score then score else Score(scores, f)]
  }

  function Families(channels: set<string>): set<Family> {
    set c | c in channels && Alias(c).Some? :: Alias(c).value
  }

  function RaisedAll(scores: map<Family, real>, families: set<Family>): map<Family, real> {
    map f | f in scores.Keys + families :: if f in families && Score(scores, f) < 1.0 then 1.0 else Score(scores, f)
  }

  function WithObservation(scores: map<Family, real>, o: Observation): map<Family, real> {
    var s1 := RaisedAll(scores, Families(o.positiveChannels));
    var s2 := if SmokingLabel(o.objectLabel) then Raised(s1, ObjectFamily, o.objectScore) else s1;
    if o.smokeScore > 0.0 then Raised(s2, SmokeFamily, o.smokeScore) else s2
  }

  function Scores(items: seq<Observation>): map<Family, real> {
    if items == [] then map[] else WithObservation(Scores(items[..|items| - 1]), items[|items| - 1])
  }

  lemma RaisedOneMore(scores: map<Family, real>, done: set<string>, c: string)
    ensures RaisedAll(scores, Families(done + {c})) ==
            if Alias(c).Some? then Raised(RaisedAll(scores, Families(done)), Alias(c).value, 1.0)
            else RaisedAll(scores, Families(done))
  {
    var families, more := Families(done), Families(done + {c});
    if Alias(c).Some? {
      assert more == families + {Alias(c).value};
    } else {
      assert more == families;
    }
  }

  /** The nested loops of `_canonical_channels`, channels taken in any order. */
  method CanonicalChannels(items: seq<Observation>) returns (scores: map<Family, real>)
    ensures scores == Scores(items)
  {
    scores := map[];
    for i := 0 to |items|
      invariant scores == Scores(items[..i])
    {
      var o := items[i];
      ghost var before := scores;
      var todo := o.positiveChannels;
      assert RaisedAll(before, Families({})) == before;
      while todo != {}
        invariant todo <= o.positiveChannels
        invariant scores == RaisedAll(before, Families(o.positiveChannels - todo))
        decreases todo
      {
        var c :| c in todo;
        RaisedOneMore(before, o.positiveChannels - todo, c);
        assert o.positiveChannels - (todo - {c}) == o.positiveChannels - todo + {c};
        if Alias(c).Some? {
          scores := Raised(scores, Alias(c).value, 1.0);
        }
        todo := todo - {c};
      }
      assert o.positiveChannels - todo == o.positiveChannels;
      if SmokingLabel(o.objectLabel) { scores := Raised(scores, ObjectFamily, o.objectScore); }
      if o.smokeScore > 0.0 { scores := Raised(scores, SmokeFamily, o.smokeScore); }
      assert items[..i + 1][..i] == items[..i];
    }
    assert items[..|items|] == items;
  }

  /** The producer names that speak for a family; all others are no evidence. */
  function Producers(f: Family): set<string> {
    match f
    case ObjectFamily => {"object", "cigarette", "vape", "heated_tobacco"}
    case SmokeFamily => {"smoke", "ember"}
    case TemporalFamily => {"temporal", "cycle"}
    case VlmFamily => {"vlm"}
  }

  lemma AliasIff(c: string, f: Family)
    ensures Alias(c) == Some(f) <==> c in Producers(f)
  {
  }

  lemma FamiliesIff(channels: set<string>, f: Family)
    ensures f in Families(channels) <==> channels * Producers(f) != {}
  {
    if f in Families(channels) {
      var c :| c in channels && Alias(c).Some? && Alias(c).value == f;
      AliasIff(c, f);
      assert c in channels * Producers(f);
    }
    if channels * Producers(f) != {} {
      var c :| c in channels * Producers(f);
      AliasIff(c, f);
    }
  }

  /** An observed object of the kinds that are smoked. */
  predicate ShowsSmokingObject(o: Observation) {
    o.objectLabel in {Some("cigarette"), Some("vape"), Some("heated_tobacco")}
  }

  /** An observation that speaks for a family of evidence. */
  predicate Supports(o: Observation, f: Family) {
    || o.positiveChannels * Producers(f) != {}
    || (f == ObjectFamily && ShowsSmokingObject(o) && o.objectScore > 0.0)
    || (f == SmokeFamily && o.smokeScore > 0.0)
  }

  predicate Supported(items: seq<Observation>, f: Family) {
    exists i :: 0 <= i < |items| && Supports(items[i], f)
  }

  lemma ObservationRaises(scores: map<Family, real>, o: Observation, f: Family)
    requires o.Valid() && 0.0 <= Score(scores, f) <= 1.0
    ensures Score(WithObservation(scores, o), f) > 0.0 <==> Score(scores, f) > 0.0 || Supports(o, f)
    ensures Score(scores, f) <= Score(WithObservation(scores, o), f) <= 1.0
  {
    FamiliesIff(o.positiveChannels, f);
  }

  lemma SupportedStep(items: seq<Observation>, o: Observation, f: Family)
    ensures Supported(items + [o], f) <==> Supported(items, f) || Supports(o, f)
  {
    var more := items + [o];
    assert more[|items|] == o;
    if Supported(items, f) {
      var i :| 0 <= i < |items| && Supports(items[i], f);
      assert Supports(more[i], f);
    }
    if Supported(more, f) {
      var i :| 0 <= i < |more| && Supports(more[i], f);
      assert i < |items| ==> Supports(items[i], f);
    }
  }

  /** A family scores above zero exactly when some observation speaks for it. */
  lemma {:induction false} PositiveIffSupported(items: seq<Observation>, f: Family)
    requires forall i :: 0 <= i < |items| ==> items[i].Valid()
    ensures Score(Scores(items), f) > 0.0 <==> Supported(items, f)
    ensures 0.0 <= Score(Scores(items), f) <= 1.0
  {
    if items != [] {
      var front, o := items[..|items| - 1], items[|items| - 1];
      PositiveIffSupported(front, f);
      ObservationRaises(Scores(front), o, f);
      SupportedStep(front, o, f);
      assert items == front + [o];
    }
  }

  /** What one observation adds to a family. */
  function Contribution(o: Observation, f: Family): real {
    var named := if o.positiveChannels * Producers(f) != {} then 1.0 else 0.0;
    var measured :=
      if f == ObjectFamily && ShowsSmokingObject(o) then o.objectScore
      else if f == SmokeFamily then o.smokeScore else 0.0;
    if named < measured then measured else named
  }

  lemma ObservationContributes(scores: map<Family, real>, o: Observation, f: Family)
    requires o.Valid() && 0.0 <= Score(scores, f)
    ensures Score(WithObservation(scores, o), f) ==
            if Score(scores, f) < Contribution(o, f) then Contribution(o, f) else Score(scores, f)
  {
    FamiliesIff(o.positiveChannels, f);
  }

  /** The score of a family is the largest contribution of any observation. */
  lemma {:induction false} ScoreIsLargestContribution(items: seq<Observation>, f: Family)
    requires forall i :: 0 <= i < |items| ==> items[i].Valid()
    ensures forall i :: 0 <= i < |items| ==> Contribution(items[i], f) <= Score(Scores(items), f)
    ensures || Score(Scores(items), f) == 0.0
            || exists i :: 0 <= i < |items| && Contribution(items[i], f) == Score(Scores(items), f)
  {
    if items != [] {
      var front, o := items[..|items| - 1], items[|items| - 1];
      assert forall i :: 0 <= i < |front| ==> items[i] == front[i];
      ScoreIsLargestContribution(front, f);
      PositiveIffSupported(front, f);
      ObservationContributes(Scores(front), o, f);
      if Score(Scores(items), f) == Score(Scores(front), f) && Score(Scores(front), f) != 0.0 {
        var i :| 0 <= i < |front| && Contribution(front[i], f) == Score(Scores(front), f);
        assert Contribution(items[i], f) == Score(Scores(items), f);
      }
    }
  }

  // ----- the decision

  function SignalOf(scores: map<Family, real>, f: Family): seq<Signal> {
    if f in scores then [Signal(f, scores[f], scores[f] > 0.0)] else []
  }

  /** Signals in the order of their names. */
  function Signals(scores: map<Family, real>): seq<Signal> {
    SignalOf(scores, ObjectFamily) + SignalOf(scores, SmokeFamily)
    + SignalOf(scores, TemporalFamily) + SignalOf(scores, VlmFamily)
  }

  function Positive(signals: seq<Signal>): seq<Signal> {
    if signals == [] then []
    else (if signals[0].positive then [signals[0]] else []) + Positive(signals[1..])
  }

  predicate Blocking(o: Observation) {
    o.vlm.Some? && o.vlm.value.status in {Timeout, Malformed, VlmStatus.Unclear}
  }

  function Statuses(items: seq<Observation>): set<VlmStatus> {
    set i | 0 <= i < |items| && items[i].vlm.Some? :: items[i].vlm.value.status
  }

  predicate SomeBlocking(items: seq<Observation>) {
    exists i :: 0 <= i < |items| && Blocking(items[i])
  }

  predicate AllQuality(items: seq<Observation>) {
    forall i :: 0 <= i < |items| ==> items[i].qualityEligible
  }

  predicate AllPose(items: seq<Observation>) {
    forall i :: 0 <= i < |items| ==> items[i].poseEligible
  }

  /** `max(..., default=0)`. */
  function MaxPersistence(items: seq<Observation>): int {
    if items == [] then 0
    else if |items| == 1 then items[0].persistenceMs
    else
      var rest := MaxPersistence(items[1..]);
      if items[0].persistenceMs < rest then rest else items[0].persistenceMs
  }

  function Evaluate(config: Config, items: seq<Observation>, cycleCount: nat): Decision {
    var evidence := Signals(Scores(items));
    var veto := VetoReason(items);
    if veto.Some? then Decision(Rejected, [veto.value, IsRejected], evidence, false, cycleCount)
    else if !AllQuality(items) then Decision(Rejected, [QualityRejected, IsRejected], evidence, false, cycleCount)
    else if !AllPose(items) then Decision(Rejected, [PoseRejected, IsRejected], evidence, false, cycleCount)
    else if SomeBlocking(items) && config.rejectOnUnclear then
      var reason :=
        if Timeout in Statuses(items) then VlmTimeout
        else if Malformed in Statuses(items) then VlmMalformed
        else VlmUnclear;
      Decision(Outcome.Unclear, [reason, IsUnclear], evidence, false, cycleCount)
    else if cycleCount < config.minCycles || MaxPersistence(items) < config.minPersistenceMs then
      Decision(Rejected, [PersistenceInsufficient, IsRejected], evidence, false, cycleCount)
    else if |Positive(evidence)| < config.minChannels then
      Decision(Rejected, [IndependentEvidenceInsufficient, IsRejected], evidence, false, cycleCount)
    else Decision(Verified, [CycleDetected, TwoIndependentChannels, IsVerified], evidence, true, cycleCount)
  }

  // ----- declarative reading of the decision

  /** The names under which each veto is reported. */
  function VetoNames(code: Code): set<string> {
    match code
    case NoseTouch => {"nose", "nose_touch"}
    case Chewing => {"chewing", "betel_nut", "betel_quid"}
    case Phone => {"phone"}
    case Drink => {"drink", "cup"}
    case Food => {"food"}
    case PenOrToothpick => {"pen", "toothpick", "pen_toothpick"}
    case _ => {}
  }

  predicate Recognised(name: string) {
    exists code :: name in VetoNames(code)
  }

  lemma VetoCodeIff(name: string, code: Code)
    ensures VetoCode(name) == Some(code) <==> name in VetoNames(code)
  {
  }

  lemma RecognisedIff(name: string)
    ensures VetoCode(name).Some? <==> Recognised(name)
  {
    if VetoCode(name).Some? { VetoCodeIff(name, VetoCode(name).value); }
    if Recognised(name) {
      var code :| name in VetoNames(code);
      VetoCodeIff(name, code);
    }
  }

  /** A recognised veto name, a hand at the nose, or a vetoed object. */
  predicate Vetoes(o: Observation) {
    || (exists v :: v in o.vetoes && Recognised(v))
    || o.contact == Nose
    || (o.objectLabel.Some? && Recognised(o.objectLabel.value))
  }

  lemma KnownVetoes(name: string)
    ensures VetoCode(name).Some? <==> name in VETOES
    ensures VetoCode(name).Some? <==> Recognised(name)
  {
    RecognisedIff(name);
    assert VETOES[0] == "betel_nut" && VETOES[1] == "betel_quid" && VETOES[2] == "chewing" && VETOES[3] == "cup";
    assert VETOES[4] == "drink" && VETOES[5] == "food" && VETOES[6] == "nose" && VETOES[7] == "nose_touch";
    assert VETOES[8] == "pen" && VETOES[9] == "pen_toothpick" && VETOES[10] == "phone" && VETOES[11] == "toothpick";
  }

  lemma {:induction false} FirstVetoFinds(names: set<string>, from: nat)
    requires from <= |VETOES|
    ensures FirstVeto(names, from).Some? <==> exists i :: from <= i < |VETOES| && VETOES[i] in names
    decreases |VETOES| - from
  {
    if from < |VETOES| {
      KnownVetoes(VETOES[from]);
      if VETOES[from] !in names { FirstVetoFinds(names, from + 1); }
    }
  }

  lemma ObservationVetoIff(o: Observation)
    ensures ObservationVeto(o).Some? <==> Vetoes(o)
  {
    FirstVetoFinds(o.vetoes, 0);
    if FirstVeto(o.vetoes, 0).Some? {
      var i :| 0 <= i < |VETOES| && VETOES[i] in o.vetoes;
      KnownVetoes(VETOES[i]);
      assert VETOES[i] in o.vetoes && Recognised(VETOES[i]);
    } else {
      forall v | v in o.vetoes ensures !Recognised(v) {
        KnownVetoes(v);
      }
      if o.objectLabel.Some? { KnownVetoes(o.objectLabel.value); }
    }
  }

  lemma {:induction false} VetoReasonIff(items: seq<Observation>)
    ensures VetoReason(items).Some? <==> exists i :: 0 <= i < |items| && Vetoes(items[i])
  {
    if items != [] {
      ObservationVetoIff(items[0]);
      VetoReasonIff(items[1..]);
      if Vetoes(items[0]) {
        assert Vetoes(items[0]);
      } else if VetoReason(items[1..]).Some? {
        var i :| 0 <= i < |items[1..]| && Vetoes(items[1..][i]);
        assert Vetoes(items[i + 1]);
      } else {
        forall i | 0 <= i < |items| ensures !Vetoes(items[i]) {
          if i > 0 { assert items[i] == items[1..][i - 1]; }
        }
      }
    }
  }

  lemma {:induction false} MaxPersistenceIff(items: seq<Observation>, bound: int)
    requires items != []
    ensures MaxPersistence(items) >= bound <==> exists i :: 0 <= i < |items| && items[i].persistenceMs >= bound
  {
    if |items| > 1 {
      MaxPersistenceIff(items[1..], bound);
      if MaxPersistence(items[1..]) >= bound {
        var i :| 0 <= i < |items[1..]| && items[1..][i].persistenceMs >= bound;
        assert items[i + 1].persistenceMs >= bound;
      } else {
        forall i | 0 < i < |items| ensures items[i].persistenceMs < bound {
          assert items[i] == items[1..][i - 1];
        }
      }
    }
  }

  function One(b: bool): nat {
    if b then 1 else 0
  }

  /** How many of the four families some observation speaks for. */
  function SupportedFamilies(items: seq<Observation>): nat {
    One(Supported(items, ObjectFamily)) + One(Supported(items, SmokeFamily))
    + One(Supported(items, TemporalFamily)) + One(Supported(items, VlmFamily))
  }

  lemma FrontOfAppend(a: seq<Signal>, b: seq<Signal>)
    requires a != []
    ensures a + b != [] && (a + b)[0] == a[0] && (a + b)[1..] == a[1..] + b
  {
  }

  lemma {:induction false} PositiveAppend(a: seq<Signal>, b: seq<Signal>)
    ensures Positive(a + b) == Positive(a) + Positive(b)
  {
    if a == [] {
      assert a + b == b;
    } else {
      var rest := a[1..];
      PositiveAppend(rest, b);
      FrontOfAppend(a, b);
    }
  }

  lemma OneSignal(scores: map<Family, real>, f: Family)
    ensures |Positive(SignalOf(scores, f))| == One(Score(scores, f) > 0.0)
  {
  }

  /** The signals that count are one per family some observation speaks for. */
  lemma PositiveCount(items: seq<Observation>)
    requires forall i :: 0 <= i < |items| ==> items[i].Valid()
    ensures |Positive(Signals(Scores(items)))| == SupportedFamilies(items)
  {
    var scores := Scores(items);
    var o, s := SignalOf(scores, ObjectFamily), SignalOf(scores, SmokeFamily);
    var t, v := SignalOf(scores, TemporalFamily), SignalOf(scores, VlmFamily);
    PositiveAppend(o + s + t, v);
    PositiveAppend(o + s, t);
    PositiveAppend(o, s);
    OneSignal(scores, ObjectFamily);
    OneSignal(scores, SmokeFamily);
    OneSignal(scores, TemporalFamily);
    OneSignal(scores, VlmFamily);
    PositiveIffSupported(items, ObjectFamily);
    PositiveIffSupported(items, SmokeFamily);
    PositiveIffSupported(items, TemporalFamily);
    PositiveIffSupported(items, VlmFamily);
  }

  predicate HasStatus(items: seq<Observation>, status: VlmStatus) {
    exists i :: 0 <= i < |items| && items[i].vlm.Some? && items[i].vlm.value.status == status
  }

  /** The VLM timed out, answered with garbage or could not tell. */
  predicate VlmFailed(items: seq<Observation>) {
    HasStatus(items, Timeout) || HasStatus(items, Malformed) || HasStatus(items, VlmStatus.Unclear)
  }

  /** No veto, and every observation good enough in quality and pose. */
  predicate Untainted(items: seq<Observation>) {
    forall i :: 0 <= i < |items| ==> !Vetoes(items[i]) && items[i].qualityEligible && items[i].poseEligible
  }

  lemma UntaintedIff(items: seq<Observation>)
    ensures VetoReason(items) == None && AllQuality(items) && AllPose(items) <==> Untainted(items)
  {
    VetoReasonIff(items);
  }

  /** Some observation reports that persistence; the default of none is zero. */
  predicate Persists(items: seq<Observation>, bound: int) {
    (items == [] && bound <= 0) || exists i :: 0 <= i < |items| && items[i].persistenceMs >= bound
  }

  lemma PersistenceIff(items: seq<Observation>, bound: int)
    ensures MaxPersistence(items) >= bound <==> Persists(items, bound)
  {
    if items != [] { MaxPersistenceIff(items, bound); }
  }

  lemma StatusIff(items: seq<Observation>, status: VlmStatus)
    ensures status in Statuses(items) <==> HasStatus(items, status)
  {
  }

  lemma BlockingIff(items: seq<Observation>)
    ensures SomeBlocking(items) <==> VlmFailed(items)
  {
    if SomeBlocking(items) {
      var i :| 0 <= i < |items| && Blocking(items[i]);
      assert HasStatus(items, items[i].vlm.value.status);
    }
    if status :| status in {Timeout, Malformed, VlmStatus.Unclear} && HasStatus(items, status) {
      var i :| 0 <= i < |items| && items[i].vlm.Some? && items[i].vlm.value.status == status;
      assert Blocking(items[i]);
    }
  }

  /** Everything a verified decision needs, said of the observations themselves. */
  predicate Convincing(config: Config, items: seq<Observation>, cycleCount: nat) {
    && Untainted(items) && !(config.rejectOnUnclear && VlmFailed(items))
    && cycleCount >= config.minCycles
    && (exists i :: 0 <= i < |items| && items[i].persistenceMs >= config.minPersistenceMs)
    && SupportedFamilies(items) >= config.minChannels
  }

  /** A decision is verified, equivalently audio-eligible, exactly on convincing observations. */
  lemma VerifiedIff(config: Config, items: seq<Observation>, cycleCount: nat)
    requires config.Valid() && forall i :: 0 <= i < |items| ==> items[i].Valid()
    ensures Evaluate(config, items, cycleCount).outcome == Verified <==> Convincing(config, items, cycleCount)
    ensures Evaluate(config, items, cycleCount).audioEligible <==>
              Evaluate(config, items, cycleCount).outcome == Verified
  {
    UntaintedIff(items);
    BlockingIff(items);
    PersistenceIff(items, config.minPersistenceMs);
    PositiveCount(items);
  }

  /** The outcome is unclear exactly when the VLM failed on otherwise untainted observations, and the
      reason names the gravest failure present. */
  lemma UnclearIff(config: Config, items: seq<Observation>, cycleCount: nat)
    ensures var d := Evaluate(config, items, cycleCount);
            && (d.outcome == Outcome.Unclear <==> config.rejectOnUnclear && VlmFailed(items) && Untainted(items))
            && (d.outcome == Outcome.Unclear ==>
                  var late, garbled := HasStatus(items, Timeout), HasStatus(items, Malformed);
                  && (d.reasons == [VlmTimeout, IsUnclear] <==> late)
                  && (d.reasons == [VlmMalformed, IsUnclear] <==> !late && garbled)
                  && (d.reasons == [VlmUnclear, IsUnclear] <==> !late && !garbled))
  {
    UntaintedIff(items);
    BlockingIff(items);
    StatusIff(items, Timeout);
    StatusIff(items, Malformed);
  }
}
