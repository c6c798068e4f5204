/** One timestamped observation of a tracked person, and its retry key. */
module Observations {
  import opened Options

  const MS: int := 1_000_000

  datatype Contact = Mouth | Nose | Elsewhere

  datatype VlmStatus = Positive | Negative | Unclear | Timeout | Malformed

  datatype Vlm = Vlm(status: VlmStatus, score: real, revision: string)

  datatype Observation = Observation(
    at: int,
    eventId: Option<string>,
    qualityEligible: bool,
    poseEligible: bool,
    handToMouth: bool,
    contact: Contact,
    mouthDwellMs: int,
    handRetreat: bool,
    objectLabel: Option<string>,
    objectScore: real,
    smokeScore: real,
    emberScore: real,
    persistenceMs: int,
    positiveChannels: set<string>,
    vetoes: set<string>,
    vlm: Option<Vlm>,
    modelRevisions: seq<(string, string)>)
  {
    /** The checks of the constructor. */
    predicate Valid() {
      && at >= 0 && mouthDwellMs >= 0 && persistenceMs >= 0
      && 0.0 <= objectScore <= 1.0 && 0.0 <= smokeScore <= 1.0 && 0.0 <= emberScore <= 1.0
      && (vlm.Some? ==> 0.0 <= vlm.value.score <= 1.0)
    }

    predicate Eligible() {
      qualityEligible && poseEligible
    }
  }

  /** The event id when there is one, else every field but the model revisions. */
  datatype Fingerprint =
    | ByEvent(id: string)
    | ByFields(o: Observation)

  function FingerprintOf(o: Observation): Fingerprint {
    if o.eventId.Some? then ByEvent(o.eventId.value) else ByFields(o.(modelRevisions := []))
  }

  /** Equal in everything a message without an event id is told by: all but the model revisions. */
  predicate SameContent(a: Observation, b: Observation) {
    && a.at == b.at && a.qualityEligible == b.qualityEligible && a.poseEligible == b.poseEligible
    && a.handToMouth == b.handToMouth && a.contact == b.contact && a.mouthDwellMs == b.mouthDwellMs
    && a.handRetreat == b.handRetreat && a.objectLabel == b.objectLabel && a.objectScore == b.objectScore
    && a.smokeScore == b.smokeScore && a.emberScore == b.emberScore && a.persistenceMs == b.persistenceMs
    && a.positiveChannels == b.positiveChannels && a.vetoes == b.vetoes && a.vlm == b.vlm
  }

  /** Two messages are deliveries of one another exactly when they carry the same event id, whatever else
      they say, or carry none and agree in content.  One with an id never repeats one without. */
  lemma SameKeyIff(a: Observation, b: Observation)
    ensures FingerprintOf(a) == FingerprintOf(b) <==>
            || (a.eventId.Some? && b.eventId.Some? && a.eventId.value == b.eventId.value)
            || (a.eventId == None && b.eventId == None && SameContent(a, b))
  {
  }

  /** No earlier message carries the same retry key. */
  predicate IsFirst(ms: seq<Observation>, i: nat)
    requires i < |ms|
  {
    forall j :: 0 <= j < i ==> FingerprintOf(ms[j]) != FingerprintOf(ms[i])
  }

  /** First of its key, and not older than any first message before it. */
  predicate IsAccepted(ms: seq<Observation>, i: nat)
    requires i < |ms|
  {
    IsFirst(ms, i) && forall j {:trigger IsFirst(ms, j)} :: 0 <= j < i && IsFirst(ms, j) ==> ms[j].at <= ms[i].at
  }

  function Accepted(ms: seq<Observation>): seq<Observation> {
    if ms == [] then []
    else Accepted(ms[..|ms| - 1]) + if IsAccepted(ms, |ms| - 1) then [ms[|ms| - 1]] else []
  }

  /** The messages with every re-delivery struck out. */
  function Firsts(ms: seq<Observation>): seq<Observation> {
    if ms == [] then []
    else Firsts(ms[..|ms| - 1]) + if IsFirst(ms, |ms| - 1) then [ms[|ms| - 1]] else []
  }

  predicate GapFree(s: seq<Observation>, toleranceMs: int) {
    forall i, j :: 0 <= i < |s| && 0 <= j < |s| && j == i + 1 ==> s[j].at - s[i].at <= toleranceMs * MS
  }

  predicate Ordered(s: seq<Observation>) {
    forall i, j :: 0 <= i < j < |s| ==> s[i].at <= s[j].at
  }
}
