/** Profiles projected onto sealed rows, and what turning a gate on can do to the counts. */
module Ablation {
  import opened Options
  import Sorting
  import opened EventSessions

  const DEFAULT_GAP_MS: int := 120_000

  datatype VlmStatus = Disabled | Ok | Timeout | Malformed | Unclear

  datatype Row = Row(event: Event, vlmLabel: Option<string>, vlmStatus: VlmStatus, vlmRevision: Option<string>)

  datatype Profile = Profile(useVlm: bool, threshold: real, vlmRevision: Option<string>)

  predicate BaselinePositive(row: Row, profile: Profile) {
    row.event.predictedLabel == "smoking" && row.event.score >= profile.threshold
  }

  predicate VlmPositive(row: Row, profile: Profile) {
    || !profile.useVlm
    || (row.vlmStatus == Ok && row.vlmLabel == Some("smoking") && row.vlmRevision == profile.vlmRevision)
  }

  function Project(row: Row, profile: Profile): Event {
    var positive := BaselinePositive(row, profile) && VlmPositive(row, profile);
    row.event.(predictedLabel := if positive then "smoking" else "background", triggered := Some(positive))
  }

  function ProjectAll(rows: seq<Row>, profile: Profile): seq<Event> {
    seq(|rows|, i requires 0 <= i < |rows| => Project(rows[i], profile))
  }

  /** Labelled as smoking, scored at the threshold or above and, where the VLM is used, confirmed by an
      answer of the profile's own VLM revision. */
  predicate Passes(row: Row, profile: Profile) {
    && row.event.predictedLabel == "smoking" && profile.threshold <= row.event.score
    && (profile.useVlm ==>
          row.vlmStatus == Ok && row.vlmLabel == Some("smoking") && row.vlmRevision == profile.vlmRevision)
  }

  /** The projection loop of `run_ablation`: every row, in order, changed in label and trigger only. */
  method Projection(rows: seq<Row>, profile: Profile) returns (projected: seq<Event>)
    ensures projected == ProjectAll(rows, profile)
    ensures |projected| == |rows|
    ensures forall i :: 0 <= i < |rows| ==>
              var e := projected[i];
              && e == rows[i].event.(predictedLabel := e.predictedLabel, triggered := e.triggered)
              && e.triggered == Some(Passes(rows[i], profile))
              && e.predictedLabel == (if Passes(rows[i], profile) then "smoking" else "background")
  {
    projected := [];
    for i := 0 to |rows|
      invariant |projected| == i && forall j :: 0 <= j < i ==> projected[j] == Project(rows[j], profile)
    {
      projected := projected + [Project(rows[i], profile)];
    }
  }

  // ----- the counts of `evaluate_events`

  datatype Counts = Counts(eligible: nat, truePositives: nat, falsePositives: nat, falseNegatives: nat)

  function Tally(rows: seq<Event>): Counts {
    if rows == [] then Counts(0, 0, 0, 0)
    else
      var rest, e := Tally(rows[..|rows| - 1]), rows[|rows| - 1];
      if !e.eligible then rest
      else
        var smoking, hit := e.trueLabel == "smoking", DidTrigger(e);
        Counts(rest.eligible + 1,
               rest.truePositives + if smoking && hit then 1 else 0,
               rest.falsePositives + if !smoking && hit then 1 else 0,
               rest.falseNegatives + if smoking && !hit then 1 else 0)
  }

  predicate IsEligible(e: Event) {
    e.eligible
  }

  predicate TruePositive(e: Event) {
    e.eligible && e.trueLabel == "smoking" && DidTrigger(e)
  }

  predicate FalsePositive(e: Event) {
    e.eligible && e.trueLabel != "smoking" && DidTrigger(e)
  }

  predicate FalseNegative(e: Event) {
    e.eligible && e.trueLabel == "smoking" && !DidTrigger(e)
  }

  function Places(rows: seq<Event>, which: Event -> bool): set<nat> {
    set i: nat | i < |rows| && which(rows[i])
  }

  lemma PlacesStep(rows: seq<Event>, which: Event -> bool)
    requires rows != []
    ensures |Places(rows, which)| == |Places(rows[..|rows| - 1], which)| + if which(rows[|rows| - 1]) then 1 else 0
  {
    var last, front := |rows| - 1, Places(rows[..|rows| - 1], which);
    assert last !in front;
    assert Places(rows, which) == if which(rows[last]) then front + {last} else front;
  }

  /** Each count is the number of rows of its kind. */
  lemma {:induction false} TallyCounts(rows: seq<Event>)
    ensures Tally(rows) == Counts(|Places(rows, IsEligible)|, |Places(rows, TruePositive)|,
                                  |Places(rows, FalsePositive)|, |Places(rows, FalseNegative)|)
  {
    if rows != [] {
      TallyCounts(rows[..|rows| - 1]);
      PlacesStep(rows, IsEligible);
      PlacesStep(rows, TruePositive);
      PlacesStep(rows, FalsePositive);
      PlacesStep(rows, FalseNegative);
    }
  }

  function Report(events: seq<Event>): Counts {
    Tally(Aggregate(events, DEFAULT_GAP_MS))
  }

  // ----- one list of events that triggers no more than another

  /** Alike but for label and trigger, and `a` triggers only if `b` does. */
  predicate Weaker(a: Event, b: Event) {
    b == a.(predictedLabel := b.predictedLabel, triggered := b.triggered) && (DidTrigger(a) ==> DidTrigger(b))
  }

  predicate AllWeaker(a: seq<Event>, b: seq<Event>) {
    |a| == |b| && forall i :: 0 <= i < |a| ==> Weaker(a[i], b[i])
  }

  lemma {:induction false} InsertWeaker(a: seq<Event>, b: seq<Event>, x: Event, y: Event)
    requires AllWeaker(a, b) && Weaker(x, y)
    ensures AllWeaker(Sorting.Insert(a, x, EventLe), Sorting.Insert(b, y, EventLe))
  {
    if a != [] {
      assert Weaker(a[|a| - 1], b[|b| - 1]);
      if !EventLe(a[|a| - 1], x) { InsertWeaker(a[..|a| - 1], b[..|b| - 1], x, y); }
    }
  }

  lemma {:induction false} SortWeaker(a: seq<Event>, b: seq<Event>)
    requires AllWeaker(a, b)
    ensures AllWeaker(Sorting.Sort(a, EventLe), Sorting.Sort(b, EventLe))
  {
    if a != [] {
      SortWeaker(a[..|a| - 1], b[..|b| - 1]);
      InsertWeaker(Sorting.Sort(a[..|a| - 1], EventLe), Sorting.Sort(b[..|b| - 1], EventLe), a[|a| - 1], b[|b| - 1]);
    }
  }

  lemma {:induction false} PreviousEndWeaker(a: seq<Event>, b: seq<Event>)
    requires AllWeaker(a, b)
    ensures PreviousEnd(a) == PreviousEnd(b)
  {
    if a != [] {
      assert Weaker(a[|a| - 1], b[|b| - 1]);
      PreviousEndWeaker(a[..|a| - 1], b[..|b| - 1]);
    }
  }

  predicate GroupsWeaker(a: seq<seq<Event>>, b: seq<seq<Event>>) {
    |a| == |b| && forall k :: 0 <= k < |a| ==> AllWeaker(a[k], b[k])
  }

  lemma WeakerAppend(a: seq<Event>, b: seq<Event>, x: Event, y: Event)
    requires AllWeaker(a, b) && Weaker(x, y)
    ensures AllWeaker(a + [x], b + [y])
  {
  }

  /** Sessions are cut at the same places. */
  lemma {:induction false} ScanWeaker(a: seq<Event>, b: seq<Event>, gapMs: int)
    requires AllWeaker(a, b)
    ensures GroupsWeaker(ScanAll(a, gapMs).closed, ScanAll(b, gapMs).closed)
    ensures AllWeaker(ScanAll(a, gapMs).current, ScanAll(b, gapMs).current)
  {
    if a != [] {
      var fa, fb, x, y := a[..|a| - 1], b[..|b| - 1], a[|a| - 1], b[|b| - 1];
      assert Weaker(x, y) && AllWeaker(fa, fb);
      ScanWeaker(fa, fb, gapMs);
      PreviousEndWeaker(fa, fb);
      if fa != [] {
        assert Weaker(fa[|fa| - 1], fb[|fb| - 1]);
        assert Splits(fa, x, gapMs) == Splits(fb, y, gapMs);
        WeakerAppend(ScanAll(fa, gapMs).current, ScanAll(fb, gapMs).current, x, y);
      }
    }
  }

  lemma {:induction false} SpansWeaker(a: seq<Event>, b: seq<Event>)
    requires a != [] && AllWeaker(a, b)
    ensures MaxEnd(a) == MaxEnd(b) && MinStart(a) == MinStart(b) && MaxLatency(a) == MaxLatency(b) && Best(a) == Best(b)
  {
    assert Weaker(a[|a| - 1], b[|b| - 1]);
    if |a| > 1 {
      var fa, fb := a[..|a| - 1], b[..|b| - 1];
      SpansWeaker(fa, fb);
      assert Weaker(fa[Best(fa)], fb[Best(fb)]);
    }
  }

  lemma MergeWeaker(a: seq<Event>, b: seq<Event>)
    requires a != [] && AllWeaker(a, b)
    ensures Weaker(Merge(a), Merge(b))
  {
    SpansWeaker(a, b);
    assert Weaker(a[0], b[0]) && Weaker(a[Best(a)], b[Best(b)]);
    assert AllEligible(a) == AllEligible(b) by {
      assert forall i :: 0 <= i < |a| ==> Weaker(a[i], b[i]) && a[i].eligible == b[i].eligible;
    }
    if AnyTrigger(a) {
      var i :| 0 <= i < |a| && DidTrigger(a[i]);
      assert Weaker(a[i], b[i]) && DidTrigger(b[i]);
    }
  }

  /** A weaker input gives the same sessions, each of which triggers no more than before. */
  lemma AggregateWeaker(a: seq<Event>, b: seq<Event>, gapMs: int)
    requires AllWeaker(a, b)
    ensures AllWeaker(Aggregate(a, gapMs), Aggregate(b, gapMs))
  {
    SortWeaker(a, b);
    var sa, sb := Sorting.Sort(a, EventLe), Sorting.Sort(b, EventLe);
    ScanWeaker(sa, sb, gapMs);
    var ga, gb := Sessions(sa, gapMs), Sessions(sb, gapMs);
    assert GroupsWeaker(ga, gb);
    forall k | 0 <= k < |ga| ensures Weaker(Aggregate(a, gapMs)[k], Aggregate(b, gapMs)[k]) {
      assert AllWeaker(ga[k], gb[k]);
      MergeWeaker(ga[k], gb[k]);
    }
  }

  predicate NoGain(a: Counts, b: Counts) {
    && a.eligible == b.eligible
    && a.truePositives <= b.truePositives && a.falsePositives <= b.falsePositives
    && a.truePositives + a.falseNegatives == b.truePositives + b.falseNegatives
  }

  lemma {:induction false} TallyWeaker(a: seq<Event>, b: seq<Event>)
    requires AllWeaker(a, b)
    ensures NoGain(Tally(a), Tally(b))
  {
    if a != [] {
      assert Weaker(a[|a| - 1], b[|b| - 1]);
      TallyWeaker(a[..|a| - 1], b[..|b| - 1]);
    }
  }

  // ----- profiles

  /** `strict` lets through no more than `lax`: same gate or a VLM gate added, threshold no lower. */
  predicate Stricter(strict: Profile, lax: Profile) {
    && strict.threshold >= lax.threshold
    && (lax.useVlm ==> strict.useVlm && strict.vlmRevision == lax.vlmRevision)
  }

  lemma ProjectionWeaker(rows: seq<Row>, strict: Profile, lax: Profile)
    requires Stricter(strict, lax)
    ensures AllWeaker(ProjectAll(rows, strict), ProjectAll(rows, lax))
  {
  }

  /** On the same sealed rows, turning the VLM on or raising the threshold leaves the sessions as they
      are and never adds a triggered one: true and false positives do not rise, and the number of
      smoking sessions stays the same. */
  lemma StricterProfileGainsNothing(rows: seq<Row>, strict: Profile, lax: Profile)
    requires Stricter(strict, lax)
    ensures AllWeaker(Aggregate(ProjectAll(rows, strict), DEFAULT_GAP_MS),
              Aggregate(ProjectAll(rows, lax), DEFAULT_GAP_MS))
    ensures NoGain(Report(ProjectAll(rows, strict)), Report(ProjectAll(rows, lax)))
  {
    ProjectionWeaker(rows, strict, lax);
    AggregateWeaker(ProjectAll(rows, strict), ProjectAll(rows, lax), DEFAULT_GAP_MS);
    TallyWeaker(Aggregate(ProjectAll(rows, strict), DEFAULT_GAP_MS), Aggregate(ProjectAll(rows, lax), DEFAULT_GAP_MS));
  }
}
