/** The sampling clock of the replay worker. */
module Replay {
  import opened Options
  import Sorting

  const SLACK: real := 0.000001

  datatype Frame = Frame(pts: int, id: string)

  predicate FrameLe(a: Frame, b: Frame) {
    a.pts < b.pts || (a.pts == b.pts && Sorting.LexLe(a.id, b.id))
  }

  lemma FrameOrder()
    ensures Sorting.TotalPreorder(FrameLe)
  {
    forall a, b ensures FrameLe(a, b) || FrameLe(b, a) { Sorting.LexTotal(a.id, b.id); }
    forall a, b, c | FrameLe(a, b) && FrameLe(b, c) ensures FrameLe(a, c) {
      if a.pts == b.pts == c.pts { Sorting.LexTransitive(a.id, b.id, c.id); }
    }
  }

  /** Far enough apart for both to be sampled. */
  predicate Spaced(period: real, a: Frame, b: Frame) {
    b.pts as real - a.pts as real >= period - 0.000001 && b.pts != a.pts
  }

  predicate NewId(frames: seq<Frame>, i: nat)
    requires i < |frames|
  {
    forall j :: 0 <= j < i ==> frames[j].id != frames[i].id
  }

  /** The frames that carry an id not seen before. */
  function Distinct(frames: seq<Frame>): seq<Frame> {
    if frames == [] then []
    else Distinct(frames[..|frames| - 1]) + if NewId(frames, |frames| - 1) then [frames[|frames| - 1]] else []
  }

  predicate InTime(frames: seq<Frame>) {
    forall i, j :: 0 <= i < j < |frames| ==> frames[i].pts <= frames[j].pts
  }

  /** Indices that go up, each spaced from the one before. */
  ghost predicate Chain(period: real, frames: seq<Frame>, indices: seq<nat>) {
    && (forall k :: 0 <= k < |indices| ==> indices[k] < |frames|)
    && (forall j, k :: 0 <= j < k < |indices| && k == j + 1 ==>
          indices[j] < indices[k] && Spaced(period, frames[indices[j]], frames[indices[k]]))
  }

  /** Every pick is the first frame spaced from the pick before it, and nothing is left to pick. */
  ghost predicate Greedy(period: real, frames: seq<Frame>, picks: seq<nat>) {
    && Chain(period, frames, picks)
    && (picks == [] ==> frames == []) && (picks != [] ==> picks[0] == 0)
    && (forall j, k, m :: 0 <= j < k < |picks| && k == j + 1 && picks[j] < m < picks[k] ==>
         !Spaced(period, frames[picks[j]], frames[m]))
    && (forall m :: picks != [] && picks[|picks| - 1] < m < |frames| ==>
         !Spaced(period, frames[picks[|picks| - 1]], frames[m]))
  }

  /** Greedy stays ahead: its k-th pick is never later than the k-th of any chain. */
  lemma {:induction false} StaysAhead(period: real, frames: seq<Frame>, picks: seq<nat>, chain: seq<nat>, k: nat)
    requires InTime(frames) && Greedy(period, frames, picks) && Chain(period, frames, chain) && k < |chain|
    ensures k < |picks| && picks[k] <= chain[k]
  {
    if k == 0 {
      assert frames != [];
    } else {
      StaysAhead(period, frames, picks, chain, k - 1);
      var p, c, d := picks[k - 1], chain[k - 1], chain[k];
      assert Spaced(period, frames[c], frames[d]) && p <= c < d;
      assert frames[p].pts <= frames[c].pts <= frames[d].pts;
      assert Spaced(period, frames[p], frames[d]);
    }
  }

  /** No choice of frames with the required spacing is larger than the sampled one. */
  lemma GreedyIsLargest(period: real, frames: seq<Frame>, picks: seq<nat>, chain: seq<nat>)
    requires InTime(frames) && Greedy(period, frames, picks) && Chain(period, frames, chain)
    ensures |chain| <= |picks|
  {
    if chain != [] { StaysAhead(period, frames, picks, chain, |chain| - 1); }
  }

  function Pick(frames: seq<Frame>, picks: seq<nat>): seq<Frame>
    requires forall k :: 0 <= k < |picks| ==> picks[k] < |frames|
  {
    seq(|picks|, k requires 0 <= k < |picks| => frames[picks[k]])
  }

  lemma PickedLast(frames: seq<Frame>, picks: seq<nat>)
    requires forall k :: 0 <= k < |picks| ==> picks[k] < |frames|
    ensures |Pick(frames, picks)| == |picks|
    ensures picks != [] ==> Pick(frames, picks)[|picks| - 1] == frames[picks[|picks| - 1]]
  {
  }

  lemma GreedyPicks(period: real, frames: seq<Frame>, picks: seq<nat>, f: Frame)
    requires Greedy(period, frames, picks)
    requires picks == [] || Spaced(period, frames[picks[|picks| - 1]], f)
    ensures Greedy(period, frames + [f], picks + [|frames|])
    ensures Pick(frames + [f], picks + [|frames|]) == Pick(frames, picks) + [f]
  {
    var frames', picks' := frames + [f], picks + [|frames|];
    forall j, k, m | 0 <= j < k < |picks'| && k == j + 1 && picks'[j] < m < picks'[k]
      ensures !Spaced(period, frames'[picks'[j]], frames'[m]) {
      if k < |picks| { assert !Spaced(period, frames[picks[j]], frames[m]); }
    }
  }

  lemma GreedySkips(period: real, frames: seq<Frame>, picks: seq<nat>, f: Frame)
    requires Greedy(period, frames, picks) && picks != []
    requires !Spaced(period, frames[picks[|picks| - 1]], f)
    ensures Greedy(period, frames + [f], picks)
    ensures Pick(frames + [f], picks) == Pick(frames, picks)
  {
    var frames' := frames + [f];
    forall j, k, m | 0 <= j < k < |picks| && k == j + 1 && picks[j] < m < picks[k]
      ensures !Spaced(period, frames'[picks[j]], frames'[m]) {
      assert !Spaced(period, frames[picks[j]], frames[m]);
    }
  }

  lemma DistinctStep(frames: seq<Frame>, f: Frame)
    ensures Distinct(frames + [f]) == Distinct(frames) + if NewId(frames + [f], |frames|) then [f] else []
  {
    assert (frames + [f])[..|frames|] == frames;
  }

  lemma {:induction false} DistinctInTime(frames: seq<Frame>)
    requires InTime(frames)
    ensures InTime(Distinct(frames))
    ensures forall f :: f in Distinct(frames) ==> f in frames
  {
    if frames != [] {
      var front, last := frames[..|frames| - 1], frames[|frames| - 1];
      assert forall i :: 0 <= i < |front| ==> frames[i] == front[i];
      DistinctInTime(front);
      forall f | f in front ensures f.pts <= last.pts {
        var i :| 0 <= i < |front| && front[i] == f;
      }
    }
  }

  datatype Lists = Lists(repeated: seq<Frame>, skipped: seq<Frame>, sampled: seq<Frame>)

  /** The sampled frames are the greedy choice among those of distinct id. */
  ghost predicate Chosen(period: real, done: seq<Frame>, sampled: seq<Frame>, picks: seq<nat>) {
    Greedy(period, Distinct(done), picks) && sampled == Pick(Distinct(done), picks)
  }

  /** Every frame is filed once. */
  ghost predicate Filed(done: seq<Frame>, out: Lists) {
    && multiset(Distinct(done)) == multiset(out.skipped) + multiset(out.sampled)
    && multiset(done) == multiset(out.repeated) + multiset(out.skipped) + multiset(out.sampled)
  }

  lemma FiledRepeated(done: seq<Frame>, out: Lists, f: Frame)
    requires Filed(done, out) && !NewId(done + [f], |done|)
    ensures Filed(done + [f], out.(repeated := out.repeated + [f]))
    ensures Distinct(done + [f]) == Distinct(done)
  {
    DistinctStep(done, f);
  }

  lemma FiledSkipped(done: seq<Frame>, out: Lists, f: Frame)
    requires Filed(done, out) && NewId(done + [f], |done|)
    ensures Filed(done + [f], out.(skipped := out.skipped + [f]))
  {
    DistinctStep(done, f);
    CountOne(done, f);
    CountOne(Distinct(done), f);
    CountOne(out.skipped, f);
  }

  lemma FiledSampled(done: seq<Frame>, out: Lists, f: Frame)
    requires Filed(done, out) && NewId(done + [f], |done|)
    ensures Filed(done + [f], out.(sampled := out.sampled + [f]))
  {
    DistinctStep(done, f);
    CountOne(done, f);
    CountOne(Distinct(done), f);
    CountOne(out.sampled, f);
  }

  lemma CountOne(s: seq<Frame>, f: Frame)
    ensures multiset(s + [f]) == multiset(s) + multiset{f}
  {
  }

  lemma ChosenSkipped(period: real, done: seq<Frame>, sampled: seq<Frame>, picks: seq<nat>, f: Frame)
    requires Chosen(period, done, sampled, picks) && NewId(done + [f], |done|)
    requires sampled != [] && !Spaced(period, sampled[|sampled| - 1], f)
    ensures Chosen(period, done + [f], sampled, picks)
  {
    DistinctStep(done, f);
    PickedLast(Distinct(done), picks);
    GreedySkips(period, Distinct(done), picks, f);
  }

  lemma ChosenSampled(period: real, done: seq<Frame>, sampled: seq<Frame>, picks: seq<nat>, f: Frame)
    requires Chosen(period, done, sampled, picks) && NewId(done + [f], |done|)
    requires sampled == [] || Spaced(period, sampled[|sampled| - 1], f)
    ensures Chosen(period, done + [f], sampled + [f], picks + [|Distinct(done)|])
  {
    DistinctStep(done, f);
    PickedLast(Distinct(done), picks);
    GreedyPicks(period, Distinct(done), picks, f);
  }

  function Ids(frames: seq<Frame>): set<string> {
    set j | 0 <= j < |frames| :: frames[j].id
  }

  lemma SeenIds(done: seq<Frame>, f: Frame)
    ensures NewId(done + [f], |done|) <==> f.id !in Ids(done)
    ensures Ids(done + [f]) == Ids(done) + {f.id}
  {
    var more, seen := done + [f], Ids(done);
    assert forall j :: 0 <= j < |done| ==> more[j] == done[j];
    if f.id in seen {
      var j :| 0 <= j < |done| && done[j].id == f.id;
      assert more[j].id == more[|done|].id;
    }
    forall x | x in seen + {f.id} ensures x in Ids(more) {
      if x in seen {
        var j :| 0 <= j < |done| && done[j].id == x;
        assert more[j].id == x;
      } else {
        assert more[|done|].id == x;
      }
    }
  }

  /** `next_sample` and `last_sample_pts` say what the last sampled frame says. */
  predicate Hands(period: real, sampled: seq<Frame>, next: real, lastPts: Option<int>) {
    if sampled == [] then lastPts == None && next == 0.0
    else lastPts == Some(sampled[|sampled| - 1].pts) && next == sampled[|sampled| - 1].pts as real + period
  }

  lemma HandsDecide(period: real, sampled: seq<Frame>, next: real, lastPts: Option<int>, f: Frame)
    requires Hands(period, sampled, next, lastPts) && f.pts >= 0
    ensures f.pts as real + SLACK < next || lastPts == Some(f.pts) <==>
            sampled != [] && !Spaced(period, sampled[|sampled| - 1], f)
  {
  }

  /** The variables of the loop. */
  datatype Sampler = Sampler(out: Lists, next: real, lastPts: Option<int>, seen: set<string>)

  ghost predicate SamplerOk(period: real, done: seq<Frame>, s: Sampler, picks: seq<nat>) {
    && s.seen == Ids(done)
    && Chosen(period, done, s.out.sampled, picks) && Filed(done, s.out)
    && Hands(period, s.out.sampled, s.next, s.lastPts)
  }

  lemma SamplerStart(period: real)
    ensures SamplerOk(period, [], Sampler(Lists([], [], []), 0.0, None, {}), [])
  {
  }

  /** The clock has not reached the frame, or has just sampled its instant. */
  predicate Early(s: Sampler, f: Frame) {
    f.pts as real + SLACK < s.next || s.lastPts == Some(f.pts)
  }

  lemma RepeatedKeeps(period: real, done: seq<Frame>, s: Sampler, picks: seq<nat>, f: Frame)
    requires SamplerOk(period, done, s, picks) && f.id in s.seen
    ensures SamplerOk(period, done + [f], s.(out := s.out.(repeated := s.out.repeated + [f])), picks)
  {
    SeenIds(done, f);
    FiledRepeated(done, s.out, f);
    assert s.seen + {f.id} == s.seen;
  }

  lemma SkippedKeeps(period: real, done: seq<Frame>, s: Sampler, picks: seq<nat>, f: Frame)
    requires SamplerOk(period, done, s, picks) && f.pts >= 0 && f.id !in s.seen && Early(s, f)
    ensures var out := s.out.(skipped := s.out.skipped + [f]);
            SamplerOk(period, done + [f], s.(out := out, seen := s.seen + {f.id}), picks)
  {
    HandsDecide(period, s.out.sampled, s.next, s.lastPts, f);
    SeenIds(done, f);
    FiledSkipped(done, s.out, f);
    ChosenSkipped(period, done, s.out.sampled, picks, f);
  }

  lemma SampledKeeps(period: real, done: seq<Frame>, s: Sampler, picks: seq<nat>, f: Frame)
    requires SamplerOk(period, done, s, picks) && f.pts >= 0 && f.id !in s.seen && !Early(s, f)
    ensures var out := s.out.(sampled := s.out.sampled + [f]);
            SamplerOk(period, done + [f], Sampler(out, f.pts as real + period, Some(f.pts), s.seen + {f.id}),
                      picks + [|Distinct(done)|])
  {
    HandsDecide(period, s.out.sampled, s.next, s.lastPts, f);
    SeenIds(done, f);
    FiledSampled(done, s.out, f);
    ChosenSampled(period, done, s.out.sampled, picks, f);
  }

  /** The sampling loop over frames already in order. */
  method SampleOrdered(ordered: seq<Frame>, period: real) returns (out: Lists, ghost picks: seq<nat>)
    requires forall i :: 0 <= i < |ordered| ==> ordered[i].pts >= 0
    ensures Chosen(period, ordered, out.sampled, picks) && Filed(ordered, out)
  {
    out, picks := Lists([], [], []), [];
    var next := 0.0;
    var lastPts: Option<int> := None;
    var seen: set<string> := {};
    SamplerStart(period);
    assert ordered[..0] == [];
    for i := 0 to |ordered|
      invariant SamplerOk(period, ordered[..i], Sampler(out, next, lastPts, seen), picks)
    {
      var f := ordered[i];
      ghost var before, done := Sampler(out, next, lastPts, seen), ordered[..i];
      Sorting.PrefixGrows(ordered, i);
      if f.id in seen {
        RepeatedKeeps(period, done, before, picks, f);
        out := out.(repeated := out.repeated + [f]);
        continue;
      }
      seen := seen + {f.id};
      if f.pts as real + SLACK < next {
        SkippedKeeps(period, done, before, picks, f);
        out := out.(skipped := out.skipped + [f]);
        continue;
      }
      if lastPts == Some(f.pts) {
        SkippedKeeps(period, done, before, picks, f);
        out := out.(skipped := out.skipped + [f]);
        continue;
      }
      SampledKeeps(period, done, before, picks, f);
      picks := picks + [|Distinct(done)|];
      out := out.(sampled := out.sampled + [f]);
      lastPts := Some(f.pts);
      next := f.pts as real + period;
    }
    assert ordered[..|ordered|] == ordered;
  }

  lemma {:induction false} PickedAreSpaced(period: real, frames: seq<Frame>, picks: seq<nat>, i: nat, j: nat)
    requires InTime(frames) && Chain(period, frames, picks) && i < j < |picks|
    ensures frames[picks[j]].pts as real - frames[picks[i]].pts as real >= period - SLACK
    ensures picks[i] < picks[j]
  {
    if i + 1 < j {
      PickedAreSpaced(period, frames, picks, i, j - 1);
      assert frames[picks[j - 1]].pts <= frames[picks[j]].pts;
    }
  }

  /** What the sampled frames are worth: spaced, and no spaced choice among `frames` is larger. */
  ghost predicate SpacedAndLargest(period: real, frames: seq<Frame>, sampled: seq<Frame>) {
    && (forall i, j :: 0 <= i < j < |sampled| ==> sampled[j].pts as real - sampled[i].pts as real >= period - 0.000001)
    && (forall chain :: Chain(period, frames, chain) ==> |chain| <= |sampled|)
  }

  lemma GreedyIsGood(period: real, frames: seq<Frame>, picks: seq<nat>)
    requires InTime(frames) && Greedy(period, frames, picks)
    ensures SpacedAndLargest(period, frames, Pick(frames, picks))
  {
    forall chain | Chain(period, frames, chain) ensures |chain| <= |picks| {
      GreedyIsLargest(period, frames, picks, chain);
    }
    forall i, j | 0 <= i < j < |picks|
      ensures frames[picks[j]].pts as real - frames[picks[i]].pts as real >= period - SLACK
    {
      PickedAreSpaced(period, frames, picks, i, j);
    }
  }

  lemma SortedFrames(frames: seq<Frame>)
    ensures var ordered := Sorting.Sort(frames, FrameLe);
            && InTime(ordered) && multiset(ordered) == multiset(frames) && (forall f :: f in ordered <==> f in frames)
            && forall i, j :: 0 <= i < j < |ordered| && ordered[i].pts == ordered[j].pts ==>
                 Sorting.LexLe(ordered[i].id, ordered[j].id)
  {
    FrameOrder();
    Sorting.SortSorts(frames, FrameLe);
    Sorting.SortContents(frames, FrameLe);
    var ordered := Sorting.Sort(frames, FrameLe);
    forall f ensures f in ordered <==> f in frames {
      assert f in ordered <==> f in multiset(ordered);
      assert f in frames <==> f in multiset(frames);
    }
  }

  /** `replay`'s sampling: every frame lands in exactly one of the three lists; sampled frames are at
      least the period less the slack apart; and no spaced choice among the frames that are the first
      of their id is larger.  Later frames of an id are errors and are not in the running. */
  method Sample(frames: seq<Frame>, fps: real) returns (out: Lists)
    requires fps > 0.0 && forall i :: 0 <= i < |frames| ==> frames[i].pts >= 0
    ensures var period, ordered := 1_000_000_000.0 / fps, Sorting.Sort(frames, FrameLe);
            && (exists picks :: Chosen(period, ordered, out.sampled, picks))
            && SpacedAndLargest(period, Distinct(ordered), out.sampled)
            && multiset(Distinct(ordered)) == multiset(out.skipped) + multiset(out.sampled)
            && multiset(frames) == multiset(out.repeated) + multiset(out.skipped) + multiset(out.sampled)
  {
    var ordered, period := Sorting.Sort(frames, FrameLe), 1_000_000_000.0 / fps;
    SortedFrames(frames);
    forall i | 0 <= i < |ordered| ensures ordered[i].pts >= 0 {
      assert ordered[i] in frames;
    }
    ghost var picks;
    out, picks := SampleOrdered(ordered, period);
    DistinctInTime(ordered);
    GreedyIsGood(period, Distinct(ordered), picks);
  }
}
