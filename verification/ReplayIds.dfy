/** Repeated frame ids and the size of the sample.

    The sampler drops a frame whose id it has seen, even where another frame of that id would have
    been the better one to keep.  Among all frames its choice is therefore the largest with distinct
    ids and the spacing only for some inputs, and the ids alone tell for which. */
module ReplayIds {
  import Sorting
  import opened Replay

  ghost predicate DistinctIds(frames: seq<Frame>, chain: seq<nat>)
    requires forall k :: 0 <= k < |chain| ==> chain[k] < |frames|
  {
    forall j, k :: 0 <= j < k < |chain| ==> frames[chain[j]].id != frames[chain[k]].id
  }

  /** No spaced choice of distinct ids, among all frames, is larger than what the sampler picks. */
  ghost predicate BestOverall(period: real, frames: seq<Frame>) {
    var ordered := Sorting.Sort(frames, FrameLe);
    forall picks, chain ::
      Greedy(period, Distinct(ordered), picks) && Chain(period, ordered, chain) && DistinctIds(ordered, chain) ==>
        |chain| <= |picks|
  }

  predicate Carry(frames: seq<Frame>, ids: seq<string>) {
    |frames| == |ids| && forall k :: 0 <= k < |ids| ==> frames[k].id == ids[k] && frames[k].pts >= 0
  }

  predicate AllDistinct(ids: seq<string>) {
    forall i, j :: 0 <= i < j < |ids| ==> ids[i] != ids[j]
  }

  predicate AllSame(ids: seq<string>) {
    forall i, j :: 0 <= i < j < |ids| ==> ids[i] == ids[j]
  }

  // ----- copies in a list

  lemma SplitAround(s: seq<Frame>, k: nat)
    requires k < |s|
    ensures multiset(s) == multiset(s[..k]) + multiset{s[k]} + multiset(s[k + 1..])
  {
    assert s == s[..k] + [s[k]] + s[k + 1..];
  }

  lemma TwoCopies(s: seq<Frame>, i: nat, j: nat)
    requires i < j < |s| && s[i] == s[j]
    ensures multiset(s)[s[i]] >= 2
  {
    SplitAround(s, j);
    assert s[..j][i] == s[j];
  }

  lemma OneCopy(s: seq<Frame>, k: nat)
    requires k < |s| && forall i :: 0 <= i < |s| && i != k ==> s[i] != s[k]
    ensures multiset(s)[s[k]] == 1
  {
    SplitAround(s, k);
    assert s[k] !in s[..k] && s[k] !in s[k + 1..];
  }

  // ----- ids all distinct, or all the same: the sampler is best

  lemma {:induction false} NothingRepeated(frames: seq<Frame>)
    requires forall i :: 0 <= i < |frames| ==> NewId(frames, i)
    ensures Distinct(frames) == frames
  {
    if frames != [] {
      var front, last := frames[..|frames| - 1], frames[|frames| - 1];
      assert frames == front + [last];
      forall i | 0 <= i < |front| ensures NewId(front, i) {
        assert NewId(frames, i);
      }
      NothingRepeated(front);
      DistinctStep(front, last);
    }
  }

  lemma DistinctIdsSorted(frames: seq<Frame>, ids: seq<string>)
    requires Carry(frames, ids) && AllDistinct(ids)
    ensures var ordered := Sorting.Sort(frames, FrameLe); forall i :: 0 <= i < |ordered| ==> NewId(ordered, i)
  {
    var ordered := Sorting.Sort(frames, FrameLe);
    SortedFrames(frames);
    forall i, j | 0 <= i < j < |ordered| ensures ordered[i].id != ordered[j].id {
      assert ordered[i] in frames && ordered[j] in frames;
      var a :| 0 <= a < |frames| && frames[a] == ordered[i];
      var b :| 0 <= b < |frames| && frames[b] == ordered[j];
      if ordered[i].id == ordered[j].id {
        assert a == b;
        TwoCopies(ordered, i, j);
        OneCopy(frames, a);
      }
    }
  }

  lemma DistinctIsBest(frames: seq<Frame>, ids: seq<string>, period: real)
    requires Carry(frames, ids) && AllDistinct(ids)
    ensures BestOverall(period, frames)
  {
    var ordered := Sorting.Sort(frames, FrameLe);
    SortedFrames(frames);
    DistinctIdsSorted(frames, ids);
    NothingRepeated(ordered);
    forall picks, chain | Greedy(period, ordered, picks) && Chain(period, ordered, chain) ensures |chain| <= |picks| {
      GreedyIsLargest(period, ordered, picks, chain);
    }
  }

  lemma {:induction false} FirstIsDistinct(frames: seq<Frame>)
    requires frames != []
    ensures Distinct(frames) != [] && Distinct(frames)[0] == frames[0]
  {
    if |frames| > 1 { FirstIsDistinct(frames[..|frames| - 1]); }
  }

  lemma TwoIds(frames: seq<Frame>, chain: seq<nat>)
    requires (forall k :: 0 <= k < |chain| ==> chain[k] < |frames|) && DistinctIds(frames, chain) && |chain| >= 2
    ensures exists x, y :: x in frames && y in frames && x.id != y.id
  {
    var x, y := frames[chain[0]], frames[chain[1]];
    assert x in frames && y in frames && x.id != y.id;
  }

  lemma PicksSomething(period: real, frames: seq<Frame>, picks: seq<nat>)
    requires frames != [] && Greedy(period, Distinct(frames), picks)
    ensures |picks| >= 1
  {
    FirstIsDistinct(frames);
  }

  lemma SameIsBest(frames: seq<Frame>, ids: seq<string>, period: real)
    requires Carry(frames, ids) && AllSame(ids)
    ensures BestOverall(period, frames)
  {
    var ordered := Sorting.Sort(frames, FrameLe);
    SortedFrames(frames);
    forall x, y | x in ordered && y in ordered ensures x.id == y.id {
      var i :| 0 <= i < |frames| && frames[i] == x;
      var j :| 0 <= j < |frames| && frames[j] == y;
      assert ids[i] == ids[j];
    }
    forall picks, chain | Greedy(period, Distinct(ordered), picks) && Chain(period, ordered, chain)
        && DistinctIds(ordered, chain)
      ensures |chain| <= |picks|
    {
      if |chain| > 1 { TwoIds(ordered, chain); }
      assert chain == [] || chain[0] < |ordered|;
      if ordered != [] { PicksSomething(period, ordered, picks); }
    }
  }

  // ----- one id repeated and another present: it need not be

  const LATE: int := 1_000_000_000

  /** Every frame at time zero except number `late`, one period of one second later. */
  function OneLate(ids: seq<string>, late: nat): seq<Frame> {
    seq(|ids|, k requires 0 <= k < |ids| => Frame(if k == late then LATE else 0, ids[k]))
  }

  lemma SameCopy(frames: seq<Frame>, ordered: seq<Frame>, late: nat, i: nat, j: nat)
    requires multiset(ordered) == multiset(frames)
    requires late < |frames| && forall k :: 0 <= k < |frames| && k != late ==> frames[k] != frames[late]
    requires i <= j < |ordered| && ordered[i] == frames[late] == ordered[j]
    ensures i == j
  {
    if i < j {
      TwoCopies(ordered, i, j);
      OneCopy(frames, late);
    }
  }

  /** Once sorted, the late frame is the last and the only one not at time zero. */
  lemma LateIsLast(ids: seq<string>, late: nat)
    requires late < |ids|
    ensures var ordered := Sorting.Sort(OneLate(ids, late), FrameLe);
            && |ordered| == |ids| && ordered[|ids| - 1] == Frame(LATE, ids[late])
            && forall k :: 0 <= k < |ids| - 1 ==> ordered[k].pts == 0
  {
    var frames := OneLate(ids, late);
    SortedFrames(frames);
    LastOfSorted(frames, Sorting.Sort(frames, FrameLe), late);
  }

  lemma LastOfSorted(frames: seq<Frame>, ordered: seq<Frame>, late: nat)
    requires late < |frames| && frames[late].pts == LATE
    requires forall k :: 0 <= k < |frames| && k != late ==> frames[k].pts == 0
    requires multiset(ordered) == multiset(frames) && InTime(ordered) && forall f :: f in ordered <==> f in frames
    ensures |ordered| == |frames| && ordered[|ordered| - 1] == frames[late]
    ensures forall k :: 0 <= k < |ordered| - 1 ==> ordered[k].pts == 0
  {
    var f := frames[late];
    assert |ordered| == |multiset(ordered)| == |multiset(frames)| == |frames|;
    assert f in ordered;
    var l :| 0 <= l < |ordered| && ordered[l] == f;
    forall k | 0 <= k < |ordered| ensures ordered[k].pts == 0 || ordered[k] == f {
      assert ordered[k] in frames;
    }
    var last := |ordered| - 1;
    assert ordered[l].pts <= ordered[last].pts;
    forall k | 0 <= k < last ensures ordered[k].pts == 0 {
      if ordered[k] == f { SameCopy(frames, ordered, late, k, last); }
    }
  }

  lemma {:induction false} DistinctAreNew(frames: seq<Frame>, f: Frame) returns (k: nat)
    requires f in Distinct(frames)
    ensures k < |frames| && frames[k] == f && NewId(frames, k)
  {
    var front, last := frames[..|frames| - 1], |frames| - 1;
    if f in Distinct(front) {
      k := DistinctAreNew(front, f);
      assert NewId(frames, k);
    } else {
      k := last;
    }
  }

  /** All at once except the last, a second later, whose id is not new. */
  predicate LateRepeat(ordered: seq<Frame>, p: nat, q: nat) {
    var last := |ordered| - 1;
    && p < last && q < last && ordered[last].pts == LATE && (forall k :: 0 <= k < last ==> ordered[k].pts == 0)
    && ordered[p].id == ordered[last].id && ordered[q].id != ordered[last].id
  }

  lemma OnlyTheFirstIsSampled(ordered: seq<Frame>, p: nat, q: nat)
    requires LateRepeat(ordered, p, q)
    ensures Greedy(LATE as real, Distinct(ordered), [0])
  {
    assert !NewId(ordered, |ordered| - 1);
    forall f | f in Distinct(ordered) ensures f.pts == 0 {
      var k := DistinctAreNew(ordered, f);
      assert k != |ordered| - 1;
    }
    FirstIsDistinct(ordered);
    OnePick(LATE as real, Distinct(ordered));
  }

  lemma TwoWouldFit(ordered: seq<Frame>, p: nat, q: nat)
    requires LateRepeat(ordered, p, q)
    ensures var chain := [q, |ordered| - 1]; Chain(LATE as real, ordered, chain) && DistinctIds(ordered, chain)
  {
    assert Spaced(LATE as real, ordered[q], ordered[|ordered| - 1]);
  }

  lemma LateRepeatCosts(frames: seq<Frame>, ordered: seq<Frame>, p: nat, q: nat)
    requires ordered == Sorting.Sort(frames, FrameLe) && LateRepeat(ordered, p, q)
    ensures !BestOverall(LATE as real, frames)
  {
    OnlyTheFirstIsSampled(ordered, p, q);
    TwoWouldFit(ordered, p, q);
    assert |[q, |ordered| - 1]| > |[0]|;
  }

  /** With a repeated id, its later frame late and everything else at once, the sampler keeps one frame
      where two of distinct ids would have been a period apart. */
  lemma RepeatCosts(ids: seq<string>, first: nat, late: nat, other: nat)
    requires first < late < |ids| && other < |ids| && ids[first] == ids[late] && ids[other] != ids[late]
    ensures !BestOverall(LATE as real, OneLate(ids, late))
  {
    var frames := OneLate(ids, late);
    var ordered := Sorting.Sort(frames, FrameLe);
    LateIsLast(ids, late);
    SortedFrames(frames);
    assert frames[first] in ordered && frames[other] in ordered;
    var p :| 0 <= p < |ordered| && ordered[p] == frames[first];
    var q :| 0 <= q < |ordered| && ordered[q] == frames[other];
    LateRepeatCosts(frames, ordered, p, q);
  }

  /** Frames of one instant yield one pick. */
  lemma OnePick(period: real, frames: seq<Frame>)
    requires frames != [] && forall f :: f in frames ==> f.pts == 0
    ensures Greedy(period, frames, [0])
  {
    forall m | 0 < m < |frames| ensures !Spaced(period, frames[0], frames[m]) {
      assert frames[0] in frames && frames[m] in frames;
    }
  }

  lemma DistinctOrSameIsBest(frames: seq<Frame>, ids: seq<string>, period: real)
    requires Carry(frames, ids) && (AllDistinct(ids) || AllSame(ids))
    ensures BestOverall(period, frames)
  {
    if AllDistinct(ids) { DistinctIsBest(frames, ids, period); } else { SameIsBest(frames, ids, period); }
  }

  /** The sample is the largest spaced choice of distinct ids among all frames, whatever their times
      and the period. */
  ghost predicate AlwaysBest(ids: seq<string>) {
    forall frames, period :: Carry(frames, ids) ==> BestOverall(period, frames)
  }

  /** That is so exactly when no id is repeated or there is only one id. */
  lemma BestForIdsIff(ids: seq<string>)
    ensures AlwaysBest(ids) <==> AllDistinct(ids) || AllSame(ids)
  {
    if AllDistinct(ids) || AllSame(ids) {
      forall frames, period | Carry(frames, ids) ensures BestOverall(period, frames) {
        DistinctOrSameIsBest(frames, ids, period);
      }
    } else {
      var i, j :| 0 <= i < j < |ids| && ids[i] == ids[j];
      var a, b :| 0 <= a < b < |ids| && ids[a] != ids[b];
      NotAlwaysBest(ids, i, j, if ids[a] != ids[j] then a else b);
    }
  }

  lemma NotAlwaysBest(ids: seq<string>, first: nat, late: nat, other: nat)
    requires first < late < |ids| && other < |ids| && ids[first] == ids[late] && ids[other] != ids[late]
    ensures !AlwaysBest(ids)
  {
    RepeatCosts(ids, first, late, other);
    assert Carry(OneLate(ids, late), ids);
  }

  /** Two frames at once, `a` and `b`, and `a` again a second later: at one frame a second only the first
      `a` is sampled, while `b` and the second `a` are a second apart. */
  lemma LaterRepeatIsBetter()
    ensures var frames := [Frame(0, "a"), Frame(0, "b"), Frame(LATE, "a")];
            && Sorting.Sort(frames, FrameLe) == frames
            && Greedy(LATE as real, Distinct(frames), [0]) && Pick(Distinct(frames), [0]) == [Frame(0, "a")]
            && Chain(LATE as real, frames, [1, 2]) && DistinctIds(frames, [1, 2])
  {
    var a, b, c := Frame(0, "a"), Frame(0, "b"), Frame(LATE, "a");
    var frames := [a, b, c];
    assert "a"[0] < "b"[0];
    assert FrameLe(a, b) && FrameLe(b, c) && FrameLe(a, c);
    Sorting.SortOfSorted(frames, FrameLe);
    FirstIsDistinct(frames);
    OnlyTheFirstIsSampled(frames, 0, 1);
    TwoWouldFit(frames, 0, 1);
  }
}
