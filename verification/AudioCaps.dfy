/** The caps read over controller calls and over decisions, instead of over receipt rows.

    A retry of a failed decision moves its row, so the row of an earlier call vanishes from the
    count.  Decisions stay capped all the same; calls stay capped for some settings only, and the
    last two lemmas say which. */
module AudioCaps {
  import opened Options
  import L = AudioLedger
  import opened AudioLedger
  import opened AudioProtocol
  import opened AudioSafety
  import opened AudioSpacing

  // ----- distinct decisions

  predicate NeverRejected(log: seq<Attempt>) {
    forall i :: 0 <= i < |log| && log[i].playback.Some? ==> log[i].playback.value.status != Rejected
  }

  predicate Inside(g: Call, zone: string, from: int, to: int) {
    g.zone == zone && from <= g.at <= to
  }

  predicate Shows(history: seq<Call>, r: string, zone: string, from: int, to: int) {
    exists k :: 0 <= k < |history| && history[k].receipt == r && Inside(history[k], zone, from, to)
  }

  /** The decisions never rejected that appear in `history` between `from` and `to`. */
  function Decisions(l: Ledger, history: seq<Call>, zone: string, from: int, to: int): set<string> {
    set r | r in l.receipts && NeverRejected(AttemptsOf(l, r)) && Shows(history, r, zone, from, to)
  }

  /** A decision never rejected is counted no earlier than any grant it ever had. */
  predicate Represented(s: State) {
    forall k :: 0 <= k < |s.grants| && NeverRejected(AttemptsOf(s.ledger, s.grants[k].receipt)) ==>
      CoveredBy(s.ledger.receipts, s.grants[k], s.grants[k].receipt)
  }

  lemma GrantRepresented(s: State, s': State, g: Call, row: Receipt)
    requires Represented(s) && Later(s, s') && s'.grants == s.grants + [g] && Chronological(s'.grants)
               && FixedZones(s'.grants)
    requires s'.ledger.receipts == s.ledger.receipts[g.receipt := row] && row.zone == g.zone && row.at == g.at
               && Counted(row)
    ensures Represented(s')
  {
    forall k | 0 <= k < |s'.grants| && NeverRejected(AttemptsOf(s'.ledger, s'.grants[k].receipt))
      ensures CoveredBy(s'.ledger.receipts, s'.grants[k], s'.grants[k].receipt)
    {
      var r := s'.grants[k].receipt;
      if r == g.receipt {
        assert s'.grants[|s.grants|] == g;
      } else {
        assert s'.grants[k] == s.grants[k] && AttemptsOf(s.ledger, r) <= AttemptsOf(s'.ledger, r);
      }
    }
  }

  /** No grant: rows stay counted, except the row of `r` once it has been rejected. */
  lemma OtherRepresented(s: State, s': State, r: string)
    requires Represented(s) && Later(s, s') && s'.grants == s.grants
    requires Stays(s.ledger.receipts, s'.ledger.receipts)
             || (Touches(s.ledger, s'.ledger, r) && !NeverRejected(AttemptsOf(s'.ledger, r)))
    ensures Represented(s')
  {
    forall k | 0 <= k < |s.grants| && NeverRejected(AttemptsOf(s'.ledger, s.grants[k].receipt))
      ensures CoveredBy(s'.ledger.receipts, s.grants[k], s.grants[k].receipt)
    {
      var q := s.grants[k].receipt;
      assert AttemptsOf(s.ledger, q) <= AttemptsOf(s'.ledger, q);
      assert CoveredBy(s.ledger.receipts, s.grants[k], q);
    }
  }

  lemma StepRepresented(limits: Limits, s: State, step: Step)
    requires Inv(s) && Represented(s)
    requires Orderly(Apply(limits, s, step))
    ensures Represented(Apply(limits, s, step))
  {
    var s' := Apply(limits, s, step);
    StepLater(limits, s, step);
    if Grants(limits, s, step) {
      StepRows(limits, s, step);
      GrantRepresented(s, s', Call(step.receipt, step.zone, step.now, s.nextToken), s'.ledger.receipts[step.receipt]);
    } else if SettlesRejected(s, step) {
      SettleTouches(s, step.id);
      RejectedRepresented(s, s', s.clients[step.id].receipt, s.clients[step.id].token);
    } else {
      StepGrants(limits, s, step);
      StepStays(limits, s, step);
      OtherRepresented(s, s', "");
    }
  }

  lemma RejectedRepresented(s: State, s': State, r: string, token: nat)
    requires Represented(s) && Later(s, s') && s'.grants == s.grants && Touches(s.ledger, s'.ledger, r)
    requires Recorded(AttemptsOf(s'.ledger, r), token, {Rejected})
    ensures Represented(s')
  {
    var log := AttemptsOf(s'.ledger, r);
    var i :| 0 <= i < |log| && Reports(log[i], token, {Rejected});
    OtherRepresented(s, s', r);
  }

  /** A window that stays under `cap` because every grant inside it was checked against the rows. */
  ghost predicate Capped(s: State, from: int, to: int, cap: int) {
    forall zone :: |Decisions(s.ledger, s.grants, zone, from, to)| <= cap
  }

  lemma DecisionsShrink(s: State, s': State, zone: string, from: int, to: int)
    requires Later(s, s') && Represented(s)
    requires forall k :: |s.grants| <= k < |s'.grants| ==> !Inside(s'.grants[k], zone, from, to)
    ensures |Decisions(s'.ledger, s'.grants, zone, from, to)| <= |Decisions(s.ledger, s.grants, zone, from, to)|
  {
    var now, before := Decisions(s'.ledger, s'.grants, zone, from, to), Decisions(s.ledger, s.grants, zone, from, to);
    forall r | r in now ensures r in before {
      var k :| 0 <= k < |s'.grants| && s'.grants[k].receipt == r && Inside(s'.grants[k], zone, from, to);
      assert s.grants[k] == s'.grants[k];
      assert AttemptsOf(s.ledger, r) <= AttemptsOf(s'.ledger, r);
      assert NeverRejected(AttemptsOf(s.ledger, r));
    }
    SubsetSize(now, before);
  }

  /** Whoever else is in the window of a new grant has a counted row there, in time to be counted. */
  lemma OthersHaveRows(s: State, s': State, g: Call, from: int, to: int, rows: set<string>)
    requires Later(s, s') && Represented(s) && RowsGranted(s) && s'.grants == s.grants + [g] && Chronological(s'.grants)
    requires forall q | q in s.ledger.receipts && CountedIn(s.ledger.receipts[q], g.zone) ::
               from <= s.ledger.receipts[q].at <= g.at ==> q in rows
    ensures |Decisions(s'.ledger, s'.grants, g.zone, from, to)| <= |rows| + 1
  {
    var now := Decisions(s'.ledger, s'.grants, g.zone, from, to);
    RowsAreOld(s, s', g);
    forall r | r in now && r != g.receipt ensures r in rows {
      var k :| 0 <= k < |s'.grants| && s'.grants[k].receipt == r && Inside(s'.grants[k], g.zone, from, to);
      assert s.grants[k] == s'.grants[k];
      assert AttemptsOf(s.ledger, r) <= AttemptsOf(s'.ledger, r);
      assert CoveredBy(s.ledger.receipts, s.grants[k], r);
    }
    SubsetSize(now, rows + {g.receipt});
  }

  /** A window and the cap that a reservation checks for it. */
  ghost predicate Checked(limits: Limits, from: int, to: int, cap: int) {
    && cap > 0
    && ((cap == limits.hourlyCap && to == from + HOUR)
        || (cap == limits.dailyCap && exists day :: from == day * DAY && to == from + DAY - 1))
  }

  lemma GrantCapped(limits: Limits, s: State, s': State, g: Call, zone: string, from: int, to: int, cap: int)
    requires Later(s, s') && Represented(s) && RowsGranted(s) && s'.grants == s.grants + [g] && Chronological(s'.grants)
    requires BrokenLimit(s.ledger.receipts, limits, g.zone, g.at) == None
    requires Checked(limits, from, to, cap) && Capped(s, from, to, cap)
    ensures |Decisions(s'.ledger, s'.grants, zone, from, to)| <= cap
  {
    if !Inside(g, zone, from, to) {
      DecisionsShrink(s, s', zone, from, to);
    } else if cap == limits.hourlyCap && to == from + HOUR {
      OthersHaveRows(s, s', g, from, to, Since(s.ledger.receipts, g.zone, g.at - HOUR));
    } else {
      var day :| from == day * DAY && to == from + DAY - 1;
      SameDay(day, g.at);
      forall q | q in s.ledger.receipts && CountedIn(s.ledger.receipts[q], g.zone)
          && from <= s.ledger.receipts[q].at <= g.at
        ensures q in OnDay(s.ledger.receipts, g.zone, g.at / DAY)
      {
        SameDay(day, s.ledger.receipts[q].at);
      }
      OthersHaveRows(s, s', g, from, to, OnDay(s.ledger.receipts, g.zone, g.at / DAY));
    }
  }

  lemma SameDay(day: int, at: int)
    requires day * DAY <= at <= day * DAY + DAY - 1
    ensures at / DAY == day
  {
  }

  lemma StepCapped(limits: Limits, s: State, step: Step, from: int, to: int, cap: int)
    requires Inv(s) && Represented(s) && RowsGranted(s)
    requires Chronological(Apply(limits, s, step).grants)
    requires Checked(limits, from, to, cap) && Capped(s, from, to, cap)
    ensures Capped(Apply(limits, s, step), from, to, cap)
  {
    var s' := Apply(limits, s, step);
    StepLater(limits, s, step);
    StepRows(limits, s, step);
    StepGrants(limits, s, step);
    forall zone ensures |Decisions(s'.ledger, s'.grants, zone, from, to)| <= cap {
      if Grants(limits, s, step) {
        GrantCapped(limits, s, s', Call(step.receipt, step.zone, step.now, s.nextToken), zone, from, to, cap);
      } else {
        DecisionsShrink(s, s', zone, from, to);
      }
    }
  }

  lemma {:induction false} GrantsCapped(limits: Limits, steps: seq<Step>, from: int, to: int, cap: int)
    requires Orderly(Run(limits, steps))
    requires Checked(limits, from, to, cap)
    ensures var s := Run(limits, steps); RowsGranted(s) && Represented(s) && Capped(s, from, to, cap)
  {
    if steps == [] {
      forall zone ensures Decisions(INITIAL.ledger, [], zone, from, to) == {} {}
    } else {
      var front, last := steps[..|steps| - 1], steps[|steps| - 1];
      var s := Run(limits, front);
      Reachable(limits, front);
      StepLater(limits, s, last);
      GrantsCapped(limits, front, from, to, cap);
      StepRowsGranted(limits, s, last);
      StepRepresented(limits, s, last);
      StepCapped(limits, s, last, from, to, cap);
    }
  }

  lemma CalledDecisions(s: State, zone: string, from: int, to: int)
    requires HistoryOk(s)
    ensures |Decisions(s.ledger, s.calls, zone, from, to)| <= |Decisions(s.ledger, s.grants, zone, from, to)|
  {
    var called, granted := Decisions(s.ledger, s.calls, zone, from, to), Decisions(s.ledger, s.grants, zone, from, to);
    forall r | r in called ensures r in granted {
      var k :| 0 <= k < |s.calls| && s.calls[k].receipt == r && Inside(s.calls[k], zone, from, to);
      assert s.calls[k] in s.grants;
      var j :| 0 <= j < |s.grants| && s.grants[j] == s.calls[k];
    }
    SubsetSize(called, granted);
  }

  /** With request times that never go back and one zone per decision, however often each is retried:
      the decisions never rejected that were called in a closed hour number at most the hourly cap,
      those called on a UTC day at most the daily cap. */
  lemma DecisionsAreCapped(limits: Limits, steps: seq<Step>, zone: string, from: int, day: int)
    requires Orderly(Run(limits, steps))
    ensures var s := Run(limits, steps);
            && (limits.hourlyCap > 0 ==> |Decisions(s.ledger, s.calls, zone, from, from + HOUR)| <= limits.hourlyCap)
            && (limits.dailyCap > 0 ==>
                  |Decisions(s.ledger, s.calls, zone, day * DAY, day * DAY + DAY - 1)| <= limits.dailyCap)
  {
    var s := Run(limits, steps);
    Reachable(limits, steps);
    if limits.hourlyCap > 0 {
      GrantsCapped(limits, steps, from, from + HOUR, limits.hourlyCap);
      CalledDecisions(s, zone, from, from + HOUR);
    }
    if limits.dailyCap > 0 {
      GrantsCapped(limits, steps, day * DAY, day * DAY + DAY - 1, limits.dailyCap);
      CalledDecisions(s, zone, day * DAY, day * DAY + DAY - 1);
    }
  }

  // ----- calls

  /** The calls of a closed window that are not on file as rejected. */
  function CallsIn(s: State, zone: string, from: int, to: int): set<Call> {
    set c | c in s.calls && Inside(c, zone, from, to) && !RejectedOnFile(s.ledger, c)
  }

  /** The calls of the closed hour that starts at `from`. */
  function HourCalls(s: State, zone: string, from: int): set<Call> {
    CallsIn(s, zone, from, from + HOUR)
  }

  /** The calls of a UTC day. */
  function DayCalls(s: State, zone: string, day: int): set<Call> {
    CallsIn(s, zone, day * DAY, day * DAY + DAY - 1)
  }

  ghost predicate HourlyCapped(s: State, cap: int) {
    forall zone, from :: |HourCalls(s, zone, from)| <= cap
  }

  ghost predicate DailyCapped(s: State, cap: int) {
    forall zone, day :: |DayCalls(s, zone, day)| <= cap
  }

  predicate AllApart(calls: set<Call>, rule: Rule) {
    forall c, d :: c in calls && d in calls && c != d ==> After(rule, c.at, d.at) || After(rule, d.at, c.at)
  }

  /** No more than `cap` calls spaced by `rule` fit between two times `width` apart, if such times
      touch at most `days` days. */
  predicate Fits(rule: Rule, cap: int, width: int, days: int) {
    match rule
    case Gap(length) => length >= 0 && cap * (length + 1) > width
    case NextDay => cap >= days
  }

  lemma OneDay(calls: set<Call>, day: int)
    requires forall c :: c in calls ==> day * DAY <= c.at <= day * DAY + DAY - 1
    requires AllApart(calls, NextDay)
    ensures |calls| <= 1
  {
    if |calls| > 1 {
      var c := Latest(calls);
      var rest := calls - {c};
      assert |rest| == |calls| - 1;
      var d := Latest(rest);
      SameDay(day, c.at);
      SameDay(day, d.at);
    }
  }

  lemma ThreeDays(a: int, b: int, c: int)
    requires a <= b <= c
    requires After(NextDay, a, b) || After(NextDay, b, a)
    requires After(NextDay, b, c) || After(NextDay, c, b)
    ensures c - a > HOUR
  {
    var first := a / DAY;
    assert first + 2 <= c / DAY;
  }

  /** A closed hour touches at most two days. */
  lemma TwoDays(calls: set<Call>, from: int)
    requires forall c :: c in calls ==> from <= c.at <= from + HOUR
    requires AllApart(calls, NextDay)
    ensures |calls| <= 2
  {
    if |calls| > 2 {
      var c := Latest(calls);
      var rest := calls - {c};
      assert |rest| == |calls| - 1;
      var d := Latest(rest);
      assert |rest - {d}| == |rest| - 1;
      var e := Latest(rest - {d});
      ThreeDays(e.at, d.at, c.at);
    }
  }

  lemma {:induction false} Latest(calls: set<Call>) returns (last: Call)
    requires calls != {}
    ensures last in calls && forall c :: c in calls ==> c.at <= last.at
    decreases |calls|
  {
    var c :| c in calls;
    last := c;
    if calls != {c} {
      assert calls == (calls - {c}) + {c};
      var other := Latest(calls - {c});
      if other.at > c.at { last := other; }
    }
  }

  lemma {:induction false} SpacedCalls(calls: set<Call>, from: int, to: int, gap: int)
    requires forall c :: c in calls ==> from <= c.at <= to
    requires AllApart(calls, Gap(gap))
    requires gap >= 0 && calls != {}
    ensures (|calls| - 1) * (gap + 1) <= to - from
    decreases |calls|
  {
    var last := Latest(calls);
    var rest := calls - {last};
    if rest != {} {
      forall c | c in rest ensures c.at <= to - gap - 1 {
        assert After(Gap(gap), c.at, last.at) || After(Gap(gap), last.at, c.at);
      }
      SpacedCalls(rest, from, to - gap - 1, gap);
      OneMore(|rest|, gap + 1);
    } else {
      assert calls == {last};
    }
  }

  lemma OneMore(n: nat, period: int)
    ensures n * period == (n - 1) * period + period
  {
  }

  lemma FewFit(n: int, cap: int, gap: int, width: int)
    requires gap >= 0 && (n - 1) * (gap + 1) <= width < cap * (gap + 1)
    ensures n <= cap
  {
    Scaled(n - 1, cap, gap + 1);
  }

  lemma Scaled(a: int, b: int, period: int)
    requires period > 0 && a * period < b * period
    ensures a < b
  {
  }

  lemma FewInAnHour(calls: set<Call>, from: int, rule: Rule, cap: int)
    requires forall c :: c in calls ==> from <= c.at <= from + HOUR
    requires AllApart(calls, rule) && Fits(rule, cap, HOUR, 2) && cap > 0
    ensures |calls| <= cap
  {
    if calls != {} {
      match rule
      case Gap(length) =>
        SpacedCalls(calls, from, from + HOUR, length);
        FewFit(|calls|, cap, length, HOUR);
      case NextDay => TwoDays(calls, from);
    }
  }

  lemma FewOnADay(calls: set<Call>, day: int, rule: Rule, cap: int)
    requires forall c :: c in calls ==> day * DAY <= c.at <= day * DAY + DAY - 1
    requires AllApart(calls, rule) && Fits(rule, cap, DAY - 1, 1) && cap > 0
    ensures |calls| <= cap
  {
    if calls != {} {
      match rule
      case Gap(length) =>
        SpacedCalls(calls, day * DAY, day * DAY + DAY - 1, length);
        FewFit(|calls|, cap, length, DAY - 1);
      case NextDay => OneDay(calls, day);
    }
  }

  lemma ApartInside(s: State, zone: string, from: int, to: int, rule: Rule)
    requires HistoryOk(s) && Spaced(s, rule)
    ensures AllApart(CallsIn(s, zone, from, to), rule)
  {
    var calls := CallsIn(s, zone, from, to);
    forall c, d | c in calls && d in calls && c != d ensures After(rule, c.at, d.at) || After(rule, d.at, c.at) {
      SpacedPair(s, rule, c, d);
    }
  }

  lemma SpacedCallsCapped(limits: Limits, steps: seq<Step>, rule: Rule)
    requires Orderly(Run(limits, steps)) && Enforces(limits, rule)
    ensures limits.hourlyCap > 0 && Fits(rule, limits.hourlyCap, HOUR, 2) ==>
              HourlyCapped(Run(limits, steps), limits.hourlyCap)
    ensures limits.dailyCap > 0 && Fits(rule, limits.dailyCap, DAY - 1, 1) ==>
              DailyCapped(Run(limits, steps), limits.dailyCap)
  {
    var s := Run(limits, steps);
    Reachable(limits, steps);
    GrantsSpaced(limits, steps, rule);
    if limits.hourlyCap > 0 && Fits(rule, limits.hourlyCap, HOUR, 2) {
      forall zone, from ensures |HourCalls(s, zone, from)| <= limits.hourlyCap {
        ApartInside(s, zone, from, from + HOUR, rule);
        FewInAnHour(HourCalls(s, zone, from), from, rule, limits.hourlyCap);
      }
    }
    if limits.dailyCap > 0 && Fits(rule, limits.dailyCap, DAY - 1, 1) {
      forall zone, day ensures |DayCalls(s, zone, day)| <= limits.dailyCap {
        ApartInside(s, zone, day * DAY, day * DAY + DAY - 1, rule);
        FewOnADay(DayCalls(s, zone, day), day, rule, limits.dailyCap);
      }
    }
  }

  // ----- one decision, retried again and again

  const DECISION: string := ReceiptId("d")

  function Rounds(n: nat, period: int): seq<Step> {
    if n == 0 then [] else Rounds(n - 1, period) + Whole(0, DECISION, "z", (n - 1) * period, Raise(0))
  }

  function CallAt(k: nat, period: int): Call {
    Call(DECISION, "z", k * period, k)
  }

  function FailedRow(token: nat, at: int): Receipt {
    Receipt("z", at, Some(Playback(Failed, Some(token), None)))
  }

  /** After `n` rounds: `n` calls a period apart, all failed, and one row. */
  predicate Retried(s: State, n: nat, period: int) {
    && s.clients == map[] && s.nextToken == n
    && s.ledger.receipts == (if n == 0 then map[] else map[DECISION := FailedRow(n - 1, (n - 1) * period)])
    && NeverRejected(AttemptsOf(s.ledger, DECISION))
    && s.grants == s.calls && s.calls == seq(n, k requires 0 <= k => CallAt(k, period))
  }

  /** The least time after which a decision that has just failed is granted again; a cap above one
      leaves room for its own row. */
  function Period(limits: Limits): int {
    Max(if limits.cooldown > 0 then limits.cooldown * SECOND + 1 else 0, if limits.hourlyCap == 1 then HOUR + 1 else 0)
  }

  predicate Loose(limits: Limits, period: int) {
    && limits.cooldown >= 0 && limits.hourlyCap >= 0 && limits.dailyCap >= 0
    && limits.dailyCap != 1 && period == Period(limits)
  }

  lemma RoundIsGranted(limits: Limits, s: State, n: nat, period: int)
    requires Retried(s, n, period) && Loose(limits, period)
    ensures Grants(limits, s, Request(0, DECISION, "z", n * period))
  {
    if n > 0 {
      OneMore(n, period);
      LoneRowPasses(limits, s.ledger.receipts[DECISION], n * period);
    } else {
      assert Since(map[], "z", 0 - HOUR) == {} && OnDay(map[], "z", 0) == {};
    }
  }

  lemma LoneRowPasses(limits: Limits, row: Receipt, now: int)
    requires Loose(limits, Period(limits)) && row.zone == "z" && Counted(row) && row.at + Period(limits) <= now
    ensures BrokenLimit(map[DECISION := row], limits, "z", now) == None
  {
    var receipts := map[DECISION := row];
    SubsetSize(Since(receipts, "z", now - HOUR), {DECISION});
    SubsetSize(OnDay(receipts, "z", now / DAY), {DECISION});
    if limits.hourlyCap == 1 { assert Since(receipts, "z", now - HOUR) == {}; }
    if limits.cooldown > 0 { assert Since(receipts, "z", now - limits.cooldown * SECOND) == {}; }
  }

  lemma {:induction false} AfterRounds(limits: Limits, n: nat, period: int)
    requires Loose(limits, period)
    ensures Retried(Run(limits, Rounds(n, period)), n, period)
  {
    if n > 0 {
      AfterRounds(limits, n - 1, period);
      OneRound(limits, Rounds(n - 1, period), n - 1, period);
    }
  }

  lemma OneRound(limits: Limits, steps: seq<Step>, n: nat, period: int)
    requires Retried(Run(limits, steps), n, period) && Loose(limits, period)
    ensures Retried(Run(limits, steps + Whole(0, DECISION, "z", n * period, Raise(0))), n + 1, period)
  {
    var s := Run(limits, steps);
    RoundIsGranted(limits, s, n, period);
    RunWhole(limits, steps, 0, DECISION, "z", n * period, Raise(0), Failed);
    RoundState(limits, s, n, period);
  }

  lemma RoundState(limits: Limits, s: State, n: nat, period: int)
    requires Retried(s, n, period) && L.Reserve(s.ledger, limits, DECISION, "z", n * period, n).1 == Granted
    ensures Retried(Finished(limits, s, DECISION, "z", n * period, Failed), n + 1, period)
  {
    RoundLedger(limits, s.ledger, n, period);
  }

  lemma RoundLedger(limits: Limits, l: Ledger, n: nat, period: int)
    requires L.Reserve(l, limits, DECISION, "z", n * period, n).1 == Granted
    requires l.receipts.Keys <= {DECISION} && NeverRejected(AttemptsOf(l, DECISION))
    ensures var reserved := L.Reserve(l, limits, DECISION, "z", n * period, n).0;
            var l' := L.Finalize(reserved, DECISION, n, "z", n * period, Failed).0;
            && l'.receipts == map[DECISION := FailedRow(n, n * period)]
            && NeverRejected(AttemptsOf(l', DECISION))
  {
    var reserved := L.Reserve(l, limits, DECISION, "z", n * period, n).0;
    ReservedLedger(limits, l, n, n * period);
    FailedLedger(reserved, n, n * period);
  }

  lemma ReservedLedger(limits: Limits, l: Ledger, n: nat, at: int)
    requires L.Reserve(l, limits, DECISION, "z", at, n).1 == Granted
    requires l.receipts.Keys <= {DECISION} && NeverRejected(AttemptsOf(l, DECISION))
    ensures var l' := L.Reserve(l, limits, DECISION, "z", at, n).0;
            && l'.receipts == map[DECISION := Receipt("z", at, Some(PendingPlayback(limits, at, n)))]
            && NeverRejected(AttemptsOf(l', DECISION))
  {
  }

  lemma FailedLedger(l: Ledger, n: nat, at: int)
    requires l.receipts.Keys == {DECISION} && InDoubt(l.receipts[DECISION], n) && NeverRejected(AttemptsOf(l, DECISION))
    ensures var l' := L.Finalize(l, DECISION, n, "z", at, Failed).0;
            && l'.receipts == map[DECISION := FailedRow(n, at)]
            && NeverRejected(AttemptsOf(l', DECISION))
  {
  }

  function FirstCalls(n: nat, period: int): set<Call> {
    set k | 0 <= k < n :: CallAt(k, period)
  }

  lemma {:induction false} FirstCallsSize(n: nat, period: int)
    ensures |FirstCalls(n, period)| == n
  {
    if n > 0 {
      FirstCallsSize(n - 1, period);
      assert FirstCalls(n, period) == FirstCalls(n - 1, period) + {CallAt(n - 1, period)};
    }
  }

  lemma Multiples(k: nat, n: nat, period: int)
    requires period >= 0 && k <= n
    ensures 0 <= k * period <= n * period
  {
  }

  lemma NeverRejectedCall(l: Ledger, c: Call)
    requires NeverRejected(AttemptsOf(l, c.receipt))
    ensures !RejectedOnFile(l, c)
  {
  }

  /** Retrying one decision after every period makes any number of calls, none of them rejected; the
      first `n + 1` fall into every window from zero on that lasts `n` periods. */
  lemma RetriesPileUp(limits: Limits, n: nat, to: int)
    requires Loose(limits, Period(limits)) && n * Period(limits) <= to
    ensures var s := Run(limits, Rounds(n + 1, Period(limits))); Orderly(s) && |CallsIn(s, "z", 0, to)| > n
  {
    var period := Period(limits);
    AfterRounds(limits, n + 1, period);
    var s := Run(limits, Rounds(n + 1, period));
    forall i, j | 0 <= i < j < |s.grants| ensures s.grants[i].at <= s.grants[j].at {
      Multiples(i, j, period);
    }
    forall c | c in FirstCalls(n + 1, period) ensures c in CallsIn(s, "z", 0, to) {
      var k :| 0 <= k < n + 1 && c == CallAt(k, period);
      Multiples(k, n, period);
      assert s.calls[k] == c;
      NeverRejectedCall(s.ledger, c);
    }
    FirstCallsSize(n + 1, period);
    SubsetSize(FirstCalls(n + 1, period), CallsIn(s, "z", 0, to));
  }

  // ----- exactly which settings cap calls

  /** More than `cap` calls a time of `gap` apart do not fit into a window of that width. */
  predicate TooLong(cap: int, gap: int, width: int) {
    cap * (gap + 1) > width
  }

  /** The settings under which retries cannot exceed the hourly cap: a cap of one, or a cooldown so
      long that more calls than the cap do not fit into the hour. */
  predicate HourlySufficient(limits: Limits) {
    || limits.hourlyCap == 1 || limits.dailyCap == 1
    || (limits.cooldown > 0 && TooLong(limits.hourlyCap, limits.cooldown * SECOND, HOUR))
  }

  /** The settings under which retries cannot exceed the daily cap: a daily cap of one, or a cooldown,
      or the hour of an hourly cap of one, so long that more calls than the cap do not fit into a day. */
  predicate DailySufficient(limits: Limits) {
    || limits.dailyCap == 1
    || (limits.cooldown > 0 && TooLong(limits.dailyCap, limits.cooldown * SECOND, DAY - 1))
    || (limits.hourlyCap == 1 && TooLong(limits.dailyCap, HOUR, DAY - 1))
  }

  /** The hourly cap bounds the controller calls of every run with request times that never go back
      and one zone per decision exactly when the settings alone already see to it. */
  lemma CallsCappedIff(limits: Limits)
    requires limits.hourlyCap > 0 && limits.dailyCap >= 0 && limits.cooldown >= 0
    ensures HourlySufficient(limits) <==>
            forall steps :: Orderly(Run(limits, steps)) ==> HourlyCapped(Run(limits, steps), limits.hourlyCap)
  {
    if HourlySufficient(limits) {
      var rule :=
        if limits.hourlyCap == 1 then Gap(HOUR)
        else if limits.dailyCap == 1 then NextDay
        else Gap(limits.cooldown * SECOND);
      forall steps | Orderly(Run(limits, steps)) ensures HourlyCapped(Run(limits, steps), limits.hourlyCap) {
        SpacedCallsCapped(limits, steps, rule);
      }
    } else {
      RetriesPileUp(limits, limits.hourlyCap, HOUR);
      var s := Run(limits, Rounds(limits.hourlyCap + 1, Period(limits)));
      assert HourCalls(s, "z", 0) == CallsIn(s, "z", 0, HOUR);
    }
  }

  /** The same for the daily cap and the calls of a UTC day. */
  lemma DailyCallsCappedIff(limits: Limits)
    requires limits.dailyCap > 0 && limits.hourlyCap >= 0 && limits.cooldown >= 0
    ensures DailySufficient(limits) <==>
            forall steps :: Orderly(Run(limits, steps)) ==> DailyCapped(Run(limits, steps), limits.dailyCap)
  {
    if DailySufficient(limits) {
      var rule :=
        if limits.dailyCap == 1 then NextDay
        else if limits.hourlyCap == 1 && TooLong(limits.dailyCap, HOUR, DAY - 1) then Gap(HOUR)
        else Gap(limits.cooldown * SECOND);
      forall steps | Orderly(Run(limits, steps)) ensures DailyCapped(Run(limits, steps), limits.dailyCap) {
        SpacedCallsCapped(limits, steps, rule);
      }
    } else {
      RetriesPileUp(limits, limits.dailyCap, DAY - 1);
      var s := Run(limits, Rounds(limits.dailyCap + 1, Period(limits)));
      assert DayCalls(s, "z", 0) == CallsIn(s, "z", 0, DAY - 1);
    }
  }

  /** Three calls on one day against a daily cap of two. */
  lemma DailyCapExceeded()
    ensures var s := Run(Limits(0, 5, 2, 30), Rounds(3, 0)); Orderly(s) && |DayCalls(s, "z", 0)| > 2
  {
    var limits := Limits(0, 5, 2, 30);
    assert Period(limits) == 0;
    RetriesPileUp(limits, 2, DAY - 1);
  }
}
