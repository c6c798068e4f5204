/** Cooldown over controller calls, not only over receipt rows.

    A retry overwrites the time of its row, so old calls lose their trace in the table.  The
    proof keeps, for every grant not rejected, either a counted row at least as late in its
    zone or proof that the clock has already left it behind by more than the cooldown.  A cap of
    one spaces calls in the same way, by the hour or by the day. */
module AudioSpacing {
  import opened Options
  import L = AudioLedger
  import opened AudioLedger
  import opened AudioProtocol
  import opened AudioSafety

  /** Request times, in the order reservations were granted, never go back. */
  predicate Chronological(grants: seq<Call>) {
    forall i, j :: 0 <= i < j < |grants| ==> grants[i].at <= grants[j].at
  }

  predicate FixedZones(grants: seq<Call>) {
    forall i, j :: 0 <= i < |grants| && 0 <= j < |grants| && grants[i].receipt == grants[j].receipt ==>
      grants[i].zone == grants[j].zone
  }

  /** Request times never go back and every decision keeps its zone. */
  predicate Orderly(s: State) {
    Chronological(s.grants) && FixedZones(s.grants)
  }

  predicate RejectedOnFile(l: Ledger, g: Call) {
    Recorded(AttemptsOf(l, g.receipt), g.token, {Rejected})
  }

  predicate CoveredBy(receipts: map<string, Receipt>, g: Call, r: string) {
    r in receipts && CountedIn(receipts[r], g.zone) && receipts[r].at >= g.at
  }

  predicate Covered(receipts: map<string, Receipt>, g: Call) {
    exists r :: r in receipts && CoveredBy(receipts, g, r)
  }

  /** How far apart counted rows of a zone must be: by more than a time, or on different days. */
  datatype Rule = Gap(length: int) | NextDay

  predicate After(rule: Rule, a: int, b: int) {
    match rule
    case Gap(length) => b - a > length
    case NextDay => a / DAY < b / DAY
  }

  lemma AfterStretches(rule: Rule, a: int, b: int, a': int, b': int)
    requires After(rule, a, b) && a' <= a && b <= b'
    ensures After(rule, a', b')
  {
  }

  predicate LeftBehind(grants: seq<Call>, g: Call, rule: Rule) {
    grants != [] && After(rule, g.at, grants[|grants| - 1].at)
  }

  predicate Accounted(s: State, rule: Rule) {
    forall k :: 0 <= k < |s.grants| ==>
      || RejectedOnFile(s.ledger, s.grants[k])
      || Covered(s.ledger.receipts, s.grants[k])
      || LeftBehind(s.grants, s.grants[k], rule)
  }

  predicate Spaced(s: State, rule: Rule) {
    forall i, j :: 0 <= i < j < |s.grants| && s.grants[i].zone == s.grants[j].zone ==>
      || RejectedOnFile(s.ledger, s.grants[i])
      || RejectedOnFile(s.ledger, s.grants[j])
      || After(rule, s.grants[i].at, s.grants[j].at)
  }

  predicate RejectionsKept(s: State, s': State) {
    forall k :: 0 <= k < |s.grants| && RejectedOnFile(s.ledger, s.grants[k]) ==> RejectedOnFile(s'.ledger, s.grants[k])
  }

  lemma RejectionsStay(s: State, s': State)
    requires Later(s, s')
    ensures RejectionsKept(s, s')
  {
    forall k | 0 <= k < |s.grants| && RejectedOnFile(s.ledger, s.grants[k])
      ensures RejectedOnFile(s'.ledger, s.grants[k]) {
      var g := s.grants[k];
      RecordedGrows(AttemptsOf(s.ledger, g.receipt), AttemptsOf(s'.ledger, g.receipt), g.token, {Rejected});
    }
  }

  /** Counted rows stay counted in place. */
  predicate Stays(receipts: map<string, Receipt>, receipts': map<string, Receipt>) {
    forall r :: r in receipts && Counted(receipts[r]) ==>
      r in receipts' && Counted(receipts'[r]) && receipts'[r].zone == receipts[r].zone
          && receipts'[r].at == receipts[r].at
  }

  lemma StayingKeepsCover(receipts: map<string, Receipt>, receipts': map<string, Receipt>, g: Call)
    requires Stays(receipts, receipts') && Covered(receipts, g)
    ensures Covered(receipts', g)
  {
    var r :| r in receipts && CoveredBy(receipts, g, r);
    assert CoveredBy(receipts', g, r);
  }

  /** A step that neither grants nor uncounts. */
  lemma StayingKeeps(s: State, s': State, rule: Rule)
    requires Accounted(s, rule) && Spaced(s, rule)
    requires RejectionsKept(s, s') && s'.grants == s.grants && Stays(s.ledger.receipts, s'.ledger.receipts)
    ensures Accounted(s', rule) && Spaced(s', rule)
  {
    forall k | 0 <= k < |s'.grants| && Covered(s.ledger.receipts, s.grants[k])
      ensures Covered(s'.ledger.receipts, s.grants[k]) {
      StayingKeepsCover(s.ledger.receipts, s'.ledger.receipts, s.grants[k]);
    }
  }

  /** The spacing the checks of a reservation impose on the counted rows of the zone: the cooldown
      or, where a cap is one, the hour or the day. */
  predicate Enforces(limits: Limits, rule: Rule) {
    || (limits.cooldown > 0 && rule == Gap(limits.cooldown * SECOND))
    || (limits.hourlyCap == 1 && rule == Gap(HOUR))
    || (limits.dailyCap == 1 && rule == NextDay)
  }

  predicate Positive(rule: Rule) {
    rule.Gap? ==> rule.length > 0
  }

  predicate Clear(receipts: map<string, Receipt>, rule: Rule, zone: string, now: int) {
    forall q :: q in receipts && CountedIn(receipts[q], zone) ==> After(rule, receipts[q].at, now)
  }

  lemma EnforcedRule(receipts: map<string, Receipt>, limits: Limits, rule: Rule, zone: string, now: int)
    requires Enforces(limits, rule) && BrokenLimit(receipts, limits, zone, now) == None
    requires forall q :: q in receipts && CountedIn(receipts[q], zone) ==> receipts[q].at <= now
    ensures Positive(rule) && Clear(receipts, rule, zone, now)
  {
    forall q | q in receipts && CountedIn(receipts[q], zone) ensures After(rule, receipts[q].at, now) {
      match rule
      case Gap(length) => assert q !in Since(receipts, zone, now - length);
      case NextDay => assert q !in OnDay(receipts, zone, now / DAY);
    }
  }

  /** A grant at `g.at`: everything not rejected in its zone is already left behind. */
  lemma GrantSpacing(s: State, s': State, g: Call, row: Receipt, rule: Rule)
    requires Positive(rule) && Accounted(s, rule) && Spaced(s, rule)
    requires RejectionsKept(s, s') && s'.grants == s.grants + [g] && Chronological(s'.grants)
    requires row.zone == g.zone && row.at == g.at && Counted(row)
    requires Clear(s.ledger.receipts, rule, g.zone, g.at)
    requires s'.ledger.receipts == s.ledger.receipts[g.receipt := row]
    requires g.receipt in s.ledger.receipts && Counted(s.ledger.receipts[g.receipt]) ==>
               s.ledger.receipts[g.receipt].zone == g.zone
    ensures Accounted(s', rule) && Spaced(s', rule)
  {
    var receipts, receipts', n := s.ledger.receipts, s'.ledger.receipts, |s.grants|;
    assert s'.grants[n] == g;
    assert CoveredBy(receipts', g, g.receipt);
    forall k | 0 <= k < n && !RejectedOnFile(s'.ledger, s.grants[k])
      ensures Covered(receipts', s.grants[k]) || LeftBehind(s'.grants, s.grants[k], rule)
      ensures s.grants[k].zone == g.zone ==> After(rule, s.grants[k].at, g.at)
    {
      if LeftBehind(s.grants, s.grants[k], rule) {
        AfterStretches(rule, s.grants[k].at, s'.grants[n - 1].at, s.grants[k].at, s'.grants[n].at);
      } else {
        var q :| q in receipts && CoveredBy(receipts, s.grants[k], q);
        if s.grants[k].zone == g.zone { AfterStretches(rule, receipts[q].at, g.at, s.grants[k].at, g.at); }
        if q != g.receipt { assert CoveredBy(receipts', s.grants[k], q); }
      }
    }
  }

  /** The row of grant `m` stood for grant `k` too, and no rejection separates the two: then `k` was
      granted earlier, hence lies behind `m`. */
  lemma StandIn(s: State, m: nat, k: nat, rule: Rule)
    requires Positive(rule) && Spaced(s, rule) && Chronological(s.grants) && m < |s.grants| && k < |s.grants| && k != m
    requires !RejectedOnFile(s.ledger, s.grants[m]) && !RejectedOnFile(s.ledger, s.grants[k])
    requires s.grants[k].zone == s.grants[m].zone && s.grants[k].at <= s.grants[m].at
    ensures LeftBehind(s.grants, s.grants[k], rule)
  {
    assert k < m;
    AfterStretches(rule, s.grants[k].at, s.grants[m].at, s.grants[k].at, s.grants[|s.grants| - 1].at);
  }

  /** A rejected finalization uncounts its row: every other grant the row stood for was granted
      before its owner, hence lies more than the cooldown behind it. */
  lemma RejectionSpacing(s: State, s': State, m: nat, rule: Rule)
    requires Positive(rule) && Accounted(s, rule) && Spaced(s, rule)
    requires RejectionsKept(s, s') && s'.grants == s.grants && Chronological(s.grants) && m < |s.grants|
    requires !RejectedOnFile(s.ledger, s.grants[m]) && RejectedOnFile(s'.ledger, s.grants[m])
    requires var r := s.grants[m].receipt;
             && r in s.ledger.receipts
             && s.ledger.receipts[r].zone == s.grants[m].zone && s.ledger.receipts[r].at == s.grants[m].at
             && Touches(s.ledger, s'.ledger, r)
    ensures Accounted(s', rule) && Spaced(s', rule)
  {
    forall k | 0 <= k < |s.grants| && !RejectedOnFile(s'.ledger, s.grants[k]) && Covered(s.ledger.receipts, s.grants[k])
      ensures Covered(s'.ledger.receipts, s.grants[k]) || LeftBehind(s.grants, s.grants[k], rule)
    {
      var q :| q in s.ledger.receipts && CoveredBy(s.ledger.receipts, s.grants[k], q);
      if q != s.grants[m].receipt {
        assert CoveredBy(s'.ledger.receipts, s.grants[k], q);
      } else {
        StandIn(s, m, k, rule);
      }
    }
  }

  // ----- every counted row comes from a grant

  predicate Granted(grants: seq<Call>, r: string, row: Receipt) {
    exists k :: 0 <= k < |grants| && grants[k].receipt == r && grants[k].zone == row.zone && grants[k].at == row.at
  }

  predicate RowsGranted(s: State) {
    forall r :: r in s.ledger.receipts && Counted(s.ledger.receipts[r]) ==> Granted(s.grants, r, s.ledger.receipts[r])
  }

  lemma GrantedGrows(grants: seq<Call>, grants': seq<Call>, r: string, row: Receipt)
    requires grants <= grants' && Granted(grants, r, row)
    ensures Granted(grants', r, row)
  {
    var k :| 0 <= k < |grants| && grants[k].receipt == r && grants[k].zone == row.zone && grants[k].at == row.at;
    assert grants'[k].receipt == r;
  }

  lemma StepRowsGranted(limits: Limits, s: State, step: Step)
    requires Inv(s) && RowsGranted(s)
    ensures RowsGranted(Apply(limits, s, step))
  {
    var s' := Apply(limits, s, step);
    StepRows(limits, s, step);
    StepLater(limits, s, step);
    forall r | r in s'.ledger.receipts && Counted(s'.ledger.receipts[r])
      ensures Granted(s'.grants, r, s'.ledger.receipts[r]) {
      if Grants(limits, s, step) && r == step.receipt {
        assert s'.grants[|s.grants|].receipt == r;
      } else {
        GrantedGrows(s.grants, s'.grants, r, s.ledger.receipts[r]);
      }
    }
  }

  predicate SettlesRejected(s: State, step: Step) {
    step.Settle? && CanSettle(s, step.id) && s.clients[step.id].phase == Answered(Rejected)
  }

  lemma SettleStays(s: State, id: nat)
    requires Inv(s) && CanSettle(s, id) && s.clients[id].phase != Answered(Rejected)
    ensures Stays(s.ledger.receipts, Settling(s, id).ledger.receipts)
  {
    var c := s.clients[id];
    assert ClientOk(s.ledger, s.nextToken, c);
    FinalizeStays(s.ledger, c.receipt, c.token, c.zone, c.now, c.phase.status);
  }

  lemma AcknowledgeStays(s: State, id: nat)
    requires CanAcknowledge(s, id)
    ensures Stays(s.ledger.receipts, Acknowledging(s, id).ledger.receipts)
  {
    var c := s.clients[id];
    PutStays(s.ledger, c.receipt, c.zone, c.now, ACKNOWLEDGEMENT);
  }

  /** Only settling a call as rejected takes a row out of the count. */
  lemma StepStays(limits: Limits, s: State, step: Step)
    requires Inv(s) && !Grants(limits, s, step) && !SettlesRejected(s, step)
    ensures Stays(s.ledger.receipts, Apply(limits, s, step).ledger.receipts)
  {
    match step
    case Operator(r, observed) => ReconcileStays(s.ledger, r, observed);
    case Suppress(r, zone, now) => PutStays(s.ledger, r, zone, now, None);
    case _ => ClientStays(limits, s, step);
  }

  lemma ClientStays(limits: Limits, s: State, step: Step)
    requires Inv(s) && !Grants(limits, s, step) && !SettlesRejected(s, step) && !step.Operator? && !step.Suppress?
    ensures Stays(s.ledger.receipts, Apply(limits, s, step).ledger.receipts)
  {
    if step.Settle? && CanSettle(s, step.id) {
      SettleStays(s, step.id);
    } else if step.Acknowledge? && CanAcknowledge(s, step.id) {
      AcknowledgeStays(s, step.id);
    } else {
      assert Apply(limits, s, step).ledger == s.ledger;
    }
  }

  lemma StepGrants(limits: Limits, s: State, step: Step)
    ensures Apply(limits, s, step).grants ==
            if !Grants(limits, s, step) then s.grants
            else s.grants + [Call(step.receipt, step.zone, step.now, s.nextToken)]
  {
  }

  lemma FinalizeStays(l: Ledger, r: string, token: nat, zone: string, now: int, status: Status)
    requires r in l.receipts && InDoubt(l.receipts[r], token) && l.receipts[r].zone == zone && l.receipts[r].at == now
    requires status != Rejected
    ensures Stays(l.receipts, L.Finalize(l, r, token, zone, now, status).0.receipts)
  {
  }

  lemma ReconcileStays(l: Ledger, r: string, observed: int)
    ensures Stays(l.receipts, L.Reconcile(l, r, observed).0.receipts)
  {
  }

  lemma PutStays(l: Ledger, r: string, zone: string, now: int, playback: Option<Playback>)
    ensures Stays(l.receipts, Put(l, r, zone, now, playback).receipts)
  {
  }

  lemma RowsAreOld(s: State, s': State, g: Call)
    requires RowsGranted(s) && s'.grants == s.grants + [g] && Chronological(s'.grants)
    ensures forall q :: q in s.ledger.receipts && Counted(s.ledger.receipts[q]) ==> s.ledger.receipts[q].at <= g.at
  {
    forall q | q in s.ledger.receipts && Counted(s.ledger.receipts[q]) ensures s.ledger.receipts[q].at <= g.at {
      var row := s.ledger.receipts[q];
      var j :| 0 <= j < |s.grants| && s.grants[j].receipt == q && s.grants[j].zone == row.zone
          && s.grants[j].at == row.at;
      assert s'.grants[j].at <= s'.grants[|s.grants|].at;
    }
  }

  lemma StepSpacing(limits: Limits, s: State, step: Step, rule: Rule)
    requires Enforces(limits, rule) && Inv(s) && RowsGranted(s)
    requires Accounted(s, rule) && Spaced(s, rule)
    requires Orderly(Apply(limits, s, step))
    ensures var s' := Apply(limits, s, step); Accounted(s', rule) && Spaced(s', rule)
  {
    var s' := Apply(limits, s, step);
    StepLater(limits, s, step);
    RejectionsStay(s, s');
    if Grants(limits, s, step) {
      StepRows(limits, s, step);
      var g, receipts := Call(step.receipt, step.zone, step.now, s.nextToken), s.ledger.receipts;
      if g.receipt in receipts && Counted(receipts[g.receipt]) {
        GrantedGrows(s.grants, s'.grants, g.receipt, receipts[g.receipt]);
        assert s'.grants[|s.grants|] == g;
      }
      RowsAreOld(s, s', g);
      EnforcedRule(receipts, limits, rule, g.zone, g.at);
      GrantSpacing(s, s', g, s'.ledger.receipts[g.receipt], rule);
    } else if SettlesRejected(s, step) {
      SettleRejected(s, step.id, rule);
    } else {
      StepGrants(limits, s, step);
      StepStays(limits, s, step);
      StayingKeeps(s, s', rule);
    }
  }

  lemma OwnersGrant(s: State, id: nat) returns (m: nat)
    requires Inv(s) && id in s.clients && s.clients[id].Owner?
    ensures var c := s.clients[id];
            && m < |s.grants| && s.grants[m] == Call(c.receipt, c.zone, c.now, c.token)
            && c.receipt in s.ledger.receipts
            && s.ledger.receipts[c.receipt].zone == c.zone && s.ledger.receipts[c.receipt].at == c.now
  {
    var c := s.clients[id];
    assert ClientOk(s.ledger, s.nextToken, c);
    m :| 0 <= m < |s.grants| && s.grants[m] == Call(c.receipt, c.zone, c.now, c.token);
  }

  lemma SettleRejected(s: State, id: nat, rule: Rule)
    requires Positive(rule) && Inv(s) && Accounted(s, rule) && Spaced(s, rule) && Chronological(s.grants)
    requires CanSettle(s, id) && s.clients[id].phase == Answered(Rejected)
    requires RejectionsKept(s, Settling(s, id))
    ensures Accounted(Settling(s, id), rule) && Spaced(Settling(s, id), rule)
  {
    SettleTouches(s, id);
    var m := OwnersGrant(s, id);
    RejectionSpacing(s, Settling(s, id), m, rule);
  }

  lemma {:induction false} GrantsSpaced(limits: Limits, steps: seq<Step>, rule: Rule)
    requires Enforces(limits, rule)
    requires Orderly(Run(limits, steps))
    ensures var s := Run(limits, steps);
            RowsGranted(s) && Accounted(s, rule) && Spaced(s, rule)
  {
    if steps != [] {
      var front, last := steps[..|steps| - 1], steps[|steps| - 1];
      Reachable(limits, front);
      StepLater(limits, Run(limits, front), last);
      GrantsSpaced(limits, front, rule);
      StepRowsGranted(limits, Run(limits, front), last);
      StepSpacing(limits, Run(limits, front), last, rule);
    }
  }

  lemma SpacedPair(s: State, rule: Rule, c: Call, d: Call)
    requires Spaced(s, rule) && c in s.grants && d in s.grants && c != d && c.zone == d.zone
    requires !RejectedOnFile(s.ledger, c) && !RejectedOnFile(s.ledger, d)
    ensures After(rule, c.at, d.at) || After(rule, d.at, c.at)
  {
    var a :| 0 <= a < |s.grants| && s.grants[a] == c;
    var b :| 0 <= b < |s.grants| && s.grants[b] == d;
    assert a < b || b < a;
  }

  /** With request times that never go back and one zone per decision, any two controller calls of a
      zone that are not on file as rejected lie strictly more than the cooldown apart. */
  lemma CallsSpaced(limits: Limits, steps: seq<Step>, i: nat, j: nat)
    requires limits.cooldown > 0
    requires var s := Run(limits, steps);
             && Orderly(s) && i < |s.calls| && j < |s.calls| && i != j && s.calls[i].zone == s.calls[j].zone
             && !RejectedOnFile(s.ledger, s.calls[i]) && !RejectedOnFile(s.ledger, s.calls[j])
    ensures var s := Run(limits, steps); Apart(s.calls[i].at, s.calls[j].at, limits.cooldown * SECOND)
  {
    var s, rule := Run(limits, steps), Gap(limits.cooldown * SECOND);
    Reachable(limits, steps);
    GrantsSpaced(limits, steps, rule);
    assert s.calls[i].token != s.calls[j].token && s.calls[i] in s.grants && s.calls[j] in s.grants;
    SpacedPair(s, rule, s.calls[i], s.calls[j]);
  }
}
