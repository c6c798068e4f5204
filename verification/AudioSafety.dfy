/** The guarantees of the audio reservation protocol over every run. */
module AudioSafety {
  import opened Options
  import L = AudioLedger
  import opened AudioLedger
  import opened AudioProtocol

  // ----- what time cannot undo

  predicate Terminal(l: Ledger, r: string) {
    r in l.receipts && StatusOf(l.receipts[r]) in {Some(Accepted), Some(Duplicate), Some(Expired)}
  }

  ghost predicate LaterLedger(l: Ledger, l': Ledger) {
    && (forall r :: AttemptsOf(l, r) <= AttemptsOf(l', r))
    && (forall r :: Terminal(l, r) ==> r in l'.receipts && l'.receipts[r] == l.receipts[r])
  }

  /** `s'` may come after `s`: logs only grow, terminal rows are frozen, and no call starts
      for a receipt whose row is terminal. */
  ghost predicate Later(s: State, s': State) {
    && LaterLedger(s.ledger, s'.ledger)
    && s.calls <= s'.calls && s.grants <= s'.grants
    && (forall k :: |s.calls| <= k < |s'.calls| ==> !Terminal(s.ledger, s'.calls[k].receipt))
  }

  lemma ReserveLater(l: Ledger, limits: Limits, r: string, zone: string, now: int, token: nat)
    ensures LaterLedger(l, L.Reserve(l, limits, r, zone, now, token).0)
  {
  }

  lemma FinalizeLater(l: Ledger, r: string, token: nat, zone: string, now: int, status: Status)
    ensures LaterLedger(l, L.Finalize(l, r, token, zone, now, status).0)
  {
  }

  lemma ReconcileLater(l: Ledger, r: string, observed: int)
    ensures LaterLedger(l, L.Reconcile(l, r, observed).0)
  {
  }

  lemma PutLater(l: Ledger, r: string, zone: string, now: int, playback: Option<Playback>)
    ensures LaterLedger(l, Put(l, r, zone, now, playback))
  {
  }

  /** A step of the ledger that starts no call. */
  lemma LedgerLater(s: State, s': State)
    requires LaterLedger(s.ledger, s'.ledger) && s'.calls == s.calls && s.grants <= s'.grants
    ensures Later(s, s')
  {
  }

  lemma RequestLater(limits: Limits, s: State, id: nat, r: string, zone: string, now: int)
    requires id !in s.clients
    ensures Later(s, Requesting(limits, s, id, r, zone, now))
  {
    ReserveLater(s.ledger, limits, r, zone, now, s.nextToken);
    LedgerLater(s, Requesting(limits, s, id, r, zone, now));
  }

  lemma SendLater(s: State, id: nat)
    requires Inv(s) && CanSend(s, id)
    ensures Later(s, Sending(s, id))
  {
    assert ClientOk(s.ledger, s.nextToken, s.clients[id]);
  }

  lemma SettleLater(s: State, id: nat)
    requires CanSettle(s, id)
    ensures Later(s, Settling(s, id))
  {
    var c := s.clients[id];
    FinalizeLater(s.ledger, c.receipt, c.token, c.zone, c.now, c.phase.status);
    LedgerLater(s, Settling(s, id));
  }

  lemma AcknowledgeLater(s: State, id: nat)
    requires CanAcknowledge(s, id)
    ensures Later(s, Acknowledging(s, id))
  {
    var c := s.clients[id];
    PutLater(s.ledger, c.receipt, c.zone, c.now, ACKNOWLEDGEMENT);
    LedgerLater(s, Acknowledging(s, id));
  }

  lemma RecordLater(s: State, r: string, zone: string, now: int, playback: Option<Playback>)
    ensures Later(s, Recording(s, r, zone, now, playback))
  {
    PutLater(s.ledger, r, zone, now, playback);
    LedgerLater(s, Recording(s, r, zone, now, playback));
  }

  lemma OperatorLater(s: State, r: string, observed: int)
    ensures Later(s, s.(ledger := L.Reconcile(s.ledger, r, observed).0))
  {
    ReconcileLater(s.ledger, r, observed);
    LedgerLater(s, s.(ledger := L.Reconcile(s.ledger, r, observed).0));
  }

  /** Steps that only move a client. */
  lemma QuietLater(limits: Limits, s: State, step: Step)
    requires step.Return? || step.Raise? || step.Crash?
    ensures Later(s, Apply(limits, s, step))
  {
    var s' := Apply(limits, s, step);
    assert s' == s.(clients := s'.clients);
    LedgerLater(s, s');
  }

  lemma OwnerStepLater(limits: Limits, s: State, step: Step)
    requires Inv(s) && (step.Send? || step.Settle?)
    ensures Later(s, Apply(limits, s, step))
  {
    LedgerLater(s, s);
    match step
    case Send(id) => if CanSend(s, id) { SendLater(s, id); }
    case Settle(id) => if CanSettle(s, id) { SettleLater(s, id); }
  }

  lemma ClientStepLater(limits: Limits, s: State, step: Step)
    requires step.Request? || step.Acknowledge?
    ensures Later(s, Apply(limits, s, step))
  {
    LedgerLater(s, s);
    match step
    case Request(id, r, zone, now) => if id !in s.clients { RequestLater(limits, s, id, r, zone, now); }
    case Acknowledge(id) => if CanAcknowledge(s, id) { AcknowledgeLater(s, id); }
  }

  lemma StepLater(limits: Limits, s: State, step: Step)
    requires Inv(s)
    ensures Later(s, Apply(limits, s, step))
  {
    match step
    case Operator(r, observed) => OperatorLater(s, r, observed);
    case Suppress(r, zone, now) => RecordLater(s, r, zone, now, None);
    case Request(_, _, _, _) => ClientStepLater(limits, s, step);
    case Acknowledge(_) => ClientStepLater(limits, s, step);
    case Send(_) => OwnerStepLater(limits, s, step);
    case Settle(_) => OwnerStepLater(limits, s, step);
    case _ => QuietLater(limits, s, step);
  }

  lemma RunStep(limits: Limits, steps: seq<Step>, more: seq<Step>)
    requires more != []
    ensures Run(limits, steps + more) == Apply(limits, Run(limits, steps + more[..|more| - 1]), more[|more| - 1])
  {
    assert (steps + more)[..|steps + more| - 1] == steps + more[..|more| - 1];
  }

  lemma {:induction false} RunLater(limits: Limits, steps: seq<Step>, more: seq<Step>)
    ensures Later(Run(limits, steps), Run(limits, steps + more))
  {
    if more == [] {
      assert steps + more == steps;
    } else {
      var front := more[..|more| - 1];
      RunStep(limits, steps, more);
      RunLater(limits, steps, front);
      Reachable(limits, steps + front);
      StepLater(limits, Run(limits, steps + front), more[|more| - 1]);
    }
  }

  /** The attempt log of every receipt is append-only and numbered 1..n, the row of every receipt
      that is not pending repeats a logged attempt, and a row once accepted, duplicate or expired
      never changes again, nor is its decision ever called again. */
  lemma AttemptHistory(limits: Limits, steps: seq<Step>, more: seq<Step>, r: string)
    ensures var s, s' := Run(limits, steps), Run(limits, steps + more);
            && AttemptsOf(s.ledger, r) <= AttemptsOf(s'.ledger, r)
            && Numbered(AttemptsOf(s.ledger, r))
            && (r in s.ledger.receipts <==> AttemptsOf(s.ledger, r) != [])
            && (r in s.ledger.receipts && StatusOf(s.ledger.receipts[r]) != Some(Pending) ==>
                  Witnessed(AttemptsOf(s.ledger, r), s.ledger.receipts[r].playback))
            && (Terminal(s.ledger, r) ==>
                  && r in s'.ledger.receipts && s'.ledger.receipts[r] == s.ledger.receipts[r]
                  && forall k :: |s.calls| <= k < |s'.calls| ==> s'.calls[k].receipt != r)
  {
    RunLater(limits, steps, more);
    Reachable(limits, steps);
    var l := Run(limits, steps).ledger;
    if r in l.receipts { assert RowOk(l.receipts[r], l.attempts[r], Run(limits, steps).nextToken); }
  }

  // ----- at most one call in doubt

  /** When a call starts, every earlier call of that receipt is on file as failed or rejected. */
  lemma CallStartsAfterFailures(limits: Limits, steps: seq<Step>, id: nat, k: nat)
    requires var s := Run(limits, steps);
             && k < |s.calls| < |Apply(limits, s, Send(id)).calls|
             && s.calls[k].receipt == Apply(limits, s, Send(id)).calls[|s.calls|].receipt
    ensures var s := Run(limits, steps); Retryable(AttemptsOf(s.ledger, s.calls[k].receipt), s.calls[k].token)
  {
    Reachable(limits, steps);
    var s := Run(limits, steps);
    assert ClientOk(s.ledger, s.nextToken, s.clients[id]);
    assert CallOk(s.ledger, s.calls[k]);
  }

  /** In every reachable state all calls of a receipt but the latest are on file as failed or rejected. */
  lemma {:induction false} OnlyLatestCallMayStand(limits: Limits, steps: seq<Step>, i: nat, j: nat)
    requires i < j < |Run(limits, steps).calls|
    requires Run(limits, steps).calls[i].receipt == Run(limits, steps).calls[j].receipt
    ensures var s := Run(limits, steps); Retryable(AttemptsOf(s.ledger, s.calls[i].receipt), s.calls[i].token)
  {
    var front, last := steps[..|steps| - 1], steps[|steps| - 1];
    var s, s' := Run(limits, front), Run(limits, steps);
    Reachable(limits, front);
    StepLater(limits, s, last);
    if j < |s.calls| {
      OnlyLatestCallMayStand(limits, front, i, j);
    } else {
      CallStartsAfterFailures(limits, front, last.id, i);
    }
    var c := s.calls[i];
    RecordedGrows(AttemptsOf(s.ledger, c.receipt), AttemptsOf(s'.ledger, c.receipt), c.token, {Failed, Rejected});
  }

  // ----- the owner keeps its reservation

  predicate Acts(step: Step, id: nat) {
    match step
    case Operator(_, _) => false
    case Suppress(_, _, _) => false
    case _ => step.id == id
  }

  lemma OtherLeavesClient(limits: Limits, s: State, step: Step, id: nat)
    requires id in s.clients && !Acts(step, id)
    ensures id in Apply(limits, s, step).clients && Apply(limits, s, step).clients[id] == s.clients[id]
  {
  }

  lemma {:induction false} OthersLeaveClient(limits: Limits, steps: seq<Step>, others: seq<Step>, id: nat)
    requires id in Run(limits, steps).clients
    requires forall k :: 0 <= k < |others| ==> !Acts(others[k], id)
    ensures var s' := Run(limits, steps + others);
            id in s'.clients && s'.clients[id] == Run(limits, steps).clients[id]
  {
    if others == [] {
      assert steps + others == steps;
    } else {
      var front, last := others[..|others| - 1], others[|others| - 1];
      OthersLeaveClient(limits, steps, front, id);
      RunStep(limits, steps, others);
      OtherLeavesClient(limits, Run(limits, steps + front), last, id);
    }
  }

  /** Whatever contenders, suppressions, crashes of others and reconciliations do meanwhile, a live
      owner still holds its own row, and finalizing it with any controller status lands. */
  lemma OwnerAlwaysLands(limits: Limits, steps: seq<Step>, others: seq<Step>, id: nat, status: Status)
    requires id in Run(limits, steps).clients && Run(limits, steps).clients[id].Owner?
    requires forall k :: 0 <= k < |others| ==> !Acts(others[k], id)
    ensures var c := Run(limits, steps).clients[id];
            var l := Run(limits, steps + others).ledger;
            && c.receipt in l.receipts && InDoubt(l.receipts[c.receipt], c.token)
            && l.receipts[c.receipt].zone == c.zone && l.receipts[c.receipt].at == c.now
            && (forall other: nat :: other != c.token ==>
                  L.Finalize(l, c.receipt, other, c.zone, c.now, status) == (l, OwnerMismatch))
            && var (settled, result) := L.Finalize(l, c.receipt, c.token, c.zone, c.now, status);
            && result == Finalized
            && settled.receipts[c.receipt] == Receipt(c.zone, c.now, Some(Playback(status, Some(c.token), None)))
            && Recorded(AttemptsOf(settled, c.receipt), c.token, {status})
  {
    OthersLeaveClient(limits, steps, others, id);
    Reachable(limits, steps + others);
    var s' := Run(limits, steps + others);
    var c, l := s'.clients[id], s'.ledger;
    assert ClientOk(l, s'.nextToken, c);
    var settled := L.Finalize(l, c.receipt, c.token, c.zone, c.now, status).0;
    assert Reports(AttemptsOf(settled, c.receipt)[|AttemptsOf(l, c.receipt)|], c.token, {status});
  }

  // ----- a crashed owner leaves a fence

  /** The row of `r` is in doubt and whoever reserved it is gone. */
  predicate Abandoned(s: State, r: string, token: nat) {
    && r in s.ledger.receipts && InDoubt(s.ledger.receipts[r], token)
    && forall id :: id in s.clients && s.clients[id].Owner? ==> s.clients[id].token != token
  }

  lemma AbandonedHasNoOwner(s: State, r: string, token: nat, id: nat)
    requires Inv(s) && Abandoned(s, r, token) && id in s.clients
    ensures s.clients[id].receipt != r
  {
    assert ClientOk(s.ledger, s.nextToken, s.clients[id]);
  }

  lemma ReserveLeaves(l: Ledger, limits: Limits, q: string, zone: string, now: int, next: nat, r: string, token: nat)
    requires r in l.receipts && InDoubt(l.receipts[r], token)
    ensures var (l', result) := L.Reserve(l, limits, q, zone, now, next);
            && r in l'.receipts && l'.receipts[r] == l.receipts[r]
            && (result == Granted ==> q != r)
  {
  }

  lemma ReconcileLeaves(l: Ledger, q: string, observed: int, r: string, token: nat)
    requires r in l.receipts && InDoubt(l.receipts[r], token)
    ensures var l' := L.Reconcile(l, q, observed).0; r in l'.receipts && InDoubt(l'.receipts[r], token)
  {
  }

  lemma PutLeaves(l: Ledger, q: string, zone: string, now: int, playback: Option<Playback>, r: string)
    requires r in l.receipts && Counted(l.receipts[r])
    ensures var l' := Put(l, q, zone, now, playback); r in l'.receipts && l'.receipts[r] == l.receipts[r]
  {
  }

  /** What follows a state in which `r` is abandoned, when the step leaves the fence up. */
  predicate StaysAbandoned(s: State, s': State, r: string, token: nat) {
    && Abandoned(s', r, token)
    && forall k :: |s.calls| <= k < |s'.calls| ==> s'.calls[k].receipt != r
  }

  lemma FenceHolds(s: State, s': State, r: string, token: nat)
    requires Abandoned(s, r, token) && s'.calls == s.calls
    requires r in s'.ledger.receipts && InDoubt(s'.ledger.receipts[r], token)
    requires forall id :: id in s'.clients && s'.clients[id].Owner? ==>
               || s'.clients[id].token != token
               || (id in s.clients && s.clients[id].Owner? && s.clients[id].token == token)
    ensures StaysAbandoned(s, s', r, token)
  {
  }

  lemma RequestAbandoned(limits: Limits, s: State, id: nat, q: string, zone: string, now: int, r: string, token: nat)
    requires Inv(s) && Abandoned(s, r, token) && id !in s.clients
    ensures StaysAbandoned(s, Requesting(limits, s, id, q, zone, now), r, token)
  {
    assert RowOk(s.ledger.receipts[r], s.ledger.attempts[r], s.nextToken);
    ReserveLeaves(s.ledger, limits, q, zone, now, s.nextToken, r, token);
    FenceHolds(s, Requesting(limits, s, id, q, zone, now), r, token);
  }

  lemma OwnerAbandoned(s: State, s': State, id: nat, r: string, token: nat)
    requires Inv(s) && Abandoned(s, r, token)
    requires (CanSend(s, id) && s' == Sending(s, id)) || (CanSettle(s, id) && s' == Settling(s, id))
    ensures StaysAbandoned(s, s', r, token)
  {
    AbandonedHasNoOwner(s, r, token, id);
    if CanSettle(s, id) { SettleTouches(s, id); }
  }

  lemma AbandonedStep(limits: Limits, s: State, step: Step, r: string, token: nat)
    requires Inv(s) && Abandoned(s, r, token)
    ensures StaysAbandoned(s, Apply(limits, s, step), r, token)
  {
    match step
    case Request(id, q, zone, now) => if id !in s.clients { RequestAbandoned(limits, s, id, q, zone, now, r, token); }
    case Send(id) => if CanSend(s, id) { OwnerAbandoned(s, Sending(s, id), id, r, token); }
    case Settle(id) => if CanSettle(s, id) { OwnerAbandoned(s, Settling(s, id), id, r, token); }
    case Acknowledge(id) =>
      if CanAcknowledge(s, id) {
        var c := s.clients[id];
        PutLeaves(s.ledger, c.receipt, c.zone, c.now, ACKNOWLEDGEMENT, r);
        FenceHolds(s, Acknowledging(s, id), r, token);
      }
    case Operator(q, observed) => ReconcileLeaves(s.ledger, q, observed, r, token);
    case Suppress(q, zone, now) => PutLeaves(s.ledger, q, zone, now, None, r);
    case _ =>
  }

  /** Once an owner has crashed, before or after its call, the decision is never called again: no later
      request, reconciliation or suppression lifts the fence. */
  lemma {:induction false} CrashedOwnerIsNeverRepeated(limits: Limits, steps: seq<Step>, more: seq<Step>, r: string,
                                                       token: nat)
    requires Abandoned(Run(limits, steps), r, token)
    ensures var s, s' := Run(limits, steps), Run(limits, steps + more);
            && Abandoned(s', r, token) && |s.calls| <= |s'.calls|
            && forall k :: |s.calls| <= k < |s'.calls| ==> s'.calls[k].receipt != r
  {
    if more == [] {
      assert steps + more == steps;
    } else {
      var front, last := more[..|more| - 1], more[|more| - 1];
      RunStep(limits, steps, more);
      CrashedOwnerIsNeverRepeated(limits, steps, front, r, token);
      Reachable(limits, steps + front);
      StepLater(limits, Run(limits, steps + front), last);
      AbandonedStep(limits, Run(limits, steps + front), last, r, token);
    }
  }

  // ----- caps and cooldown over receipt rows

  function InWindow(receipts: map<string, Receipt>, zone: string, from: int): set<string> {
    set r | r in receipts && CountedIn(receipts[r], zone) && from <= receipts[r].at <= from + HOUR
  }

  ghost predicate HourlyBound(receipts: map<string, Receipt>, cap: int) {
    forall zone, from :: |InWindow(receipts, zone, from)| <= cap
  }

  ghost predicate DailyBound(receipts: map<string, Receipt>, cap: int) {
    forall zone, day :: |OnDay(receipts, zone, day)| <= cap
  }

  predicate Apart(a: int, b: int, gap: int) {
    a - b > gap || b - a > gap
  }

  predicate CooldownBound(receipts: map<string, Receipt>, gap: int) {
    forall q, r :: q in receipts && r in receipts && q != r && Counted(receipts[q])
        && CountedIn(receipts[r], receipts[q].zone)
      ==> Apart(receipts[q].at, receipts[r].at, gap)
  }

  ghost predicate RowsBounded(limits: Limits, receipts: map<string, Receipt>) {
    && (limits.hourlyCap > 0 ==> HourlyBound(receipts, limits.hourlyCap))
    && (limits.dailyCap > 0 ==> DailyBound(receipts, limits.dailyCap))
    && (limits.cooldown > 0 ==> CooldownBound(receipts, limits.cooldown * SECOND))
  }

  /** Every row counted afterwards was already counted, at the same place and time. */
  predicate Shrinks(receipts: map<string, Receipt>, receipts': map<string, Receipt>) {
    forall r :: r in receipts' && Counted(receipts'[r]) ==>
      r in receipts && Counted(receipts[r]) && receipts'[r].zone == receipts[r].zone
          && receipts'[r].at == receipts[r].at
  }

  lemma ShrinkingKeepsBounds(limits: Limits, receipts: map<string, Receipt>, receipts': map<string, Receipt>)
    requires Shrinks(receipts, receipts') && RowsBounded(limits, receipts)
    ensures RowsBounded(limits, receipts')
  {
    if limits.hourlyCap > 0 {
      forall zone, from ensures |InWindow(receipts', zone, from)| <= limits.hourlyCap {
        SubsetSize(InWindow(receipts', zone, from), InWindow(receipts, zone, from));
      }
    }
    if limits.dailyCap > 0 {
      forall zone, day ensures |OnDay(receipts', zone, day)| <= limits.dailyCap {
        SubsetSize(OnDay(receipts', zone, day), OnDay(receipts, zone, day));
      }
    }
  }

  lemma GrantKeepsHourly(limits: Limits, receipts: map<string, Receipt>, r: string, row: Receipt)
    requires limits.hourlyCap > 0 && HourlyBound(receipts, limits.hourlyCap)
    requires BrokenLimit(receipts, limits, row.zone, row.at) == None
    ensures HourlyBound(receipts[r := row], limits.hourlyCap)
  {
    var receipts' := receipts[r := row];
    forall zone, from ensures |InWindow(receipts', zone, from)| <= limits.hourlyCap {
      var now, before := InWindow(receipts', zone, from), InWindow(receipts, zone, from);
      if r in now {
        var recent := Since(receipts, row.zone, row.at - HOUR);
        SubsetSize(now - {r}, recent);
      } else {
        SubsetSize(now, before);
      }
    }
  }

  lemma GrantKeepsDaily(limits: Limits, receipts: map<string, Receipt>, r: string, row: Receipt)
    requires limits.dailyCap > 0 && DailyBound(receipts, limits.dailyCap)
    requires BrokenLimit(receipts, limits, row.zone, row.at) == None
    ensures DailyBound(receipts[r := row], limits.dailyCap)
  {
    var receipts' := receipts[r := row];
    forall zone, day ensures |OnDay(receipts', zone, day)| <= limits.dailyCap {
      var now, before := OnDay(receipts', zone, day), OnDay(receipts, zone, day);
      if r in now {
        SubsetSize(now - {r}, before);
      } else {
        SubsetSize(now, before);
      }
    }
  }

  lemma GrantIsFarFromOthers(limits: Limits, receipts: map<string, Receipt>, row: Receipt, q: string)
    requires limits.cooldown > 0 && BrokenLimit(receipts, limits, row.zone, row.at) == None
    requires q in receipts && CountedIn(receipts[q], row.zone)
    ensures row.at - receipts[q].at > limits.cooldown * SECOND
  {
    var recent := Since(receipts, row.zone, row.at - limits.cooldown * SECOND);
    assert q !in recent;
  }

  lemma GrantKeepsBounds(limits: Limits, receipts: map<string, Receipt>, r: string, row: Receipt)
    requires RowsBounded(limits, receipts) && BrokenLimit(receipts, limits, row.zone, row.at) == None
    ensures RowsBounded(limits, receipts[r := row])
  {
    if limits.hourlyCap > 0 { GrantKeepsHourly(limits, receipts, r, row); }
    if limits.dailyCap > 0 { GrantKeepsDaily(limits, receipts, r, row); }
    if limits.cooldown > 0 {
      forall q | q in receipts && CountedIn(receipts[q], row.zone)
        ensures row.at - receipts[q].at > limits.cooldown * SECOND
      {
        GrantIsFarFromOthers(limits, receipts, row, q);
      }
    }
  }

  predicate Grants(limits: Limits, s: State, step: Step) {
    step.Request? && step.id !in s.clients
    && L.Reserve(s.ledger, limits, step.receipt, step.zone, step.now, s.nextToken).1 == Granted
  }

  lemma FinalizeShrinks(l: Ledger, r: string, token: nat, zone: string, now: int, status: Status)
    requires r in l.receipts && InDoubt(l.receipts[r], token) && l.receipts[r].zone == zone && l.receipts[r].at == now
    ensures Shrinks(l.receipts, L.Finalize(l, r, token, zone, now, status).0.receipts)
  {
  }

  lemma ReconcileShrinks(l: Ledger, r: string, observed: int)
    ensures Shrinks(l.receipts, L.Reconcile(l, r, observed).0.receipts)
  {
  }

  lemma PutShrinks(l: Ledger, r: string, zone: string, now: int, playback: Option<Playback>)
    requires playback == None || (r in l.receipts && Counted(l.receipts[r]))
    ensures Shrinks(l.receipts, Put(l, r, zone, now, playback).receipts)
  {
  }

  lemma GrantRows(limits: Limits, s: State, step: Step)
    requires Grants(limits, s, step)
    ensures BrokenLimit(s.ledger.receipts, limits, step.zone, step.now) == None
    ensures var row := Receipt(step.zone, step.now, Some(PendingPlayback(limits, step.now, s.nextToken)));
            Apply(limits, s, step).ledger.receipts == s.ledger.receipts[step.receipt := row]
  {
  }

  lemma SettleRows(s: State, id: nat)
    requires Inv(s) && CanSettle(s, id)
    ensures Shrinks(s.ledger.receipts, Settling(s, id).ledger.receipts)
  {
    var c := s.clients[id];
    assert ClientOk(s.ledger, s.nextToken, c);
    FinalizeShrinks(s.ledger, c.receipt, c.token, c.zone, c.now, c.phase.status);
  }

  lemma AcknowledgeRows(s: State, id: nat)
    requires Inv(s) && CanAcknowledge(s, id)
    ensures Shrinks(s.ledger.receipts, Acknowledging(s, id).ledger.receipts)
  {
    var c := s.clients[id];
    assert ClientOk(s.ledger, s.nextToken, c);
    PutShrinks(s.ledger, c.receipt, c.zone, c.now, ACKNOWLEDGEMENT);
  }

  lemma OtherRows(limits: Limits, s: State, step: Step)
    requires Inv(s) && !Grants(limits, s, step)
    ensures Shrinks(s.ledger.receipts, Apply(limits, s, step).ledger.receipts)
  {
    match step
    case Settle(id) => if CanSettle(s, id) { SettleRows(s, id); }
    case Acknowledge(id) => if CanAcknowledge(s, id) { AcknowledgeRows(s, id); }
    case Operator(r, observed) => ReconcileShrinks(s.ledger, r, observed);
    case Suppress(r, zone, now) => PutShrinks(s.ledger, r, zone, now, None);
    case _ =>
  }

  /** Only a granted request makes a row count anew. */
  lemma StepRows(limits: Limits, s: State, step: Step)
    requires Inv(s)
    ensures var receipts, receipts' := s.ledger.receipts, Apply(limits, s, step).ledger.receipts;
            if Grants(limits, s, step) then
              var row := Receipt(step.zone, step.now, Some(PendingPlayback(limits, step.now, s.nextToken)));
              && BrokenLimit(receipts, limits, step.zone, step.now) == None
              && receipts' == receipts[step.receipt := row]
            else Shrinks(receipts, receipts')
  {
    if Grants(limits, s, step) { GrantRows(limits, s, step); } else { OtherRows(limits, s, step); }
  }

  /** In every reachable state, for positive limits: every zone has at most `hourlyCap` counted rows
      in every closed hour of the time line and at most `dailyCap` on every UTC day, and any two
      counted rows of a zone lie strictly more than the cooldown apart. No clock order is assumed. */
  lemma {:induction false} RowLimitsHold(limits: Limits, steps: seq<Step>)
    ensures RowsBounded(limits, Run(limits, steps).ledger.receipts)
  {
    if steps == [] {
    } else {
      var front, last := steps[..|steps| - 1], steps[|steps| - 1];
      var s := Run(limits, front);
      RowLimitsHold(limits, front);
      Reachable(limits, front);
      StepRows(limits, s, last);
      if Grants(limits, s, last) {
        GrantKeepsBounds(limits, s.ledger.receipts, last.receipt,
                         Receipt(last.zone, last.now, Some(PendingPlayback(limits, last.now, s.nextToken))));
      } else {
        ShrinkingKeepsBounds(limits, s.ledger.receipts, Run(limits, steps).ledger.receipts);
      }
    }
  }

  // ----- no needless refusal

  lemma HourlyIsTight(limits: Limits, receipts: map<string, Receipt>, r: string, row: Receipt)
    requires r !in receipts && Counted(row) && limits.hourlyCap > 0 && HourlyBound(receipts[r := row], limits.hourlyCap)
    requires forall q :: q in receipts && CountedIn(receipts[q], row.zone) ==> receipts[q].at <= row.at
    ensures |Since(receipts, row.zone, row.at - HOUR)| < limits.hourlyCap
  {
    var recent := Since(receipts, row.zone, row.at - HOUR);
    var window := InWindow(receipts[r := row], row.zone, row.at - HOUR);
    assert r !in recent;
    SubsetSize(recent + {r}, window);
  }

  lemma DailyIsTight(limits: Limits, receipts: map<string, Receipt>, r: string, row: Receipt)
    requires r !in receipts && Counted(row) && limits.dailyCap > 0 && DailyBound(receipts[r := row], limits.dailyCap)
    ensures |OnDay(receipts, row.zone, row.at / DAY)| < limits.dailyCap
  {
    var before, after := OnDay(receipts, row.zone, row.at / DAY), OnDay(receipts[r := row], row.zone, row.at / DAY);
    assert r !in before;
    SubsetSize(before + {r}, after);
  }

  lemma CooldownIsTight(limits: Limits, receipts: map<string, Receipt>, r: string, row: Receipt)
    requires r !in receipts && Counted(row) && limits.cooldown > 0
               && CooldownBound(receipts[r := row], limits.cooldown * SECOND)
    requires forall q :: q in receipts && CountedIn(receipts[q], row.zone) ==> receipts[q].at <= row.at
    ensures Since(receipts, row.zone, row.at - limits.cooldown * SECOND) == {}
  {
    var receipts' := receipts[r := row];
    forall q | q in receipts && CountedIn(receipts[q], row.zone)
      ensures receipts[q].at < row.at - limits.cooldown * SECOND {
      assert q != r && receipts'[q] == receipts[q] && receipts'[r] == row;
      assert Apart(receipts'[q].at, receipts'[r].at, limits.cooldown * SECOND);
    }
  }

  /** For a new receipt not earlier than its zone's history, the checks pass exactly when the table
      would still respect every limit with the new row in it. */
  lemma RefusesOnlyWhenNeeded(limits: Limits, receipts: map<string, Receipt>, r: string, row: Receipt)
    requires limits.hourlyCap >= 0 && limits.dailyCap >= 0 && limits.cooldown >= 0
    requires r !in receipts && Counted(row) && RowsBounded(limits, receipts)
    requires forall q :: q in receipts && CountedIn(receipts[q], row.zone) ==> receipts[q].at <= row.at
    ensures BrokenLimit(receipts, limits, row.zone, row.at) == None <==> RowsBounded(limits, receipts[r := row])
  {
    if BrokenLimit(receipts, limits, row.zone, row.at) == None {
      GrantKeepsBounds(limits, receipts, r, row);
    }
    if RowsBounded(limits, receipts[r := row]) {
      if limits.hourlyCap > 0 { HourlyIsTight(limits, receipts, r, row); }
      if limits.dailyCap > 0 { DailyIsTight(limits, receipts, r, row); }
      if limits.cooldown > 0 { CooldownIsTight(limits, receipts, r, row); }
    }
  }
}
