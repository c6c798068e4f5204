/** Which answer every reservation, reconciliation and finalization gets, told by the run alone.

    The fate of a receipt is read off the steps of a run: who was granted it when, whether its lease
    was reconciled, what the controller answered.  It does not look at the receipt's row. */
module AudioAnswers {
  import opened Options
  import L = AudioLedger
  import opened AudioLedger
  import opened AudioProtocol
  import opened AudioSafety

  datatype Fate =
    | Unasked
    | Held(at: int, token: nat)
    | Doubted(at: int, token: nat)
    | Settled(status: Status)

  /** The end of the lease of a reservation granted at `at`. */
  function LeaseEnd(limits: Limits, at: int): int {
    at + (if limits.ttl < 1 then 1 else limits.ttl) * SECOND
  }

  function Moved(limits: Limits, s: State, step: Step, r: string, fate: Fate): Fate {
    match step
    case Request(_, q, _, now) =>
      if q == r && |Apply(limits, s, step).grants| > |s.grants| then Held(now, s.nextToken) else fate
    case Operator(q, observed) =>
      if q == r && fate.Held? && observed >= LeaseEnd(limits, fate.at) then Doubted(fate.at, fate.token) else fate
    case Settle(id) =>
      if CanSettle(s, id) && s.clients[id].receipt == r then Settled(s.clients[id].phase.status) else fate
    case _ => fate
  }

  function FateOf(limits: Limits, steps: seq<Step>, r: string): Fate {
    if steps == [] then Unasked
    else
      var front, last := steps[..|steps| - 1], steps[|steps| - 1];
      Moved(limits, Run(limits, front), last, r, FateOf(limits, front, r))
  }

  // ----- the row of a receipt follows its fate

  predicate RowFits(limits: Limits, l: Ledger, r: string, fate: Fate) {
    match fate
    case Unasked => r in l.receipts ==> l.receipts[r].playback == None
    case Held(at, token) =>
      r in l.receipts && l.receipts[r].at == at
      && l.receipts[r].playback == Some(Playback(Pending, Some(token), Some(LeaseEnd(limits, at))))
    case Doubted(at, token) =>
      r in l.receipts && l.receipts[r].at == at
      && l.receipts[r].playback == Some(Playback(Uncertain, Some(token), Some(LeaseEnd(limits, at))))
    case Settled(status) =>
      && ControllerStatus(status) && r in l.receipts
      && (StatusOf(l.receipts[r]) == Some(status) || (status == Rejected && l.receipts[r].playback == None))
  }

  lemma ReserveFits(limits: Limits, l: Ledger, q: string, zone: string, now: int, token: nat, r: string, fate: Fate)
    requires RowFits(limits, l, r, fate)
    ensures var (l', answer) := L.Reserve(l, limits, q, zone, now, token);
            RowFits(limits, l', r, if q == r && answer == Granted then Held(now, token) else fate)
  {
  }

  lemma ReconcileFits(limits: Limits, l: Ledger, r: string, observed: int, fate: Fate)
    requires RowFits(limits, l, r, fate)
    ensures var l' := L.Reconcile(l, r, observed).0;
            if fate.Held? && observed >= LeaseEnd(limits, fate.at) then
              RowFits(limits, l', r, Doubted(fate.at, fate.token))
            else l' == l
  {
  }

  lemma PutFits(limits: Limits, l: Ledger, q: string, zone: string, now: int, playback: Option<Playback>, r: string,
                fate: Fate)
    requires RowFits(limits, l, r, fate) && (playback == None || (q in l.receipts && Counted(l.receipts[q])))
    ensures RowFits(limits, Put(l, q, zone, now, playback), r, fate)
  {
  }

  lemma RequestFits(limits: Limits, s: State, id: nat, q: string, zone: string, now: int, r: string, fate: Fate)
    requires RowFits(limits, s.ledger, r, fate)
    ensures var step := Request(id, q, zone, now);
            RowFits(limits, Apply(limits, s, step).ledger, r, Moved(limits, s, step, r, fate))
  {
    ReserveFits(limits, s.ledger, q, zone, now, s.nextToken, r, fate);
  }

  lemma FinalizeFits(limits: Limits, l: Ledger, q: string, token: nat, zone: string, now: int, status: Status,
                     r: string, fate: Fate)
    requires RowFits(limits, l, r, fate) && q in l.receipts && InDoubt(l.receipts[q], token) && ControllerStatus(status)
    ensures var l' := L.Finalize(l, q, token, zone, now, status).0;
            RowFits(limits, l', r, if q == r then Settled(status) else fate)
  {
  }

  lemma SettleFits(limits: Limits, s: State, id: nat, r: string, fate: Fate)
    requires Inv(s) && RowFits(limits, s.ledger, r, fate) && CanSettle(s, id)
    ensures RowFits(limits, Settling(s, id).ledger, r, Moved(limits, s, Settle(id), r, fate))
  {
    var c := s.clients[id];
    assert ClientOk(s.ledger, s.nextToken, c);
    FinalizeFits(limits, s.ledger, c.receipt, c.token, c.zone, c.now, c.phase.status, r, fate);
  }

  lemma AcknowledgeFits(limits: Limits, s: State, id: nat, r: string, fate: Fate)
    requires Inv(s) && RowFits(limits, s.ledger, r, fate) && CanAcknowledge(s, id)
    ensures RowFits(limits, Acknowledging(s, id).ledger, r, fate)
  {
    var c := s.clients[id];
    assert ClientOk(s.ledger, s.nextToken, c);
    PutFits(limits, s.ledger, c.receipt, c.zone, c.now, ACKNOWLEDGEMENT, r, fate);
  }

  lemma StepFits(limits: Limits, s: State, step: Step, r: string, fate: Fate)
    requires Inv(s) && RowFits(limits, s.ledger, r, fate)
    ensures RowFits(limits, Apply(limits, s, step).ledger, r, Moved(limits, s, step, r, fate))
  {
    match step
    case Request(id, q, zone, now) => RequestFits(limits, s, id, q, zone, now, r, fate);
    case Operator(q, observed) => if q == r { ReconcileFits(limits, s.ledger, r, observed, fate); }
    case Suppress(q, zone, now) => PutFits(limits, s.ledger, q, zone, now, None, r, fate);
    case _ => ClientStepFits(limits, s, step, r, fate);
  }

  lemma ClientStepFits(limits: Limits, s: State, step: Step, r: string, fate: Fate)
    requires Inv(s) && RowFits(limits, s.ledger, r, fate) && !step.Request? && !step.Operator? && !step.Suppress?
    ensures RowFits(limits, Apply(limits, s, step).ledger, r, Moved(limits, s, step, r, fate))
  {
    if step.Settle? && CanSettle(s, step.id) {
      SettleFits(limits, s, step.id, r, fate);
    } else if step.Acknowledge? && CanAcknowledge(s, step.id) {
      AcknowledgeFits(limits, s, step.id, r, fate);
    } else {
      assert Apply(limits, s, step).ledger == s.ledger;
    }
  }

  lemma {:induction false} FateFits(limits: Limits, steps: seq<Step>, r: string)
    ensures RowFits(limits, Run(limits, steps).ledger, r, FateOf(limits, steps, r))
  {
    if steps != [] {
      var front, last := steps[..|steps| - 1], steps[|steps| - 1];
      FateFits(limits, front, r);
      Reachable(limits, front);
      StepFits(limits, Run(limits, front), last, r, FateOf(limits, front, r));
    }
  }

  // ----- limits, spelled out

  predicate Counting(receipt: Receipt, zone: string) {
    && receipt.zone == zone
    && StatusOf(receipt) in
       {Some(Accepted), Some(Pending), Some(Failed), Some(Expired), Some(Uncertain), Some(Duplicate)}
  }

  /** At least `cap` receipts of the zone count from `cutoff` on. */
  predicate HourFull(receipts: map<string, Receipt>, limits: Limits, zone: string, now: int) {
    && limits.hourlyCap != 0
    && |set r | r in receipts && Counting(receipts[r], zone) && receipts[r].at >= now - 3600 * SECOND|
       >= limits.hourlyCap
  }

  predicate DayFull(receipts: map<string, Receipt>, limits: Limits, zone: string, now: int) {
    && limits.dailyCap != 0
    && var midnight := now - now % DAY;
    |set r | r in receipts && Counting(receipts[r], zone) && midnight <= receipts[r].at < midnight + DAY|
    >= limits.dailyCap
  }

  predicate Cooling(receipts: map<string, Receipt>, limits: Limits, zone: string, now: int) {
    && limits.cooldown != 0
    && exists r :: r in receipts && Counting(receipts[r], zone)
                   && receipts[r].at >= now - (if limits.cooldown < 0 then 0 else limits.cooldown) * SECOND
  }

  lemma LimitsAre(receipts: map<string, Receipt>, limits: Limits, zone: string, now: int)
    ensures var reason := BrokenLimit(receipts, limits, zone, now);
            var hour, day := HourFull(receipts, limits, zone, now), DayFull(receipts, limits, zone, now);
            && (reason == Some(HourlyCap) <==> hour)
            && (reason == Some(DailyCap) <==> !hour && day)
            && (reason == Some(ZoneCooldown) <==> !hour && !day && Cooling(receipts, limits, zone, now))
            && reason != Some(ReservationExpired)
  {
    var cutoff := now - Max(limits.cooldown, 0) * SECOND;
    var midnight := now - now % DAY;
    assert Since(receipts, zone, now - HOUR) ==
           set r | r in receipts && Counting(receipts[r], zone) && receipts[r].at >= now - 3600 * SECOND;
    forall r | r in receipts
      ensures receipts[r].at / DAY == now / DAY <==> midnight <= receipts[r].at < midnight + DAY
    {
      DayAsInterval(receipts[r].at, now);
    }
    assert OnDay(receipts, zone, now / DAY) ==
           set r | r in receipts && Counting(receipts[r], zone) && midnight <= receipts[r].at < midnight + DAY;
    assert Since(receipts, zone, cutoff) != {} <==>
           exists r :: r in receipts && Counting(receipts[r], zone) && receipts[r].at >= cutoff by {
      if r :| r in receipts && Counting(receipts[r], zone) && receipts[r].at >= cutoff {
        assert r in Since(receipts, zone, cutoff);
      }
    }
  }

  // ----- the answers

  /** What the limits alone decide: hourly cap before daily cap before cooldown. */
  predicate LimitsDecide(receipts: map<string, Receipt>, limits: Limits, zone: string, now: int, answer: Reservation) {
    var hour, day := HourFull(receipts, limits, zone, now), DayFull(receipts, limits, zone, now);
    var cooling := Cooling(receipts, limits, zone, now);
    && (answer == Refused(HourlyCap) <==> hour)
    && (answer == Refused(DailyCap) <==> !hour && day)
    && (answer == Refused(ZoneCooldown) <==> !hour && !day && cooling)
    && (answer == Granted <==> !hour && !day && !cooling)
  }

  /** After any run, a reservation of `r` under any limits answers as the fate of `r` demands: existing
      once the controller accepted it or called it a duplicate, a cooldown while it is held, expired once
      it is in doubt or the controller said so; otherwise, never asked, failed or rejected, it is up to
      the limits alone.  Only a grant changes the ledger. */
  lemma ReservationAnswers(limits: Limits, steps: seq<Step>, r: string, others: Limits, zone: string, now: int,
                           token: nat)
    ensures var l, fate := Run(limits, steps).ledger, FateOf(limits, steps, r);
            var (l', answer) := L.Reserve(l, others, r, zone, now, token);
            && (fate == Settled(Accepted) || fate == Settled(Duplicate) ==> answer == Existing)
            && (fate.Held? ==> answer == Refused(ZoneCooldown))
            && (fate.Doubted? || fate == Settled(Expired) ==> answer == Refused(ReservationExpired))
            && (fate == Unasked || fate == Settled(Failed) || fate == Settled(Rejected) ==>
                  LimitsDecide(l.receipts, others, zone, now, answer))
            && (answer != Granted ==> l' == l)
  {
    FateFits(limits, steps, r);
    LimitsAre(Run(limits, steps).ledger.receipts, others, zone, now);
  }

  /** The attempts of `l` with one more for `r`. */
  function Noted(l: Ledger, r: string, at: int, playback: Option<Playback>): map<string, seq<Attempt>> {
    var log := AttemptsOf(l, r);
    l.attempts[r := log + [Attempt(|log| + 1, at, playback)]]
  }

  lemma Logs(l: Ledger, r: string, at: int, playback: Option<Playback>)
    requires Numbered(AttemptsOf(l, r))
    ensures Log(l, r, at, playback) == l.(attempts := Noted(l, r, at, playback))
  {
    NumberedMax(AttemptsOf(l, r));
  }

  lemma LogIsNumbered(limits: Limits, steps: seq<Step>, r: string)
    ensures var l := Run(limits, steps).ledger; Numbered(AttemptsOf(l, r)) && (r in l.receipts <==> r in l.attempts)
  {
    Reachable(limits, steps);
    AttemptHistory(limits, steps, [], r);
  }

  lemma GrantedLedger(limits: Limits, l: Ledger, r: string, zone: string, now: int, token: nat)
    requires L.Reserve(l, limits, r, zone, now, token).1 == Granted && (r in l.receipts <==> r in l.attempts)
    ensures var l' := L.Reserve(l, limits, r, zone, now, token).0;
            var pending := Some(Playback(Pending, Some(token), Some(LeaseEnd(limits, now))));
            && l'.receipts == l.receipts[r := Receipt(zone, now, pending)]
            && l'.attempts == if r in l.receipts then l.attempts else Noted(l, r, now, pending)
  {
  }

  /** A granted reservation: the row is pending under its token until the end of its lease, the first one
      is logged as attempt one, a retry is not logged before its answer. */
  lemma GrantWrites(limits: Limits, steps: seq<Step>, r: string, zone: string, now: int, token: nat)
    requires L.Reserve(Run(limits, steps).ledger, limits, r, zone, now, token).1 == Granted
    ensures var l := Run(limits, steps).ledger;
            var l' := L.Reserve(l, limits, r, zone, now, token).0;
            var pending := Some(Playback(Pending, Some(token), Some(LeaseEnd(limits, now))));
            && l'.receipts == l.receipts[r := Receipt(zone, now, pending)]
            && l'.attempts == if r in l.receipts then l.attempts else Noted(l, r, now, pending)
  {
    LogIsNumbered(limits, steps, r);
    GrantedLedger(limits, Run(limits, steps).ledger, r, zone, now, token);
  }

  /** Once the controller has accepted a decision or called it a duplicate, every later reservation of it,
      at any time and under any limits, answers existing and changes nothing. */
  lemma AcceptedForGood(limits: Limits, steps: seq<Step>, id: nat, more: seq<Step>, others: Limits, zone: string,
                        now: int, token: nat)
    requires CanSettle(Run(limits, steps), id)
    requires Run(limits, steps).clients[id].phase.status in {Accepted, Duplicate}
    ensures var r, l := Run(limits, steps).clients[id].receipt, Run(limits, steps + [Settle(id)] + more).ledger;
            L.Reserve(l, others, r, zone, now, token) == (l, Existing)
  {
    var s, mid := Run(limits, steps), steps + [Settle(id)];
    Reachable(limits, steps);
    Unfold(limits, steps, Settle(id));
    SettledRow(s, id);
    RunLater(limits, mid, more);
    var l, l' := Run(limits, mid).ledger, Run(limits, mid + more).ledger;
    AcceptedAnswers(l, l', s.clients[id].receipt, others, zone, now, token);
  }

  lemma SettledRow(s: State, id: nat)
    requires Inv(s) && CanSettle(s, id)
    ensures var r, l := s.clients[id].receipt, Settling(s, id).ledger;
            r in l.receipts && StatusOf(l.receipts[r]) == Some(s.clients[id].phase.status)
  {
    assert ClientOk(s.ledger, s.nextToken, s.clients[id]);
  }

  lemma AcceptedAnswers(l: Ledger, l': Ledger, r: string, limits: Limits, zone: string, now: int, token: nat)
    requires r in l.receipts && StatusOf(l.receipts[r]) in {Some(Accepted), Some(Duplicate)} && LaterLedger(l, l')
    ensures L.Reserve(l', limits, r, zone, now, token) == (l', Existing)
  {
    assert Terminal(l, r);
  }

  predicate Over(limits: Limits, fate: Fate, observed: int)
    requires fate.Held?
  {
    observed >= LeaseEnd(limits, fate.at)
  }

  /** What reconciling `r` answers and writes. */
  predicate Reconciles(limits: Limits, l: Ledger, fate: Fate, r: string, observed: int, l': Ledger,
                       answer: Reconciliation) {
    && (answer == Unknown <==> r !in l.receipts)
    && (answer == Reconciled <==> fate.Held? && Over(limits, fate, observed))
    && (answer == NotExpired <==> fate.Held? && !Over(limits, fate, observed))
    && (answer == NotPending <==> r in l.receipts && !fate.Held?)
    && (answer != Reconciled ==> l' == l)
    && (answer == Reconciled ==>
          var uncertain := Some(Playback(Uncertain, Some(fate.token), Some(LeaseEnd(limits, fate.at))));
          && r in l.receipts && l'.receipts == l.receipts[r := Receipt(l.receipts[r].zone, fate.at, uncertain)]
          && l'.attempts == Noted(l, r, observed, uncertain))
  }

  lemma ReconciledLedger(limits: Limits, l: Ledger, r: string, observed: int, fate: Fate)
    requires RowFits(limits, l, r, fate) && Numbered(AttemptsOf(l, r))
    ensures var (l', answer) := L.Reconcile(l, r, observed); Reconciles(limits, l, fate, r, observed, l', answer)
  {
    if fate.Held? {
      var uncertain := Some(Playback(Uncertain, Some(fate.token), Some(LeaseEnd(limits, fate.at))));
      Logs(l.(receipts := l.receipts[r := l.receipts[r].(playback := uncertain)]), r, observed, uncertain);
    }
  }

  /** After any run, reconciling `r` takes effect exactly when `r` is held and its lease, counted from the
      time of its request, is over; the row then keeps zone, time and token, and the attempt is logged. */
  lemma ReconciliationAnswers(limits: Limits, steps: seq<Step>, r: string, observed: int)
    ensures var l := Run(limits, steps).ledger;
            var (l', answer) := L.Reconcile(l, r, observed);
            Reconciles(limits, l, FateOf(limits, steps, r), r, observed, l', answer)
  {
    FateFits(limits, steps, r);
    LogIsNumbered(limits, steps, r);
    ReconciledLedger(limits, Run(limits, steps).ledger, r, observed, FateOf(limits, steps, r));
  }

  /** What finalizing `r` answers and writes. */
  predicate Finalizes(l: Ledger, fate: Fate, r: string, token: nat, zone: string, now: int, status: Status,
                      l': Ledger, answer: Finalization) {
    && (answer == Missing <==> r !in l.receipts)
    && (answer == Finalized <==> (fate.Held? || fate.Doubted?) && fate.token == token)
    && (answer == OwnerMismatch <==> (fate.Held? || fate.Doubted?) && fate.token != token)
    && (answer == AlreadyFinalized <==> r in l.receipts && (fate.Unasked? || fate.Settled?))
    && (answer != Finalized ==> l' == l)
    && (answer == Finalized ==>
          var playback := Some(Playback(status, Some(token), None));
          && l'.receipts == l.receipts[r := Receipt(zone, now, playback)]
          && l'.attempts == Noted(l, r, now, playback))
  }

  lemma FinalizedLedger(limits: Limits, l: Ledger, r: string, token: nat, zone: string, now: int, status: Status,
                        fate: Fate)
    requires RowFits(limits, l, r, fate) && Numbered(AttemptsOf(l, r))
    ensures var (l', answer) := L.Finalize(l, r, token, zone, now, status);
            Finalizes(l, fate, r, token, zone, now, status, l', answer)
  {
    var playback := Some(Playback(status, Some(token), None));
    Logs(l.(receipts := l.receipts[r := Receipt(zone, now, playback)]), r, now, playback);
  }

  /** After any run, finalizing `r` takes effect exactly when `r` is held or in doubt under that token; it
      is then settled as reported, and the attempt is logged. */
  lemma FinalizationAnswers(limits: Limits, steps: seq<Step>, r: string, token: nat, zone: string, now: int,
                            status: Status)
    ensures var l := Run(limits, steps).ledger;
            var (l', answer) := L.Finalize(l, r, token, zone, now, status);
            Finalizes(l, FateOf(limits, steps, r), r, token, zone, now, status, l', answer)
  {
    FateFits(limits, steps, r);
    LogIsNumbered(limits, steps, r);
    FinalizedLedger(limits, Run(limits, steps).ledger, r, token, zone, now, status, FateOf(limits, steps, r));
  }

  lemma RecordedLedger(limits: Limits, l: Ledger, r: string, zone: string, now: int, playback: Option<Playback>,
                       fate: Fate)
    requires RowFits(limits, l, r, fate) && Numbered(AttemptsOf(l, r))
    ensures var l' := Put(l, r, zone, now, playback);
            && l'.attempts == Noted(l, r, now, playback)
            && l'.receipts ==
               if fate == Unasked || fate == Settled(Rejected) then l.receipts[r := Receipt(zone, now, playback)]
               else l.receipts
  {
    Logs(l, r, now, playback);
    Logs(l.(receipts := l.receipts[r := Receipt(zone, now, playback)]), r, now, playback);
  }

  /** After any run, recording an attempt for `r` logs exactly that attempt, and writes the row exactly
      when `r` was never granted or was last rejected. */
  lemma RecordingAnswers(limits: Limits, steps: seq<Step>, r: string, zone: string, now: int,
                         playback: Option<Playback>)
    ensures var l, fate := Run(limits, steps).ledger, FateOf(limits, steps, r);
            var l' := Put(l, r, zone, now, playback);
            && l'.attempts == Noted(l, r, now, playback)
            && l'.receipts ==
               if fate == Unasked || fate == Settled(Rejected) then l.receipts[r := Receipt(zone, now, playback)]
               else l.receipts
  {
    FateFits(limits, steps, r);
    LogIsNumbered(limits, steps, r);
    RecordedLedger(limits, Run(limits, steps).ledger, r, zone, now, playback, FateOf(limits, steps, r));
  }
}
