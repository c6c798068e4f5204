/** Every interleaving of audio requests, controller answers, crashes and reconciliations.

    A state holds the ledger, the requests in flight, and two histories that exist only for
    the proofs: reservations granted and controller calls started.  A run is any list of
    steps; a step that is not enabled changes nothing. */
module AudioProtocol {
  import opened Options
  import L = AudioLedger
  import opened AudioLedger

  /** How far the owner of a reservation has come. */
  datatype Phase = Holding | Calling | Answered(status: Status)

  datatype Client =
    | Owner(phase: Phase, receipt: string, zone: string, now: int, token: nat)
    | Acknowledger(receipt: string, zone: string, now: int)

  datatype Call = Call(receipt: string, zone: string, at: int, token: nat)

  datatype State = State(ledger: Ledger, clients: map<nat, Client>, nextToken: nat, grants: seq<Call>, calls: seq<Call>)

  datatype Step =
    | Request(id: nat, receipt: string, zone: string, now: int)
    | Send(id: nat)
    | Return(id: nat, status: Status)
    | Raise(id: nat)
    | Settle(id: nat)
    | Acknowledge(id: nat)
    | Crash(id: nat)
    | Operator(receipt: string, observed: int)
    | Suppress(receipt: string, zone: string, now: int)

  const INITIAL: State := State(Ledger(map[], map[]), map[], 0, [], [])

  /** What a retry of an accepted decision records: `{"status": "duplicate"}`. */
  const ACKNOWLEDGEMENT: Option<Playback> := Some(Playback(Duplicate, None, None))

  function Drop(s: State, id: nat): State {
    s.(clients := s.clients - {id})
  }

  function Granting(s: State, limits: Limits, id: nat, r: string, zone: string, now: int): State {
    var l := L.Reserve(s.ledger, limits, r, zone, now, s.nextToken).0;
    Reserved(s, l, id, Call(r, zone, now, s.nextToken))
  }

  /** The owner of grant `g` enters with ledger `l`. */
  function Reserved(s: State, l: Ledger, id: nat, g: Call): State {
    var owner := Owner(Holding, g.receipt, g.zone, g.at, g.token);
    State(l, s.clients[id := owner], s.nextToken + 1, s.grants + [g], s.calls)
  }

  /** What the controller may report; `pending` and `uncertain` are states of the ledger only. */
  predicate ControllerStatus(status: Status) {
    status != Pending && status != Uncertain
  }

  predicate CanSend(s: State, id: nat) {
    id in s.clients && s.clients[id].Owner? && s.clients[id].phase == Holding
  }

  predicate CanAnswer(s: State, id: nat) {
    id in s.clients && s.clients[id].Owner? && s.clients[id].phase == Calling
  }

  predicate CanSettle(s: State, id: nat) {
    id in s.clients && s.clients[id].Owner? && s.clients[id].phase.Answered?
  }

  predicate CanAcknowledge(s: State, id: nat) {
    id in s.clients && s.clients[id].Acknowledger?
  }

  function Sending(s: State, id: nat): State
    requires CanSend(s, id)
  {
    var c := s.clients[id];
    var calls := s.calls + [Call(c.receipt, c.zone, c.now, c.token)];
    s.(clients := s.clients[id := c.(phase := Calling)], calls := calls)
  }

  function Answering(s: State, id: nat, status: Status): State
    requires CanAnswer(s, id)
  {
    s.(clients := s.clients[id := s.clients[id].(phase := Answered(status))])
  }

  function Settling(s: State, id: nat): State
    requires CanSettle(s, id)
  {
    var c := s.clients[id];
    Drop(s.(ledger := L.Finalize(s.ledger, c.receipt, c.token, c.zone, c.now, c.phase.status).0), id)
  }

  function Recording(s: State, r: string, zone: string, now: int, playback: Option<Playback>): State {
    s.(ledger := Put(s.ledger, r, zone, now, playback))
  }

  function Acknowledging(s: State, id: nat): State
    requires CanAcknowledge(s, id)
  {
    var c := s.clients[id];
    Drop(Recording(s, c.receipt, c.zone, c.now, ACKNOWLEDGEMENT), id)
  }

  function Requesting(limits: Limits, s: State, id: nat, r: string, zone: string, now: int): State
    requires id !in s.clients
  {
    match L.Reserve(s.ledger, limits, r, zone, now, s.nextToken).1
    case Granted => Granting(s, limits, id, r, zone, now)
    case Existing => s.(clients := s.clients[id := Acknowledger(r, zone, now)])
    case Refused(_) => s
  }

  function Apply(limits: Limits, s: State, step: Step): State {
    match step
    case Request(id, r, zone, now) => if id in s.clients then s else Requesting(limits, s, id, r, zone, now)
    case Send(id) => if CanSend(s, id) then Sending(s, id) else s
    case Return(id, status) => if CanAnswer(s, id) && ControllerStatus(status) then Answering(s, id, status) else s
    case Raise(id) => if CanAnswer(s, id) then Answering(s, id, Failed) else s
    case Settle(id) => if CanSettle(s, id) then Settling(s, id) else s
    case Acknowledge(id) => if CanAcknowledge(s, id) then Acknowledging(s, id) else s
    case Crash(id) => Drop(s, id)
    case Operator(r, observed) => s.(ledger := L.Reconcile(s.ledger, r, observed).0)
    case Suppress(r, zone, now) => Recording(s, r, zone, now, None)
  }

  function Run(limits: Limits, steps: seq<Step>): State {
    if steps == [] then INITIAL
    else Apply(limits, Run(limits, steps[..|steps| - 1]), steps[|steps| - 1])
  }

  // ----- what every step keeps

  predicate InDoubt(receipt: Receipt, token: nat) {
    receipt.playback.Some? && receipt.playback.value.token == Some(token)
    && receipt.playback.value.status in {Pending, Uncertain}
  }

  /** The row of `token` still forbids a further call. */
  predicate Blocks(receipt: Receipt, token: nat) {
    receipt.playback.Some? && receipt.playback.value.token == Some(token)
    && receipt.playback.value.status in {Pending, Uncertain, Accepted, Duplicate, Expired}
  }

  predicate Reports(attempt: Attempt, token: nat, statuses: set<Status>) {
    attempt.playback.Some? && attempt.playback.value.token == Some(token) && attempt.playback.value.status in statuses
  }

  predicate Recorded(log: seq<Attempt>, token: nat, statuses: set<Status>) {
    exists i :: 0 <= i < |log| && Reports(log[i], token, statuses)
  }

  predicate Retryable(log: seq<Attempt>, token: nat) {
    Recorded(log, token, {Failed, Rejected})
  }

  predicate Numbered(log: seq<Attempt>) {
    forall i :: 0 <= i < |log| ==> log[i].number == i + 1
  }

  predicate Witnessed(log: seq<Attempt>, playback: Option<Playback>) {
    exists i :: 0 <= i < |log| && log[i].playback == playback
  }

  predicate TokensBelow(log: seq<Attempt>, nextToken: nat) {
    forall i :: 0 <= i < |log| && log[i].playback.Some? && log[i].playback.value.token.Some? ==>
      log[i].playback.value.token.value < nextToken
  }

  predicate RowOk(receipt: Receipt, log: seq<Attempt>, nextToken: nat) {
    && log != [] && Numbered(log) && TokensBelow(log, nextToken)
    && (StatusOf(receipt) != Some(Pending) ==> Witnessed(log, receipt.playback))
    && (StatusOf(receipt) == Some(Pending) ==> receipt.playback.value.expiresAt.Some?)
    && (StatusOf(receipt) in {Some(Pending), Some(Uncertain)} ==>
          && receipt.playback.value.token.Some? && receipt.playback.value.token.value < nextToken
          && !Recorded(log, receipt.playback.value.token.value, {Accepted, Duplicate, Rejected, Expired, Failed}))
  }

  predicate LedgerOk(l: Ledger, nextToken: nat) {
    && l.receipts.Keys == l.attempts.Keys
    && forall r :: r in l.receipts ==> RowOk(l.receipts[r], l.attempts[r], nextToken)
  }

  /** The decision already has an accepted playback fact. */
  predicate Acknowledgeable(l: Ledger, r: string) {
    r in l.receipts && StatusOf(l.receipts[r]) in {Some(Accepted), Some(Duplicate)}
  }

  predicate ClientOk(l: Ledger, nextToken: nat, c: Client) {
    && c.receipt in l.receipts
    && var row := l.receipts[c.receipt];
       if c.Owner? then
         && InDoubt(row, c.token) && row.zone == c.zone && row.at == c.now && c.token < nextToken
         && (c.phase.Answered? ==> ControllerStatus(c.phase.status))
       else Acknowledgeable(l, c.receipt)
  }

  predicate ClientsOk(s: State) {
    && (forall id :: id in s.clients ==> ClientOk(s.ledger, s.nextToken, s.clients[id]))
    && (forall i, j :: i in s.clients && j in s.clients && i != j && s.clients[i].Owner? && s.clients[j].Owner? ==>
          s.clients[i].token != s.clients[j].token)
  }

  predicate CallOk(l: Ledger, c: Call) {
    && c.receipt in l.receipts
    && (Retryable(AttemptsOf(l, c.receipt), c.token) || Blocks(l.receipts[c.receipt], c.token))
  }

  predicate Fresh(log: seq<Call>, token: nat) {
    forall i :: 0 <= i < |log| ==> log[i].token != token
  }

  predicate Distinct(log: seq<Call>) {
    forall i, j :: 0 <= i < j < |log| ==> log[i].token != log[j].token
  }

  predicate Below(log: seq<Call>, nextToken: nat) {
    forall i :: 0 <= i < |log| ==> log[i].token < nextToken
  }

  predicate HistoryOk(s: State) {
    && Distinct(s.grants) && Below(s.grants, s.nextToken)
    && Distinct(s.calls) && Below(s.calls, s.nextToken)
    && (forall i :: 0 <= i < |s.calls| ==> s.calls[i] in s.grants && CallOk(s.ledger, s.calls[i]))
    && (forall id :: id in s.clients && s.clients[id].Owner? ==>
          var c := s.clients[id];
          Call(c.receipt, c.zone, c.now, c.token) in s.grants && (c.phase == Holding ==> Fresh(s.calls, c.token)))
  }

  ghost predicate Inv(s: State) {
    LedgerOk(s.ledger, s.nextToken) && ClientsOk(s) && HistoryOk(s)
  }

  // ----- the attempt log

  lemma {:induction false} NumberedMax(log: seq<Attempt>)
    requires Numbered(log)
    ensures MaxNumber(log) == |log|
  {
    if log != [] {
      var front := log[..|log| - 1];
      assert Numbered(front);
      NumberedMax(front);
    }
  }

  lemma LogKeeps(l: Ledger, r: string, at: int, playback: Option<Playback>)
    requires r in l.attempts ==> Numbered(l.attempts[r])
    ensures var l' := Log(l, r, at, playback);
            && l'.receipts == l.receipts && l'.attempts.Keys == l.attempts.Keys + {r}
            && l'.attempts[r] == AttemptsOf(l, r) + [Attempt(|AttemptsOf(l, r)| + 1, at, playback)]
            && Numbered(l'.attempts[r]) && Witnessed(l'.attempts[r], playback)
            && forall q :: q in l.attempts && q != r ==> l'.attempts[q] == l.attempts[q]
  {
    var log := AttemptsOf(l, r);
    NumberedMax(log);
    assert Log(l, r, at, playback).attempts[r][|log|].playback == playback;
  }

  lemma RecordedGrows(log: seq<Attempt>, log': seq<Attempt>, token: nat, statuses: set<Status>)
    requires log <= log' && Recorded(log, token, statuses)
    ensures Recorded(log', token, statuses)
  {
    var i :| 0 <= i < |log| && Reports(log[i], token, statuses);
    assert Reports(log'[i], token, statuses);
  }

  /** One receipt is touched and its log only grows; all others stay as they were. */
  predicate Touches(l: Ledger, l': Ledger, r: string) {
    && l'.receipts.Keys == l.receipts.Keys + {r} && l'.attempts.Keys == l.attempts.Keys + {r}
    && AttemptsOf(l, r) <= AttemptsOf(l', r)
    && forall q :: q in l.receipts && q != r ==>
         && l'.receipts[q] == l.receipts[q]
         && q in l.attempts && q in l'.attempts && l'.attempts[q] == l.attempts[q]
  }

  /** A row that blocks a token keeps blocking it, or the log says it may be retried. */
  ghost predicate KeepsBlocking(l: Ledger, l': Ledger, r: string)
    requires r in l'.receipts && r in l'.attempts
  {
    r in l.receipts ==> forall token: nat :: Blocks(l.receipts[r], token) ==>
      Blocks(l'.receipts[r], token) || Retryable(l'.attempts[r], token)
  }

  lemma HistoryKept(s: State, s': State, r: string)
    requires Inv(s) && Touches(s.ledger, s'.ledger, r)
    requires KeepsBlocking(s.ledger, s'.ledger, r)
    requires s'.calls == s.calls
    ensures forall i :: 0 <= i < |s.calls| ==> CallOk(s'.ledger, s.calls[i])
  {
    forall i | 0 <= i < |s.calls| ensures CallOk(s'.ledger, s.calls[i]) {
      var c := s.calls[i];
      assert CallOk(s.ledger, c);
      if c.receipt == r && Retryable(s.ledger.attempts[r], c.token) {
        RecordedGrows(s.ledger.attempts[r], s'.ledger.attempts[r], c.token, {Failed, Rejected});
      }
    }
  }

  lemma LedgerKept(l: Ledger, l': Ledger, nextToken: nat, nextToken': nat, r: string)
    requires LedgerOk(l, nextToken) && Touches(l, l', r) && nextToken <= nextToken'
    requires RowOk(l'.receipts[r], l'.attempts[r], nextToken')
    ensures LedgerOk(l', nextToken')
  {
    forall q | q in l'.receipts ensures RowOk(l'.receipts[q], l'.attempts[q], nextToken') {
      if q != r { assert RowOk(l.receipts[q], l.attempts[q], nextToken); }
    }
  }

  /** Clients of other receipts never notice; those of `r` are checked on the new row. */
  lemma ClientsKept(l: Ledger, l': Ledger, clients: map<nat, Client>, nextToken: nat, nextToken': nat, r: string)
    requires Touches(l, l', r) && nextToken <= nextToken'
    requires forall id :: id in clients ==> ClientOk(l, nextToken, clients[id])
    requires forall id :: id in clients && clients[id].receipt == r ==> ClientOk(l', nextToken', clients[id])
    ensures forall id :: id in clients ==> ClientOk(l', nextToken', clients[id])
  {
    forall id | id in clients ensures ClientOk(l', nextToken', clients[id]) {
      assert ClientOk(l, nextToken, clients[id]);
    }
  }

  /** A logged attempt that leaves the row alone or becomes its new playback keeps the row in order. */
  lemma RowAppend(row: Receipt, row': Receipt, log: seq<Attempt>, a: Attempt, nextToken: nat)
    requires RowOk(row, log, nextToken) && a.number == |log| + 1
    requires a.playback.Some? && a.playback.value.token.Some? ==> a.playback.value.token.value < nextToken
    requires row' == row || (row'.playback == a.playback && StatusOf(row') != Some(Pending))
    requires StatusOf(row') in {Some(Pending), Some(Uncertain)} ==>
               && StatusOf(row) in {Some(Pending), Some(Uncertain)}
               && row'.playback.value.token == row.playback.value.token
               && !Reports(a, row.playback.value.token.value, {Accepted, Duplicate, Rejected, Expired, Failed})
    ensures RowOk(row', log + [a], nextToken)
  {
    var log' := log + [a];
    assert log'[|log|] == a;
    if row'.playback != a.playback && StatusOf(row) != Some(Pending) {
      var i :| 0 <= i < |log| && log[i].playback == row.playback;
      assert log'[i].playback == row.playback;
    }
  }

  // ----- one lemma per kind of step

  /** No playback stands in the way of a reservation. */
  predicate Grantable(l: Ledger, r: string) {
    r in l.receipts ==> StatusOf(l.receipts[r]) in {None, Some(Failed), Some(Rejected)}
  }

  lemma GrantTouches(limits: Limits, l: Ledger, nextToken: nat, r: string, zone: string, now: int)
    requires LedgerOk(l, nextToken) && L.Reserve(l, limits, r, zone, now, nextToken).1 == Granted
    ensures var l' := L.Reserve(l, limits, r, zone, now, nextToken).0;
            && Touches(l, l', r) && RowOk(l'.receipts[r], l'.attempts[r], nextToken + 1)
            && l'.receipts == l.receipts[r := Receipt(zone, now, Some(PendingPlayback(limits, now, nextToken)))]
            && Grantable(l, r)
            && KeepsBlocking(l, l', r)
  {
    var row := Receipt(zone, now, Some(PendingPlayback(limits, now, nextToken)));
    if r in l.receipts { RegrantTouches(l, nextToken, r, row); } else { FirstGrantTouches(l, nextToken, r, row); }
  }

  predicate PendingUnder(row: Receipt, token: nat) {
    && StatusOf(row) == Some(Pending)
    && row.playback.value.expiresAt.Some? && row.playback.value.token == Some(token)
  }

  lemma FirstGrantTouches(l: Ledger, nextToken: nat, r: string, row: Receipt)
    requires LedgerOk(l, nextToken) && r !in l.receipts && PendingUnder(row, nextToken)
    ensures var log := AttemptsOf(l, r) + [Attempt(1, row.at, row.playback)];
            var l' := Ledger(l.receipts[r := row], l.attempts[r := log]);
            Touches(l, l', r) && RowOk(row, log, nextToken + 1) && KeepsBlocking(l, l', r)
  {
    assert AttemptsOf(l, r) == [];
    PendingRow(row, [Attempt(1, row.at, row.playback)], nextToken);
  }

  lemma RegrantTouches(l: Ledger, nextToken: nat, r: string, row: Receipt)
    requires LedgerOk(l, nextToken) && r in l.receipts && PendingUnder(row, nextToken) && Grantable(l, r)
    ensures var l' := l.(receipts := l.receipts[r := row]);
            Touches(l, l', r) && RowOk(row, l'.attempts[r], nextToken + 1) && KeepsBlocking(l, l', r)
  {
    assert RowOk(l.receipts[r], l.attempts[r], nextToken);
    PendingRow(row, l.attempts[r], nextToken);
  }

  /** A row that has just become pending under a token no earlier attempt carries. */
  lemma PendingRow(row: Receipt, log: seq<Attempt>, token: nat)
    requires log != [] && Numbered(log)
    requires TokensBelow(log, token) || log == [Attempt(1, row.at, row.playback)]
    requires PendingUnder(row, token)
    ensures RowOk(row, log, token + 1)
  {
  }

  lemma GrantHistory(s: State, s': State, id: nat, g: Call)
    requires HistoryOk(s) && id !in s.clients
    requires s' == Reserved(s, s'.ledger, id, g)
    requires g.token == s.nextToken
    requires forall i :: 0 <= i < |s.calls| ==> CallOk(s'.ledger, s.calls[i])
    ensures HistoryOk(s')
  {
    assert s'.grants[|s.grants|] == g;
  }

  lemma GrantClients(s: State, s': State, id: nat, g: Call, row: Receipt)
    requires ClientsOk(s) && g.token == s.nextToken
    requires s'.clients == s.clients[id := Owner(Holding, g.receipt, g.zone, g.at, g.token)]
               && s'.nextToken == s.nextToken + 1
    requires Touches(s.ledger, s'.ledger, g.receipt) && s'.ledger.receipts[g.receipt] == row
    requires row.zone == g.zone && row.at == g.at && InDoubt(row, g.token)
    requires Grantable(s.ledger, g.receipt)
    ensures ClientsOk(s')
  {
    forall i | i in s.clients
      ensures s.clients[i].receipt != g.receipt && (s.clients[i].Owner? ==> s.clients[i].token != g.token)
    {
      assert ClientOk(s.ledger, s.nextToken, s.clients[i]);
    }
    ClientsKept(s.ledger, s'.ledger, s.clients, s.nextToken, s'.nextToken, g.receipt);
  }

  /** The effect of a grant, without the checks that led to it. */
  lemma GrantEffect(s: State, s': State, id: nat, g: Call, row: Receipt)
    requires Inv(s) && id !in s.clients && g.token == s.nextToken
    requires s' == Reserved(s, s'.ledger, id, g)
    requires Touches(s.ledger, s'.ledger, g.receipt) && s'.ledger.receipts[g.receipt] == row
    requires RowOk(row, s'.ledger.attempts[g.receipt], s'.nextToken)
    requires row.zone == g.zone && row.at == g.at && InDoubt(row, g.token)
    requires Grantable(s.ledger, g.receipt)
    requires KeepsBlocking(s.ledger, s'.ledger, g.receipt)
    ensures Inv(s')
  {
    var l, l', r := s.ledger, s'.ledger, g.receipt;
    LedgerKept(l, l', s.nextToken, s'.nextToken, r);
    GrantClients(s, s', id, g, row);
    HistoryKept(s, s', r);
    GrantHistory(s, s', id, g);
  }

  lemma GrantKeeps(limits: Limits, s: State, id: nat, r: string, zone: string, now: int)
    requires Inv(s) && id !in s.clients
    requires L.Reserve(s.ledger, limits, r, zone, now, s.nextToken).1 == Granted
    ensures Inv(Granting(s, limits, id, r, zone, now))
  {
    GrantTouches(limits, s.ledger, s.nextToken, r, zone, now);
    GrantEffect(s, Granting(s, limits, id, r, zone, now), id, Call(r, zone, now, s.nextToken),
                Receipt(zone, now, Some(PendingPlayback(limits, now, s.nextToken))));
  }

  /** Finalizing the row in doubt lands, files the answer, and lifts the fence only for a retry. */
  lemma FinalizeTouches(l: Ledger, nextToken: nat, r: string, token: nat, zone: string, now: int, status: Status)
    requires LedgerOk(l, nextToken) && r in l.receipts && InDoubt(l.receipts[r], token) && ControllerStatus(status)
    ensures var (l', result) := L.Finalize(l, r, token, zone, now, status);
            && result == Finalized && Touches(l, l', r) && RowOk(l'.receipts[r], l'.attempts[r], nextToken)
            && KeepsBlocking(l, l', r)
            && !Recorded(AttemptsOf(l, r), token, {status}) && Recorded(AttemptsOf(l', r), token, {status})
  {
    var playback := Some(Playback(status, Some(token), None));
    var l' := L.Finalize(l, r, token, zone, now, status).0;
    assert RowOk(l.receipts[r], l.attempts[r], nextToken);
    LogKeeps(l.(receipts := l.receipts[r := Receipt(zone, now, playback)]), r, now, playback);
    var a := l'.attempts[r][|l.attempts[r]|];
    assert Reports(a, token, {status});
    if status in {Failed, Rejected} { assert Reports(a, token, {Failed, Rejected}); }
    NotRecorded(l.attempts[r], token, status);
    RowAppend(l.receipts[r], l'.receipts[r], l.attempts[r], a, nextToken);
  }

  lemma NotRecorded(log: seq<Attempt>, token: nat, status: Status)
    requires ControllerStatus(status) && !Recorded(log, token, {Accepted, Duplicate, Rejected, Expired, Failed})
    ensures !Recorded(log, token, {status})
  {
    forall i | 0 <= i < |log| ensures !Reports(log[i], token, {status}) {
      assert !Reports(log[i], token, {Accepted, Duplicate, Rejected, Expired, Failed});
    }
  }

  lemma SettleTouches(s: State, id: nat)
    requires Inv(s) && CanSettle(s, id)
    ensures var c, l, l' := s.clients[id], s.ledger, Settling(s, id).ledger;
            && L.Finalize(l, c.receipt, c.token, c.zone, c.now, c.phase.status).1 == Finalized
            && Touches(l, l', c.receipt) && RowOk(l'.receipts[c.receipt], l'.attempts[c.receipt], s.nextToken)
            && KeepsBlocking(l, l', c.receipt)
            && !Recorded(AttemptsOf(l, c.receipt), c.token, {c.phase.status})
            && Recorded(AttemptsOf(l', c.receipt), c.token, {c.phase.status})
  {
    var c := s.clients[id];
    assert ClientOk(s.ledger, s.nextToken, c);
    FinalizeTouches(s.ledger, s.nextToken, c.receipt, c.token, c.zone, c.now, c.phase.status);
  }

  lemma SettleKeeps(s: State, id: nat)
    requires Inv(s) && CanSettle(s, id)
    ensures Inv(Settling(s, id))
  {
    SettleTouches(s, id);
    SettledOk(s, Settling(s, id), id);
  }

  lemma SettledOk(s: State, s': State, id: nat)
    requires Inv(s) && id in s.clients && s.clients[id].Owner?
    requires s' == Drop(s.(ledger := s'.ledger), id)
    requires var r := s.clients[id].receipt;
             && Touches(s.ledger, s'.ledger, r) && RowOk(s'.ledger.receipts[r], s'.ledger.attempts[r], s.nextToken)
             && KeepsBlocking(s.ledger, s'.ledger, r)
    ensures Inv(s')
  {
    var r := s.clients[id].receipt;
    LedgerKept(s.ledger, s'.ledger, s.nextToken, s'.nextToken, r);
    forall i | i in s'.clients ensures s'.clients[i].receipt != r {
      assert ClientOk(s.ledger, s.nextToken, s.clients[i]) && ClientOk(s.ledger, s.nextToken, s.clients[id]);
    }
    ClientsKept(s.ledger, s'.ledger, s'.clients, s.nextToken, s'.nextToken, r);
    HistoryKept(s, s', r);
  }

  /** A ledger step that no client takes part in. */
  lemma TouchKeeps(s: State, s': State, r: string)
    requires Inv(s) && s' == s.(ledger := s'.ledger)
    requires Touches(s.ledger, s'.ledger, r) && RowOk(s'.ledger.receipts[r], s'.ledger.attempts[r], s.nextToken)
    requires KeepsBlocking(s.ledger, s'.ledger, r)
    requires forall i :: i in s.clients && s.clients[i].receipt == r ==> ClientOk(s'.ledger, s.nextToken, s.clients[i])
    ensures Inv(s')
  {
    LedgerKept(s.ledger, s'.ledger, s.nextToken, s'.nextToken, r);
    ClientsKept(s.ledger, s'.ledger, s.clients, s.nextToken, s'.nextToken, r);
    HistoryKept(s, s', r);
  }

  lemma ReconcileTouches(l: Ledger, nextToken: nat, r: string, observed: int)
    requires LedgerOk(l, nextToken) && L.Reconcile(l, r, observed).1 == Reconciled
    ensures var l' := L.Reconcile(l, r, observed).0;
            && Touches(l, l', r) && RowOk(l'.receipts[r], l'.attempts[r], nextToken)
            && l'.receipts[r] == l.receipts[r].(playback := Some(l.receipts[r].playback.value.(status := Uncertain)))
            && KeepsBlocking(l, l', r)
  {
    var l' := L.Reconcile(l, r, observed).0;
    assert RowOk(l.receipts[r], l.attempts[r], nextToken);
    var playback := Some(l.receipts[r].playback.value.(status := Uncertain));
    LogKeeps(l.(receipts := l.receipts[r := l.receipts[r].(playback := playback)]), r, observed, playback);
    RowAppend(l.receipts[r], l'.receipts[r], l.attempts[r], l'.attempts[r][|l.attempts[r]|], nextToken);
  }

  lemma OperatorKeeps(s: State, r: string, observed: int)
    requires Inv(s)
    ensures Inv(s.(ledger := L.Reconcile(s.ledger, r, observed).0))
  {
    var s' := s.(ledger := L.Reconcile(s.ledger, r, observed).0);
    if L.Reconcile(s.ledger, r, observed).1 == Reconciled {
      ReconcileTouches(s.ledger, s.nextToken, r, observed);
      forall i | i in s.clients && s.clients[i].receipt == r ensures ClientOk(s'.ledger, s.nextToken, s.clients[i]) {
        assert ClientOk(s.ledger, s.nextToken, s.clients[i]);
      }
      TouchKeeps(s, s', r);
    }
  }

  /** A log entry that leaves the row alone. */
  lemma NoteTouches(l: Ledger, nextToken: nat, r: string, at: int, playback: Option<Playback>)
    requires LedgerOk(l, nextToken) && r in l.receipts && (playback == None || playback.value.token == None)
    ensures var l' := Log(l, r, at, playback);
            Touches(l, l', r) && RowOk(l'.receipts[r], l'.attempts[r], nextToken) && l'.receipts == l.receipts
  {
    LogKeeps(l, r, at, playback);
    var l' := Log(l, r, at, playback);
    assert RowOk(l.receipts[r], l.attempts[r], nextToken);
    RowAppend(l.receipts[r], l.receipts[r], l.attempts[r], l'.attempts[r][|l.attempts[r]|], nextToken);
  }

  /** A suppression over no row, or over one that counts for nothing. */
  lemma SuppressTouches(l: Ledger, nextToken: nat, r: string, zone: string, now: int)
    requires LedgerOk(l, nextToken) && (r in l.receipts ==> !Counted(l.receipts[r]))
    ensures var l' := Put(l, r, zone, now, None);
            && Touches(l, l', r) && RowOk(l'.receipts[r], l'.attempts[r], nextToken)
            && l'.receipts[r] == Receipt(zone, now, None)
  {
    var written := l.(receipts := l.receipts[r := Receipt(zone, now, None)]);
    var l' := Put(l, r, zone, now, None);
    if r in l.receipts { assert RowOk(l.receipts[r], l.attempts[r], nextToken); }
    LogKeeps(written, r, now, None);
    if r in l.receipts {
      RowAppend(l.receipts[r], l'.receipts[r], l.attempts[r], l'.attempts[r][|l.attempts[r]|], nextToken);
    }
  }

  lemma PutTouches(l: Ledger, nextToken: nat, r: string, zone: string, now: int, playback: Option<Playback>)
    requires LedgerOk(l, nextToken)
    requires playback == None || (playback == ACKNOWLEDGEMENT && Acknowledgeable(l, r))
    ensures var l' := Put(l, r, zone, now, playback);
            && Touches(l, l', r) && RowOk(l'.receipts[r], l'.attempts[r], nextToken)
            && (r in l.receipts && Counted(l.receipts[r]) ==> l'.receipts[r] == l.receipts[r])
            && (Counted(l'.receipts[r]) ==> r in l.receipts && Counted(l.receipts[r]))
            && KeepsBlocking(l, l', r)
  {
    if r in l.receipts && Counted(l.receipts[r]) {
      NoteTouches(l, nextToken, r, now, playback);
    } else {
      SuppressTouches(l, nextToken, r, zone, now);
    }
  }

  /** Recording a suppression, or a duplicate over a terminal row, takes nothing from anyone. */
  lemma PutKeeps(s: State, r: string, zone: string, now: int, playback: Option<Playback>)
    requires Inv(s)
    requires playback == None || (playback == ACKNOWLEDGEMENT && Acknowledgeable(s.ledger, r))
    ensures Inv(Recording(s, r, zone, now, playback))
  {
    var s' := Recording(s, r, zone, now, playback);
    PutTouches(s.ledger, s.nextToken, r, zone, now, playback);
    forall i | i in s.clients && s.clients[i].receipt == r ensures ClientOk(s'.ledger, s.nextToken, s.clients[i]) {
      assert ClientOk(s.ledger, s.nextToken, s.clients[i]);
    }
    TouchKeeps(s, s', r);
  }

  lemma AcknowledgeKeeps(s: State, id: nat)
    requires Inv(s) && CanAcknowledge(s, id)
    ensures Inv(Acknowledging(s, id))
  {
    var c := s.clients[id];
    assert ClientOk(s.ledger, s.nextToken, c);
    PutKeeps(s, c.receipt, c.zone, c.now, ACKNOWLEDGEMENT);
    DropKeeps(Recording(s, c.receipt, c.zone, c.now, ACKNOWLEDGEMENT), id);
  }

  lemma CallAdded(s: State, s': State, c: Call)
    requires HistoryOk(s) && s'.calls == s.calls + [c] && s'.grants == s.grants && s'.nextToken == s.nextToken
    requires s'.ledger == s.ledger && c in s.grants && CallOk(s.ledger, c) && Fresh(s.calls, c.token)
    requires forall id :: id in s'.clients && s'.clients[id].Owner? ==>
               && id in s.clients && s.clients[id].Owner?
               && s'.clients[id] == s.clients[id].(phase := s'.clients[id].phase)
               && (s'.clients[id].phase == Holding ==> s.clients[id].phase == Holding && s.clients[id].token != c.token)
    ensures HistoryOk(s')
  {
    assert s'.calls[|s.calls|] == c;
  }

  lemma SendKeeps(s: State, id: nat)
    requires Inv(s) && CanSend(s, id)
    ensures Inv(Sending(s, id))
  {
    var s', c := Sending(s, id), s.clients[id];
    assert ClientOk(s.ledger, s.nextToken, c);
    CallAdded(s, s', Call(c.receipt, c.zone, c.now, c.token));
    ClientsMove(s, s');
  }

  lemma AnswerKeeps(s: State, id: nat, status: Status)
    requires Inv(s) && CanAnswer(s, id) && ControllerStatus(status)
    ensures Inv(Answering(s, id, status))
  {
    ClientsMove(s, Answering(s, id, status));
  }

  lemma DropKeeps(s: State, id: nat)
    requires Inv(s)
    ensures Inv(Drop(s, id))
  {
    ClientsMove(s, Drop(s, id));
  }

  /** Clients leave, or go one phase further; the ledger does not notice. */
  lemma ClientsMove(s: State, s': State)
    requires ClientsOk(s) && s'.ledger == s.ledger && s'.nextToken == s.nextToken
    requires forall i :: i in s'.clients ==>
               && i in s.clients
               && (s'.clients[i] == s.clients[i]
                   || (s.clients[i].Owner? && s'.clients[i].Owner? && s'.clients[i].phase != Holding
                       && (s'.clients[i].phase.Answered? ==> ControllerStatus(s'.clients[i].phase.status))
                       && s'.clients[i] == s.clients[i].(phase := s'.clients[i].phase)))
    ensures ClientsOk(s')
    ensures HistoryOk(s) && s'.grants == s.grants && s'.calls == s.calls ==> HistoryOk(s')
  {
    forall i | i in s'.clients ensures ClientOk(s'.ledger, s'.nextToken, s'.clients[i]) {
      assert ClientOk(s.ledger, s.nextToken, s.clients[i]);
    }
  }

  lemma RequestKeeps(limits: Limits, s: State, id: nat, r: string, zone: string, now: int)
    requires Inv(s) && id !in s.clients
    ensures Inv(Requesting(limits, s, id, r, zone, now))
  {
    if L.Reserve(s.ledger, limits, r, zone, now, s.nextToken).1 == Granted {
      GrantKeeps(limits, s, id, r, zone, now);
    }
  }

  /** The steps of an owner between its grant and its settlement. */
  lemma OwnerStepKeeps(limits: Limits, s: State, step: Step)
    requires Inv(s) && (step.Send? || step.Return? || step.Raise? || step.Settle?)
    ensures Inv(Apply(limits, s, step))
  {
    match step
    case Send(id) => if CanSend(s, id) { SendKeeps(s, id); }
    case Return(id, status) => if CanAnswer(s, id) && ControllerStatus(status) { AnswerKeeps(s, id, status); }
    case Raise(id) => if CanAnswer(s, id) { AnswerKeeps(s, id, Failed); }
    case Settle(id) => if CanSettle(s, id) { SettleKeeps(s, id); }
  }

  lemma StepKeeps(limits: Limits, s: State, step: Step)
    requires Inv(s)
    ensures Inv(Apply(limits, s, step))
  {
    match step
    case Request(id, r, zone, now) => if id !in s.clients { RequestKeeps(limits, s, id, r, zone, now); }
    case Acknowledge(id) => if CanAcknowledge(s, id) { AcknowledgeKeeps(s, id); }
    case Crash(id) => DropKeeps(s, id);
    case Operator(r, observed) => OperatorKeeps(s, r, observed);
    case Suppress(r, zone, now) => PutKeeps(s, r, zone, now, None);
    case _ => OwnerStepKeeps(limits, s, step);
  }

  lemma {:induction false} Reachable(limits: Limits, steps: seq<Step>)
    ensures Inv(Run(limits, steps))
  {
    if steps != [] {
      Reachable(limits, steps[..|steps| - 1]);
      StepKeeps(limits, Run(limits, steps[..|steps| - 1]), steps[|steps| - 1]);
    }
  }

  // ----- a request nobody disturbs

  lemma LoneGrant(limits: Limits, s: State, id: nat, r: string, zone: string, now: int)
    requires s.clients == map[] && L.Reserve(s.ledger, limits, r, zone, now, s.nextToken).1 == Granted
    ensures Apply(limits, s, Request(id, r, zone, now)) ==
            State(L.Reserve(s.ledger, limits, r, zone, now, s.nextToken).0,
                  map[id := Owner(Holding, r, zone, now, s.nextToken)], s.nextToken + 1,
                  s.grants + [Call(r, zone, now, s.nextToken)], s.calls)
  {
  }

  lemma LoneSend(limits: Limits, s: State, id: nat, c: Client)
    requires s.clients == map[id := c] && c.Owner? && c.phase == Holding
    ensures Apply(limits, s, Send(id)) ==
            s.(clients := map[id := c.(phase := Calling)], calls := s.calls + [Call(c.receipt, c.zone, c.now, c.token)])
  {
  }

  lemma LoneAnswer(limits: Limits, s: State, id: nat, c: Client, status: Status)
    requires s.clients == map[id := c] && c.Owner? && c.phase == Calling && ControllerStatus(status)
    ensures Apply(limits, s, Return(id, status)) == s.(clients := map[id := c.(phase := Answered(status))])
    ensures status == Failed ==> Apply(limits, s, Raise(id)) == s.(clients := map[id := c.(phase := Answered(Failed))])
  {
  }

  lemma LoneSettle(limits: Limits, s: State, id: nat, c: Client)
    requires s.clients == map[id := c] && c.Owner? && c.phase.Answered?
    ensures Apply(limits, s, Settle(id)) ==
            s.(ledger := L.Finalize(s.ledger, c.receipt, c.token, c.zone, c.now, c.phase.status).0, clients := map[])
  {
  }

  /** One whole request: reserve, send, get an answer, finalize. */
  function Whole(id: nat, r: string, zone: string, now: int, answer: Step): seq<Step> {
    [Request(id, r, zone, now), Send(id), answer, Settle(id)]
  }

  predicate Answers(answer: Step, id: nat, status: Status) {
    ControllerStatus(status) && (answer == Return(id, status) || (answer == Raise(id) && status == Failed))
  }

  /** The state after one whole request that nobody disturbed. */
  function Finished(limits: Limits, s: State, r: string, zone: string, now: int, status: Status): State {
    var g, reserved := Call(r, zone, now, s.nextToken), L.Reserve(s.ledger, limits, r, zone, now, s.nextToken).0;
    var l := L.Finalize(reserved, r, s.nextToken, zone, now, status).0;
    State(l, map[], s.nextToken + 1, s.grants + [g], s.calls + [g])
  }

  function FourSteps(limits: Limits, s: State, a: Step, b: Step, c: Step, d: Step): State {
    Apply(limits, Apply(limits, Apply(limits, Apply(limits, s, a), b), c), d)
  }

  lemma LoneRequest(limits: Limits, s: State, id: nat, r: string, zone: string, now: int, answer: Step, status: Status)
    requires s.clients == map[] && L.Reserve(s.ledger, limits, r, zone, now, s.nextToken).1 == Granted
    requires Answers(answer, id, status)
    ensures FourSteps(limits, s, Request(id, r, zone, now), Send(id), answer, Settle(id)) ==
            Finished(limits, s, r, zone, now, status)
  {
    var c := Owner(Holding, r, zone, now, s.nextToken);
    LoneGrant(limits, s, id, r, zone, now);
    var s1 := Apply(limits, s, Request(id, r, zone, now));
    LoneSend(limits, s1, id, c);
    var s2 := Apply(limits, s1, Send(id));
    LoneAnswer(limits, s2, id, c.(phase := Calling), status);
    LoneSettle(limits, Apply(limits, s2, answer), id, c.(phase := Answered(status)));
  }

  lemma Unfold(limits: Limits, steps: seq<Step>, step: Step)
    ensures Run(limits, steps + [step]) == Apply(limits, Run(limits, steps), step)
  {
    assert (steps + [step])[..|steps + [step]| - 1] == steps;
  }

  lemma RunFour(limits: Limits, steps: seq<Step>, a: Step, b: Step, c: Step, d: Step)
    ensures Run(limits, steps + [a, b, c, d]) == FourSteps(limits, Run(limits, steps), a, b, c, d)
  {
    OneByOne(steps, a, b, c, d);
    Unfold(limits, steps, a);
    Unfold(limits, steps + [a], b);
    Unfold(limits, steps + [a] + [b], c);
    Unfold(limits, steps + [a] + [b] + [c], d);
  }

  lemma OneByOne(steps: seq<Step>, a: Step, b: Step, c: Step, d: Step)
    ensures steps + [a, b, c, d] == steps + [a] + [b] + [c] + [d]
  {
  }

  /** A run followed by one whole request. */
  lemma RunWhole(limits: Limits, steps: seq<Step>, id: nat, r: string, zone: string, now: int, answer: Step,
                 status: Status)
    requires var s := Run(limits, steps);
             s.clients == map[] && L.Reserve(s.ledger, limits, r, zone, now, s.nextToken).1 == Granted
    requires Answers(answer, id, status)
    ensures Run(limits, steps + Whole(id, r, zone, now, answer)) ==
              Finished(limits, Run(limits, steps), r, zone, now, status)
  {
    RunFour(limits, steps, Request(id, r, zone, now), Send(id), answer, Settle(id));
    LoneRequest(limits, Run(limits, steps), id, r, zone, now, answer, status);
  }
}
