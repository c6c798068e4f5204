/** The audio side of the SQLite repository in place, and the service that drives it. */
module AudioRepository {
  import opened Options
  import L = AudioLedger
  import opened AudioLedger
  import opened AudioProtocol

  function CountSince(times: seq<int>, cutoff: int): nat {
    if times == [] then 0
    else CountSince(times[..|times| - 1], cutoff) + if times[|times| - 1] >= cutoff then 1 else 0
  }

  function CountOnDay(times: seq<int>, day: int): nat {
    if times == [] then 0
    else CountOnDay(times[..|times| - 1], day) + if times[|times| - 1] / DAY == day then 1 else 0
  }

  /** `times` lists the counted rows of a zone, as far as any cutoff or day can tell. */
  ghost predicate Lists(times: seq<int>, receipts: map<string, Receipt>, zone: string) {
    && (forall cutoff :: CountSince(times, cutoff) == |Since(receipts, zone, cutoff)|)
    && (forall day :: CountOnDay(times, day) == |OnDay(receipts, zone, day)|)
  }

  lemma SinceOneMore(times: seq<int>, receipts: map<string, Receipt>, zone: string, r: string, row: Receipt,
                     cutoff: int)
    requires CountSince(times, cutoff) == |Since(receipts, zone, cutoff)| && r !in receipts
    ensures CountSince(if CountedIn(row, zone) then times + [row.at] else times, cutoff) ==
              |Since(receipts[r := row], zone, cutoff)|
  {
    assert (times + [row.at])[..|times|] == times;
    assert Since(receipts[r := row], zone, cutoff) ==
           Since(receipts, zone, cutoff) + if CountedIn(row, zone) && row.at >= cutoff then {r} else {};
  }

  lemma OnDayOneMore(times: seq<int>, receipts: map<string, Receipt>, zone: string, r: string, row: Receipt, day: int)
    requires CountOnDay(times, day) == |OnDay(receipts, zone, day)| && r !in receipts
    ensures CountOnDay(if CountedIn(row, zone) then times + [row.at] else times, day) ==
              |OnDay(receipts[r := row], zone, day)|
  {
    assert (times + [row.at])[..|times|] == times;
    assert OnDay(receipts[r := row], zone, day) ==
           OnDay(receipts, zone, day) + if CountedIn(row, zone) && row.at / DAY == day then {r} else {};
  }

  lemma ListsOneMore(times: seq<int>, receipts: map<string, Receipt>, zone: string, r: string, row: Receipt)
    requires Lists(times, receipts, zone) && r !in receipts
    ensures Lists(if CountedIn(row, zone) then times + [row.at] else times, receipts[r := row], zone)
  {
    var times', receipts' := if CountedIn(row, zone) then times + [row.at] else times, receipts[r := row];
    forall cutoff ensures CountSince(times', cutoff) == |Since(receipts', zone, cutoff)| {
      SinceOneMore(times, receipts, zone, r, row, cutoff);
    }
    forall day ensures CountOnDay(times', day) == |OnDay(receipts', zone, day)| {
      OnDayOneMore(times, receipts, zone, r, row, day);
    }
  }

  class Repository {
    var receipts: map<string, Receipt>
    var attempts: map<string, seq<Attempt>>

    ghost function Snapshot(): Ledger
      reads this
    {
      Ledger(receipts, attempts)
    }

    constructor ()
      ensures Snapshot() == Ledger(map[], map[])
    {
      receipts, attempts := map[], map[];
    }

    /** The loop over the rows of one zone, in whatever order the table yields them. */
    method CountedTimes(zone: string) returns (times: seq<int>)
      ensures Lists(times, receipts, zone)
    {
      times := [];
      var todo := receipts.Keys;
      assert receipts - todo == map[];
      while todo != {}
        invariant todo <= receipts.Keys
        invariant Lists(times, receipts - todo, zone)
        decreases todo
      {
        var r :| r in todo;
        ListsOneMore(times, receipts - todo, zone, r, receipts[r]);
        assert receipts - (todo - {r}) == (receipts - todo)[r := receipts[r]];
        if CountedIn(receipts[r], zone) {
          times := times + [receipts[r].at];
        }
        todo := todo - {r};
      }
      assert receipts - todo == receipts;
    }

    method Append(r: string, at: int, playback: Option<Playback>)
      modifies this`attempts
      ensures Snapshot() == Log(old(Snapshot()), r, at, playback)
    {
      var log := if r in attempts then attempts[r] else [];
      attempts := attempts[r := log + [Attempt(MaxNumber(log) + 1, at, playback)]];
    }

    method Reserve(limits: Limits, r: string, zone: string, now: int, token: nat) returns (outcome: Reservation)
      modifies this
      ensures (Snapshot(), outcome) == L.Reserve(old(Snapshot()), limits, r, zone, now, token)
    {
      var known := r in receipts;
      if known {
        var status := StatusOf(receipts[r]);
        if status == Some(Accepted) || status == Some(Duplicate) { return Existing; }
        if status == Some(Pending) { return Refused(ZoneCooldown); }
        if status == Some(Expired) || status == Some(Uncertain) { return Refused(ReservationExpired); }
      }
      var times := CountedTimes(zone);
      if limits.hourlyCap != 0 && CountSince(times, now - HOUR) >= limits.hourlyCap { return Refused(HourlyCap); }
      if limits.dailyCap != 0 && CountOnDay(times, now / DAY) >= limits.dailyCap { return Refused(DailyCap); }
      var cutoff := now - Max(limits.cooldown, 0) * SECOND;
      if limits.cooldown != 0 && CountSince(times, cutoff) > 0 { return Refused(ZoneCooldown); }
      var playback := Some(PendingPlayback(limits, now, token));
      receipts := receipts[r := Receipt(zone, now, playback)];
      if !known {
        var log := if r in attempts then attempts[r] else [];
        attempts := attempts[r := log + [Attempt(1, now, playback)]];
      }
      outcome := Granted;
    }

    method Finalize(r: string, token: nat, zone: string, now: int, status: Status) returns (outcome: Finalization)
      modifies this
      ensures (Snapshot(), outcome) == L.Finalize(old(Snapshot()), r, token, zone, now, status)
    {
      if r !in receipts { return Missing; }
      var current := StatusOf(receipts[r]);
      if current != Some(Pending) && current != Some(Uncertain) { return AlreadyFinalized; }
      if receipts[r].playback.value.token != Some(token) { return OwnerMismatch; }
      var playback := Some(Playback(status, Some(token), None));
      receipts := receipts[r := Receipt(zone, now, playback)];
      Append(r, now, playback);
      outcome := Finalized;
    }

    method Reconcile(r: string, observed: int) returns (outcome: Reconciliation)
      modifies this
      ensures (Snapshot(), outcome) == L.Reconcile(old(Snapshot()), r, observed)
    {
      if r !in receipts { return Unknown; }
      var receipt := receipts[r];
      if StatusOf(receipt) != Some(Pending) { return NotPending; }
      if receipt.playback.value.expiresAt == None { return NoExpiry; }
      if receipt.playback.value.expiresAt.value > observed { return NotExpired; }
      var playback := Some(receipt.playback.value.(status := Uncertain));
      receipts := receipts[r := receipt.(playback := playback)];
      Append(r, observed, playback);
      outcome := Reconciled;
    }

    method Put(r: string, zone: string, now: int, playback: Option<Playback>)
      modifies this
      ensures Snapshot() == L.Put(old(Snapshot()), r, zone, now, playback)
    {
      if r !in receipts || !Counted(receipts[r]) {
        receipts := receipts[r := Receipt(zone, now, playback)];
      }
      Append(r, now, playback);
    }
  }

  /** What `controller.send` does: it returns a status or raises. */
  datatype Answer = Returns(status: Status) | Raises

  datatype Outcome = NotApproved | Refusal(reason: Reason) | Repeat | Reported(status: Status) | Propagated

  function ApplyAll(limits: Limits, s: State, steps: seq<Step>): State
    decreases |steps|
  {
    if steps == [] then s else ApplyAll(limits, Apply(limits, s, steps[0]), steps[1..])
  }

  /** The protocol steps one undisturbed request takes. */
  function Script(approved: bool, reservation: Reservation, r: string, zone: string, now: int,
                  answer: Answer): seq<Step> {
    var request := Request(0, r, zone, now);
    if !approved then [Suppress(r, zone, now)]
    else match reservation
      case Granted => [request, Send(0), if answer.Raises? then Raise(0) else Return(0, answer.status), Settle(0)]
      case Existing => [request, Acknowledge(0)]
      case Refused(_) => [request, Suppress(r, zone, now)]
  }

  lemma {:induction false} Unrolled(limits: Limits, s: State, steps: seq<Step>)
    requires 1 <= |steps| <= 4
    ensures ApplyAll(limits, s, steps) ==
            var s1 := Apply(limits, s, steps[0]);
            if |steps| == 1 then s1 else
            var s2 := Apply(limits, s1, steps[1]);
            if |steps| == 2 then s2 else
            var s3 := Apply(limits, s2, steps[2]);
            if |steps| == 3 then s3 else Apply(limits, s3, steps[3])
    decreases |steps|
  {
    var s1, rest := Apply(limits, s, steps[0]), steps[1..];
    assert ApplyAll(limits, s, steps) == ApplyAll(limits, s1, rest);
    if |steps| > 1 { Unrolled(limits, s1, rest); }
  }

  /** The ledger an undisturbed request leaves, read off the repository calls it makes. */
  function Outlined(limits: Limits, l: Ledger, approved: bool, r: string, zone: string, now: int, token: nat,
                    answer: Answer): Ledger {
    if !approved then Put(l, r, zone, now, None)
    else
      var (reserved, reservation) := L.Reserve(l, limits, r, zone, now, token);
      match reservation
      case Granted => L.Finalize(reserved, r, token, zone, now, if answer.Raises? then Failed else answer.status).0
      case Existing => Put(l, r, zone, now, ACKNOWLEDGEMENT)
      case Refused(_) => Put(l, r, zone, now, None)
  }

  lemma GrantedScript(limits: Limits, l: Ledger, r: string, zone: string, now: int, token: nat, answer: Answer)
    requires answer.Returns? ==> ControllerStatus(answer.status)
    requires L.Reserve(l, limits, r, zone, now, token).1 == Granted
    ensures var after := ApplyAll(limits, State(l, map[], token, [], []), Script(true, Granted, r, zone, now, answer));
            && after.ledger == Outlined(limits, l, true, r, zone, now, token, answer)
            && after.calls == [Call(r, zone, now, token)]
  {
    var steps, s := Script(true, Granted, r, zone, now, answer), State(l, map[], token, [], []);
    Unrolled(limits, s, steps);
    LoneRequest(limits, s, 0, r, zone, now, steps[2], if answer.Raises? then Failed else answer.status);
  }

  lemma OtherScripts(limits: Limits, l: Ledger, approved: bool, r: string, zone: string, now: int, token: nat,
                     answer: Answer)
    requires approved ==> L.Reserve(l, limits, r, zone, now, token).1 != Granted
    ensures var reservation := L.Reserve(l, limits, r, zone, now, token).1;
            var after := ApplyAll(limits, State(l, map[], token, [], []),
                Script(approved, reservation, r, zone, now, answer));
            && after.ledger == Outlined(limits, l, approved, r, zone, now, token, answer)
            && after.calls == []
  {
    var reservation, s := L.Reserve(l, limits, r, zone, now, token).1, State(l, map[], token, [], []);
    Unrolled(limits, s, Script(approved, reservation, r, zone, now, answer));
    if approved && reservation == Existing {
      assert Apply(limits, s, Request(0, r, zone, now)) == s.(clients := map[0 := Acknowledger(r, zone, now)]);
    }
  }

  /** What a request leaves in the log: the controller's answer under its token, `failed` for an exception,
      a plain duplicate for a repeat, nothing played otherwise. */
  function Entry(approved: bool, reservation: Reservation, token: nat, answer: Answer): Option<Playback> {
    if !approved || reservation.Refused? then None
    else if reservation == Existing then Some(Playback(Duplicate, None, None))
    else Some(Playback(if answer.Raises? then Failed else answer.status, Some(token), None))
  }

  predicate LastLogged(l: Ledger, r: string, at: int, playback: Option<Playback>) {
    && r in l.attempts && l.attempts[r] != []
    && l.attempts[r][|l.attempts[r]| - 1].at == at && l.attempts[r][|l.attempts[r]| - 1].playback == playback
  }

  lemma LogLasts(l: Ledger, r: string, at: int, playback: Option<Playback>)
    ensures LastLogged(Log(l, r, at, playback), r, at, playback)
  {
  }

  lemma PutLogs(l: Ledger, r: string, zone: string, now: int, playback: Option<Playback>)
    ensures LastLogged(Put(l, r, zone, now, playback), r, now, playback)
  {
    LogLasts(l, r, now, playback);
    LogLasts(l.(receipts := l.receipts[r := Receipt(zone, now, playback)]), r, now, playback);
  }

  lemma FinalizeLogs(l: Ledger, r: string, token: nat, zone: string, now: int, status: Status)
    requires r in l.receipts && InDoubt(l.receipts[r], token)
    ensures LastLogged(L.Finalize(l, r, token, zone, now, status).0, r, now, Some(Playback(status, Some(token), None)))
  {
    var playback := Some(Playback(status, Some(token), None));
    LogLasts(l.(receipts := l.receipts[r := Receipt(zone, now, playback)]), r, now, playback);
  }

  lemma OutlinedLogs(limits: Limits, l: Ledger, approved: bool, r: string, zone: string, now: int, token: nat,
                     answer: Answer)
    ensures var reservation := L.Reserve(l, limits, r, zone, now, token).1;
            LastLogged(Outlined(limits, l, approved, r, zone, now, token, answer), r, now,
                       Entry(approved, reservation, token, answer))
  {
    PutLogs(l, r, zone, now, None);
    PutLogs(l, r, zone, now, ACKNOWLEDGEMENT);
    var (reserved, reservation) := L.Reserve(l, limits, r, zone, now, token);
    if reservation == Granted {
      assert InDoubt(reserved.receipts[r], token);
      FinalizeLogs(reserved, r, token, zone, now, if answer.Raises? then Failed else answer.status);
    }
  }

  /** `AudioRequestService.request` against a repository nobody else is using: the table ends up as
      the protocol says, and the controller is called exactly when the reservation was granted. */
  method RequestAudio(repository: Repository, limits: Limits, decision: string, zone: string, now: int,
                      approved: bool, token: nat, answer: Answer)
    returns (outcome: Outcome, called: bool)
    requires answer.Returns? ==> ControllerStatus(answer.status)
    modifies repository
    ensures var r := "audio:" + decision;
            var before := old(repository.Snapshot());
            var reservation := L.Reserve(before, limits, r, zone, now, token).1;
            var after := ApplyAll(limits, State(before, map[], token, [], []),
                Script(approved, reservation, r, zone, now, answer));
            && repository.Snapshot() == after.ledger
            && called == (approved && reservation == Granted)
            && (called <==> after.calls == [Call(r, zone, now, token)])
            && (outcome == if !approved then NotApproved
                           else match reservation
                                case Refused(reason) => Refusal(reason)
                                case Existing => Repeat
                                case Granted => if answer.Raises? then Propagated else Reported(answer.status))
            && LastLogged(repository.Snapshot(), r, now, Entry(approved, reservation, token, answer))
  {
    var r := ReceiptId(decision);
    if approved && L.Reserve(repository.Snapshot(), limits, r, zone, now, token).1 == Granted {
      GrantedScript(limits, repository.Snapshot(), r, zone, now, token, answer);
    } else {
      OtherScripts(limits, repository.Snapshot(), approved, r, zone, now, token, answer);
    }
    OutlinedLogs(limits, repository.Snapshot(), approved, r, zone, now, token, answer);
    called := false;
    if !approved {
      repository.Put(r, zone, now, None);
      return NotApproved, called;
    }
    var reservation := repository.Reserve(limits, r, zone, now, token);
    match reservation {
      case Refused(reason) =>
        repository.Put(r, zone, now, None);
        outcome := Refusal(reason);
      case Existing =>
        repository.Put(r, zone, now, ACKNOWLEDGEMENT);
        outcome := Repeat;
      case Granted =>
        called := true;
        var status := if answer.Raises? then Failed else answer.status;
        var settled := repository.Finalize(r, token, zone, now, status);
        outcome := if answer.Raises? then Propagated else Reported(answer.status);
    }
  }
}
