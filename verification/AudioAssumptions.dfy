/** Why the spacing of calls needs request times that never go back and one zone per decision: two
    runs under a cooldown of ten seconds in which calls of one zone, neither rejected, come closer. */
module AudioAssumptions {
  import opened Options
  import L = AudioLedger
  import opened AudioLedger
  import opened AudioProtocol
  import opened AudioSafety
  import opened AudioSpacing

  const LIMITS: Limits := Limits(10, 0, 0, 30)

  /** Two calls of one zone, not on file as rejected and no more than the cooldown apart. */
  predicate TooClose(s: State, i: nat, j: nat) {
    && i < j < |s.calls| && s.calls[i].zone == s.calls[j].zone
    && !RejectedOnFile(s.ledger, s.calls[i]) && !RejectedOnFile(s.ledger, s.calls[j])
    && !Apart(s.calls[i].at, s.calls[j].at, LIMITS.cooldown * SECOND)
  }

  function Answered(token: nat, status: Status): Option<Playback> {
    Some(Playback(status, Some(token), None))
  }

  function PendingUntil(token: nat, now: int): Option<Playback> {
    Some(PendingPlayback(LIMITS, now, token))
  }

  /** A reservation with nothing counted in its zone at or after the cutoff. */
  predicate Free(l: Ledger, zone: string, now: int) {
    forall q :: q in l.receipts && CountedIn(l.receipts[q], zone) ==> l.receipts[q].at < now - LIMITS.cooldown * SECOND
  }

  lemma FreeIsGranted(l: Ledger, r: string, zone: string, now: int, token: nat)
    requires Free(l, zone, now) && (r in l.receipts ==> StatusOf(l.receipts[r]) == Some(Failed))
    ensures L.Reserve(l, LIMITS, r, zone, now, token).1 == Granted
  {
    assert Since(l.receipts, zone, now - LIMITS.cooldown * SECOND) == {};
  }

  /** What one whole request does to state `s`, given the log it leaves. */
  predicate Adds(s: State, s': State, r: string, zone: string, now: int, status: Status, log: seq<Attempt>) {
    var g := Call(r, zone, now, s.nextToken);
    && s'.clients == map[] && s'.nextToken == s.nextToken + 1
    && s'.grants == s.grants + [g] && s'.calls == s.calls + [g]
    && s'.ledger.receipts == s.ledger.receipts[r := Receipt(zone, now, Answered(s.nextToken, status))]
    && s'.ledger.attempts == s.ledger.attempts[r := log]
  }

  function FirstLog(token: nat, now: int, status: Status): seq<Attempt> {
    [Attempt(1, now, PendingUntil(token, now)), Attempt(2, now, Answered(token, status))]
  }

  lemma FirstReserved(l: Ledger, r: string, zone: string, now: int, token: nat)
    requires r !in l.receipts && r !in l.attempts && L.Reserve(l, LIMITS, r, zone, now, token).1 == Granted
    ensures var playback := PendingUntil(token, now);
            L.Reserve(l, LIMITS, r, zone, now, token).0 ==
            Ledger(l.receipts[r := Receipt(zone, now, playback)], l.attempts[r := [Attempt(1, now, playback)]])
  {
    assert [] + [Attempt(1, now, PendingUntil(token, now))] == [Attempt(1, now, PendingUntil(token, now))];
  }

  lemma FirstFinalized(l: Ledger, r: string, zone: string, now: int, token: nat, status: Status)
    requires r in l.receipts && l.receipts[r] == Receipt(zone, now, PendingUntil(token, now))
    requires r in l.attempts && l.attempts[r] == [Attempt(1, now, PendingUntil(token, now))]
    ensures var l' := L.Finalize(l, r, token, zone, now, status).0;
            && l'.receipts == l.receipts[r := Receipt(zone, now, Answered(token, status))]
            && l'.attempts == l.attempts[r := FirstLog(token, now, status)]
  {
    NumberedMax(l.attempts[r]);
    assert l.attempts[r] + [Attempt(2, now, Answered(token, status))] == FirstLog(token, now, status);
  }

  lemma FirstLedger(l: Ledger, r: string, zone: string, now: int, token: nat, status: Status)
    requires r !in l.receipts && r !in l.attempts && L.Reserve(l, LIMITS, r, zone, now, token).1 == Granted
    ensures var l' := L.Finalize(L.Reserve(l, LIMITS, r, zone, now, token).0, r, token, zone, now, status).0;
            && l'.receipts == l.receipts[r := Receipt(zone, now, Answered(token, status))]
            && l'.attempts == l.attempts[r := FirstLog(token, now, status)]
  {
    FirstReserved(l, r, zone, now, token);
    FirstFinalized(L.Reserve(l, LIMITS, r, zone, now, token).0, r, zone, now, token, status);
  }

  /** The first call of a decision, on a table that does not know it yet. */
  lemma FirstCall(steps: seq<Step>, r: string, zone: string, now: int, status: Status)
    requires var s := Run(LIMITS, steps);
             s.clients == map[] && r !in s.ledger.receipts && r !in s.ledger.attempts && Free(s.ledger, zone, now)
    requires ControllerStatus(status)
    ensures var s, s' := Run(LIMITS, steps), Run(LIMITS, steps + Whole(0, r, zone, now, Return(0, status)));
            Adds(s, s', r, zone, now, status, FirstLog(s.nextToken, now, status))
  {
    var s := Run(LIMITS, steps);
    FreeIsGranted(s.ledger, r, zone, now, s.nextToken);
    RunWhole(LIMITS, steps, 0, r, zone, now, Return(0, status), status);
    FirstLedger(s.ledger, r, zone, now, s.nextToken, status);
  }

  /** The second call of a decision that failed. */
  lemma SecondCall(steps: seq<Step>, r: string, zone: string, now: int, status: Status, log: seq<Attempt>)
    requires var s := Run(LIMITS, steps);
             && s.clients == map[] && r in s.ledger.receipts && StatusOf(s.ledger.receipts[r]) == Some(Failed)
             && r in s.ledger.attempts && s.ledger.attempts[r] == log && Numbered(log) && Free(s.ledger, zone, now)
    requires ControllerStatus(status)
    ensures var s, s' := Run(LIMITS, steps), Run(LIMITS, steps + Whole(0, r, zone, now, Return(0, status)));
            Adds(s, s', r, zone, now, status, log + [Attempt(|log| + 1, now, Answered(s.nextToken, status))])
  {
    var s := Run(LIMITS, steps);
    FreeIsGranted(s.ledger, r, zone, now, s.nextToken);
    RunWhole(LIMITS, steps, 0, r, zone, now, Return(0, status), status);
    NumberedMax(log);
  }

  function FirstOfD(): seq<Step> {
    [] + Whole(0, "d", "z", 0, Return(0, Failed))
  }

  lemma AfterFirstOfD()
    ensures var s := Run(LIMITS, FirstOfD());
            && s.clients == map[] && s.nextToken == 1 && s.grants == s.calls == [Call("d", "z", 0, 0)]
            && s.ledger.receipts == map["d" := Receipt("z", 0, Answered(0, Failed))]
            && s.ledger.attempts == map["d" := FirstLog(0, 0, Failed)]
  {
    assert Run(LIMITS, []) == INITIAL;
    FirstCall([], "d", "z", 0, Failed);
  }

  /** After a failed call of `d` at zero, its retry and an accepted call of `e` within the cooldown. */
  lemma CloseCalls(s: State, retried: Call, status: Status, at: int)
    requires s.calls == [Call("d", "z", 0, 0), retried, Call("e", "z", at, 2)] && 0 <= at <= LIMITS.cooldown * SECOND
    requires AttemptsOf(s.ledger, "d") == FirstLog(0, 0, Failed) + [Attempt(3, retried.at, Answered(1, status))]
    requires AttemptsOf(s.ledger, "e") == FirstLog(2, at, Accepted)
    ensures TooClose(s, 0, 2)
  {
  }

  /** The retry of `d`, then the call of `e`. */
  lemma AfterBoth(zone: string, later: int, status: Status, at: int)
    requires ControllerStatus(status) && (zone != "z" || (status == Rejected && later > LIMITS.cooldown * SECOND))
    ensures var retry := Whole(0, "d", zone, later, Return(0, status));
            var next := Whole(0, "e", "z", at, Return(0, Accepted));
            var s := Run(LIMITS, FirstOfD() + retry + next);
            && s.grants == s.calls == [Call("d", "z", 0, 0), Call("d", zone, later, 1), Call("e", "z", at, 2)]
            && AttemptsOf(s.ledger, "d") == FirstLog(0, 0, Failed) + [Attempt(3, later, Answered(1, status))]
            && AttemptsOf(s.ledger, "e") == FirstLog(2, at, Accepted)
  {
    var retry := Whole(0, "d", zone, later, Return(0, status));
    AfterFirstOfD();
    SecondCall(FirstOfD(), "d", zone, later, status, FirstLog(0, 0, Failed));
    assert "e" != "d" by { assert "e"[0] != "d"[0]; }
    FirstCall(FirstOfD() + retry, "e", "z", at, Accepted);
  }

  /** A decision fails, its retry much later is rejected and stops counting; a request stamped earlier
      than that retry then finds the zone free, though the failed call is five seconds old. */
  lemma ClockMustNotGoBack()
    ensures var retry := Whole(0, "d", "z", 100 * SECOND, Return(0, Rejected));
            var next := Whole(0, "e", "z", 5 * SECOND, Return(0, Accepted));
            var s := Run(LIMITS, FirstOfD() + retry + next);
            FixedZones(s.grants) && !Chronological(s.grants) && TooClose(s, 0, 2)
  {
    var retry := Whole(0, "d", "z", 100 * SECOND, Return(0, Rejected));
    var next := Whole(0, "e", "z", 5 * SECOND, Return(0, Accepted));
    AfterBoth("z", 100 * SECOND, Rejected, 5 * SECOND);
    var s := Run(LIMITS, FirstOfD() + retry + next);
    assert s.grants[1].at > s.grants[2].at;
    CloseCalls(s, Call("d", "z", 100 * SECOND, 1), Rejected, 5 * SECOND);
  }

  /** A decision fails and its retry is asked for another zone: the row moves there, and the first zone
      is free again two seconds after the failed call. */
  lemma ZoneMustNotMove()
    ensures var retry := Whole(0, "d", "y", SECOND, Return(0, Accepted));
            var next := Whole(0, "e", "z", 2 * SECOND, Return(0, Accepted));
            var s := Run(LIMITS, FirstOfD() + retry + next);
            Chronological(s.grants) && !FixedZones(s.grants) && TooClose(s, 0, 2)
  {
    var retry := Whole(0, "d", "y", SECOND, Return(0, Accepted));
    var next := Whole(0, "e", "z", 2 * SECOND, Return(0, Accepted));
    assert "y" != "z" by { assert "y"[0] != "z"[0]; }
    AfterBoth("y", SECOND, Accepted, 2 * SECOND);
    var s := Run(LIMITS, FirstOfD() + retry + next);
    assert s.grants[0].receipt == s.grants[1].receipt && s.grants[0].zone != s.grants[1].zone;
    CloseCalls(s, Call("d", "y", SECOND, 1), Accepted, 2 * SECOND);
  }
}
