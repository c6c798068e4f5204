/** The circuit breaker of the model router.  Clock readings are exact reals. */
module Router {
  import opened Options


  datatype Role = PoseRole | ObjectRole | SmokeRole | TemporalRole | ChewingVetoRole | VlmRole

  datatype Status = Ok | Timeout | Unavailable | Malformed | Invalid | RevisionMismatch | Error | Unclear

  datatype State = Closed | Open | HalfOpen

  datatype Circuit = Circuit(state: State, failures: nat, openedAt: real)

  /** What the provider does with a call: it returns a receipt or raises. */
  datatype Answer = Receipt(status: Status, revision: string) | Raises

  datatype Config = Config(threshold: int, recovery: real, expected: map<Role, string>) {
    predicate Valid() {
      threshold >= 1 && recovery > 0.0
    }
  }

  const FRESH: Circuit := Circuit(Closed, 0, 0.0)

  /** The receipt's status after exceptions and unexpected revisions are turned into failures. */
  function Judged(config: Config, role: Role, answer: Answer): Status {
    if answer.Raises? then Error
    else if answer.status == Ok && role in config.expected && answer.revision != config.expected[role]
    then RevisionMismatch
    else answer.status
  }

  predicate Refuses(config: Config, c: Circuit, now: real) {
    c.state == Open && now - c.openedAt < config.recovery
  }

  /** `_record`. */
  function Record(config: Config, c: Circuit, status: Status, now: real): Circuit {
    if status == Ok then c.(state := Closed, failures := 0)
    else if status == Unclear then c
    else if c.failures + 1 >= config.threshold then Circuit(Open, c.failures + 1, now)
    else c.(failures := c.failures + 1)
  }

  function Infer(config: Config, role: Role, c: Circuit, now: real, answer: Answer): (Circuit, Status) {
    if Refuses(config, c, now) then (c, Unavailable)
    else
      var probing := if c.state == Open then c.(state := HalfOpen) else c;
      var status := Judged(config, role, answer);
      (Record(config, probing, status, now), status)
  }

  class ModelRouter {
    const config: Config
    var circuits: map<Role, Circuit>

    constructor (config: Config, providers: set<Role>)
      ensures this.config == config && circuits == map r | r in providers :: FRESH
    {
      this.config := config;
      circuits := map r | r in providers :: FRESH;
    }

    method InferRole(role: Role, now: real, answer: Answer) returns (status: Status, called: bool)
      modifies this
      ensures role !in old(circuits) ==> circuits == old(circuits) && status == Unavailable && !called
      ensures role in old(circuits) ==>
                var before := old(circuits)[role];
                && circuits == old(circuits)[role := Infer(config, role, before, now, answer).0]
                && status == Infer(config, role, before, now, answer).1
                && called == !Refuses(config, before, now)
    {
      if role !in circuits { return Unavailable, false; }
      var c := circuits[role];
      if c.state == Open {
        if now - c.openedAt < config.recovery {
          assert circuits == circuits[role := c];
          return Unavailable, false;
        }
        c := c.(state := HalfOpen);
      }
      called := true;
      status := if answer.Raises? then Error else answer.status;
      if status == Ok && role in config.expected && answer.revision != config.expected[role] {
        status := RevisionMismatch;
      }
      if status == Ok {
        c := c.(state := Closed, failures := 0);
      } else if status != Unclear {
        c := c.(failures := c.failures + 1);
        if c.failures >= config.threshold {
          c := c.(state := Open, openedAt := now);
        }
      }
      circuits := circuits[role := c];
    }
  }

  // ----- runs

  datatype Request = Request(role: Role, now: real, answer: Answer)

  function Run(config: Config, providers: set<Role>, requests: seq<Request>): map<Role, Circuit> {
    if requests == [] then map r | r in providers :: FRESH
    else
      var before, q := Run(config, providers, requests[..|requests| - 1]), requests[|requests| - 1];
      if q.role in before then before[q.role := Infer(config, q.role, before[q.role], q.now, q.answer).0] else before
  }

  /** The requests of one role, in order. */
  function Own(requests: seq<Request>, role: Role): seq<Request> {
    if requests == [] then []
    else
      var own, q := Own(requests[..|requests| - 1], role), requests[|requests| - 1];
      if q.role == role then own + [q] else own
  }

  lemma RunStep(config: Config, providers: set<Role>, requests: seq<Request>, q: Request, role: Role)
    requires role in providers
    ensures role in Run(config, providers, requests) && role in Run(config, providers, requests + [q])
    ensures var c := Run(config, providers, requests)[role];
            Run(config, providers, requests + [q])[role] ==
            if q.role == role then Infer(config, role, c, q.now, q.answer).0 else c
  {
    RolesStay(config, providers, requests);
    RolesStay(config, providers, requests + [q]);
    assert (requests + [q])[..|requests|] == requests;
  }

  lemma {:induction false} RolesStay(config: Config, providers: set<Role>, requests: seq<Request>)
    ensures Run(config, providers, requests).Keys == providers
  {
    if requests != [] { RolesStay(config, providers, requests[..|requests| - 1]); }
  }

  /** Each circuit depends on the calls of its own role only. */
  lemma {:induction false} RolesAreIsolated(config: Config, providers: set<Role>, requests: seq<Request>, role: Role)
    requires role in providers
    ensures role in Run(config, providers, requests) && role in Run(config, providers, Own(requests, role))
    ensures Run(config, providers, requests)[role] == Run(config, providers, Own(requests, role))[role]
  {
    RolesStay(config, providers, requests);
    RolesStay(config, providers, Own(requests, role));
    if requests != [] {
      var front, q := requests[..|requests| - 1], requests[|requests| - 1];
      assert requests == front + [q];
      RolesAreIsolated(config, providers, front, role);
      RunStep(config, providers, front, q, role);
      if q.role == role { RunStep(config, providers, Own(front, role), q, role); }
    }
  }

  predicate Monotonic(requests: seq<Request>) {
    forall i, j :: 0 <= i < j < |requests| ==> requests[i].now <= requests[j].now
  }

  // ----- the failures of a role, told by its requests alone

  /** The provider answers in time with the revision that is expected of the role. */
  predicate Succeeds(config: Config, role: Role, answer: Answer) {
    && answer.Receipt? && answer.status == Ok
    && (role in config.expected ==> answer.revision == config.expected[role])
  }

  /** An answer that is neither a success nor a failure of the provider. */
  predicate Undecided(answer: Answer) {
    answer.Receipt? && answer.status == Unclear
  }

  /** Enough failures in a row, the last of them less than the recovery time ago. */
  predicate Blocked(config: Config, streak: seq<real>, now: real) {
    streak != [] && |streak| >= config.threshold && now < streak[|streak| - 1] + config.recovery
  }

  /** What a request of the role does to the failures so far; a blocked request is no call. */
  function Counted(config: Config, role: Role, streak: seq<real>, now: real, answer: Answer): seq<real> {
    if Blocked(config, streak, now) then streak
    else if Succeeds(config, role, answer) then []
    else if Undecided(answer) then streak
    else streak + [now]
  }

  /** The times of the failed calls of a role since its last success. */
  function Streak(config: Config, role: Role, requests: seq<Request>): seq<real> {
    if requests == [] then []
    else
      var streak, q := Streak(config, role, requests[..|requests| - 1]), requests[|requests| - 1];
      if q.role != role then streak else Counted(config, role, streak, q.now, q.answer)
  }

  /** From the threshold-th failure on, failing calls are at least the recovery time apart. */
  predicate BackedOff(config: Config, streak: seq<real>)
    requires config.Valid()
  {
    forall i, j :: config.threshold <= j < |streak| && i == j - 1 ==> streak[j] - streak[i] >= config.recovery
  }

  /** A circuit agrees with the failures so far; half-open, it has waited out its recovery time. */
  predicate Agrees(config: Config, c: Circuit, streak: seq<real>, clock: Option<real>)
    requires config.Valid()
  {
    && c.failures == |streak| && (c.state == Closed <==> |streak| < config.threshold)
    && (|streak| >= config.threshold ==> c.openedAt == streak[|streak| - 1])
    && (c.state == HalfOpen ==> clock.Some? && clock.value - c.openedAt >= config.recovery)
    && BackedOff(config, streak)
  }

  lemma RefusesIff(config: Config, c: Circuit, streak: seq<real>, clock: Option<real>, now: real)
    requires config.Valid() && Agrees(config, c, streak, clock) && (clock.Some? ==> clock.value <= now)
    ensures Refuses(config, c, now) <==> Blocked(config, streak, now)
  {
  }

  lemma InferAgrees(config: Config, role: Role, c: Circuit, streak: seq<real>, clock: Option<real>, now: real,
                    answer: Answer)
    requires config.Valid() && Agrees(config, c, streak, clock) && (clock.Some? ==> clock.value <= now)
    ensures Agrees(config, Infer(config, role, c, now, answer).0, Counted(config, role, streak, now, answer), Some(now))
  {
    RefusesIff(config, c, streak, clock, now);
  }

  function Clock(requests: seq<Request>): Option<real> {
    if requests == [] then None else Some(requests[|requests| - 1].now)
  }

  lemma StepAgrees(config: Config, role: Role, c: Circuit, c': Circuit, streak: seq<real>, streak': seq<real>,
                   clock: Option<real>, q: Request)
    requires config.Valid() && Agrees(config, c, streak, clock) && (clock.Some? ==> clock.value <= q.now)
    requires c' == if q.role == role then Infer(config, role, c, q.now, q.answer).0 else c
    requires streak' == if q.role == role then Counted(config, role, streak, q.now, q.answer) else streak
    ensures Agrees(config, c', streak', Some(q.now))
  {
    if q.role == role {
      InferAgrees(config, role, c, streak, clock, q.now, q.answer);
    } else {
      Waits(config, c, streak, clock, q.now);
    }
  }

  lemma MonotonicFront(requests: seq<Request>, q: Request)
    requires Monotonic(requests + [q])
    ensures Monotonic(requests) && (Clock(requests).Some? ==> Clock(requests).value <= q.now)
  {
    var all := requests + [q];
    assert all[|requests|] == q && forall i :: 0 <= i < |requests| ==> all[i] == requests[i];
  }

  lemma StreakStep(config: Config, role: Role, requests: seq<Request>, q: Request)
    ensures var streak := Streak(config, role, requests);
            Streak(config, role, requests + [q]) ==
            if q.role == role then Counted(config, role, streak, q.now, q.answer) else streak
  {
    assert (requests + [q])[..|requests|] == requests;
  }

  lemma {:induction false} RunAgrees(config: Config, providers: set<Role>, requests: seq<Request>, role: Role)
    requires config.Valid() && Monotonic(requests) && role in providers
    ensures role in Run(config, providers, requests)
    ensures Agrees(config, Run(config, providers, requests)[role], Streak(config, role, requests), Clock(requests))
  {
    RolesStay(config, providers, requests);
    if requests != [] {
      var front, q := requests[..|requests| - 1], requests[|requests| - 1];
      assert requests == front + [q];
      MonotonicFront(front, q);
      RunAgrees(config, providers, front, role);
      RunStep(config, providers, front, q, role);
      StreakStep(config, role, front, q);
      StepAgrees(config, role, Run(config, providers, front)[role], Run(config, providers, front + [q])[role],
                 Streak(config, role, front), Streak(config, role, front + [q]), Clock(front), q);
    }
  }

  lemma Waits(config: Config, c: Circuit, streak: seq<real>, clock: Option<real>, now: real)
    requires config.Valid() && Agrees(config, c, streak, clock) && (clock.Some? ==> clock.value <= now)
    ensures Agrees(config, c, streak, Some(now))
  {
  }

  lemma {:induction false} BackedOffSpan(config: Config, streak: seq<real>, k: nat)
    requires config.Valid() && BackedOff(config, streak) && config.threshold <= k <= |streak|
    ensures streak[k - 1] - streak[config.threshold - 1] >= (k - config.threshold) as real * config.recovery
  {
    if k > config.threshold {
      BackedOffSpan(config, streak, k - 1);
      assert streak[k - 1] - streak[k - 2] >= config.recovery;
      assert (k - config.threshold) as real * config.recovery ==
          (k - 1 - config.threshold) as real * config.recovery + config.recovery;
    }
  }

  predicate Spread(config: Config, streak: seq<real>)
    requires config.Valid()
  {
    |streak| >= config.threshold ==>
      streak[|streak| - 1] - streak[config.threshold - 1] >= (|streak| - config.threshold) as real * config.recovery
  }

  lemma BackedOffSpread(config: Config, streak: seq<real>)
    requires config.Valid() && BackedOff(config, streak)
    ensures Spread(config, streak)
  {
    if |streak| >= config.threshold { BackedOffSpan(config, streak, |streak|); }
  }

  /** With a monotonic clock: a configured role is closed exactly while its failures since the last
      success are below the threshold; `f` failures then span at least `(f - threshold) * recovery`
      from the threshold-th on. */
  lemma BreakerHolds(config: Config, providers: set<Role>, requests: seq<Request>, role: Role)
    requires config.Valid() && Monotonic(requests) && role in providers
    ensures role in Run(config, providers, requests)
    ensures var c, streak := Run(config, providers, requests)[role], Streak(config, role, requests);
            && (c.state == Closed <==> |streak| < config.threshold) && c.failures == |streak|
            && BackedOff(config, streak) && Spread(config, streak)
  {
    RunAgrees(config, providers, requests, role);
    BackedOffSpread(config, Streak(config, role, requests));
  }

  /** After any such run, the next request of the role: it is answered without a call exactly while enough
      failures stand and the last is less than the recovery time ago, so once that time is over the
      provider is tried again; its success closes the circuit, its failure keeps or makes it open from now
      on, an undecided answer changes no count.  An exception counts as an error, a success of another
      revision as a mismatch. */
  lemma NextAnswer(config: Config, providers: set<Role>, requests: seq<Request>, role: Role, now: real, answer: Answer)
    requires config.Valid() && Monotonic(requests + [Request(role, now, answer)]) && role in providers
    ensures role in Run(config, providers, requests)
    ensures var c, streak := Run(config, providers, requests)[role], Streak(config, role, requests);
            var (c', status) := Infer(config, role, c, now, answer);
            && (Refuses(config, c, now) <==> Blocked(config, streak, now))
            && (Blocked(config, streak, now) ==> c' == c && status == Unavailable)
            && (!Blocked(config, streak, now) ==>
                  && (Succeeds(config, role, answer) <==> status == Ok)
                  && (Succeeds(config, role, answer) ==> c'.state == Closed && c'.failures == 0)
                  && (Undecided(answer) ==> c'.failures == c.failures && status == Unclear)
                  && (!Succeeds(config, role, answer) && !Undecided(answer) ==>
                        && c'.failures == |streak| + 1
                        && (c'.state == Open <==> |streak| + 1 >= config.threshold)
                        && (c'.state == Open ==> c'.openedAt == now))
                  && (answer.Raises? ==> status == Error)
                  && (answer.Receipt? && answer.status == Ok && !Succeeds(config, role, answer) ==>
                       status == RevisionMismatch)
                  && (answer.Receipt? && answer.status != Ok ==> status == answer.status))
  {
    MonotonicFront(requests, Request(role, now, answer));
    RunAgrees(config, providers, requests, role);
    RefusesIff(config, Run(config, providers, requests)[role], Streak(config, role, requests), Clock(requests), now);
  }
}
