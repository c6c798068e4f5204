/** The route that creates evaluations: claim, then commit, then report a failure if one occurred. */
module EvaluationRoute {
  import opened Options
  import E = Evaluations
  import opened Evaluations
  import opened EvaluationProtocol

  datatype Response = Created | Existing(id: nat) | KeyReused | Reclaimed | ServerError

  /** The three protocol steps of a keyed request; those not enabled do nothing. */
  function Script(id: nat, key: string, fingerprint: Option<string>, created: int, now: int, decision: nat,
                  broken: bool): seq<Step> {
    var work := if broken then Breaking(id) else Committing(id, decision, now);
    [Claiming(id, key, fingerprint, created, now), work, Reporting(id, now)]
  }

  ghost function Played(s: State, steps: seq<Step>): State
    requires |steps| == 3
  {
    Apply(Apply(Apply(s, steps[0]), steps[1]), steps[2])
  }

  /** The state a request starts from when nobody else is active. */
  function Alone(t: Table): State {
    State(t, map[], t.evaluations.Keys, [])
  }

  /** A header that is present but empty claims nothing and then fails the fence of the commit. */
  ghost function After(t: Table, id: nat, key: Option<string>, fingerprint: Option<string>, created: int, now: int,
                       decision: nat, broken: bool): Table
    requires Indexed(t)
  {
    if key == Some("") then t
    else if key.Some? then Played(Alone(t), Script(id, key.value, fingerprint, created, now, decision, broken)).table
    else if broken then t
    else Apply(Alone(t), Unkeyed(id, fingerprint, decision, now)).table
  }

  lemma KeyedAfter(t: Table, id: nat, key: string, fingerprint: Option<string>, created: int, now: int, decision: nat,
                   broken: bool)
    requires Indexed(t) && id !in t.evaluations && decision !in t.decisions && key != ""
    ensures var (claimed, claim) := Claim(t, id, key, fingerprint, created, now);
            After(t, id, Some(key), fingerprint, created, now, decision, broken) ==
            if claim != Won then t
            else if broken then Fail(claimed, id, now)
            else E.Commit(claimed, id, Some(key), fingerprint, decision, now).0
  {
  }

  /** With a fresh id the route leaves the table exactly as the protocol does, and answers `Created`
      precisely when the decision is now on file under this evaluation. */
  method CreateEvaluation(repository: EvaluationRepository, id: nat, key: Option<string>, fingerprint: Option<string>,
                          created: int, now: int, decision: nat, broken: bool)
    returns (response: Response)
    requires Indexed(repository.Snapshot()) && id !in repository.evaluations && decision !in repository.decisions
    modifies repository
    ensures repository.Snapshot() ==
            After(old(repository.Snapshot()), id, key, fingerprint, created, now, decision, broken)
    ensures response == Created <==> decision in repository.decisions
    ensures key == Some("") ==> response == if broken then ServerError else Reclaimed
    ensures key == None ==> response == if broken then ServerError else Created
    ensures key.Some? && key.value != "" ==>
              var claim := Claim(old(repository.Snapshot()), id, key.value, fingerprint, created, now).1;
              && (claim == Conflict <==> response == KeyReused)
              && (forall holder :: claim == Lost(holder) <==> response == Existing(holder))
              && (claim == Won ==> response == if broken then ServerError else Created)
    ensures response == Created ==>
              && id in repository.evaluations && repository.evaluations[id].status == Completed
              && repository.evaluations[id].decision == Some(decision) && repository.evaluations[id].key == key
  {
    var claimed := false;
    if key.Some? && key.value != "" {
      KeyedAfter(repository.Snapshot(), id, key.value, fingerprint, created, now, decision, broken);
    }
    if key.Some? && key.value != "" {
      var claim := repository.ClaimEvaluation(id, key.value, fingerprint, created, now);
      match claim {
        case Conflict => return KeyReused;
        case Lost(existing) => return Existing(existing);
        case DuplicateId => return ServerError;
        case Won => claimed := true;
      }
    }
    if !broken {
      var result := repository.PutDecisionAndEvaluation(id, key, fingerprint, decision, now);
      match result {
        case Committed => return Created;
        case ClaimLost => return Reclaimed;
        case DuplicateDecision =>
      }
    }
    if claimed {
      repository.FailEvaluation(id, now);
    }
    response := ServerError;
  }
}
