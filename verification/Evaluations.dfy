/** Idempotent evaluations: claim a key, commit the decision with its evaluation, or report failure.

    The `evaluations` table is a map by evaluation id together with the unique index on the
    idempotency key.  Each function is one repository method; `EvaluationRepository` performs
    it in place.  Times are whole microseconds. */
module Evaluations {
  import opened Options

  const LEASE: int := 300_000_000

  datatype Status = Running | Completed | Failed

  datatype Evaluation = Evaluation(
    key: Option<string>,
    fingerprint: Option<string>,
    status: Status,
    lease: Option<int>,
    updated: int,
    decision: Option<nat>)

  datatype Table = Table(evaluations: map<nat, Evaluation>, byKey: map<string, nat>, decisions: set<nat>)

  datatype ClaimResult = Won | Lost(existing: nat) | Conflict | DuplicateId

  datatype CommitResult = Committed | ClaimLost | DuplicateDecision

  /** The unique index and the rows agree. */
  predicate Indexed(t: Table) {
    && (forall k :: k in t.byKey ==> t.byKey[k] in t.evaluations && t.evaluations[t.byKey[k]].key == Some(k))
    && (forall id :: id in t.evaluations && t.evaluations[id].key.Some? ==>
          t.evaluations[id].key.value in t.byKey && t.byKey[t.evaluations[id].key.value] == id)
  }

  predicate Stale(e: Evaluation, now: int) {
    e.status == Running && (if e.lease.Some? then e.lease.value <= now else e.updated + LEASE <= now)
  }

  predicate Reclaimable(e: Evaluation, now: int) {
    Stale(e, now) || e.status == Failed
  }

  function Insert(t: Table, id: nat, key: string, fingerprint: Option<string>, created: int): Table {
    var row := Evaluation(Some(key), fingerprint, Running, Some(created + LEASE), created, None);
    t.(evaluations := t.evaluations[id := row], byKey := t.byKey[key := id])
  }

  function Delete(t: Table, id: nat, key: string): Table {
    t.(evaluations := t.evaluations - {id}, byKey := t.byKey - {key})
  }

  /** `claim_evaluation`; `created` and `now` are two separate readings of the clock. */
  function Claim(t: Table, id: nat, key: string, fingerprint: Option<string>, created: int,
                 now: int): (Table, ClaimResult)
    requires Indexed(t)
  {
    if key in t.byKey then
      var holder := t.byKey[key];
      var e := t.evaluations[holder];
      if fingerprint != e.fingerprint then (t, Conflict)
      else if Reclaimable(e, now) then
        var freed := Delete(t, holder, key);
        if id in freed.evaluations then (t, DuplicateId) else (Insert(freed, id, key, fingerprint, created), Won)
      else (t, Lost(holder))
    else if id in t.evaluations then (t, DuplicateId)
    else (Insert(t, id, key, fingerprint, created), Won)
  }

  /** `put_decision_and_evaluation` with a completed evaluation. */
  function Commit(t: Table, id: nat, key: Option<string>, fingerprint: Option<string>, decision: nat,
                  now: int): (Table, CommitResult) {
    if key.Some? && (id !in t.evaluations || t.evaluations[id].status != Running || t.evaluations[id].key != key)
    then (t, ClaimLost)
    else if decision in t.decisions then (t, DuplicateDecision)
    else
      var decided := t.(decisions := t.decisions + {decision});
      var row :=
        if id in t.evaluations then
          t.evaluations[id].(status := Completed, decision := Some(decision), fingerprint := fingerprint,
                             updated := now)
        else Evaluation(None, fingerprint, Completed, None, now, Some(decision));
      if id in t.evaluations && t.evaluations[id].key != key then (decided, Committed)
      else (decided.(evaluations := t.evaluations[id := row]), Committed)
  }

  /** `fail_evaluation`: by id alone, whatever the status. */
  function Fail(t: Table, id: nat, now: int): Table {
    if id !in t.evaluations then t
    else t.(evaluations := t.evaluations[id := t.evaluations[id].(status := Failed, updated := now)])
  }

  class EvaluationRepository {
    var evaluations: map<nat, Evaluation>
    var byKey: map<string, nat>
    var decisions: set<nat>

    ghost function Snapshot(): Table
      reads this
    {
      Table(evaluations, byKey, decisions)
    }

    constructor ()
      ensures Snapshot() == Table(map[], map[], {})
    {
      evaluations, byKey, decisions := map[], map[], {};
    }

    method ClaimEvaluation(id: nat, key: string, fingerprint: Option<string>, created: int, now: int)
      returns (result: ClaimResult)
      requires Indexed(Snapshot())
      modifies this
      ensures (Snapshot(), result) == Claim(old(Snapshot()), id, key, fingerprint, created, now)
      ensures Indexed(Snapshot())
    {
      if key in byKey {
        var holder := byKey[key];
        var e := evaluations[holder];
        if fingerprint != e.fingerprint { return Conflict; }
        if !Reclaimable(e, now) { return Lost(holder); }
        if id in evaluations - {holder} { return DuplicateId; }
        evaluations, byKey := evaluations - {holder}, byKey - {key};
      } else if id in evaluations {
        return DuplicateId;
      }
      var row := Evaluation(Some(key), fingerprint, Running, Some(created + LEASE), created, None);
      evaluations := evaluations[id := row];
      byKey := byKey[key := id];
      result := Won;
    }

    method PutDecisionAndEvaluation(id: nat, key: Option<string>, fingerprint: Option<string>, decision: nat, now: int)
      returns (result: CommitResult)
      modifies this
      ensures (Snapshot(), result) == Commit(old(Snapshot()), id, key, fingerprint, decision, now)
    {
      if key.Some? {
        if id !in evaluations { return ClaimLost; }
        if evaluations[id].status != Running || evaluations[id].key != key { return ClaimLost; }
      }
      if decision in decisions { return DuplicateDecision; }
      decisions := decisions + {decision};
      if id !in evaluations {
        evaluations := evaluations[id := Evaluation(None, fingerprint, Completed, None, now, Some(decision))];
      } else if evaluations[id].key == key {
        var row := evaluations[id].(status := Completed, decision := Some(decision), fingerprint := fingerprint,
                                    updated := now);
        evaluations := evaluations[id := row];
      }
      result := Committed;
    }

    method FailEvaluation(id: nat, now: int)
      modifies this
      ensures Snapshot() == Fail(old(Snapshot()), id, now)
    {
      if id in evaluations {
        evaluations := evaluations[id := evaluations[id].(status := Failed, updated := now)];
      }
    }
  }
}
