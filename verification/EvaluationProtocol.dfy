/** Every run of claims, reclaims, delayed commits, failure reports and crashes.

    Clock readings are arbitrary integers, so nothing below relies on clocks that advance or
    agree.  Evaluation and decision ids are fresh, as UUIDs are. */
module EvaluationProtocol {
  import opened Options
  import E = Evaluations
  import opened Evaluations

  /** A request between winning its claim and its last repository call. */
  datatype Owner = Owner(key: string, fingerprint: Option<string>, failing: bool)

  datatype Fact = Fact(key: Option<string>, id: nat, decision: nat)

  datatype State = State(table: Table, owners: map<nat, Owner>, used: set<nat>, commits: seq<Fact>)

  datatype Step =
    | Claiming(id: nat, key: string, fingerprint: Option<string>, created: int, now: int)
    | Committing(id: nat, decision: nat, now: int)
    | Breaking(id: nat)
    | Reporting(id: nat, now: int)
    | Crashing(id: nat)
    | Unkeyed(id: nat, fingerprint: Option<string>, decision: nat, now: int)

  const INITIAL: State := State(Table(map[], map[], {}), map[], {}, [])

  function Drop(s: State, id: nat): State {
    s.(owners := s.owners - {id})
  }

  ghost function Apply(s: State, step: Step): State {
    match step
    case Claiming(id, key, fingerprint, created, now) =>
      if id in s.used || !Indexed(s.table) then s
      else
        var (t, result) := Claim(s.table, id, key, fingerprint, created, now);
        var owners := if result == Won then s.owners[id := Owner(key, fingerprint, false)] else s.owners;
        State(t, owners, s.used + {id}, s.commits)
    case Committing(id, decision, now) =>
      if id !in s.owners || s.owners[id].failing then s
      else
        var o := s.owners[id];
        var (t, result) := E.Commit(s.table, id, Some(o.key), o.fingerprint, decision, now);
        (match result
         case Committed => Drop(s.(table := t, commits := s.commits + [Fact(Some(o.key), id, decision)]), id)
         case ClaimLost => Drop(s, id)
         case DuplicateDecision => s.(owners := s.owners[id := o.(failing := true)]))
    case Breaking(id) =>
      if id in s.owners then s.(owners := s.owners[id := s.owners[id].(failing := true)]) else s
    case Reporting(id, now) =>
      if id in s.owners && s.owners[id].failing then Drop(s.(table := Fail(s.table, id, now)), id) else s
    case Crashing(id) => Drop(s, id)
    case Unkeyed(id, fingerprint, decision, now) =>
      if id in s.used then s
      else
        var (t, result) := E.Commit(s.table, id, None, fingerprint, decision, now);
        var commits := if result == Committed then s.commits + [Fact(None, id, decision)] else s.commits;
        State(t, s.owners, s.used + {id}, commits)
  }

  ghost function Run(steps: seq<Step>): State {
    if steps == [] then INITIAL else Apply(Run(steps[..|steps| - 1]), steps[|steps| - 1])
  }

  // ----- invariant

  predicate TableOk(s: State) {
    && Indexed(s.table) && s.table.evaluations.Keys <= s.used
    && (forall id :: id in s.table.evaluations && s.table.evaluations[id].status == Completed ==>
          s.table.evaluations[id].decision.Some?)
  }

  /** An owner's row is its own running claim, unless someone reclaimed it. */
  predicate OwnersOk(s: State) {
    forall id :: id in s.owners ==>
      && id in s.used
      && (id in s.table.evaluations ==>
            var e, o := s.table.evaluations[id], s.owners[id];
            e.status == Running && e.key == Some(o.key) && e.fingerprint == o.fingerprint)
  }

  predicate Stands(t: Table, f: Fact) {
    && f.id in t.evaluations && t.evaluations[f.id].key == f.key
    && t.evaluations[f.id].status == Completed && t.evaluations[f.id].decision == Some(f.decision)
  }

  predicate CommitsOk(s: State) {
    && (forall i :: 0 <= i < |s.commits| ==>
          Stands(s.table, s.commits[i]) && s.commits[i].decision in s.table.decisions && s.commits[i].id !in s.owners)
    && (forall i, j :: 0 <= i < j < |s.commits| ==> s.commits[i].id != s.commits[j].id)
    && (forall d :: d in s.table.decisions ==> exists i :: 0 <= i < |s.commits| && s.commits[i].decision == d)
  }

  ghost predicate Inv(s: State) {
    TableOk(s) && OwnersOk(s) && CommitsOk(s)
  }

  // ----- what time cannot undo

  /** Committed evaluations are frozen; a claimed key stays claimed under the same fingerprint. */
  ghost predicate Later(s: State, s': State) {
    && Indexed(s.table) && Indexed(s'.table)
    && s.commits <= s'.commits && s.used <= s'.used && s.table.decisions <= s'.table.decisions
    && (forall id :: id in s.table.evaluations && s.table.evaluations[id].status == Completed ==>
          id in s'.table.evaluations && s'.table.evaluations[id] == s.table.evaluations[id])
    && (forall k :: k in s.table.byKey ==>
          k in s'.table.byKey &&
          s'.table.evaluations[s'.table.byKey[k]].fingerprint == s.table.evaluations[s.table.byKey[k]].fingerprint)
    && (forall id :: id in s.used && id !in s.table.evaluations ==> id !in s'.table.evaluations)
  }

  // ----- one lemma per kind of step

  lemma DeleteEffect(t: Table, holder: nat, key: string)
    requires Indexed(t) && key in t.byKey && t.byKey[key] == holder
    ensures Indexed(Delete(t, holder, key))
  {
  }

  lemma InsertEffect(t: Table, id: nat, key: string, fingerprint: Option<string>, created: int)
    requires Indexed(t) && key !in t.byKey && id !in t.evaluations
    ensures Indexed(E.Insert(t, id, key, fingerprint, created))
  {
  }

  /** `id` runs under `key` now; whoever held the key had the same fingerprint and is gone. */
  ghost predicate TakesOver(t: Table, t': Table, id: nat, key: string, fingerprint: Option<string>)
    requires Indexed(t)
  {
    && Indexed(t') && t'.decisions == t.decisions && t'.byKey == t.byKey[key := id]
    && id in t'.evaluations && t'.evaluations[id].key == Some(key) && t'.evaluations[id].fingerprint == fingerprint
    && t'.evaluations[id].status == Running
    && (forall q :: q in t'.evaluations && q != id ==> q in t.evaluations && t'.evaluations[q] == t.evaluations[q])
    && (forall q :: q in t.evaluations && q !in t'.evaluations ==> t.evaluations[q].status != Completed)
    && (key in t.byKey ==> t.evaluations[t.byKey[key]].fingerprint == fingerprint && t.byKey[key] !in t'.evaluations)
  }

  lemma ClaimEffect(t: Table, id: nat, key: string, fingerprint: Option<string>, created: int, now: int)
    requires Indexed(t) && id !in t.evaluations && Claim(t, id, key, fingerprint, created, now).1 == Won
    ensures TakesOver(t, Claim(t, id, key, fingerprint, created, now).0, id, key, fingerprint)
  {
    if key in t.byKey {
      DeleteEffect(t, t.byKey[key], key);
      InsertEffect(Delete(t, t.byKey[key], key), id, key, fingerprint, created);
    } else {
      InsertEffect(t, id, key, fingerprint, created);
    }
  }

  /** Nothing committed is touched and no committed evaluation gets an owner. */
  lemma CommitsKept(s: State, s': State)
    requires CommitsOk(s) && s'.commits == s.commits && s'.table.decisions == s.table.decisions
    requires forall id :: id in s.table.evaluations && s.table.evaluations[id].status == Completed ==>
               id in s'.table.evaluations && s'.table.evaluations[id] == s.table.evaluations[id]
    requires forall id :: id in s'.owners ==> id in s.owners || id !in s.table.evaluations
    ensures CommitsOk(s')
  {
    forall i | 0 <= i < |s.commits| ensures Stands(s'.table, s.commits[i]) && s.commits[i].id !in s'.owners {
      assert Stands(s.table, s.commits[i]);
    }
  }

  lemma WinningKeeps(s: State, s': State, id: nat, key: string, fingerprint: Option<string>)
    requires Inv(s) && id !in s.used && TakesOver(s.table, s'.table, id, key, fingerprint)
    requires s' == State(s'.table, s.owners[id := Owner(key, fingerprint, false)], s.used + {id}, s.commits)
    ensures Inv(s') && Later(s, s')
  {
    CommitsKept(s, s');
  }

  lemma ClaimingKeeps(s: State, id: nat, key: string, fingerprint: Option<string>, created: int, now: int)
    requires Inv(s)
    ensures var s' := Apply(s, Claiming(id, key, fingerprint, created, now)); Inv(s') && Later(s, s')
  {
    var s' := Apply(s, Claiming(id, key, fingerprint, created, now));
    if id !in s.used && Claim(s.table, id, key, fingerprint, created, now).1 == Won {
      ClaimEffect(s.table, id, key, fingerprint, created, now);
      WinningKeeps(s, s', id, key, fingerprint);
    }
  }

  /** `id` is completed with `decision`; it was running or not there before. */
  ghost predicate Completes(t: Table, t': Table, id: nat, key: Option<string>, fingerprint: Option<string>,
                            decision: nat) {
    && Indexed(t') && t'.byKey == t.byKey && t'.decisions == t.decisions + {decision}
    && t'.evaluations.Keys == t.evaluations.Keys + {id}
    && (id in t.evaluations ==> t.evaluations[id].status == Running)
    && t'.evaluations[id].key == key && t'.evaluations[id].fingerprint == fingerprint
    && t'.evaluations[id].status == Completed && t'.evaluations[id].decision == Some(decision)
    && (forall q :: q in t.evaluations && q != id ==> t'.evaluations[q] == t.evaluations[q])
  }

  lemma CommitEffect(t: Table, id: nat, key: Option<string>, fingerprint: Option<string>, decision: nat, now: int)
    requires Indexed(t) && E.Commit(t, id, key, fingerprint, decision, now).1 == Committed
               && (id in t.evaluations ==> key.Some?)
    ensures Completes(t, E.Commit(t, id, key, fingerprint, decision, now).0, id, key, fingerprint, decision)
  {
  }

  lemma FactAdded(s: State, s': State, f: Fact)
    requires CommitsOk(s) && s'.commits == s.commits + [f] && s'.table.decisions == s.table.decisions + {f.decision}
    requires Stands(s'.table, f) && s'.owners.Keys == s.owners.Keys - {f.id}
    requires f.id in s.table.evaluations ==> s.table.evaluations[f.id].status == Running
    requires forall q :: q in s.table.evaluations && q != f.id ==>
               q in s'.table.evaluations && s'.table.evaluations[q] == s.table.evaluations[q]
    ensures CommitsOk(s')
  {
    assert s'.commits[|s.commits|] == f;
    forall i | 0 <= i < |s.commits| ensures Stands(s'.table, s.commits[i]) && s.commits[i].id != f.id {
      assert Stands(s.table, s.commits[i]);
    }
    DecisionsCovered(s.commits, f, s.table.decisions);
  }

  lemma DecisionsCovered(commits: seq<Fact>, f: Fact, decisions: set<nat>)
    requires forall d :: d in decisions ==> exists i :: 0 <= i < |commits| && commits[i].decision == d
    ensures forall d :: d in decisions + {f.decision} ==>
              exists i :: 0 <= i < |commits + [f]| && (commits + [f])[i].decision == d
  {
    var more := commits + [f];
    forall d | d in decisions + {f.decision} ensures exists i :: 0 <= i < |more| && more[i].decision == d {
      if d == f.decision {
        assert more[|commits|].decision == d;
      } else {
        var i :| 0 <= i < |commits| && commits[i].decision == d;
        assert more[i].decision == d;
      }
    }
  }

  lemma CompletingKeeps(s: State, s': State, id: nat, o: Owner, decision: nat)
    requires Inv(s) && id in s.owners && s.owners[id] == o
               && Completes(s.table, s'.table, id, Some(o.key), o.fingerprint, decision)
    requires id in s.table.evaluations
    requires s' == State(s'.table, s.owners - {id}, s.used, s.commits + [Fact(Some(o.key), id, decision)])
    ensures Inv(s') && Later(s, s')
  {
    FactAdded(s, s', Fact(Some(o.key), id, decision));
  }

  lemma CommittingKeeps(s: State, id: nat, decision: nat, now: int)
    requires Inv(s)
    ensures var s' := Apply(s, Committing(id, decision, now)); Inv(s') && Later(s, s')
  {
    var s' := Apply(s, Committing(id, decision, now));
    if id in s.owners && !s.owners[id].failing {
      var o := s.owners[id];
      if E.Commit(s.table, id, Some(o.key), o.fingerprint, decision, now).1 == Committed {
        CommitEffect(s.table, id, Some(o.key), o.fingerprint, decision, now);
        CompletingKeeps(s, s', id, o, decision);
      }
    }
  }

  lemma ReportingKeeps(s: State, id: nat, now: int)
    requires Inv(s)
    ensures var s' := Apply(s, Reporting(id, now)); Inv(s') && Later(s, s')
  {
    var s' := Apply(s, Reporting(id, now));
    CommitsKept(s, s');
  }

  lemma UnkeyedKeeps(s: State, id: nat, fingerprint: Option<string>, decision: nat, now: int)
    requires Inv(s)
    ensures var s' := Apply(s, Unkeyed(id, fingerprint, decision, now)); Inv(s') && Later(s, s')
  {
    var s' := Apply(s, Unkeyed(id, fingerprint, decision, now));
    if id !in s.used && E.Commit(s.table, id, None, fingerprint, decision, now).1 == Committed {
      CommitEffect(s.table, id, None, fingerprint, decision, now);
      FactAdded(s, s', Fact(None, id, decision));
    }
  }

  lemma StepKeeps(s: State, step: Step)
    requires Inv(s)
    ensures Inv(Apply(s, step)) && Later(s, Apply(s, step))
  {
    match step
    case Claiming(id, key, fingerprint, created, now) => ClaimingKeeps(s, id, key, fingerprint, created, now);
    case Committing(id, decision, now) => CommittingKeeps(s, id, decision, now);
    case Reporting(id, now) => ReportingKeeps(s, id, now);
    case Unkeyed(id, fingerprint, decision, now) => UnkeyedKeeps(s, id, fingerprint, decision, now);
    case _ =>
  }

  lemma {:induction false} Reachable(steps: seq<Step>)
    ensures Inv(Run(steps))
  {
    if steps != [] {
      Reachable(steps[..|steps| - 1]);
      StepKeeps(Run(steps[..|steps| - 1]), steps[|steps| - 1]);
    }
  }

  // ----- theorems

  /** At most one decision is ever committed under an idempotency key. */
  lemma OneDecisionPerKey(steps: seq<Step>, i: nat, j: nat)
    requires i < |Run(steps).commits| && j < |Run(steps).commits|
    requires Run(steps).commits[i].key.Some? && Run(steps).commits[i].key == Run(steps).commits[j].key
    ensures i == j
  {
    Reachable(steps);
    var s := Run(steps);
    assert Stands(s.table, s.commits[i]) && Stands(s.table, s.commits[j]);
  }

  /** The decisions table holds exactly the committed decisions, and a completed evaluation names its own. */
  lemma DecisionsAreCommits(steps: seq<Step>)
    ensures var s := Run(steps);
            && (forall d :: d in s.table.decisions <==> exists i :: 0 <= i < |s.commits| && s.commits[i].decision == d)
            && (forall i :: 0 <= i < |s.commits| ==> Stands(s.table, s.commits[i]))
  {
    Reachable(steps);
  }

  /** Over any continuation: completed evaluations never change or vanish, a key keeps its
      fingerprint, and an id once gone from the table never returns. */
  lemma {:induction false} HistoryStands(steps: seq<Step>, more: seq<Step>)
    ensures Later(Run(steps), Run(steps + more))
  {
    if more == [] {
      assert steps + more == steps;
      Reachable(steps);
    } else {
      var front := more[..|more| - 1];
      assert (steps + more)[..|steps + more| - 1] == steps + front;
      HistoryStands(steps, front);
      Reachable(steps + front);
      StepKeeps(Run(steps + front), more[|more| - 1]);
    }
  }

  /** Winning a key that another evaluation holds takes its row away, and nothing the old owner does
      from then on, however late, touches the table or adds a commit. */
  lemma ReclaimedOwnerIsFenced(steps: seq<Step>, more: seq<Step>, former: nat, id: nat, key: string,
                               fingerprint: Option<string>, created: int, now: int, decision: nat, late: int)
    requires var s := Run(steps);
             && key in s.table.byKey && s.table.byKey[key] == former && id !in s.used
             && Indexed(s.table) && Claim(s.table, id, key, fingerprint, created, now).1 == Won
    ensures var s := Run(steps + [Claiming(id, key, fingerprint, created, now)] + more);
            && former !in s.table.evaluations
            && Apply(s, Committing(former, decision, late)).table == s.table
            && Apply(s, Committing(former, decision, late)).commits == s.commits
            && Apply(s, Reporting(former, late)).table == s.table
  {
    var claim := Claiming(id, key, fingerprint, created, now);
    var mid := steps + [claim];
    assert mid[..|mid| - 1] == steps && mid[|mid| - 1] == claim;
    Reachable(steps);
    ClaimEffect(Run(steps).table, id, key, fingerprint, created, now);
    HistoryStands(mid, more);
    GoneIsFenced(Run(mid + more), former, decision, late);
  }

  lemma GoneIsFenced(s: State, former: nat, decision: nat, late: int)
    requires former !in s.table.evaluations
    ensures var s' := Apply(s, Committing(former, decision, late)); s'.table == s.table && s'.commits == s.commits
    ensures Apply(s, Reporting(former, late)).table == s.table
  {
  }

  /** An owner whose row is still there, however late, commits its decision under its key. */
  lemma LiveOwnerCommits(steps: seq<Step>, id: nat, decision: nat, now: int)
    requires var s := Run(steps);
             id in s.owners && !s.owners[id].failing && id in s.table.evaluations && decision !in s.table.decisions
    ensures var s, s' := Run(steps), Apply(Run(steps), Committing(id, decision, now));
            && s'.commits == s.commits + [Fact(Some(s.owners[id].key), id, decision)]
            && Stands(s'.table, Fact(Some(s.owners[id].key), id, decision)) && decision in s'.table.decisions
  {
    Reachable(steps);
  }

  /** Free for the taking: failed, or running beyond its lease; without a lease, 300 seconds after its
      last update. */
  predicate UpForReclaim(e: Evaluation, now: int) {
    || e.status == Failed
    || (e.status == Running && e.lease.Some? && now >= e.lease.value)
    || (e.status == Running && e.lease == None && now >= e.updated + 300 * 1_000_000)
  }

  /** A claim is won exactly when the key is free, or its holder has the same fingerprint and is
      failed or out of its lease; a different fingerprint always conflicts; otherwise the holder wins. */
  lemma ClaimIsWonIff(steps: seq<Step>, id: nat, key: string, fingerprint: Option<string>, created: int, now: int)
    requires id !in Run(steps).used
    ensures var t := Run(steps).table;
            && Indexed(t)
            && var (t', result) := Claim(t, id, key, fingerprint, created, now);
            && (key !in t.byKey ==> result == Won)
            && (key in t.byKey ==>
                  var holder := t.evaluations[t.byKey[key]];
                  && (result == Conflict <==> holder.fingerprint != fingerprint)
                  && (result == Won <==> holder.fingerprint == fingerprint && UpForReclaim(holder, now))
                  && (result == Lost(t.byKey[key]) <==>
                        holder.fingerprint == fingerprint && !UpForReclaim(holder, now)))
            && (result == Won ==> key in t'.byKey && t'.byKey[key] == id)
            && (result != Won ==> t' == t)
  {
    Reachable(steps);
  }
}
