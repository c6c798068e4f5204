/** How long a claim protects its owner, and what frees a key again, over every run.

    The times are those the claims were made with; nothing here looks at a stored lease. */
module EvaluationLeases {
  import opened Options
  import E = Evaluations
  import opened Evaluations
  import opened EvaluationProtocol

  const LEASE_SECONDS: int := 300
  const MICROSECONDS: int := 1_000_000

  // ----- a running row stays as it was claimed

  /** While the row of `id` runs it is `row`. */
  predicate RunsAs(s: State, id: nat, row: Evaluation) {
    && id in s.used
    && (id in s.table.evaluations && s.table.evaluations[id].status == Running ==> s.table.evaluations[id] == row)
  }

  lemma StepRunsAs(s: State, step: Step, id: nat, row: Evaluation)
    requires Inv(s) && RunsAs(s, id, row)
    ensures RunsAs(Apply(s, step), id, row)
  {
  }

  lemma SplitLast(steps: seq<Step>, more: seq<Step>)
    requires more != []
    ensures steps + more == (steps + more[..|more| - 1]) + [more[|more| - 1]]
  {
  }

  lemma Unfold(steps: seq<Step>, step: Step)
    ensures Run(steps + [step]) == Apply(Run(steps), step)
  {
    assert (steps + [step])[..|steps|] == steps;
  }

  lemma RunStep(steps: seq<Step>, more: seq<Step>)
    requires more != []
    ensures Run(steps + more) == Apply(Run(steps + more[..|more| - 1]), more[|more| - 1])
  {
    SplitLast(steps, more);
    Unfold(steps + more[..|more| - 1], more[|more| - 1]);
  }

  lemma {:induction false} StillRunsAs(steps: seq<Step>, more: seq<Step>, id: nat, row: Evaluation)
    requires RunsAs(Run(steps), id, row)
    ensures RunsAs(Run(steps + more), id, row)
  {
    if more == [] {
      assert steps + more == steps;
    } else {
      var front := more[..|more| - 1];
      StillRunsAs(steps, front, id, row);
      Reachable(steps + front);
      RunStep(steps, more);
      StepRunsAs(Run(steps + front), more[|more| - 1], id, row);
    }
  }

  // ----- a row without an owner stays or goes

  predicate StandsAs(s: State, id: nat, row: Evaluation) {
    id in s.used && id !in s.owners && (id in s.table.evaluations ==> s.table.evaluations[id] == row)
  }

  lemma StepStandsAs(s: State, step: Step, id: nat, row: Evaluation)
    requires Inv(s) && StandsAs(s, id, row)
    ensures StandsAs(Apply(s, step), id, row)
  {
  }

  lemma {:induction false} StillStandsAs(steps: seq<Step>, more: seq<Step>, id: nat, row: Evaluation)
    requires StandsAs(Run(steps), id, row)
    ensures StandsAs(Run(steps + more), id, row)
  {
    if more == [] {
      assert steps + more == steps;
    } else {
      var front := more[..|more| - 1];
      StillStandsAs(steps, front, id, row);
      Reachable(steps + front);
      RunStep(steps, more);
      StepStandsAs(Run(steps + front), more[|more| - 1], id, row);
    }
  }

  // ----- what a second claim gets

  /** Claiming the key of a row that holds it. */
  lemma SecondClaim(t: Table, holder: nat, key: string, id: nat, fingerprint: Option<string>, created: int, now: int)
    requires Indexed(t) && holder in t.evaluations && t.evaluations[holder].key == Some(key) && id !in t.evaluations
    ensures var e, result := t.evaluations[holder], Claim(t, id, key, fingerprint, created, now).1;
            && (fingerprint != e.fingerprint <==> result == Conflict)
            && (fingerprint == e.fingerprint && UpForReclaim(e, now) <==> result == Won)
            && (fingerprint == e.fingerprint && !UpForReclaim(e, now) <==> result == Lost(holder))
  {
  }

  lemma UnusedIsAbsent(s: State, id: nat)
    requires Inv(s) && id !in s.used
    ensures id !in s.table.evaluations
  {
  }

  /** After a claim won with clock reading `created`, and any further steps that leave its evaluation
      running: another claim of the key conflicts under a different fingerprint; under the same one it is
      lost to the running evaluation before 300 seconds have passed since `created`, and won from then on. */
  lemma LeaseDecides(steps: seq<Step>, id: nat, key: string, fingerprint: Option<string>, created: int, now: int,
                     more: seq<Step>, other: nat, theirs: Option<string>, theirCreated: int, theirNow: int)
    requires var s := Run(steps);
             id !in s.used && Indexed(s.table) && Claim(s.table, id, key, fingerprint, created, now).1 == Won
    requires var s := Run(steps + [Claiming(id, key, fingerprint, created, now)] + more);
             && id in s.table.evaluations && s.table.evaluations[id].status == Running && other !in s.used
    ensures var t := Run(steps + [Claiming(id, key, fingerprint, created, now)] + more).table;
            && Indexed(t)
            && Claim(t, other, key, theirs, theirCreated, theirNow).1 ==
               if theirs != fingerprint then Conflict
               else if theirNow < created + LEASE_SECONDS * MICROSECONDS then Lost(id)
               else Won
  {
    var claim := Claiming(id, key, fingerprint, created, now);
    var mid := steps + [claim];
    Reachable(steps);
    Claimed(Run(steps), id, key, fingerprint, created, now);
    Unfold(steps, claim);
    var row := Run(mid).table.evaluations[id];
    StillRunsAs(mid, more, id, row);
    Reachable(mid + more);
    UnusedIsAbsent(Run(mid + more), other);
    SecondClaim(Run(mid + more).table, id, key, other, theirs, theirCreated, theirNow);
  }

  lemma Claimed(s: State, id: nat, key: string, fingerprint: Option<string>, created: int, now: int)
    requires Inv(s) && id !in s.used && Claim(s.table, id, key, fingerprint, created, now).1 == Won
    ensures var s' := Apply(s, Claiming(id, key, fingerprint, created, now));
            && id in s'.used && id in s'.table.evaluations
            && var e := s'.table.evaluations[id];
            && e.key == Some(key) && e.fingerprint == fingerprint && e.status == Running
            && e.lease == Some(created + LEASE_SECONDS * MICROSECONDS)
  {
  }

  /** After an owner has reported its failure, and any further steps that leave its row: a claim of the
      key with the same fingerprint is won, whatever the clocks read. */
  lemma FailureFreesKey(steps: seq<Step>, id: nat, at: int, more: seq<Step>, other: nat, created: int, now: int)
    requires var s := Run(steps); id in s.owners && s.owners[id].failing && id in s.table.evaluations
    requires var s := Run(steps + [Reporting(id, at)] + more); id in s.table.evaluations && other !in s.used
    ensures var o, t := Run(steps).owners[id], Run(steps + [Reporting(id, at)] + more).table;
            Indexed(t) && Claim(t, other, o.key, o.fingerprint, created, now).1 == Won
  {
    var mid, o := steps + [Reporting(id, at)], Run(steps).owners[id];
    Reachable(steps);
    Unfold(steps, Reporting(id, at));
    var row := Run(mid).table.evaluations[id];
    assert row.status == Failed && row.key == Some(o.key) && row.fingerprint == o.fingerprint;
    StillStandsAs(mid, more, id, row);
    Reachable(mid + more);
    UnusedIsAbsent(Run(mid + more), other);
    SecondClaim(Run(mid + more).table, id, o.key, other, o.fingerprint, created, now);
  }

  /** Once a decision is committed under a key, every later claim of that key is answered by the committed
      evaluation or, under a different fingerprint, conflicts, whatever the clocks read. */
  lemma CommittedKeyAnswers(steps: seq<Step>, i: nat, more: seq<Step>, other: nat, fingerprint: Option<string>,
                            created: int, now: int)
    requires i < |Run(steps).commits| && Run(steps).commits[i].key.Some? && other !in Run(steps + more).used
    ensures var f, t := Run(steps).commits[i], Run(steps + more).table;
            && Indexed(t) && Stands(t, f)
            && Claim(t, other, f.key.value, fingerprint, created, now).1 ==
               if fingerprint == t.evaluations[f.id].fingerprint then Lost(f.id) else Conflict
  {
    Reachable(steps);
    Reachable(steps + more);
    HistoryStands(steps, more);
    var f := Run(steps).commits[i];
    assert Stands(Run(steps).table, f);
    UnusedIsAbsent(Run(steps + more), other);
    SecondClaim(Run(steps + more).table, f.id, f.key.value, other, fingerprint, created, now);
  }
}
