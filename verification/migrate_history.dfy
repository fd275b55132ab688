/** Exactly once, over any history of runs: which scripts a database has executed, when each run
    did what `Database.RunMigrator` ensures. The migrators may differ from run to run, in
    namespace, list, target, minimum and legacy ledger. */
module MigrationHistory {
  import opened Common
  import opened Migrations
  import opened MigrationRunner

  /** The versions of one namespace's scripts, in the order they ran. */
  function Versions(executed: seq<(string, int)>, namespace: string): seq<int> {
    if executed == [] then []
    else
      var rest, last := Versions(executed[..|executed| - 1], namespace), executed[|executed| - 1];
      if last.0 == namespace then rest + [last.1] else rest
  }

  predicate Increasing(versions: seq<int>) {
    forall i, j :: 0 <= i < j < |versions| ==> versions[i] < versions[j]
  }

  predicate Recorded(rows: seq<LedgerRow>, version: int) {
    exists i :: 0 <= i < |rows| && rows[i].version == version
  }

  /** Scripts that ran between two ledgers: strictly increasing, all of them later than anything
      the first ledger records, and all of them recorded by the second. */
  predicate RanOnce(before: seq<LedgerRow>, ran: seq<int>, after: seq<LedgerRow>) {
    && before <= after && Applied(before) <= Applied(after) && Increasing(ran)
    && forall i :: 0 <= i < |ran| ==> Applied(before) < ran[i] <= Applied(after) && Recorded(after, ran[i])
  }

  /** The second store is the first after runs that executed every script at most once. */
  predicate Raised(before: Store, after: Store, namespace: string) {
    && before.executed <= after.executed
    && RanOnce(Rows(before.ledger, namespace), Versions(after.executed[|before.executed|..], namespace),
               Rows(after.ledger, namespace))
  }

  lemma {:induction false} VersionsAppend(a: seq<(string, int)>, b: seq<(string, int)>, namespace: string)
    ensures Versions(a + b, namespace) == Versions(a, namespace) + Versions(b, namespace)
    decreases |b|
  {
    if b == [] {
      assert a + b == a;
    } else {
      var all, front := a + b, b[..|b| - 1];
      assert all[..|all| - 1] == a + front;
      VersionsAppend(a, front, namespace);
    }
  }

  function ScriptVersions(scripts: seq<Migration>): seq<int> {
    seq(|scripts|, i requires 0 <= i < |scripts| => scripts[i].version)
  }

  lemma {:induction false} VersionsOfTagged(owner: string, scripts: seq<Migration>, namespace: string)
    ensures Versions(Tagged(owner, scripts), namespace) == if owner == namespace then ScriptVersions(scripts) else []
    decreases |scripts|
  {
    if scripts != [] {
      var n := |scripts| - 1;
      assert Tagged(owner, scripts)[..n] == Tagged(owner, scripts[..n]);
      VersionsOfTagged(owner, scripts[..n], namespace);
      assert ScriptVersions(scripts) == ScriptVersions(scripts[..n]) + [scripts[n].version];
    }
  }

  // ---------------------------------------------------------------- one run

  lemma AppliedGrows(migrations: seq<Migration>, rows: seq<LedgerRow>, more: seq<LedgerRow>)
    requires Ordered(migrations) && Prefix(migrations, more) && rows <= more
    ensures Applied(rows) <= Applied(more)
  {
    if more != [] {
      assert Matches(more[|more| - 1], migrations[|more| - 1]);
      VersionsIncrease(migrations, |more| - 1, |more| - 1);
      if rows != [] {
        assert Matches(more[|rows| - 1], migrations[|rows| - 1]);
        VersionsIncrease(migrations, |rows| - 1, |more| - 1);
      }
    }
  }

  /** The part of the list that continues a history. */
  predicate Continues(migrations: seq<Migration>, p: Plan) {
    && Ordered(migrations) && Prefix(migrations, p.merged) && |p.merged| + |p.scripts| <= |migrations|
    && p.scripts == migrations[|p.merged|..|p.merged| + |p.scripts|]
  }

  lemma PlanContinues(m: Migrator, rows: seq<LedgerRow>, legacy: Option<seq<LedgerRow>>)
    requires Valid(m) && MakePlan(m, rows, legacy).Success?
    ensures var p := MakePlan(m, rows, legacy).value; rows <= p.merged && Continues(m.migrations, p)
  {
    hide Merge, Pending;
    MergeIsHistory(m, rows, legacy);
    PendingMeaning(m, |MakePlan(m, rows, legacy).value.merged|);
  }

  lemma ScriptAt(migrations: seq<Migration>, p: Plan, i: nat)
    requires Continues(migrations, p) && i < |p.scripts|
    ensures |p.merged| + i < |migrations| && p.scripts[i] == migrations[|p.merged| + i]
  {
  }

  /** Scripts come after everything the ledger records. */
  lemma ScriptIsNew(migrations: seq<Migration>, rows: seq<LedgerRow>, p: Plan, i: nat)
    requires Continues(migrations, p) && rows <= p.merged && i < |p.scripts|
    ensures Applied(rows) < p.scripts[i].version
  {
    ScriptAt(migrations, p, i);
    VersionsIncrease(migrations, |p.merged| + i, |p.merged| + i);
    if rows != [] {
      assert Matches(p.merged[|rows| - 1], migrations[|rows| - 1]);
      VersionsIncrease(migrations, |rows| - 1, |p.merged| + i);
    }
  }

  lemma ScriptsIncrease(migrations: seq<Migration>, p: Plan, i: nat, j: nat)
    requires Continues(migrations, p) && i < j < |p.scripts|
    ensures p.scripts[i].version < p.scripts[j].version
  {
    ScriptAt(migrations, p, i);
    ScriptAt(migrations, p, j);
    VersionsIncrease(migrations, |p.merged| + i, |p.merged| + j);
  }

  /** Scripts leave their row, and the last one the last row. */
  lemma ScriptIsRecorded(migrations: seq<Migration>, p: Plan, clock: Clock, i: nat)
    requires Continues(migrations, p) && i < |p.scripts|
    ensures p.scripts[i].version <= Applied(Final(p, clock)) && Recorded(Final(p, clock), p.scripts[i].version)
  {
    var final, n := Final(p, clock), |p.scripts|;
    var rows := NewRows(p.scripts, clock);
    assert rows[i] == NewRow(p.scripts[i], clock(p.scripts[i].version)) == final[|p.merged| + i];
    assert rows[n - 1] == NewRow(p.scripts[n - 1], clock(p.scripts[n - 1].version)) == final[|final| - 1];
    if i < n - 1 { ScriptsIncrease(migrations, p, i, n - 1); }
  }

  lemma PlanRunsOnce(m: Migrator, rows: seq<LedgerRow>, legacy: Option<seq<LedgerRow>>, clock: Clock)
    requires Valid(m) && Ticks(clock, m.migrations) && MakePlan(m, rows, legacy).Success?
    ensures var p := MakePlan(m, rows, legacy).value; RanOnce(rows, ScriptVersions(p.scripts), Final(p, clock))
  {
    hide MakePlan, Continues, Recorded;
    var p := MakePlan(m, rows, legacy).value;
    var final := Final(p, clock);
    PlanContinues(m, rows, legacy);
    Convergence(m, rows, legacy, clock);
    AppliedGrows(m.migrations, rows, final);
    forall i | 0 <= i < |p.scripts|
      ensures Applied(rows) < p.scripts[i].version <= Applied(final) && Recorded(final, p.scripts[i].version)
    {
      ScriptIsNew(m.migrations, rows, p, i);
      ScriptIsRecorded(m.migrations, p, clock, i);
    }
    forall i, j | 0 <= i < j < |p.scripts| ensures p.scripts[i].version < p.scripts[j].version {
      ScriptsIncrease(m.migrations, p, i, j);
    }
  }

  lemma PlanExtends(m: Migrator, rows: seq<LedgerRow>, legacy: Option<seq<LedgerRow>>)
    requires MakePlan(m, rows, legacy).Success?
    ensures rows <= MakePlan(m, rows, legacy).value.merged
  {
    MergeIsHistory(m, rows, legacy);
  }

  lemma NothingRan(rows: seq<LedgerRow>)
    ensures RanOnce(rows, [], rows)
  {
  }

  /** One run raises every namespace: its own by the plan, the others by nothing. */
  lemma MigratesRaises(m: Migrator, legacy: Option<seq<LedgerRow>>, clock: Clock, before: Store, after: Store, namespace: string)
    requires Valid(m) && Ticks(clock, m.migrations) && Migrates(m, legacy, clock, before, after)
    ensures Raised(before, after, namespace)
  {
    hide RanOnce, Final, MakePlan, Tagged;
    var rows := Rows(before.ledger, namespace);
    NothingRan(rows);
    if after == before {
      assert after.executed[|before.executed|..] == [];
    } else {
      var p := MakePlan(m, Rows(before.ledger, m.namespace), legacy).value;
      assert after.executed[|before.executed|..] == Tagged(m.namespace, p.scripts);
      VersionsOfTagged(m.namespace, p.scripts, namespace);
      if namespace == m.namespace { PlanRunsOnce(m, rows, legacy, clock); }
    }
  }

  // ---------------------------------------------------------------- histories

  lemma RanOnceThrough(a: seq<LedgerRow>, xs: seq<int>, b: seq<LedgerRow>, ys: seq<int>, c: seq<LedgerRow>)
    requires RanOnce(a, xs, b) && RanOnce(b, ys, c)
    ensures RanOnce(a, xs + ys, c)
  {
    forall i | 0 <= i < |xs + ys|
      ensures Applied(a) < (xs + ys)[i] <= Applied(c) && Recorded(c, (xs + ys)[i])
    {
      if i < |xs| {
        var k :| 0 <= k < |b| && b[k].version == xs[i];
        assert c[k].version == xs[i];
      }
    }
  }

  lemma RaisedThrough(a: Store, b: Store, c: Store, namespace: string)
    requires Raised(a, b, namespace) && Raised(b, c, namespace)
    ensures Raised(a, c, namespace)
  {
    hide RanOnce;
    var first, second := b.executed[|a.executed|..], c.executed[|b.executed|..];
    assert c.executed[|a.executed|..] == first + second;
    VersionsAppend(first, second, namespace);
    RanOnceThrough(Rows(a.ledger, namespace), Versions(first, namespace), Rows(b.ledger, namespace),
                   Versions(second, namespace), Rows(c.ledger, namespace));
  }

  lemma RaisedByNothing(a: Store, namespace: string)
    ensures Raised(a, a, namespace)
  {
    hide RanOnce;
    NothingRan(Rows(a.ledger, namespace));
    assert a.executed[|a.executed|..] == [];
  }

  datatype Job = Job(m: Migrator, legacy: Option<seq<LedgerRow>>, clock: Clock)

  /** Each run did to the committed tables what `RunMigrator` ensures, whatever its outcome. */
  ghost predicate History(jobs: seq<Job>, stores: seq<Store>) {
    && |stores| == |jobs| + 1
    && forall k :: 0 <= k < |jobs| ==>
         && Valid(jobs[k].m) && Ticks(jobs[k].clock, jobs[k].m.migrations)
         && Migrates(jobs[k].m, jobs[k].legacy, jobs[k].clock, stores[k], stores[k + 1])
  }

  /** Exactly once: over any history of successful, failed, cancelled and unknown runs of any
      migrators, the scripts that were executed in a namespace have strictly increasing versions,
      all beyond what its ledger recorded at the start and all recorded by its ledger at the end,
      which extends the one at the start. */
  lemma {:induction false} ExecutedOnce(jobs: seq<Job>, stores: seq<Store>, namespace: string)
    requires History(jobs, stores)
    ensures Raised(stores[0], stores[|jobs|], namespace)
    decreases |jobs|
  {
    hide Raised, Migrates, Valid, Ticks;
    if jobs == [] {
      RaisedByNothing(stores[0], namespace);
    } else {
      var n := |jobs| - 1;
      ExecutedOnce(jobs[..n], stores[..n + 1], namespace);
      MigratesRaises(jobs[n].m, jobs[n].legacy, jobs[n].clock, stores[n], stores[n + 1], namespace);
      RaisedThrough(stores[0], stores[n], stores[n + 1], namespace);
    }
  }
}
