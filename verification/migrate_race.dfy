/** Any number of concurrent migration runners over one database. The SQLite writer
    reservation, or the common PostgreSQL advisory lock, is taken before the ledger is read
    and is held until the transaction ends. */
module ConcurrentMigrations {
  import opened Common
  import opened Migrations
  import opened MigrationRunner
  import opened MigrationHistory

  /** The jobs: one migrator per runner. */
  type Jobs = map<nat, Migrator>

  datatype Runner =
    | Waiting
    | Locked
    | Working(base: seq<LedgerRow>, legacy: Option<seq<LedgerRow>>, plan: Plan, ran: nat)
    | Over

  /** How a ledger row came to be. */
  datatype Entry = Adopted(row: LedgerRow) | Ran(row: LedgerRow)

  /** `log` records, per namespace, every row committed since the start, in order. */
  datatype State = State(
    store: Store,
    log: map<string, seq<Entry>>,
    lock: Option<nat>,
    runners: map<nat, Runner>)

  /** A runner may stop at any point: a failed statement, a cancelled future, a refused plan.
      The fate of a commit, acknowledged or not, is whether it was published. */
  datatype Event =
    | Acquire(r: nat)
    | Load(r: nat, legacy: Option<seq<LedgerRow>>)
    | RunScript(r: nat)
    | Commit(r: nat, stamp: string, published: bool)
    | Stop(r: nat)

  function Log(s: State, namespace: string): seq<Entry> {
    if namespace in s.log then s.log[namespace] else []
  }

  function LogRows(log: seq<Entry>): seq<LedgerRow> {
    seq(|log|, i requires 0 <= i < |log| => log[i].row)
  }

  /** The versions whose scripts were run. */
  function RanVersions(log: seq<Entry>): seq<int> {
    if log == [] then []
    else
      var rest, last := RanVersions(log[..|log| - 1]), log[|log| - 1];
      if last.Ran? then rest + [last.row.version] else rest
  }

  function AdoptedEntries(rows: seq<LedgerRow>): seq<Entry> {
    seq(|rows|, i requires 0 <= i < |rows| => Adopted(rows[i]))
  }

  function RanEntries(rows: seq<LedgerRow>): seq<Entry> {
    seq(|rows|, i requires 0 <= i < |rows| => Ran(rows[i]))
  }

  function StampClock(stamp: string): Clock {
    v => if stamp == "" then "now" else stamp
  }

  function Release(s: State, r: nat): State {
    s.(lock := if s.lock == Some(r) then None else s.lock, runners := s.runners[r := Over])
  }

  function NewEntries(base: seq<LedgerRow>, plan: Plan, clock: Clock): seq<Entry> {
    (if |base| <= |plan.merged| then AdoptedEntries(plan.merged[|base|..]) else [])
    + RanEntries(NewRows(plan.scripts, clock))
  }

  function Publish(s: State, namespace: string, w: Runner, clock: Clock): State
    requires w.Working?
  {
    s.(store := Store(s.store.ledger[namespace := Final(w.plan, clock)],
                      s.store.executed + Tagged(namespace, w.plan.scripts)),
       log := s.log[namespace := Log(s, namespace) + NewEntries(w.base, w.plan, clock)])
  }

  function Step(jobs: Jobs, s: State, event: Event): State {
    if event.r !in jobs || event.r !in s.runners then s
    else
      var r, m, runner := event.r, jobs[event.r], s.runners[event.r];
      match event
      case Acquire(_) =>
        if runner.Waiting? && s.lock.None? then s.(lock := Some(r), runners := s.runners[r := Locked]) else s
      case Load(_, legacy) =>
        if !runner.Locked? then s
        else
          var base := Rows(s.store.ledger, m.namespace);
          var plan := MakePlan(m, base, legacy);
          if plan.Failure? then Release(s, r)
          else s.(runners := s.runners[r := Working(base, legacy, plan.value, 0)])
      case RunScript(_) =>
        if runner.Working? && runner.ran < |runner.plan.scripts| then
          s.(runners := s.runners[r := runner.(ran := runner.ran + 1)])
        else s
      case Commit(_, stamp, published) =>
        if runner.Working? && runner.ran == |runner.plan.scripts| then
          Release(if published then Publish(s, m.namespace, runner, StampClock(stamp)) else s, r)
        else s
      case Stop(_) => Release(s, r)
  }

  function Init(jobs: Jobs, start: Store): State {
    State(start, map[], None, map r | r in jobs :: Waiting)
  }

  function Run(jobs: Jobs, s: State, events: seq<Event>): State
    decreases |events|
  {
    if events == [] then s else Step(jobs, Run(jobs, s, events[..|events| - 1]), events[|events| - 1])
  }

  /** All runners of a namespace carry the same migration list; their targets, minimums and
      legacy options may differ. */
  predicate Agree(jobs: Jobs) {
    && (forall r :: r in jobs ==> Valid(jobs[r]))
    && (forall r, q :: r in jobs && q in jobs && jobs[r].namespace == jobs[q].namespace ==>
          jobs[r].migrations == jobs[q].migrations)
  }

  predicate RunnerInv(s: State, m: Migrator, r: nat, runner: Runner) {
    && (runner.Locked? || runner.Working? ==> s.lock == Some(r))
    && (runner.Working? ==>
          && runner.base == Rows(s.store.ledger, m.namespace)
          && MakePlan(m, runner.base, runner.legacy) == Success(runner.plan))
  }

  /** Rows written since the start make the namespace ledger a history of its own list. */
  predicate NamespaceInv(jobs: Jobs, start: Store, s: State, namespace: string) {
    && Rows(s.store.ledger, namespace) == Rows(start.ledger, namespace) + LogRows(Log(s, namespace))
    && start.executed <= s.store.executed
    && Versions(s.store.executed[|start.executed|..], namespace) == RanVersions(Log(s, namespace))
    && (Log(s, namespace) != [] ==>
          exists r :: r in jobs && jobs[r].namespace == namespace && Prefix(jobs[r].migrations, Rows(s.store.ledger, namespace)))
  }

  ghost predicate Inv(jobs: Jobs, start: Store, s: State) {
    && s.runners.Keys == jobs.Keys
    && (forall r :: r in jobs ==> RunnerInv(s, jobs[r], r, s.runners[r]))
    && (forall n :: NamespaceInv(jobs, start, s, n))
  }

  lemma {:induction false} InitInv(jobs: Jobs, start: Store)
    ensures Inv(jobs, start, Init(jobs, start))
  {
    forall n ensures NamespaceInv(jobs, start, Init(jobs, start), n) {
      assert LogRows([]) == [];
      assert start.executed[|start.executed|..] == [];
    }
  }

  lemma {:induction false} RanVersionsAppend(a: seq<Entry>, b: seq<Entry>)
    ensures RanVersions(a + b) == RanVersions(a) + RanVersions(b)
    decreases |b|
  {
    if b == [] {
      assert a + b == a;
    } else {
      var all, front := a + b, b[..|b| - 1];
      assert all[..|all| - 1] == a + front;
      RanVersionsAppend(a, front);
    }
  }

  lemma {:induction false} AdoptedRanNothing(rows: seq<LedgerRow>)
    ensures RanVersions(AdoptedEntries(rows)) == []
    decreases |rows|
  {
    if rows != [] {
      assert AdoptedEntries(rows)[..|rows| - 1] == AdoptedEntries(rows[..|rows| - 1]);
      AdoptedRanNothing(rows[..|rows| - 1]);
    }
  }

  lemma {:induction false} NewRowsRan(scripts: seq<Migration>, clock: Clock)
    ensures RanVersions(RanEntries(NewRows(scripts, clock))) == ScriptVersions(scripts)
    decreases |scripts|
  {
    if scripts != [] {
      var n := |scripts| - 1;
      assert RanEntries(NewRows(scripts, clock))[..n] == RanEntries(NewRows(scripts[..n], clock));
      NewRowsRan(scripts[..n], clock);
      assert ScriptVersions(scripts) == ScriptVersions(scripts[..n]) + [scripts[n].version];
    }
  }

  /** The log of a published plan says exactly which scripts were executed. */
  lemma LogTellsWhatRan(base: seq<LedgerRow>, plan: Plan, clock: Clock)
    ensures RanVersions(NewEntries(base, plan, clock)) == ScriptVersions(plan.scripts)
  {
    hide AdoptedEntries, RanEntries, NewRows, RanVersions, ScriptVersions;
    var ran := RanEntries(NewRows(plan.scripts, clock));
    NewRowsRan(plan.scripts, clock);
    if |base| <= |plan.merged| {
      AdoptedRanNothing(plan.merged[|base|..]);
      RanVersionsAppend(AdoptedEntries(plan.merged[|base|..]), ran);
      assert [] + ScriptVersions(plan.scripts) == ScriptVersions(plan.scripts);
    } else {
      assert [] + ran == ran;
    }
  }

  lemma ExecutedExtends(start: Store, executed: seq<(string, int)>, owner: string, scripts: seq<Migration>, n: string)
    requires start.executed <= executed
    ensures var all := executed + Tagged(owner, scripts);
      && start.executed <= all
      && Versions(all[|start.executed|..], n) ==
           Versions(executed[|start.executed|..], n) + if owner == n then ScriptVersions(scripts) else []
  {
    hide Tagged;
    var since := executed[|start.executed|..];
    assert (executed + Tagged(owner, scripts))[|start.executed|..] == since + Tagged(owner, scripts);
    VersionsAppend(since, Tagged(owner, scripts), n);
    VersionsOfTagged(owner, scripts, n);
  }

  lemma PublishedRows(base: seq<LedgerRow>, plan: Plan, clock: Clock)
    requires base <= plan.merged
    ensures Final(plan, clock) == base + LogRows(NewEntries(base, plan, clock))
  {
    var adopted := plan.merged[|base|..];
    assert plan.merged == base + adopted;
    assert LogRows(NewEntries(base, plan, clock)) == adopted + NewRows(plan.scripts, clock);
  }

  lemma LogRowsAppend(a: seq<Entry>, b: seq<Entry>)
    ensures LogRows(a + b) == LogRows(a) + LogRows(b)
  {
  }

  /** Publishing a plan made from the current ledger keeps every namespace a history. */
  lemma {:induction false} PublishKeepsHistories(jobs: Jobs, start: Store, s: State, r: nat, clock: Clock, n: string)
    requires r in jobs && r in s.runners && s.runners[r].Working?
    requires NamespaceInv(jobs, start, s, n)
    requires var m, w := jobs[r], s.runners[r];
      w.base == Rows(s.store.ledger, m.namespace) && w.base <= w.plan.merged && Prefix(m.migrations, Final(w.plan, clock))
    ensures NamespaceInv(jobs, start, Publish(s, jobs[r].namespace, s.runners[r], clock), n)
  {
    hide Final, NewEntries, LogRows, Prefix, Tagged, Versions, RanVersions, Publish;
    var m, w := jobs[r], s.runners[r];
    var s' := Publish(s, m.namespace, w, clock);
    PublishShape(s, m.namespace, w, clock, n);
    ExecutedExtends(start, s.store.executed, m.namespace, w.plan.scripts, n);
    if n == m.namespace {
      PublishedRows(w.base, w.plan, clock);
      OwnEntries(Log(s, n), w.base, w.plan, clock);
      assert Rows(s'.store.ledger, n) == Rows(start.ledger, n) + LogRows(Log(s', n)) by {
        Associates(Rows(start.ledger, n), LogRows(Log(s, n)), LogRows(NewEntries(w.base, w.plan, clock)));
      }
      assert Prefix(jobs[r].migrations, Rows(s'.store.ledger, n));
    }
  }

  lemma Associates(a: seq<LedgerRow>, b: seq<LedgerRow>, c: seq<LedgerRow>)
    ensures (a + b) + c == a + (b + c)
  {
  }

  lemma PublishShape(s: State, namespace: string, w: Runner, clock: Clock, n: string)
    requires w.Working?
    ensures var s' := Publish(s, namespace, w, clock);
      && s'.store.executed == s.store.executed + Tagged(namespace, w.plan.scripts)
      && (n == namespace ==>
            Rows(s'.store.ledger, n) == Final(w.plan, clock) && Log(s', n) == Log(s, n) + NewEntries(w.base, w.plan, clock))
      && (n != namespace ==> Rows(s'.store.ledger, n) == Rows(s.store.ledger, n) && Log(s', n) == Log(s, n))
  {
    hide Final, NewEntries, Tagged;
  }

  /** What a published plan adds to the log. */
  lemma OwnEntries(log: seq<Entry>, base: seq<LedgerRow>, plan: Plan, clock: Clock)
    ensures var entries := NewEntries(base, plan, clock);
      && LogRows(log + entries) == LogRows(log) + LogRows(entries)
      && RanVersions(log + entries) == RanVersions(log) + ScriptVersions(plan.scripts)
  {
    hide NewEntries, LogRows, RanVersions;
    LogRowsAppend(log, NewEntries(base, plan, clock));
    LogTellsWhatRan(base, plan, clock);
    RanVersionsAppend(log, NewEntries(base, plan, clock));
  }

  lemma {:induction false} PublishInv(jobs: Jobs, start: Store, s: State, r: nat, clock: Clock)
    requires Agree(jobs) && Inv(jobs, start, s) && r in jobs && s.runners[r].Working?
    requires Ticks(clock, jobs[r].migrations)
    ensures Inv(jobs, start, Release(Publish(s, jobs[r].namespace, s.runners[r], clock), r))
  {
    hide Merge, MakePlan, Final, Prefix, UpTo, Pending, Log, LogRows, NewEntries;
    var m, w := jobs[r], s.runners[r];
    var published := Publish(s, m.namespace, w, clock);
    var s' := Release(published, r);
    Convergence(m, w.base, w.legacy, clock);
    PlanExtends(m, w.base, w.legacy);
    forall n ensures NamespaceInv(jobs, start, s', n) {
      assert NamespaceInv(jobs, start, s, n);
      PublishKeepsHistories(jobs, start, s, r, clock, n);
      SameLedgerSameHistory(jobs, start, published, s', n);
    }
  }

  lemma {:induction false} SameLedgerSameHistory(jobs: Jobs, start: Store, s: State, s': State, n: string)
    requires NamespaceInv(jobs, start, s, n) && s'.store == s.store && s'.log == s.log
    ensures NamespaceInv(jobs, start, s', n)
  {
  }

  /** Steps that publish nothing only have to respect the lock. */
  lemma {:induction false} QuietStepInv(jobs: Jobs, start: Store, s: State, event: Event)
    requires Inv(jobs, start, s) && !(event.Commit? && event.published)
    ensures Inv(jobs, start, Step(jobs, s, event))
  {
    hide MakePlan, NamespaceInv;
    var s' := Step(jobs, s, event);
    forall n ensures NamespaceInv(jobs, start, s', n) {
      SameLedgerSameHistory(jobs, start, s, s', n);
    }
  }

  lemma {:induction false} StepInv(jobs: Jobs, start: Store, s: State, event: Event)
    requires Agree(jobs) && Inv(jobs, start, s)
    ensures Inv(jobs, start, Step(jobs, s, event))
  {
    hide NamespaceInv, RunnerInv, Publish, Release, Agree;
    if event.Commit? && event.published {
      if event.r in jobs && s.runners[event.r].Working? {
        PublishInv(jobs, start, s, event.r, StampClock(event.stamp));
      }
    } else {
      QuietStepInv(jobs, start, s, event);
    }
  }

  lemma {:induction false} RunInv(jobs: Jobs, start: Store, s: State, events: seq<Event>)
    requires Agree(jobs) && Inv(jobs, start, s)
    ensures Inv(jobs, start, Run(jobs, s, events))
    decreases |events|
  {
    hide Step, Inv, Agree;
    if events != [] {
      RunInv(jobs, start, s, events[..|events| - 1]);
      StepInv(jobs, start, Run(jobs, s, events[..|events| - 1]), events[|events| - 1]);
    }
  }

  /** A runner changes no namespace but its own. */
  lemma {:induction false} StepKeepsOtherNamespaces(jobs: Jobs, s: State, event: Event, namespace: string)
    requires event.r in jobs ==> jobs[event.r].namespace != namespace
    ensures var after := Step(jobs, s, event);
      Rows(after.store.ledger, namespace) == Rows(s.store.ledger, namespace) && Log(after, namespace) == Log(s, namespace)
  {
    hide MakePlan, Final, NewEntries;
  }

  /** Over any part of a run, a namespace changes only by the runners of that namespace. */
  lemma {:induction false} OthersKeepTheNamespace(jobs: Jobs, s: State, events: seq<Event>, namespace: string)
    requires forall i :: 0 <= i < |events| && events[i].r in jobs ==> jobs[events[i].r].namespace != namespace
    ensures Rows(Run(jobs, s, events).store.ledger, namespace) == Rows(s.store.ledger, namespace)
    decreases |events|
  {
    hide Step;
    if events != [] {
      var last := |events| - 1;
      OthersKeepTheNamespace(jobs, s, events[..last], namespace);
      StepKeepsOtherNamespaces(jobs, Run(jobs, s, events[..last]), events[last], namespace);
    }
  }

  predicate RowsIncrease(rows: seq<LedgerRow>) {
    forall i, j :: 0 <= i < j < |rows| ==> rows[i].version < rows[j].version
  }

  lemma PrefixIncreases(migrations: seq<Migration>, rows: seq<LedgerRow>)
    requires Ordered(migrations) && Prefix(migrations, rows)
    ensures RowsIncrease(rows)
  {
    forall i, j | 0 <= i < j < |rows| ensures rows[i].version < rows[j].version {
      VersionsIncrease(migrations, i, j);
    }
  }

  /** What a step commits is what one run of the runner's migrator does. */
  lemma {:induction false} StepMigrates(jobs: Jobs, start: Store, s: State, event: Event, namespace: string)
    requires Agree(jobs) && Inv(jobs, start, s)
    ensures Raised(s.store, Step(jobs, s, event).store, namespace)
  {
    hide MakePlan, Final, Tagged, NewEntries, NamespaceInv, Raised;
    var after := Step(jobs, s, event);
    if after.store == s.store {
      RaisedByNothing(s.store, namespace);
    } else {
      var m, w := jobs[event.r], s.runners[event.r];
      assert RunnerInv(s, m, event.r, w);
      MigratesRaises(m, w.legacy, StampClock(event.stamp), s.store, after.store, namespace);
    }
  }

  lemma {:induction false} RunRaises(jobs: Jobs, start: Store, s: State, events: seq<Event>, namespace: string)
    requires Agree(jobs) && Inv(jobs, start, s)
    ensures Raised(s.store, Run(jobs, s, events).store, namespace)
    decreases |events|
  {
    hide Step, Inv, Agree, Raised;
    if events == [] {
      RaisedByNothing(s.store, namespace);
    } else {
      var before := Run(jobs, s, events[..|events| - 1]);
      RunRaises(jobs, start, s, events[..|events| - 1], namespace);
      RunInv(jobs, start, s, events[..|events| - 1]);
      StepMigrates(jobs, start, before, events[|events| - 1], namespace);
      RaisedThrough(s.store, before.store, Run(jobs, s, events).store, namespace);
    }
  }

  // ---------------------------------------------------------------- what runners do

  /** Only a commit of a runner that holds the lock and has run every script of its plan changes
      the database. */
  lemma {:induction false} CommitNeedsAllScripts(jobs: Jobs, start: Store, s: State, event: Event)
    requires Inv(jobs, start, s) && Step(jobs, s, event).store != s.store
    ensures event.Commit? && event.published && event.r in s.runners && s.lock == Some(event.r)
    ensures var w := s.runners[event.r]; w.Working? && w.ran == |w.plan.scripts|
  {
    hide MakePlan, Final, NewEntries, NamespaceInv, Tagged;
  }

  /** A runner gets the lock exactly when it is free, and whoever ends gives it back. */
  lemma {:induction false} LockIsPassedOn(jobs: Jobs, s: State, r: nat)
    requires r in jobs && r in s.runners
    ensures s.runners[r].Waiting? ==>
      (s.lock.None? <==> Step(jobs, s, Acquire(r)).runners[r].Locked?)
    ensures s.runners[r].Waiting? && s.lock.None? ==> Step(jobs, s, Acquire(r)).lock == Some(r)
    ensures s.lock == Some(r) ==> Step(jobs, s, Stop(r)).lock.None?
    ensures forall stamp, published ::
      s.lock == Some(r) && s.runners[r].Working? && s.runners[r].ran == |s.runners[r].plan.scripts| ==>
        Step(jobs, s, Commit(r, stamp, published)).lock.None? && Step(jobs, s, Commit(r, stamp, published)).runners[r].Over?
  {
    hide MakePlan, Final, NewEntries, Tagged;
  }

  function Scripts(r: nat, n: nat): seq<Event> {
    if n == 0 then [] else Scripts(r, n - 1) + [RunScript(r)]
  }

  /** The state with `n` more scripts of runner `r` done. */
  function Advanced(s: State, r: nat, n: nat): State
    requires r in s.runners && s.runners[r].Working?
  {
    s.(runners := s.runners[r := s.runners[r].(ran := s.runners[r].ran + n)])
  }

  lemma {:induction false} ScriptStep(jobs: Jobs, s: State, r: nat, n: nat)
    requires r in jobs && r in s.runners && s.runners[r].Working? && s.runners[r].ran + n < |s.runners[r].plan.scripts|
    ensures Step(jobs, Advanced(s, r, n), RunScript(r)) == Advanced(s, r, n + 1)
  {
    hide MakePlan, Publish;
    var w := s.runners[r];
    assert s.runners[r := w.(ran := w.ran + n)][r := w.(ran := w.ran + n + 1)] == s.runners[r := w.(ran := w.ran + n + 1)];
  }

  lemma {:induction false} RunsSome(jobs: Jobs, s: State, events: seq<Event>, r: nat, n: nat)
    requires r in jobs && r in Run(jobs, s, events).runners
    requires var w := Run(jobs, s, events).runners[r]; w.Working? && w.ran + n <= |w.plan.scripts|
    ensures Run(jobs, s, events + Scripts(r, n)) == Advanced(Run(jobs, s, events), r, n)
    decreases n
  {
    hide Step;
    var before := Run(jobs, s, events);
    if n == 0 {
      assert events + [] == events;
      assert before.runners[r := before.runners[r]] == before.runners;
    } else {
      RunsSome(jobs, s, events, r, n - 1);
      var all := events + Scripts(r, n);
      assert all[..|all| - 1] == events + Scripts(r, n - 1) && all[|all| - 1] == RunScript(r);
      ScriptStep(jobs, before, r, n - 1);
      hide Advanced;
    }
  }

  lemma {:induction false} LoadsItsPlan(jobs: Jobs, start: Store, r: nat, legacy: Option<seq<LedgerRow>>)
    requires r in jobs && MakePlan(jobs[r], Rows(start.ledger, jobs[r].namespace), legacy).Success?
    ensures var s := Step(jobs, Step(jobs, Init(jobs, start), Acquire(r)), Load(r, legacy));
      var base := Rows(start.ledger, jobs[r].namespace);
      && s.store == start && r in s.runners
      && s.runners[r] == Working(base, legacy, MakePlan(jobs[r], base, legacy).value, 0)
  {
    hide MakePlan;
  }

  /** A runner that is left alone, and whose plan can be made, migrates. */
  lemma {:induction false} RunnerCanMigrate(jobs: Jobs, start: Store, r: nat, legacy: Option<seq<LedgerRow>>, stamp: string)
    requires r in jobs && MakePlan(jobs[r], Rows(start.ledger, jobs[r].namespace), legacy).Success?
    ensures exists events :: Planned(jobs[r], legacy, StampClock(stamp), start, Run(jobs, Init(jobs, start), events).store)
  {
    hide MakePlan, Final, Tagged, Step, Init, StampClock;
    var s, m := Init(jobs, start), jobs[r];
    var plan := MakePlan(m, Rows(start.ledger, m.namespace), legacy).value;
    var e1, e2 := [Acquire(r)], [Acquire(r), Load(r, legacy)];
    assert e1[..0] == [] && e2[..1] == e1;
    assert Run(jobs, s, []) == s;
    assert Run(jobs, s, e1) == Step(jobs, s, Acquire(r));
    LoadsItsPlan(jobs, start, r, legacy);
    RunsSome(jobs, s, e2, r, |plan.scripts|);
    var e3 := e2 + Scripts(r, |plan.scripts|);
    var e4 := e3 + [Commit(r, stamp, true)];
    assert e4[..|e3|] == e3;
    CommitPublishes(jobs, Run(jobs, s, e3), r, stamp);
    assert Planned(m, legacy, StampClock(stamp), start, Run(jobs, s, e4).store);
  }

  lemma {:induction false} CommitPublishes(jobs: Jobs, s: State, r: nat, stamp: string)
    requires r in jobs && r in s.runners && s.runners[r].Working? && s.runners[r].ran == |s.runners[r].plan.scripts|
    ensures Step(jobs, s, Commit(r, stamp, true)).store ==
      Store(s.store.ledger[jobs[r].namespace := Final(s.runners[r].plan, StampClock(stamp))],
            s.store.executed + Tagged(jobs[r].namespace, s.runners[r].plan.scripts))
  {
  }

  /** Exactly-once migrations. For any runners over one list per namespace, in every
      interleaving and with any mix of success, failure and unknown commits: a namespace ledger
      is its starting rows followed by what was adopted or run, all of it in version order as
      soon as anything was; the scripts executed, which are those the log calls run, have strictly increasing versions, beyond
      everything the starting rows record and recorded at the end; a namespace nobody migrates is
      untouched. */
  lemma {:induction false} ExactlyOnce(jobs: Jobs, start: Store, events: seq<Event>, namespace: string)
    requires Agree(jobs)
    ensures var s := Run(jobs, Init(jobs, start), events);
      && Rows(s.store.ledger, namespace) == Rows(start.ledger, namespace) + LogRows(Log(s, namespace))
      && (Log(s, namespace) != [] ==> RowsIncrease(Rows(s.store.ledger, namespace)))
      && Raised(start, s.store, namespace)
      && RanVersions(Log(s, namespace)) == Versions(s.store.executed[|start.executed|..], namespace)
      && ((forall r :: r in jobs ==> jobs[r].namespace != namespace) ==>
            Rows(s.store.ledger, namespace) == Rows(start.ledger, namespace))
  {
    hide Run, Init, RanOnce;
    InitInv(jobs, start);
    RunInv(jobs, start, Init(jobs, start), events);
    RunRaises(jobs, start, Init(jobs, start), events, namespace);
    var s := Run(jobs, Init(jobs, start), events);
    InitStore(jobs, start);
    assert NamespaceInv(jobs, start, s, namespace);
    if Log(s, namespace) != [] { HistoryIncreases(jobs, start, s, namespace); }
    assert Log(s, namespace) == [] ==> Rows(s.store.ledger, namespace) == Rows(start.ledger, namespace);
  }

  lemma {:induction false} InitStore(jobs: Jobs, start: Store)
    ensures Init(jobs, start).store == start
  {
  }

  lemma {:induction false} HistoryIncreases(jobs: Jobs, start: Store, s: State, namespace: string)
    requires Agree(jobs) && NamespaceInv(jobs, start, s, namespace) && Log(s, namespace) != []
    ensures RowsIncrease(Rows(s.store.ledger, namespace))
  {
    hide Versions, RanVersions;
    var rows := Rows(s.store.ledger, namespace);
    var r :| r in jobs && jobs[r].namespace == namespace && Prefix(jobs[r].migrations, rows);
    PrefixIncreases(jobs[r].migrations, rows);
  }
}
