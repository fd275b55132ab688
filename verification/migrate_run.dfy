/** The migration runner of src/migrate.rs at work: `apply` and `run` change the ledger in
    place, statement by statement, on the transaction of src/transaction.rs. The environment
    decides what the server does and when the future is polled, or that it is dropped. */
module MigrationRunner {
  import opened Common
  import opened Migrations
  import Server
  import T = Transactions
  import opened TransactionObjects

  type Ledger = map<string, seq<LedgerRow>>

  /** `SELECT ... WHERE namespace = $1 ORDER BY version`. */
  function Rows(ledger: Ledger, namespace: string): seq<LedgerRow> {
    if namespace in ledger then ledger[namespace] else []
  }

  function Position(rows: seq<LedgerRow>, version: int): (p: nat)
    ensures p <= |rows|
    ensures forall i :: 0 <= i < p ==> rows[i].version < version
    ensures p < |rows| ==> rows[p].version >= version
  {
    if rows == [] || rows[0].version >= version then 0 else 1 + Position(rows[1..], version)
  }

  /** `INSERT` under the primary key (namespace, version), rows kept in version order. */
  function Insert(rows: seq<LedgerRow>, row: LedgerRow): Option<seq<LedgerRow>> {
    var p := Position(rows, row.version);
    if p < |rows| && rows[p].version == row.version then None
    else Some(rows[..p] + [row] + rows[p..])
  }

  /** A row that continues a history goes to its end. */
  lemma InsertAppends(migrations: seq<Migration>, rows: seq<LedgerRow>, row: LedgerRow)
    requires Ordered(migrations) && Prefix(migrations, rows) && |rows| < |migrations|
    requires row.version == migrations[|rows|].version
    ensures Insert(rows, row) == Some(rows + [row])
  {
    var p := Position(rows, row.version);
    if p < |rows| {
      assert Matches(rows[p], migrations[p]);
      VersionsIncrease(migrations, p, |rows|);
      assert false;
    }
    assert rows[..p] + [row] + rows[p..] == rows + [row];
  }

  function Tagged(namespace: string, scripts: seq<Migration>): seq<(string, int)> {
    seq(|scripts|, i requires 0 <= i < |scripts| => (namespace, scripts[i].version))
  }

  lemma ExtendsBySnoc(migrations: seq<Migration>, rows: seq<LedgerRow>, row: LedgerRow)
    requires Prefix(migrations, rows) && |rows| < |migrations| && Matches(row, migrations[|rows|])
    ensures Prefix(migrations, rows + [row])
  {
  }

  lemma NoneDone(namespace: string, merged: seq<LedgerRow>, clock: Clock)
    ensures Final(Plan(merged, []), clock) == merged && Tagged(namespace, []) == []
  {
  }

  /** One more script done: the ledger, the log and the remaining work move together. */
  lemma OneMoreDone(m: Migrator, merged: seq<LedgerRow>, done: seq<Migration>, index: nat, clock: Clock)
    requires index < |m.migrations| && m.migrations[index].version <= m.target
    ensures var migration := m.migrations[index];
      && Final(Plan(merged, done + [migration]), clock) ==
           Final(Plan(merged, done), clock) + [NewRow(migration, clock(migration.version))]
      && Tagged(m.namespace, done + [migration]) ==
           Tagged(m.namespace, done) + [(m.namespace, migration.version)]
      && done + Pending(m, index) == (done + [migration]) + Pending(m, index + 1)
  {
  }

  // ---------------------------------------------------------------- statements and effects

  /** The tables: every namespace's ledger, and which scripts ran. */
  datatype Store = Store(ledger: Ledger, executed: seq<(string, int)>)

  datatype Effect =
    | Nothing
    | AddRow(namespace: string, row: LedgerRow)
    | Script(namespace: string, version: int)

  function Perform(store: Store, effect: Effect): Store {
    match effect
    case Nothing => store
    case AddRow(namespace, row) =>
      var inserted := Insert(Rows(store.ledger, namespace), row);
      if inserted.None? then store else store.(ledger := store.ledger[namespace := inserted.value])
    case Script(namespace, version) => store.(executed := store.executed + [(namespace, version)])
  }

  /** The statements with the given numbers, in order; `log` says what each of them does. */
  function PerformAll(store: Store, log: seq<Effect>, ids: seq<Server.StatementId>): Store {
    if ids == [] then store
    else
      var before, id := PerformAll(store, log, ids[..|ids| - 1]), ids[|ids| - 1];
      if id < |log| then Perform(before, log[id]) else before
  }

  predicate Numbered(log: seq<Effect>, ids: seq<Server.StatementId>) {
    forall i :: 0 <= i < |ids| ==> ids[i] < |log|
  }

  lemma {:induction false} LaterStatementsDoNotMatter(store: Store, log: seq<Effect>, effect: Effect,
                                                      ids: seq<Server.StatementId>)
    requires Numbered(log, ids)
    ensures PerformAll(store, log + [effect], ids) == PerformAll(store, log, ids)
    decreases |ids|
  {
    if ids != [] { LaterStatementsDoNotMatter(store, log, effect, ids[..|ids| - 1]); }
  }

  lemma OneMoreStatement(store: Store, log: seq<Effect>, effect: Effect, ids: seq<Server.StatementId>)
    requires Numbered(log, ids)
    ensures PerformAll(store, log + [effect], ids + [|log|]) == Perform(PerformAll(store, log, ids), effect)
  {
    LaterStatementsDoNotMatter(store, log, effect, ids);
    assert (ids + [|log|])[..|ids|] == ids;
  }

  // ---------------------------------------------------------------- session

  /** What the environment does next. */
  datatype Turn = Move(move: Server.Move) | Poll(choice: T.Choice)

  /** Why a run ended early. */
  datatype Stop = Refused(reason: Error) | Broke(error: T.Error) | Dropped

  /** What a call that owns or consumes the transaction leaves. */
  ghost predicate Concluded(op: T.Operation, result: T.PollResult, tx: T.Tx) {
    && (result.Ready? && op.OpenTx? ==> (tx.dropped <==> result.error.Some?) && !tx.commitSent)
    && (result.Ready? && op.CommitTx? ==> tx.answer == Some(result.error))
    && (!op.CommitTx? ==> !tx.commitSent)
  }

  lemma OwnedPollConcludes(tx: T.Tx, choice: T.Choice)
    requires T.Inv(tx) && tx.run.Some? && !tx.run.value.op.Borrows()
    ensures var op, (next, result) := tx.run.value.op, T.Poll(tx, choice);
      && next.acked == tx.acked && (result.Ready? <==> next.run.None?)
      && (next.run.Some? ==> next.run.value.op == op)
      && Concluded(op, result, next)
  {
    T.PollKeepsOwned(tx, choice);
    T.PollInv(tx, choice);
    if T.Poll(tx, choice).0.acked != tx.acked { T.PollAcks(tx, choice); }
    hide T.Poll, T.Synchronised, T.AnswerTrue;
  }

  lemma NothingSent(tx: T.Tx)
    requires T.Inv(tx)
    ensures tx.run.Some? && !tx.run.value.op.CommitTx? ==> !tx.commitSent && !tx.dropped
    ensures !tx.commitSent ==> tx.conn.published == []
    ensures tx.conn.published == [] || tx.conn.published == tx.acked
    ensures tx.answer == Some(None) ==> tx.conn.published == tx.acked
    ensures tx.answer.Some? && tx.answer.value.Some? && T.Definite(tx.conn.backend, tx.answer.value.value) ==>
      tx.conn.published == []
  {
    hide T.Synchronised, T.Definite;
  }

  /** One run of the migrator on its own transaction. `store` is what the transaction sees:
      where it began, and then everything acknowledged. */
  class Session {
    const tx: Transaction
    const base: Store
    const backend: Server.Backend
    var store: Store
    var log: seq<Effect>
    var turns: seq<Turn>

    ghost predicate Consistent()
      reads this, tx
    {
      && tx.Valid() && tx.running.None? && tx.connection.backend == backend
      && Numbered(log, tx.acked) && store == PerformAll(base, log, tx.acked)
    }

    /** The transaction is at hand and COMMIT has not been sent. */
    ghost predicate Valid()
      reads this, tx
    {
      Consistent() && !tx.dropped && !tx.commitSent
    }

    constructor (store: Store, backend: Server.Backend, turns: seq<Turn>)
      ensures fresh(tx) && tx.Valid() && tx.State() == T.Init(backend)
      ensures base == store && this.store == store && log == [] && this.backend == backend
    {
      tx := new Transaction(backend);
      base, this.backend := store, backend;
      this.store, log, this.turns := store, [], turns;
    }

    /** Poll a call that owns or consumes the transaction until it is ready, or drop it. */
    method Drive() returns (result: T.PollResult)
      requires tx.Valid() && tx.running.Some? && !tx.running.value.op.Borrows()
      modifies this`turns, tx
      ensures tx.Valid() && tx.running.None? && tx.acked == old(tx.acked)
      ensures tx.connection.backend == old(tx.connection.backend)
      ensures Concluded(old(tx.running.value.op), result, tx.State())
      ensures !result.Ready? ==> tx.dropped && turns == []
    {
      hide T.Inv;
      ghost var op := tx.running.value.op;
      result := T.Pending;
      while !result.Ready? && turns != []
        invariant tx.Valid() && tx.acked == old(tx.acked) && tx.connection.backend == old(tx.connection.backend)
        invariant result.Ready? <==> tx.running.None?
        invariant tx.running.Some? ==> tx.running.value.op == op
        invariant result.Ready? ==> Concluded(op, result, tx.State())
        decreases |turns|
      {
        var turn := turns[0];
        turns := turns[1..];
        if turn.Move? {
          tx.Serve(turn.move);
        } else {
          OwnedPollConcludes(tx.State(), turn.choice);
          result := tx.Continue(turn.choice);
        }
      }
      if !result.Ready? {
        NothingSent(tx.State());
        tx.Abandon();
      }
    }

    method Begin() returns (stop: Option<Stop>)
      requires tx.Valid() && tx.running == Some(T.Running(T.OpenTx, T.Controlling(Server.Begin), false))
      requires tx.acked == [] && log == [] && store == base && tx.connection.backend == backend
      modifies this`turns, tx
      ensures stop == Some(Dropped) ==> turns == []
      ensures stop.None? ==> Valid()
      ensures stop.Some? ==> Consistent() && !tx.commitSent && !stop.value.Refused?
    {
      hide T.Inv;
      var result := Drive();
      if !result.Ready? {
        return Some(Dropped);
      }
      if result.error.Some? {
        return Some(Broke(result.error.value));
      }
      return None;
    }

    /** One statement, or one batch of raw SQL, with its effect on the tables. */
    method Execute(effect: Effect, batch: bool) returns (stop: Option<Stop>)
      requires Valid()
      modifies this`store, this`log, this`turns, tx
      ensures stop == Some(Dropped) ==> turns == []
      ensures Valid()
      ensures stop.None? ==> store == Perform(old(store), effect)
      ensures stop.Some? ==> store == old(store) && !stop.value.Refused?
    {
      hide T.Inv, T.Mirrored, T.RollbackOnly, Perform, PerformAll;
      LaterStatementsDoNotMatter(base, log, effect, tx.acked);
      OneMoreStatement(base, log, effect, tx.acked);
      var id := |log|;
      log := log + [effect];
      var op := if batch then T.Batch([id]) else T.Statement(id);
      var result := tx.Issue(op);
      while !result.Ready? && turns != []
        invariant tx.Valid() && !tx.dropped && !tx.commitSent && tx.connection.backend == backend
        invariant log == old(log) + [effect] && store == old(store)
        invariant result.Ready? <==> tx.running.None?
        invariant tx.running.Some? ==> tx.running.value.op == op
        invariant tx.acked == if result == T.Ready(None) then old(tx.acked) + [id] else old(tx.acked)
        decreases |turns|
      {
        var turn := turns[0];
        turns := turns[1..];
        if turn.Move? {
          tx.Serve(turn.move);
        } else {
          T.PollKeepsBorrow(tx.State(), turn.choice);
          T.PollSettles(tx.State(), turn.choice);
          result := tx.Continue(turn.choice);
        }
      }
      if !result.Ready? {
        tx.Abandon();
        return Some(Dropped);
      }
      if result.error.Some? {
        return Some(Broke(result.error.value));
      }
      store := Perform(store, effect);
      return None;
    }

    method InsertRow(namespace: string, row: LedgerRow) returns (stop: Option<Stop>)
      requires Valid() && Insert(Rows(store.ledger, namespace), row).Some?
      modifies this`store, this`log, this`turns, tx
      ensures stop == Some(Dropped) ==> turns == []
      ensures Valid()
      ensures stop.None? ==>
        && Rows(store.ledger, namespace) == Insert(old(Rows(store.ledger, namespace)), row).value
        && store.executed == old(store.executed)
      ensures stop.Some? ==> store == old(store) && !stop.value.Refused?
      ensures forall n :: n != namespace ==> Rows(store.ledger, n) == old(Rows(store.ledger, n))
    {
      hide Insert, Consistent;
      stop := Execute(AddRow(namespace, row), false);
    }

    method RunScript(namespace: string, migration: Migration) returns (stop: Option<Stop>)
      requires Valid()
      modifies this`store, this`log, this`turns, tx
      ensures stop == Some(Dropped) ==> turns == []
      ensures Valid() && store.ledger == old(store.ledger)
      ensures stop.None? ==> store.executed == old(store.executed) + [(namespace, migration.version)]
      ensures stop.Some? ==> store == old(store) && !stop.value.Refused?
    {
      hide Consistent;
      stop := Execute(Script(namespace, migration.version), true);
    }

    /** A statement that only reads or locks. */
    method Ask(batch: bool) returns (stop: Option<Stop>)
      requires Valid()
      modifies this`store, this`log, this`turns, tx
      ensures stop == Some(Dropped) ==> turns == []
      ensures Valid() && store == old(store) && (stop.Some? ==> !stop.value.Refused?)
    {
      hide Consistent;
      stop := Execute(Nothing, batch);
    }

    /** The loop that copies the legacy rows the canonical ledger does not have. */
    method AdoptLegacy(m: Migrator, canonical: seq<LedgerRow>, source: seq<LedgerRow>)
      returns (rows: seq<LedgerRow>, stop: Option<Stop>)
      requires Valid() && Migrations.Valid(m) && Rows(store.ledger, m.namespace) == canonical
      requires Validate(m, canonical).None? && Validate(m, source).None?
      modifies this`store, this`log, this`turns, tx
      ensures stop == Some(Dropped) ==> turns == []
      ensures Valid() && store.executed == old(store.executed)
      ensures stop.None? ==> Adopt(canonical, source) == Success(rows) && Rows(store.ledger, m.namespace) == rows
      ensures stop.Some? && stop.value.Refused? ==> Adopt(canonical, source) == Failure(stop.value.reason)
      ensures forall n :: n != m.namespace ==> Rows(store.ledger, n) == old(Rows(store.ledger, n))
    {
      hide Consistent, Insert;
      ValidateMeaning(m, canonical);
      ValidateMeaning(m, source);
      rows, stop := canonical, None;
      for index := 0 to |source|
        invariant Valid() && store.executed == old(store.executed)
        invariant Rows(store.ledger, m.namespace) == rows
        invariant AdoptFrom(canonical, source, 0) == AdoptFrom(rows, source, index)
        invariant index <= |rows| && Prefix(m.migrations, rows)
        invariant forall n :: n != m.namespace ==> Rows(store.ledger, n) == old(Rows(store.ledger, n))
      {
        var row := source[index];
        if index < |rows| {
          if row != rows[index] {
            return rows, Some(Refused(LegacyConflict(row.version)));
          }
        } else {
          assert Matches(row, m.migrations[index]);
          InsertAppends(m.migrations, rows, row);
          stop := InsertRow(m.namespace, row);
          if stop.Some? {
            return;
          }
          ExtendsBySnoc(m.migrations, rows, row);
          rows := rows + [row];
        }
      }
      stop := None;
    }

    /** Run one script and write its ledger row. */
    method RunAndRecord(m: Migrator, migration: Migration, index: nat, clock: Clock) returns (stop: Option<Stop>)
      requires Valid() && Ordered(m.migrations) && Prefix(m.migrations, Rows(store.ledger, m.namespace))
      requires |Rows(store.ledger, m.namespace)| == index < |m.migrations| && m.migrations[index] == migration
      requires Ticks(clock, m.migrations)
      modifies this`store, this`log, this`turns, tx
      ensures stop == Some(Dropped) ==> turns == []
      ensures Valid()
      ensures stop.None? ==>
        && Rows(store.ledger, m.namespace) ==
             old(Rows(store.ledger, m.namespace)) + [NewRow(migration, clock(migration.version))]
        && store.executed == old(store.executed) + [(m.namespace, migration.version)]
        && Prefix(m.migrations, Rows(store.ledger, m.namespace))
      ensures stop.Some? ==> !stop.value.Refused?
      ensures forall n :: n != m.namespace ==> Rows(store.ledger, n) == old(Rows(store.ledger, n))
    {
      hide Consistent, Insert;
      var row := NewRow(migration, clock(migration.version));
      InsertAppends(m.migrations, Rows(store.ledger, m.namespace), row);
      ExtendsBySnoc(m.migrations, Rows(store.ledger, m.namespace), row);
      stop := RunScript(m.namespace, migration);
      if stop.None? {
        stop := InsertRow(m.namespace, row);
      }
    }

    /** The advisory locks of PostgreSQL, the ledger table and the ledger query. */
    method Prepare(postgres: bool) returns (stop: Option<Stop>)
      requires Valid()
      modifies this`store, this`log, this`turns, tx
      ensures stop == Some(Dropped) ==> turns == []
      ensures Valid() && store == old(store) && (stop.Some? ==> !stop.value.Refused?)
    {
      if postgres {
        stop := Ask(false);
        if stop.Some? { return; }
        stop := Ask(false);
        if stop.Some? { return; }
      }
      stop := Ask(true);
      if stop.Some? { return; }
      stop := Ask(false);
    }

    /** The loop over `skip(rows.len()).take_while(version <= target)`. */
    method RunPending(m: Migrator, merged: seq<LedgerRow>, clock: Clock) returns (stop: Option<Stop>)
      requires Valid() && Migrations.Valid(m) && Ticks(clock, m.migrations)
      requires Rows(store.ledger, m.namespace) == merged && Prefix(m.migrations, merged)
      modifies this`store, this`log, this`turns, tx
      ensures stop == Some(Dropped) ==> turns == []
      ensures Valid()
      ensures stop.None? ==>
        && Rows(store.ledger, m.namespace) == Final(Plan(merged, Pending(m, |merged|)), clock)
        && store.executed == old(store.executed) + Tagged(m.namespace, Pending(m, |merged|))
      ensures stop.Some? ==> !stop.value.Refused?
      ensures forall n :: n != m.namespace ==> Rows(store.ledger, n) == old(Rows(store.ledger, n))
    {
      hide Final, Tagged, NewRow, Consistent;
      NoneDone(m.namespace, merged, clock);
      var index := |merged|;
      ghost var done: seq<Migration> := [];
      while index < |m.migrations| && m.migrations[index].version <= m.target
        invariant Valid() && |merged| <= index <= |m.migrations|
        invariant Pending(m, |merged|) == done + Pending(m, index)
        invariant Rows(store.ledger, m.namespace) == Final(Plan(merged, done), clock)
        invariant |Rows(store.ledger, m.namespace)| == index && Prefix(m.migrations, Rows(store.ledger, m.namespace))
        invariant store.executed == old(store.executed) + Tagged(m.namespace, done)
        invariant forall n :: n != m.namespace ==> Rows(store.ledger, n) == old(Rows(store.ledger, n))
      {
        var migration := m.migrations[index];
        OneMoreDone(m, merged, done, index, clock);
        stop := RunAndRecord(m, migration, index, clock);
        if stop.Some? {
          return;
        }
        done := done + [migration];
        index := index + 1;
      }
      assert done + [] == done;
      return None;
    }

    /** Validation of the ledger and, where asked for, adoption of the legacy one. */
    method MergeHistories(m: Migrator, legacy: Option<seq<LedgerRow>>)
      returns (rows: seq<LedgerRow>, stop: Option<Stop>)
      requires Valid() && Migrations.Valid(m)
      modifies this`store, this`log, this`turns, tx
      ensures stop == Some(Dropped) ==> turns == []
      ensures Valid() && store.executed == old(store.executed)
      ensures var merged := Merge(m, old(Rows(store.ledger, m.namespace)), legacy);
        && (stop.None? ==> merged == Success(rows) && Rows(store.ledger, m.namespace) == rows)
        && (stop.Some? && stop.value.Refused? ==> merged == Failure(stop.value.reason))
      ensures forall n :: n != m.namespace ==> Rows(store.ledger, n) == old(Rows(store.ledger, n))
    {
      hide Validate, Adopt, Consistent;
      stop := None;
      rows := Rows(store.ledger, m.namespace);
      var fault := ValidateRows(m, rows);
      if fault.Some? { return rows, Some(Refused(fault.value)); }
      if !m.legacy { return; }
      stop := Ask(false);
      if stop.Some? || legacy.None? { return; }
      stop := Ask(false);
      if stop.Some? { return; }
      fault := ValidateRows(m, legacy.value);
      if fault.Some? { return rows, Some(Refused(fault.value)); }
      rows, stop := AdoptLegacy(m, rows, legacy.value);
    }

    /** `apply`: locks, ledger read, validation, adoption, minimum check, pending scripts. */
    method Apply(m: Migrator, postgres: bool, legacy: Option<seq<LedgerRow>>, clock: Clock)
      returns (stop: Option<Stop>)
      requires Valid() && Migrations.Valid(m) && Ticks(clock, m.migrations)
      modifies this`store, this`log, this`turns, tx
      ensures stop == Some(Dropped) ==> turns == []
      ensures Valid()
      ensures stop.None? ==> Planned(m, legacy, clock, old(store), store) && MakePlan(m, old(Rows(store.ledger, m.namespace)), legacy).Success?
      ensures stop.Some? && stop.value.Refused? ==>
        MakePlan(m, old(Rows(store.ledger, m.namespace)), legacy) == Failure(stop.value.reason)
      ensures forall n :: n != m.namespace ==> Rows(store.ledger, n) == old(Rows(store.ledger, n))
    {
      hide Final, Tagged, Merge, Pending, Consistent;
      stop := Prepare(postgres);
      if stop.Some? { return; }
      var rows;
      rows, stop := MergeHistories(m, legacy);
      if stop.Some? { return; }
      MergeIsHistory(m, old(Rows(store.ledger, m.namespace)), legacy);
      var applied := if rows == [] then 0 else rows[|rows| - 1].version;
      if applied > 0 && applied < m.minimum {
        return Some(Refused(TooOld(applied, m.minimum)));
      }
      stop := RunPending(m, rows, clock);
    }

    /** `commit`, or the `rollback` whose own result is ignored. */
    method Finish(op: T.Operation) returns (result: T.PollResult)
      requires Valid() && (op.CommitTx? || op.RollbackTx?)
      modifies this`turns, tx
      ensures Consistent() && Concluded(op, result, tx.State())
      ensures !result.Ready? ==> turns == []
    {
      hide T.Inv, T.Mirrored, Concluded, PerformAll;
      var started := tx.Issue(op);
      result := Drive();
    }

    /** The connection goes on without the client: the server finishes what it was sent. */
    method Settle()
      requires Consistent()
      modifies this`turns, tx
      ensures Consistent() && store == old(store) && log == old(log)
      ensures tx.acked == old(tx.acked) && tx.commitSent == old(tx.commitSent) && tx.answer == old(tx.answer)
    {
      hide T.Inv, PerformAll;
      var closed := tx.Discard();
      while turns != []
        invariant Consistent()
        invariant tx.acked == old(tx.acked) && tx.commitSent == old(tx.commitSent) && tx.answer == old(tx.answer)
        decreases |turns|
      {
        var turn := turns[0];
        turns := turns[1..];
        if turn.Move? {
          tx.Serve(turn.move);
        }
      }
    }
  }

  /** The tables hold what the plan asks for. */
  predicate Planned(m: Migrator, legacy: Option<seq<LedgerRow>>, clock: Clock, before: Store, after: Store) {
    var plan := MakePlan(m, Rows(before.ledger, m.namespace), legacy);
    && plan.Success?
    && Rows(after.ledger, m.namespace) == Final(plan.value, clock)
    && after.executed == before.executed + Tagged(m.namespace, plan.value.scripts)
  }

  /** What one run of a migrator does to the committed tables: what the plan asks for, or nothing,
      and nothing to other namespaces. */
  ghost predicate Migrates(m: Migrator, legacy: Option<seq<LedgerRow>>, clock: Clock, before: Store, after: Store) {
    && (after == before || Planned(m, legacy, clock, before, after))
    && forall n :: n != m.namespace ==> Rows(after.ledger, n) == Rows(before.ledger, n)
  }

  datatype Outcome =
    | Migrated
    | PlanRefused(reason: Error)
    | DatabaseFailed(error: T.Error)
    | Cancelled

  /** The committed database. */
  class Database {
    var store: Store

    /** `run`: one transaction around `apply`. What is committed is what the transaction
        published, and that is everything the plan asks for or nothing. Success means everything;
        a refused plan, a definite error and a COMMIT that was never sent mean nothing. Only a
        future that is never polled again ends without an answer, and a plan that cannot be made
        is refused, unless the database failed first. */
    method RunMigrator(m: Migrator, backend: Server.Backend, legacy: Option<seq<LedgerRow>>, clock: Clock,
                       turns: seq<Turn>)
      returns (outcome: Outcome, ghost commitSent: bool, ghost exhausted: bool)
      requires Migrations.Valid(m) && Ticks(clock, m.migrations)
      modifies this
      ensures Migrates(m, legacy, clock, old(store), store)
      ensures outcome.Migrated? ==> Planned(m, legacy, clock, old(store), store)
      ensures outcome.PlanRefused? ==>
        && store == old(store)
        && MakePlan(m, old(Rows(store.ledger, m.namespace)), legacy) == Failure(outcome.reason)
      ensures outcome.DatabaseFailed? && T.Definite(backend, outcome.error) ==> store == old(store)
      ensures !commitSent ==> store == old(store)
      ensures outcome.Cancelled? ==> exhausted
      ensures MakePlan(m, old(Rows(store.ledger, m.namespace)), legacy).Failure? ==> !outcome.Migrated? && !commitSent
    {
      hide Planned, MakePlan, T.Inv, T.Definite;
      var session := new Session(store, backend, turns);
      var stop := session.Begin();
      outcome := Cancelled;
      if stop.None? {
        stop := session.Apply(m, backend.Postgres?, legacy, clock);
        if stop.None? {
          var result := session.Finish(T.CommitTx);
          if result.Ready? {
            outcome := if result.error.None? then Migrated else DatabaseFailed(result.error.value);
          }
        } else if !stop.value.Dropped? {
          var undone := session.Finish(T.RollbackTx);
          if undone.Ready? {
            outcome := if stop.value.Refused? then PlanRefused(stop.value.reason) else DatabaseFailed(stop.value.error);
          }
        }
      } else if stop.value.Broke? {
        outcome := DatabaseFailed(stop.value.error);
      }
      exhausted := session.turns == [];
      session.Settle();
      commitSent := session.tx.commitSent;
      NothingSent(session.tx.State());
      store := PerformAll(store, session.log, session.tx.connection.published);
    }
  }
}
