/** The warehouse of consumers/warehouse: concurrent `reserve` calls, each a write transaction
    that locks the stock row, reads it, updates it and inserts a reservation. Every call runs
    on the transaction machine, so it may fail, be cancelled, lose its connection or its commit
    reply at any point. */
module Warehouse {
  import opened Common
  import opened Server
  import T = Transactions
  import RowLocks

  /** The lock `reserve` takes selects the stock row by its primary key. */
  lemma LockSelectsTheStockRow(sku: RowLocks.Value, postgres: bool)
    requires !sku.Null?
    ensures var lock := RowLocks.Build("warehouse_stock", [RowLocks.Call("sku", Some(sku))]);
      var r := RowLocks.Statement(lock, postgres);
      && r.Success? && r.value.values == [sku]
      && RowLocks.Read(r.value.sql) ==
           Some(RowLocks.Selector("warehouse_stock", [RowLocks.Selected("sku", 1)], 2, postgres))
  {
    hide RowLocks.Statement, RowLocks.Read;
    var calls := [RowLocks.Call("sku", Some(sku))];
    RowLocks.StatementMeaning("warehouse_stock", calls, postgres);
    assert RowLocks.CallFault(calls, 0).None?;
    assert RowLocks.Faultless(calls, 1);
    assert RowLocks.Identifier("warehouse_stock");
    RowLocks.StatementReadsBack("warehouse_stock", calls, postgres);
    var values := RowLocks.Statement(RowLocks.Build("warehouse_stock", calls), postgres).value.values;
    assert Some(values[0]) == calls[0].encoded;
    assert seq(|calls|, i requires 0 <= i < |calls| => RowLocks.Selected(calls[i].column, i + 1)) == [RowLocks.Selected("sku", 1)];
  }

  // ---------------------------------------------------------------- state

  datatype Reservation = Reservation(id: int, sku: string, quantity: int)

  /** The committed tables. */
  datatype Store = Store(stock: map<string, int>, reservations: seq<Reservation>)

  /** Lock, read, update and insert are statements 1 to 4 of a call. */
  const LOCK: StatementId := 1
  const READ: StatementId := 2
  const UPDATE: StatementId := 3
  const INSERT: StatementId := 4

  function Program(n: nat): seq<StatementId> {
    seq(n, i => i + 1)
  }

  /** One `reserve` call. `done` counts the statements the server executed; `seen` is what the
      read returned and `planned` the row version the update wrote; `applied` records that the
      commit reached the tables. */
  datatype Session = Session(
    request: Reservation,
    tx: T.Tx,
    done: nat,
    holds: bool,
    seen: int,
    planned: int,
    applied: bool)

  datatype State = State(store: Store, sessions: map<nat, Session>)

  datatype Event =
    | Open(i: nat, request: Reservation, backend: Backend)
    | Do(i: nat, event: T.Event)

  function InStock(store: Store, sku: string): int {
    if sku in store.stock then store.stock[sku] else 0
  }

  /** The row lock is granted to one transaction at a time. */
  predicate LockFree(st: State, i: nat, sku: string) {
    forall j :: j in st.sessions && j != i && st.sessions[j].holds ==> st.sessions[j].request.sku != sku
  }

  predicate Places(s: Session) {
    s.done >= INSERT && s.tx.conn.open
  }

  predicate NewId(store: Store, id: int) {
    forall k :: 0 <= k < |store.reservations| ==> store.reservations[k].id != id
  }

  /** The primary key of reservations, over committed and uncommitted rows. */
  predicate IdFree(st: State, i: nat, id: int) {
    && NewId(st.store, id)
    && (forall j :: j in st.sessions && j != i && Places(st.sessions[j]) ==> st.sessions[j].request.id != id)
  }

  /** The server executes statement `k` of the call in this move. */
  predicate Executes(tx: T.Tx, event: T.Event, k: StatementId) {
    && event == T.ServerMove(Finish)
    && tx.conn.live && tx.conn.open && !tx.conn.failed
    && tx.conn.inflight == Some(Execute([k]))
  }

  /** What the body of `reserve` and the database allow: statements in program order, the read
      only after the lock found its row, the update only with sufficient stock, the commit only
      after the insert; a lock or a key that is taken is not granted. */
  predicate Allowed(st: State, i: nat, event: T.Event)
    requires i in st.sessions
  {
    var s := st.sessions[i];
    && (event.Issue? ==>
          match event.op
          case Statement(k) =>
            && k == |s.tx.acked| + 1 && k <= INSERT
            && (k == READ ==> s.request.sku in st.store.stock)
            && (k == UPDATE ==> s.seen >= s.request.quantity)
          case CommitTx => |s.tx.acked| == INSERT
          case RollbackTx => true
          case _ => false)
    && (Executes(s.tx, event, LOCK) ==> LockFree(st, i, s.request.sku))
    && (Executes(s.tx, event, INSERT) ==> IdFree(st, i, s.request.id))
  }

  /** The server-side effect of executing a statement. */
  function Effect(st: State, s: Session, event: T.Event): Session {
    if Executes(s.tx, event, LOCK) then s.(done := LOCK, holds := true)
    else if Executes(s.tx, event, READ) then s.(done := READ, seen := InStock(st.store, s.request.sku))
    else if Executes(s.tx, event, UPDATE) then
      s.(done := UPDATE, planned := InStock(st.store, s.request.sku) - s.request.quantity)
    else if Executes(s.tx, event, INSERT) then s.(done := INSERT)
    else s
  }

  /** Move the transaction; its end at the server releases the row lock. */
  function Advance(st: State, s: Session, event: T.Event): Session {
    var tx := T.Step(s.tx, event);
    var effected := Effect(st, s, event);
    effected.(tx := tx, holds := effected.holds && tx.conn.open,
              applied := s.applied || tx.conn.published != [])
  }

  /** A commit that published writes both tables. */
  function Publish(store: Store, s: Session): Store {
    Store(store.stock[s.request.sku := s.planned], store.reservations + [s.request])
  }

  function Step(st: State, event: Event): State {
    match event
    case Open(i, request, backend) =>
      // A quantity that is not positive is refused before any transaction.
      if i in st.sessions || request.quantity <= 0 then st
      else st.(sessions := st.sessions[i := Session(request, T.Init(backend), 0, false, 0, 0, false)])
    case Do(i, e) =>
      if i !in st.sessions || !Allowed(st, i, e) then st
      else
        var s := st.sessions[i];
        var next := Advance(st, s, e);
        State(if next.applied && !s.applied then Publish(st.store, s) else st.store, st.sessions[i := next])
  }

  function Run(st: State, events: seq<Event>): State
    decreases |events|
  {
    if events == [] then st else Step(Run(st, events[..|events| - 1]), events[|events| - 1])
  }

  function Seeded(stock: map<string, int>): State {
    State(Store(stock, []), map[])
  }

  // ---------------------------------------------------------------- invariant

  function Reserved(reservations: seq<Reservation>, sku: string): int {
    if reservations == [] then 0
    else
      var last := reservations[|reservations| - 1];
      Reserved(reservations[..|reservations| - 1], sku) + if last.sku == sku then last.quantity else 0
  }

  predicate Conserved(seed: map<string, int>, store: Store) {
    && store.stock.Keys == seed.Keys
    && (forall sku :: sku in seed ==> store.stock[sku] >= 0)
    && (forall sku :: sku in seed ==> store.stock[sku] + Reserved(store.reservations, sku) == seed[sku])
  }

  predicate UniqueIds(reservations: seq<Reservation>) {
    forall i, j :: 0 <= i < j < |reservations| ==> reservations[i].id != reservations[j].id
  }

  /** The client runs the program in order. */
  predicate ClientInv(s: Session) {
    var tx := s.tx;
    && T.Inv(tx) && s.request.quantity > 0
    && |tx.acked| <= INSERT && tx.acked == Program(|tx.acked|)
    && (tx.run.Some? && tx.run.value.op.Borrows() ==> tx.run.value.op == T.Statement(|tx.acked| + 1) && |tx.acked| < INSERT)
    && (tx.run.Some? && tx.run.value.op.CommitTx? ==> |tx.acked| == INSERT || tx.aborted)
    && (tx.commitSent || tx.answer == Some(None) ==> |tx.acked| == INSERT)
    && (tx.conn.inflight.Some? && tx.conn.inflight.value.Execute? ==>
          tx.conn.inflight.value == Execute([|tx.acked| + 1]) && |tx.acked| < INSERT)
  }

  /** The server executed the running statement and the client has not read the answer. */
  predicate Executed(tx: T.Tx) {
    && tx.run.Some? && tx.run.value.op.Borrows() && tx.run.value.stage.Executing? && tx.run.value.sent
    && tx.conn.live && tx.conn.inflight.None? && tx.conn.reply == Some(Done)
  }

  /** The server is at least as far as the acknowledgements. */
  predicate ServerInv(s: Session) {
    var tx := s.tx;
    && s.done >= |tx.acked|
    && (Executed(tx) ==> s.done >= |tx.acked| + 1)
    && ((tx.run.Some? && tx.run.value.op.OpenTx?) || tx.conn.inflight == Some(Begin) ==> s.done == 0)
    && (tx.conn.open && s.done >= LOCK ==> s.holds)
    && (s.holds ==> tx.conn.open && s.done >= LOCK)
    && (s.applied <==> tx.conn.published != [])
  }

  /** What a call knows of the tables while it holds the row lock. */
  predicate KnowsStock(store: Store, s: Session) {
    && (s.done >= READ ==> s.request.sku in store.stock)
    && (s.holds && s.done >= READ ==> s.seen == InStock(store, s.request.sku))
    && (s.holds && s.done >= UPDATE ==>
          s.planned == InStock(store, s.request.sku) - s.request.quantity && s.planned >= 0)
    && (s.tx.run.Some? && s.tx.run.value.op == T.Statement(READ) ==> s.request.sku in store.stock)
    && (s.tx.conn.inflight == Some(Execute([READ])) ==> s.request.sku in store.stock)
    && (s.tx.run.Some? && s.tx.run.value.op == T.Statement(UPDATE) ==> s.seen >= s.request.quantity)
    && (s.tx.conn.inflight == Some(Execute([UPDATE])) ==> s.seen >= s.request.quantity)
  }

  predicate SessionInv(store: Store, s: Session) {
    ClientInv(s) && ServerInv(s) && KnowsStock(store, s)
  }

  /** Row locks exclude each other. */
  predicate Excluded(sessions: map<nat, Session>) {
    forall i, j :: i in sessions && j in sessions && i != j && sessions[i].holds && sessions[j].holds ==>
      sessions[i].request.sku != sessions[j].request.sku
  }

  /** The reservations about to be inserted have distinct ids, none of them taken. */
  predicate DistinctIds(st: State) {
    && UniqueIds(st.store.reservations)
    && (forall i :: i in st.sessions && Places(st.sessions[i]) ==> NewId(st.store, st.sessions[i].request.id))
    && (forall i, j :: i in st.sessions && j in st.sessions && i != j && Places(st.sessions[i]) && Places(st.sessions[j]) ==>
          st.sessions[i].request.id != st.sessions[j].request.id)
  }

  /** The reservations are exactly the requests of the calls whose commit was applied. */
  predicate Accounted(st: State) {
    && (forall i :: i in st.sessions && st.sessions[i].applied ==> st.sessions[i].request in st.store.reservations)
    && (forall r :: r in st.store.reservations ==> exists i :: i in st.sessions && st.sessions[i].applied && st.sessions[i].request == r)
  }

  function AppliedCalls(sessions: map<nat, Session>): set<nat> {
    set i | i in sessions && sessions[i].applied
  }

  /** No two calls whose commit was applied share an id, and there is one row for each. */
  predicate OncePerCall(st: State) {
    && (forall i, j :: i in st.sessions && j in st.sessions && i != j && st.sessions[i].applied && st.sessions[j].applied ==>
          st.sessions[i].request.id != st.sessions[j].request.id)
    && |st.store.reservations| == |AppliedCalls(st.sessions)|
  }

  predicate Inv(seed: map<string, int>, st: State) {
    && (forall i :: i in st.sessions ==> SessionInv(st.store, st.sessions[i]))
    && Excluded(st.sessions)
    && Conserved(seed, st.store)
    && DistinctIds(st)
    && Accounted(st)
    && OncePerCall(st)
  }

  // ---------------------------------------------------------------- one call

  lemma StartKeeps(st: State, i: nat, op: T.Operation)
    requires i in st.sessions && SessionInv(st.store, st.sessions[i]) && Allowed(st, i, T.Issue(op))
    ensures SessionInv(st.store, Advance(st, st.sessions[i], T.Issue(op)))
  {
    var tx := st.sessions[i].tx;
    if !tx.dropped && tx.run.None? && !op.OpenTx? { T.StartInv(tx, op); }
    hide T.Inv;
  }

  lemma DropKeeps(st: State, i: nat, event: T.Event)
    requires i in st.sessions && SessionInv(st.store, st.sessions[i]) && (event.Abandon? || event.Discard?)
    ensures SessionInv(st.store, Advance(st, st.sessions[i], event))
  {
    T.CancelInv(st.sessions[i].tx);
    hide T.Inv;
  }

  /** What the call needs to know of a poll. */
  predicate Polled(tx: T.Tx, next: T.Tx)
    requires tx.run.Some?
  {
    var r := tx.run.value;
    && T.Inv(next)
    && next.conn.open == tx.conn.open && next.conn.published == tx.conn.published
    && (next.run.Some? ==> next.run.value.op == r.op)
    && (Executed(next) ==> Executed(tx) && next.acked == tx.acked)
    && (next.acked != tx.acked ==> Executed(tx) && next.acked == tx.acked + r.op.Effects() && next.run.None? && next.conn == tx.conn)
    && (next.conn.inflight != tx.conn.inflight ==>
          && (next.conn.inflight == Some(Begin) ==> r.op.OpenTx?)
          && (next.conn.inflight.Some? && next.conn.inflight.value.Execute? ==>
                r.op.Borrows() && next.conn.inflight.value == Execute(r.op.Effects())))
    && ((next.commitSent && !tx.commitSent) || next.answer == Some(None) != tx.answer ==>
          r.op.CommitTx? && !tx.aborted && next.acked == tx.acked)
    && (tx.aborted && r.op.CommitTx? && next.run.Some? ==> next.aborted)
    && (tx.commitSent ==> next.commitSent)
  }

  lemma PollFacts(tx: T.Tx, choice: T.Choice)
    requires T.Inv(tx) && tx.run.Some?
    ensures Polled(tx, T.Poll(tx, choice).0)
  {
    var next := T.Poll(tx, choice).0;
    T.PollInv(tx, choice);
    T.PollSends(tx, choice);
    if next.acked != tx.acked { T.PollAcks(tx, choice); }
    if next.answer == Some(None) != tx.answer { T.PollAnswers(tx, choice); }
    assert T.Synchronised(tx, tx.run.value);
    hide T.Poll, T.Inv, T.Before, T.After;
  }

  lemma PollKeepsClient(st: State, i: nat, choice: T.Choice)
    requires i in st.sessions && SessionInv(st.store, st.sessions[i])
    ensures ClientInv(Advance(st, st.sessions[i], T.Continue(choice)))
  {
    var s := st.sessions[i];
    if s.tx.run.Some? {
      PollFacts(s.tx, choice);
      hide T.Inv, T.Poll;
    }
  }

  lemma PollKeepsServer(st: State, i: nat, choice: T.Choice)
    requires i in st.sessions && SessionInv(st.store, st.sessions[i])
    ensures ServerInv(Advance(st, st.sessions[i], T.Continue(choice)))
    ensures KnowsStock(st.store, Advance(st, st.sessions[i], T.Continue(choice)))
  {
    var s := st.sessions[i];
    if s.tx.run.Some? {
      PollFacts(s.tx, choice);
      hide T.Inv, T.Poll;
    }
  }

  /** What the call needs to know of a move of the server that publishes nothing new. */
  ghost predicate Served(tx: T.Tx, next: T.Tx, move: Move) {
    && T.Inv(next) && next == tx.(conn := next.conn)
    && (next.conn.inflight == tx.conn.inflight || next.conn.inflight.None?)
    && (next.conn.open ==> tx.conn.open || tx.conn.inflight == Some(Begin))
    && (Executed(next) ==> Executed(tx) || Executes(tx, T.ServerMove(move), |tx.acked| + 1))
    && (forall k :: Executes(tx, T.ServerMove(move), k) ==> next.conn.open)
  }

  lemma ServeFacts(s: Session, move: Move)
    requires ClientInv(s)
    ensures Served(s.tx, T.Serve(s.tx, move), move)
  {
    T.ServeInv(s.tx, move);
    ServedConnection(s.tx.conn, move);
    NewlyExecuted(s, move);
    hide T.Inv, Server.Serve, Executed, ClientInv;
  }

  /** What one move does to any connection. */
  lemma ServedConnection(c: Connection, move: Move)
    ensures var after := Server.Serve(c, move);
      && (after.inflight == c.inflight || after.inflight.None?)
      && (after.open ==> c.open || c.inflight == Some(Begin))
    ensures move.Finish? && c.live && c.open && c.inflight.Some? && c.inflight.value.Execute? && !c.failed ==>
      Server.Serve(c, move).open
  {
    hide CommitRefused;
  }

  lemma NewlyExecuted(s: Session, move: Move)
    requires ClientInv(s)
    ensures Executed(T.Serve(s.tx, move)) ==> Executed(s.tx) || Executes(s.tx, T.ServerMove(move), |s.tx.acked| + 1)
  {
    hide T.PublishesAll, T.AnswerTrue, T.After, CommitRefused;
  }

  lemma ServeKeepsClient(st: State, i: nat, move: Move)
    requires i in st.sessions && SessionInv(st.store, st.sessions[i])
    ensures ClientInv(Advance(st, st.sessions[i], T.ServerMove(move)))
  {
    ServeFacts(st.sessions[i], move);
    hide T.Inv, T.Serve;
  }

  lemma ServeKeepsServer(st: State, i: nat, move: Move)
    requires i in st.sessions && SessionInv(st.store, st.sessions[i])
    ensures ServerInv(Advance(st, st.sessions[i], T.ServerMove(move)))
  {
    var s := st.sessions[i];
    ServeFacts(s, move);
    if T.Serve(s.tx, move).conn.published != s.tx.conn.published { T.ServePublishes(s.tx, move); }
    hide T.Inv, T.Serve, T.Healthy, InStock, Program;
  }

  lemma ServeKeepsKnowledge(st: State, i: nat, move: Move)
    requires i in st.sessions && SessionInv(st.store, st.sessions[i])
    ensures KnowsStock(st.store, Advance(st, st.sessions[i], T.ServerMove(move)))
  {
    ServeFacts(st.sessions[i], move);
    hide T.Inv, T.Serve;
  }

  lemma AdvanceKeeps(st: State, i: nat, event: T.Event)
    requires i in st.sessions && SessionInv(st.store, st.sessions[i]) && Allowed(st, i, event)
    ensures SessionInv(st.store, Advance(st, st.sessions[i], event))
  {
    hide ClientInv, ServerInv, KnowsStock, Advance, Allowed;
    match event
    case Issue(op) => StartKeeps(st, i, op);
    case Continue(choice) =>
      PollKeepsClient(st, i, choice);
      PollKeepsServer(st, i, choice);
    case Abandon => DropKeeps(st, i, event);
    case Discard => DropKeeps(st, i, event);
    case ServerMove(move) =>
      ServeKeepsClient(st, i, move);
      ServeKeepsServer(st, i, move);
      ServeKeepsKnowledge(st, i, move);
  }

  // ---------------------------------------------------------------- all calls

  /** How one step of a call looks to the others. */
  predicate Visible(st: State, i: nat, s: Session, next: Session) {
    && next.request == s.request
    && (next.holds && !s.holds ==> LockFree(st, i, s.request.sku))
    && (Places(next) && !Places(s) ==> IdFree(st, i, s.request.id))
    && (s.applied ==> next.applied)
  }

  lemma StepOpens(s: Session, event: T.Event)
    requires ClientInv(s) && ServerInv(s) && T.Step(s.tx, event).conn.open && !s.tx.conn.open
    ensures s.done == 0
  {
    match event
    case Issue(op) =>
    case Continue(choice) => if s.tx.run.Some? { PollFacts(s.tx, choice); }
    case Abandon =>
    case Discard =>
    case ServerMove(move) => ServeFacts(s, move);
    hide T.Inv, T.Poll, T.Serve;
  }

  lemma AdvanceVisible(st: State, i: nat, event: T.Event)
    requires i in st.sessions && SessionInv(st.store, st.sessions[i]) && Allowed(st, i, event)
    ensures Visible(st, i, st.sessions[i], Advance(st, st.sessions[i], event))
  {
    var s := st.sessions[i];
    if T.Step(s.tx, event).conn.open && !s.tx.conn.open { StepOpens(s, event); }
    hide T.Inv, T.Step;
  }

  /** The step that applies a commit: the call held the row lock, knew the stock and had placed
      its reservation; afterwards its transaction is over. */
  lemma AdvancePublishes(st: State, i: nat, event: T.Event)
    requires i in st.sessions && SessionInv(st.store, st.sessions[i])
    requires Advance(st, st.sessions[i], event).applied && !st.sessions[i].applied
    ensures var s := st.sessions[i];
      && s.holds && Places(s) && s.request.sku in st.store.stock
      && s.planned == InStock(st.store, s.request.sku) - s.request.quantity && s.planned >= 0
      && !Advance(st, s, event).holds && !Places(Advance(st, s, event))
  {
    var s := st.sessions[i];
    match event
    case Issue(op) => assert false;
    case Continue(choice) =>
      if s.tx.run.Some? { PollFacts(s.tx, choice); }
      assert false;
    case Abandon => assert false;
    case Discard => assert false;
    case ServerMove(move) => T.ServePublishes(s.tx, move);
  }

  lemma {:induction false} ReservedExtends(reservations: seq<Reservation>, r: Reservation, sku: string)
    ensures Reserved(reservations + [r], sku) == Reserved(reservations, sku) + if r.sku == sku then r.quantity else 0
  {
    assert (reservations + [r])[..|reservations|] == reservations;
  }

  lemma {:induction false} PublishConserves(seed: map<string, int>, store: Store, s: Session)
    requires Conserved(seed, store) && s.request.sku in store.stock
    requires s.planned == InStock(store, s.request.sku) - s.request.quantity && s.planned >= 0
    ensures Conserved(seed, Publish(store, s))
  {
    forall sku | sku in seed
      ensures Publish(store, s).stock[sku] + Reserved(Publish(store, s).reservations, sku) == seed[sku]
    {
      ReservedExtends(store.reservations, s.request, sku);
    }
  }

  /** A call that does not hold the lock of the changed row loses no knowledge. */
  lemma PublishUnseen(store: Store, s: Session, other: Session)
    requires SessionInv(store, other) && s.request.sku in store.stock
    requires other.holds ==> other.request.sku != s.request.sku
    ensures SessionInv(Publish(store, s), other)
  {
    hide ClientInv, ServerInv;
  }

  lemma {:induction false} StepKeepsSessions(seed: map<string, int>, st: State, i: nat, event: T.Event)
    requires Inv(seed, st) && i in st.sessions && Allowed(st, i, event)
    ensures var after := Step(st, Do(i, event));
      forall j :: j in after.sessions ==> SessionInv(after.store, after.sessions[j])
  {
    hide SessionInv, Advance, Allowed, Conserved, DistinctIds, Accounted, OncePerCall, Publish;
    var s, next, after := st.sessions[i], Advance(st, st.sessions[i], event), Step(st, Do(i, event));
    AdvanceKeeps(st, i, event);
    if next.applied && !s.applied {
      AdvancePublishes(st, i, event);
      forall j | j in after.sessions ensures SessionInv(after.store, after.sessions[j]) {
        PublishUnseen(st.store, s, after.sessions[j]);
      }
    }
  }

  lemma {:induction false} StepKeepsTables(seed: map<string, int>, st: State, i: nat, event: T.Event)
    requires Inv(seed, st) && i in st.sessions && Allowed(st, i, event)
    ensures var after := Step(st, Do(i, event));
      Conserved(seed, after.store) && Excluded(after.sessions)
  {
    hide SessionInv, Advance, Allowed, Conserved, DistinctIds, Accounted, OncePerCall, Publish;
    var s, next := st.sessions[i], Advance(st, st.sessions[i], event);
    AdvanceVisible(st, i, event);
    if next.applied && !s.applied {
      AdvancePublishes(st, i, event);
      PublishConserves(seed, st.store, s);
    }
  }

  lemma {:induction false} StepKeepsIds(seed: map<string, int>, st: State, i: nat, event: T.Event)
    requires Inv(seed, st) && i in st.sessions && Allowed(st, i, event)
    ensures DistinctIds(Step(st, Do(i, event)))
  {
    hide SessionInv, Advance, Allowed, Conserved, Accounted, OncePerCall, Excluded, Places;
    var s, next := st.sessions[i], Advance(st, st.sessions[i], event);
    AdvanceVisible(st, i, event);
    if next.applied && !s.applied {
      AdvancePublishes(st, i, event);
    }
  }

  lemma {:induction false} StepKeepsAccount(seed: map<string, int>, st: State, i: nat, event: T.Event)
    requires Inv(seed, st) && i in st.sessions && Allowed(st, i, event)
    ensures Accounted(Step(st, Do(i, event)))
  {
    hide SessionInv, Advance, Allowed, Conserved, DistinctIds, OncePerCall, Excluded;
    var s, next, after := st.sessions[i], Advance(st, st.sessions[i], event), Step(st, Do(i, event));
    AdvanceVisible(st, i, event);
    forall r | r in after.store.reservations
      ensures exists j :: j in after.sessions && after.sessions[j].applied && after.sessions[j].request == r
    {
      if r in st.store.reservations {
        var j :| j in st.sessions && st.sessions[j].applied && st.sessions[j].request == r;
        assert j in after.sessions && after.sessions[j].applied && after.sessions[j].request == r;
      } else {
        assert after.sessions[i].applied && after.sessions[i].request == r;
      }
    }
  }

  lemma {:induction false} OneMoreApplied(sessions: map<nat, Session>, i: nat, next: Session)
    requires i in sessions && !sessions[i].applied && next.applied
    ensures |AppliedCalls(sessions[i := next])| == |AppliedCalls(sessions)| + 1
  {
    assert AppliedCalls(sessions[i := next]) == AppliedCalls(sessions) + {i};
  }

  lemma {:induction false} SameApplied(sessions: map<nat, Session>, i: nat, next: Session)
    requires next.applied == (i in sessions && sessions[i].applied)
    ensures AppliedCalls(sessions[i := next]) == AppliedCalls(sessions)
  {
  }

  /** The id of a call about to commit is not that of any applied call. */
  lemma PlacedIsNew(st: State, i: nat, j: nat)
    requires DistinctIds(st) && Accounted(st) && i in st.sessions && Places(st.sessions[i])
    requires j in st.sessions && st.sessions[j].applied
    ensures st.sessions[j].request.id != st.sessions[i].request.id
  {
    hide Places, UniqueIds;
    assert NewId(st.store, st.sessions[i].request.id);
    assert st.sessions[j].request in st.store.reservations;
  }

  lemma {:induction false} StepKeepsOnce(seed: map<string, int>, st: State, i: nat, event: T.Event)
    requires Inv(seed, st) && i in st.sessions && Allowed(st, i, event)
    ensures OncePerCall(Step(st, Do(i, event)))
  {
    hide SessionInv, Advance, Allowed, Conserved, Excluded, Places, DistinctIds, Accounted, AppliedCalls;
    var s, next := st.sessions[i], Advance(st, st.sessions[i], event);
    AdvanceVisible(st, i, event);
    if next.applied && !s.applied {
      AdvancePublishes(st, i, event);
      OneMoreApplied(st.sessions, i, next);
      forall j | j in st.sessions && st.sessions[j].applied ensures st.sessions[j].request.id != s.request.id {
        PlacedIsNew(st, i, j);
      }
    } else {
      SameApplied(st.sessions, i, next);
    }
  }

  lemma OpenSessions(st: State, i: nat, request: Reservation, backend: Backend)
    requires forall j :: j in st.sessions ==> SessionInv(st.store, st.sessions[j])
    ensures var after := Step(st, Open(i, request, backend));
      forall j :: j in after.sessions ==> SessionInv(after.store, after.sessions[j])
  {
    if request.quantity > 0 {
      var newcomer := Session(request, T.Init(backend), 0, false, 0, 0, false);
      assert SessionInv(st.store, newcomer) by { T.InitInv(backend); }
      hide SessionInv, T.Init;
    }
  }

  lemma OpenAccounts(st: State, i: nat, request: Reservation, backend: Backend)
    requires Accounted(st) && OncePerCall(st) && i !in st.sessions && request.quantity > 0
    ensures Accounted(Step(st, Open(i, request, backend))) && OncePerCall(Step(st, Open(i, request, backend)))
  {
    hide AppliedCalls, T.Init;
    var after := Step(st, Open(i, request, backend));
    SameApplied(st.sessions, i, after.sessions[i]);
    forall r | r in after.store.reservations
      ensures exists j :: j in after.sessions && after.sessions[j].applied && after.sessions[j].request == r
    {
      var j :| j in st.sessions && st.sessions[j].applied && st.sessions[j].request == r;
      assert j in after.sessions && after.sessions[j].applied && after.sessions[j].request == r;
    }
  }

  lemma {:induction false} OpenInv(seed: map<string, int>, st: State, i: nat, request: Reservation, backend: Backend)
    requires Inv(seed, st)
    ensures Inv(seed, Step(st, Open(i, request, backend)))
  {
    hide SessionInv, Conserved, UniqueIds, NewId, Accounted, OncePerCall;
    OpenSessions(st, i, request, backend);
    if i !in st.sessions && request.quantity > 0 { OpenAccounts(st, i, request, backend); }
  }

  lemma {:induction false} StepInv(seed: map<string, int>, st: State, event: Event)
    requires Inv(seed, st)
    ensures Inv(seed, Step(st, event))
  {
    match event
    case Open(i, request, backend) => OpenInv(seed, st, i, request, backend);
    case Do(i, e) =>
      if i in st.sessions && Allowed(st, i, e) {
        hide SessionInv, Advance, Allowed, Conserved, DistinctIds, Accounted, Excluded, OncePerCall;
        StepKeepsSessions(seed, st, i, e);
        StepKeepsOnce(seed, st, i, e);
        StepKeepsTables(seed, st, i, e);
        StepKeepsIds(seed, st, i, e);
        StepKeepsAccount(seed, st, i, e);
      }
  }

  lemma {:induction false} RunInv(seed: map<string, int>, st: State, events: seq<Event>)
    requires Inv(seed, st)
    ensures Inv(seed, Run(st, events))
    decreases |events|
  {
    hide Inv, Step;
    if events != [] {
      RunInv(seed, st, events[..|events| - 1]);
      StepInv(seed, Run(st, events[..|events| - 1]), events[|events| - 1]);
    }
  }

  // ---------------------------------------------------------------- theorems

  predicate Seed(stock: map<string, int>) {
    forall sku :: sku in stock ==> stock[sku] >= 0
  }

  /** Every row is a sale: of a positive quantity, of a stocked SKU. */
  predicate Sales(store: Store) {
    forall r :: r in store.reservations ==> r.quantity > 0 && r.sku in store.stock
  }

  lemma AppliedIsSale(store: Store, s: Session)
    requires SessionInv(store, s) && s.applied
    ensures s.request.quantity > 0 && s.request.sku in store.stock
  {
    hide T.Synchronised, T.AnswerTrue;
  }

  lemma {:induction false} RowsAreSales(seed: map<string, int>, st: State)
    requires Inv(seed, st)
    ensures Sales(st.store)
  {
    hide SessionInv, Excluded, Conserved, DistinctIds, OncePerCall;
    forall r | r in st.store.reservations ensures r.quantity > 0 && r.sku in st.store.stock {
      var i :| i in st.sessions && st.sessions[i].applied && st.sessions[i].request == r;
      AppliedIsSale(st.store, st.sessions[i]);
    }
  }

  /** Conservation. However many `reserve` calls run at once, fail, are cancelled, lose their
      connection or their commit reply, each SKU's stock and its reservations add up to what was
      seeded, the stock is never negative, no reservation id occurs twice, and every reservation
      is of a positive quantity and a seeded SKU. */
  lemma {:induction false} Conservation(stock: map<string, int>, events: seq<Event>)
    requires Seed(stock)
    ensures var store := Run(Seeded(stock), events).store;
      && store.stock.Keys == stock.Keys
      && (forall sku :: sku in stock ==> 0 <= store.stock[sku] && store.stock[sku] + Reserved(store.reservations, sku) == stock[sku])
      && UniqueIds(store.reservations) && Sales(store)
  {
    SeededInv(stock);
    RunInv(stock, Seeded(stock), events);
    RowsAreSales(stock, Run(Seeded(stock), events));
    hide Run, SessionInv, Excluded, Accounted, OncePerCall, Sales;
  }

  lemma {:induction false} SeededInv(stock: map<string, int>)
    requires Seed(stock)
    ensures Inv(stock, Seeded(stock))
  {
  }

  predicate DefiniteError(tx: T.Tx) {
    tx.answer.Some? && tx.answer.value.Some? && T.Definite(tx.conn.backend, tx.answer.value.value)
  }

  /** What the tables hold of call `i`: its row if its commit was applied. Without that, a row
      with its request is that of another call whose commit was applied. */
  predicate OwnRow(st: State, i: nat)
    requires i in st.sessions
  {
    var s := st.sessions[i];
    if s.applied then s.request in st.store.reservations
    else
      s.request in st.store.reservations ==>
        exists j :: j in st.sessions && j != i && st.sessions[j].applied && st.sessions[j].request == s.request
  }

  /** What a call tells its caller is true of its own row. Success means that its commit was
      applied and its reservation is in the table; a definite error, and any end before COMMIT was
      sent, means that it was not, so that such a row, if there is one, is that of another call
      whose commit was. There is one row for each applied call and no two of them share an id, so
      two calls that were told Ok have two rows. */
  lemma {:induction false} ReserveOutcome(stock: map<string, int>, events: seq<Event>, i: nat)
    requires Seed(stock) && i in Run(Seeded(stock), events).sessions
    ensures var st := Run(Seeded(stock), events);
      var s := st.sessions[i];
      && (s.tx.answer == Some(None) ==> s.applied)
      && (!s.tx.commitSent || DefiniteError(s.tx) ==> !s.applied)
      && OwnRow(st, i) && OncePerCall(st)
      && (forall j :: j in st.sessions && j != i && s.tx.answer == st.sessions[j].tx.answer == Some(None) ==>
            s.request.id != st.sessions[j].request.id)
  {
    hide Run, Inv, DefiniteError, OwnRow, OncePerCall;
    SeededInv(stock);
    RunInv(stock, Seeded(stock), events);
    Outcome(stock, Run(Seeded(stock), events), i);
  }

  lemma {:induction false} Outcome(seed: map<string, int>, st: State, i: nat)
    requires Inv(seed, st) && i in st.sessions
    ensures var s := st.sessions[i];
      && (s.tx.answer == Some(None) ==> s.applied)
      && (!s.tx.commitSent || DefiniteError(s.tx) ==> !s.applied)
      && OwnRow(st, i) && OncePerCall(st)
      && (forall j :: j in st.sessions && j != i && s.tx.answer == st.sessions[j].tx.answer == Some(None) ==>
            s.request.id != st.sessions[j].request.id)
  {
    hide SessionInv, Excluded, Conserved, DistinctIds, DefiniteError;
    forall j | j in st.sessions
      ensures st.sessions[j].tx.answer == Some(None) ==> st.sessions[j].applied
      ensures !st.sessions[j].tx.commitSent || DefiniteError(st.sessions[j].tx) ==> !st.sessions[j].applied
    {
      OutcomeOfSession(st.store, st.sessions[j]);
    }
  }

  lemma OutcomeOfSession(store: Store, s: Session)
    requires SessionInv(store, s)
    ensures s.tx.answer == Some(None) ==> s.applied
    ensures !s.tx.commitSent || DefiniteError(s.tx) ==> !s.applied
  {
    hide KnowsStock, T.Synchronised, T.RollbackCertain, CommitRefused;
  }
}
