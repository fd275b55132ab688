/** A run in which a reservation succeeds, for every request the stock allows: the guards of the
    warehouse machine do not make its theorems vacuous. The hops of one call are stated so that
    they serve the bare transaction and the write scope alike. */
module WarehouseWitnesses {
  import opened Common
  import opened Server
  import opened Warehouse
  import T = Transactions

  const EASY := T.Choice(true, true, T.Accept)

  // ---------------------------------------------------------------- the life of a call

  /** One session in the given state. */
  function Only(store: Store, s: Session): State {
    State(store, map[0 := s])
  }

  function Conn(n: nat): Connection {
    Fresh(Sqlite).(open := true, pending := Program(n), reply := Some(Done))
  }

  /** The call after `n` acknowledged statements. */
  function Between(request: Reservation, available: int, n: nat): Session {
    Session(request, T.Tx(Conn(n), false, false, false, None, Program(n), Program(n), false, None), n, n >= LOCK,
            if n >= READ then available else 0, if n >= UPDATE then available - request.quantity else 0, false)
  }

  /** The call suspended at a stage of statement `n + 1`, before the command goes out. */
  function During(request: Reservation, available: int, n: nat, stage: T.Stage): Session {
    Between(request, available, n).(
      tx := T.Tx(Conn(n), true, false, false, Some(T.Running(T.Statement(n + 1), stage, false)),
                 Program(n), Program(n), false, None))
  }

  /** The same with its preparation, or its execution, on the wire. */
  function PrepareSent(request: Reservation, available: int, n: nat): Session {
    var s := During(request, available, n, T.Preparing(true));
    s.(tx := s.tx.(conn := Conn(n).(inflight := Some(Prepare), reply := None),
                   run := Some(T.Running(T.Statement(n + 1), T.Preparing(true), true))))
  }

  function PrepareDone(request: Reservation, available: int, n: nat): Session {
    var s := PrepareSent(request, available, n);
    s.(tx := s.tx.(conn := Conn(n)))
  }

  function ExecuteSent(request: Reservation, available: int, n: nat): Session {
    var s := During(request, available, n, T.Executing);
    s.(tx := s.tx.(conn := Conn(n).(inflight := Some(Execute([n + 1])), reply := None), begun := Program(n + 1),
                   run := Some(T.Running(T.Statement(n + 1), T.Executing, true))))
  }

  /** The server executed statement `n + 1` and the client has not read the answer. */
  function ExecuteDone(request: Reservation, available: int, n: nat): Session {
    Between(request, available, n + 1).(
      tx := ExecuteSent(request, available, n).tx.(conn := Conn(n + 1)))
  }

  function BeginStage(request: Reservation, conn: Connection): Session {
    Session(request, T.Init(Sqlite).(conn := conn, run := Some(T.Running(T.OpenTx, T.Controlling(Begin), true))),
            0, false, 0, 0, false)
  }

  function Committing(request: Reservation, available: int, stage: T.Stage): Session {
    var s := Between(request, available, INSERT);
    s.(tx := s.tx.(run := Some(T.Running(T.CommitTx, stage, false))))
  }

  function CommitOnTheWire(request: Reservation, available: int): Session {
    var s := Between(request, available, INSERT);
    s.(tx := s.tx.(conn := Conn(INSERT).(inflight := Some(Commit), reply := None), commitSent := true,
                   run := Some(T.Running(T.CommitTx, T.Controlling(Commit), true))))
  }

  /** The commit was applied, and the client has not read the answer. */
  function CommitApplied(request: Reservation, available: int): Session {
    var s := CommitOnTheWire(request, available);
    s.(tx := s.tx.(conn := Fresh(Sqlite).(published := Program(INSERT), reply := Some(Done))), holds := false, applied := true)
  }

  function CommitAnswered(request: Reservation, available: int): Session {
    var s := CommitApplied(request, available);
    s.(tx := s.tx.(run := None, finished := true, dropped := true, answer := Some(None)))
  }

  // ---------------------------------------------------------------- hops

  /** The event is allowed and leads to the next state without publishing. */
  predicate Goes(store: Store, s: Session, event: T.Event, next: Session) {
    && Allowed(Only(store, s), 0, event) && Advance(Only(store, s), s, event) == next && next.applied == s.applied
  }

  predicate Polls(store: Store, s: Session, next: Session, result: T.PollResult) {
    Goes(store, s, T.Continue(EASY), next) && s.tx.run.Some? && T.Poll(s.tx, EASY) == (next.tx, result)
  }

  predicate Serves(store: Store, s: Session, next: Session) {
    Goes(store, s, T.ServerMove(Finish), next) && T.Serve(s.tx, Finish) == next.tx
  }

  predicate Starts(store: Store, s: Session, op: T.Operation, next: Session) {
    && Goes(store, s, T.Issue(op), next) && s.tx.run.None? && !s.tx.dropped
    && T.Start(s.tx, op) == (next.tx, T.Pending)
  }

  predicate Suffices(store: Store, request: Reservation) {
    request.sku in store.stock && 0 < request.quantity <= store.stock[request.sku]
  }

  lemma BeginHops(store: Store, request: Reservation, available: int)
    ensures var s := Session(request, T.Init(Sqlite), 0, false, 0, 0, false);
      && Polls(store, s, BeginStage(request, Fresh(Sqlite).(inflight := Some(Begin))), T.Pending)
      && Serves(store, BeginStage(request, Fresh(Sqlite).(inflight := Some(Begin))), BeginStage(request, Conn(0)))
      && Polls(store, BeginStage(request, Conn(0)), Between(request, available, 0), T.Ready(None))
  {
    assert Program(0) == [];
  }

  lemma StartHops(store: Store, request: Reservation, n: nat)
    requires n < INSERT && Suffices(store, request)
    ensures var available := store.stock[request.sku];
      && Starts(store, Between(request, available, n), T.Statement(n + 1), During(request, available, n, T.Leasing))
      && Polls(store, During(request, available, n, T.Leasing), During(request, available, n, T.Preparing(true)), T.Pending)
  {
  }

  lemma PrepareHops(store: Store, request: Reservation, n: nat)
    requires n < INSERT && Suffices(store, request)
    ensures var available := store.stock[request.sku];
      && Polls(store, During(request, available, n, T.Preparing(true)), PrepareSent(request, available, n), T.Pending)
      && Serves(store, PrepareSent(request, available, n), PrepareDone(request, available, n))
      && Polls(store, PrepareDone(request, available, n), During(request, available, n, T.Executing), T.Pending)
  {
  }

  lemma SendHop(store: Store, request: Reservation, n: nat)
    requires n < INSERT && Suffices(store, request)
    ensures var available := store.stock[request.sku];
      Polls(store, During(request, available, n, T.Executing), ExecuteSent(request, available, n), T.Pending)
  {
    assert Program(n) + [n + 1] == Program(n + 1);
  }

  lemma ServeHop(store: Store, request: Reservation, n: nat)
    requires n < INSERT && Suffices(store, request) && NewId(store, request.id)
    ensures var available := store.stock[request.sku];
      Serves(store, ExecuteSent(request, available, n), ExecuteDone(request, available, n))
  {
    assert Program(n) + [n + 1] == Program(n + 1);
  }

  lemma AckHop(store: Store, request: Reservation, n: nat)
    requires n < INSERT && Suffices(store, request)
    ensures var available := store.stock[request.sku];
      Polls(store, ExecuteDone(request, available, n), Between(request, available, n + 1), T.Ready(None))
  {
    assert Program(n) + [n + 1] == Program(n + 1);
  }

  lemma CommitHops(store: Store, request: Reservation)
    requires Suffices(store, request)
    ensures var available := store.stock[request.sku];
      && Starts(store, Between(request, available, INSERT), T.CommitTx, Committing(request, available, T.Leasing))
      && Polls(store, Committing(request, available, T.Leasing), Committing(request, available, T.Controlling(Commit)), T.Pending)
      && Polls(store, Committing(request, available, T.Controlling(Commit)), CommitOnTheWire(request, available), T.Pending)
  {
  }

  function Sold(store: Store, request: Reservation): Store
    requires request.sku in store.stock
  {
    Store(store.stock[request.sku := store.stock[request.sku] - request.quantity], store.reservations + [request])
  }

  lemma ApplyHop(store: Store, request: Reservation)
    requires Suffices(store, request)
    ensures var available := store.stock[request.sku];
      var s, next := CommitOnTheWire(request, available), CommitApplied(request, available);
      && Allowed(Only(store, s), 0, T.ServerMove(Finish)) && T.Serve(s.tx, Finish) == next.tx
      && Step(Only(store, s), Do(0, T.ServerMove(Finish))) == Only(Sold(store, request), next)
  {
    var s, next := CommitOnTheWire(request, store.stock[request.sku]), CommitApplied(request, store.stock[request.sku]);
    assert Program(INSERT)[0] == 1;
    assert [] + Program(INSERT) == Program(INSERT);
    assert T.Serve(s.tx, Finish) == next.tx;
    assert map[0 := s][0 := next] == map[0 := next];
  }

  lemma AnswerHop(store: Store, request: Reservation, available: int)
    ensures Polls(store, CommitApplied(request, available), CommitAnswered(request, available), T.Ready(None))
  {
    assert Program(INSERT)[0] == 1;
  }

  // ---------------------------------------------------------------- a run

  ghost predicate Reached(stock: map<string, int>, st: State) {
    exists events :: Run(Seeded(stock), events) == st
  }

  lemma {:induction false} StepReaches(stock: map<string, int>, st: State, event: Event)
    requires Reached(stock, st)
    ensures Reached(stock, Step(st, event))
  {
    hide Step;
    var events :| Run(Seeded(stock), events) == st;
    assert (events + [event])[..|events|] == events;
    assert Run(Seeded(stock), events + [event]) == Step(st, event);
  }

  lemma {:induction false} GoReaches(stock: map<string, int>, store: Store, s: Session, event: T.Event, next: Session)
    requires Reached(stock, Only(store, s)) && Goes(store, s, event, next)
    ensures Reached(stock, Only(store, next))
  {
    hide Allowed, Advance, Reached;
    StepReaches(stock, Only(store, s), Do(0, event));
    assert map[0 := s][0 := next] == map[0 := next];
  }

  lemma {:induction false} Begins(stock: map<string, int>, request: Reservation)
    requires Suffices(Store(stock, []), request)
    ensures Reached(stock, Only(Store(stock, []), Between(request, stock[request.sku], 0)))
  {
    hide Goes;
    var store := Store(stock, []);
    var s0 := Session(request, T.Init(Sqlite), 0, false, 0, 0, false);
    var s1, s2 := BeginStage(request, Fresh(Sqlite).(inflight := Some(Begin))), BeginStage(request, Conn(0));
    assert Run(Seeded(stock), []) == Seeded(stock);
    StepReaches(stock, Seeded(stock), Open(0, request, Sqlite));
    assert map[][0 := s0] == map[0 := s0];
    BeginHops(store, request, stock[request.sku]);
    GoReaches(stock, store, s0, T.Continue(EASY), s1);
    GoReaches(stock, store, s1, T.ServerMove(Finish), s2);
    GoReaches(stock, store, s2, T.Continue(EASY), Between(request, stock[request.sku], 0));
  }

  lemma {:induction false} Executes(stock: map<string, int>, store: Store, request: Reservation, n: nat)
    requires n < INSERT && Suffices(store, request) && NewId(store, request.id)
    requires Reached(stock, Only(store, Between(request, store.stock[request.sku], n)))
    ensures Reached(stock, Only(store, Between(request, store.stock[request.sku], n + 1)))
  {
    hide Goes, Between, During, PrepareSent, PrepareDone, ExecuteSent, ExecuteDone, Reached, T.Poll, T.Start, T.Serve;
    var a := store.stock[request.sku];
    StartHops(store, request, n);
    PrepareHops(store, request, n);
    SendHop(store, request, n);
    ServeHop(store, request, n);
    AckHop(store, request, n);
    GoReaches(stock, store, Between(request, a, n), T.Issue(T.Statement(n + 1)), During(request, a, n, T.Leasing));
    GoReaches(stock, store, During(request, a, n, T.Leasing), T.Continue(EASY), During(request, a, n, T.Preparing(true)));
    GoReaches(stock, store, During(request, a, n, T.Preparing(true)), T.Continue(EASY), PrepareSent(request, a, n));
    GoReaches(stock, store, PrepareSent(request, a, n), T.ServerMove(Finish), PrepareDone(request, a, n));
    GoReaches(stock, store, PrepareDone(request, a, n), T.Continue(EASY), During(request, a, n, T.Executing));
    GoReaches(stock, store, During(request, a, n, T.Executing), T.Continue(EASY), ExecuteSent(request, a, n));
    GoReaches(stock, store, ExecuteSent(request, a, n), T.ServerMove(Finish), ExecuteDone(request, a, n));
    GoReaches(stock, store, ExecuteDone(request, a, n), T.Continue(EASY), Between(request, a, n + 1));
  }

  /** Every request that the stock allows can be served: some run reserves exactly it. */
  lemma {:induction false} StockCanBeReserved(stock: map<string, int>, request: Reservation)
    requires Suffices(Store(stock, []), request)
    ensures exists events :: Run(Seeded(stock), events).store == Sold(Store(stock, []), request)
  {
    hide Goes, Between, Committing, CommitOnTheWire, CommitApplied, Step, T.Poll, T.Start, T.Serve;
    var store, a := Store(stock, []), stock[request.sku];
    Begins(stock, request);
    Executes(stock, store, request, 0);
    Executes(stock, store, request, 1);
    Executes(stock, store, request, 2);
    Executes(stock, store, request, 3);
    CommitHops(store, request);
    GoReaches(stock, store, Between(request, a, INSERT), T.Issue(T.CommitTx), Committing(request, a, T.Leasing));
    GoReaches(stock, store, Committing(request, a, T.Leasing), T.Continue(EASY), Committing(request, a, T.Controlling(Commit)));
    GoReaches(stock, store, Committing(request, a, T.Controlling(Commit)), T.Continue(EASY), CommitOnTheWire(request, a));
    ApplyHop(store, request);
    StepReaches(stock, Only(store, CommitOnTheWire(request, a)), Do(0, T.ServerMove(Finish)));
    var events :| Run(Seeded(stock), events) == Only(Sold(store, request), CommitApplied(request, a));
  }
}
