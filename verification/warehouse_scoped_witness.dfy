/** A write scope in which a reservation succeeds, for every request the stock allows: neither
    the guards on the transaction's events nor the lock of `write_locking` make the theorems
    about `reserve` vacuous. */
module ScopedWitnesses {
  import opened Common
  import opened Server
  import T = Transactions
  import S = Scopes
  import R = ScopeRefinement
  import W = Warehouse
  import opened WarehouseWitnesses
  import opened ScopedWarehouse

  // ---------------------------------------------------------------- the scope of one call

  /** `n` operations are over. */
  function Ended(n: nat): map<S.Token, S.Frame> {
    if n == 0 then map[] else Ended(n - 1)[n - 1 := S.Ended]
  }

  /** Before the closure runs. */
  function Early(phase: S.Phase, tx: T.Tx): S.Scope {
    S.Scope(phase, S.Slots(tx, false, S.Mutex(None, []), None, None), false, None, map[], map[], 0)
  }

  /** The closure runs and no operation does. */
  function Calm(n: nat, tx: T.Tx): S.Scope {
    S.Scope(S.Active, S.Slots(tx, true, S.Mutex(None, []), None, None), false, None, Ended(n), map[], n)
  }

  /** Operation `n` on its way to its first poll. */
  function Entering(n: nat, tx: T.Tx, frame: S.Frame, operation: Option<S.Entry>): S.Scope {
    S.Scope(S.Active, S.Slots(tx, true, S.Mutex(None, []), None, operation), false,
            if frame.Waiting? then None else Some(n), Ended(n)[n := frame], map[], n + 1)
  }

  /** Operation `n` runs statement `k` on the transaction. */
  function Busy(n: nat, k: nat, tx: T.Tx): S.Scope {
    S.Scope(S.Active, S.Slots(tx, true, S.Mutex(Some(n), []), None, Some(S.Entry(n, T.Statement(k), S.Holding))),
            false, Some(n), Ended(n)[n := S.Installed], map[], n + 1)
  }

  /** After the closure. */
  function Late(phase: S.Phase, tx: T.Tx): S.Scope {
    S.Scope(phase, S.Slots(tx, phase.Closing?, S.Mutex(None, []), None, None), true, None, Ended(3), map[], 3)
  }

  function At(store: W.Store, s: W.Session, scope: S.Scope): State {
    State(Only(store, s), map[0 := scope])
  }

  // ---------------------------------------------------------------- steps

  ghost predicate Reached(stock: map<string, int>, st: State) {
    exists events :: Run(Seeded(stock), events) == st
  }

  lemma {:induction false} StepReaches(stock: map<string, int>, st: State, event: Event)
    requires Reached(stock, st)
    ensures Reached(stock, Step(st, event))
  {
    hide Step;
    var events :| Run(Seeded(stock), events) == st;
    assert (events + [event])[..|events|] == events;
    assert Run(Seeded(stock), events + [event]) == Step(st, event);
  }

  /** A scope event that the transaction does not see. */
  lemma {:induction false} Unseen(stock: map<string, int>, store: W.Store, s: W.Session, a: S.Scope, e: S.Event, b: S.Scope)
    requires Reached(stock, At(store, s, a)) && R.Own(a, e) == [] && S.Step(a, e).0 == b
    ensures Reached(stock, At(store, s, b))
  {
    hide R.Own, S.Step, Reached;
    StepReaches(stock, At(store, s, a), Do(0, e));
    assert map[0 := a][0 := b] == map[0 := b];
  }

  lemma FeedOne(store: W.Store, s: W.Session, event: T.Event, next: W.Session)
    requires Goes(store, s, event, next)
    ensures Feed(Only(store, s), 0, [event]) == Some(Only(store, next))
  {
    hide W.Allowed, W.Advance;
    assert [event][..0] == [];
    assert Feed(Only(store, s), 0, []) == Some(Only(store, s));
    assert map[0 := s][0 := next] == map[0 := next];
  }

  /** A scope event that is one event of the transaction. */
  lemma {:induction false} Seen(stock: map<string, int>, store: W.Store, s: W.Session, a: S.Scope, e: S.Event,
             event: T.Event, next: W.Session, b: S.Scope)
    requires Reached(stock, At(store, s, a)) && Goes(store, s, event, next)
    requires R.Own(a, e) == [event] && S.Step(a, e).0 == b
    ensures Reached(stock, At(store, next, b))
  {
    hide R.Own, S.Step, Reached, Goes, Feed;
    FeedOne(store, s, event, next);
    StepReaches(stock, At(store, s, a), Do(0, e));
    assert map[0 := a][0 := b] == map[0 := b];
  }

  // ---------------------------------------------------------------- operations

  lemma EnteringSteps(n: nat, k: nat, tx: T.Tx)
    ensures var op := T.Statement(k);
      var waiting, entered := Entering(n, tx, S.Waiting(op), None), Entering(n, tx, S.Entered(op), None);
      var admitted, installed := Entering(n, tx, S.Admitted(op), None), Entering(n, tx, S.Installed, Some(S.Entry(n, op, S.Unpolled)));
      && R.Own(Calm(n, tx), S.OperationStarts(k, true)) == [] && S.Step(Calm(n, tx), S.OperationStarts(k, true)).0 == waiting
      && R.Own(waiting, S.SerialGranted(n)) == [] && S.Step(waiting, S.SerialGranted(n)).0 == entered
      && R.Own(entered, S.OperationRechecks(n)) == [] && S.Step(entered, S.OperationRechecks(n)).0 == admitted
      && R.Own(admitted, S.OperationInstalls(n)) == [] && S.Step(admitted, S.OperationInstalls(n)).0 == installed
  {
    hide Ended;
  }

  lemma {:induction false} Enters(stock: map<string, int>, store: W.Store, s: W.Session, n: nat, k: nat)
    requires Reached(stock, At(store, s, Calm(n, s.tx)))
    ensures Reached(stock, At(store, s, Entering(n, s.tx, S.Installed, Some(S.Entry(n, T.Statement(k), S.Unpolled)))))
  {
    hide R.Own, S.Step, Reached, Calm, Entering, At;
    var op := T.Statement(k);
    EnteringSteps(n, k, s.tx);
    var waiting, entered := Entering(n, s.tx, S.Waiting(op), None), Entering(n, s.tx, S.Entered(op), None);
    var admitted := Entering(n, s.tx, S.Admitted(op), None);
    Unseen(stock, store, s, Calm(n, s.tx), S.OperationStarts(k, true), waiting);
    Unseen(stock, store, s, waiting, S.SerialGranted(n), entered);
    Unseen(stock, store, s, entered, S.OperationRechecks(n), admitted);
    Unseen(stock, store, s, admitted, S.OperationInstalls(n), Entering(n, s.tx, S.Installed, Some(S.Entry(n, op, S.Unpolled))));
  }

  lemma FirstPollStep(n: nat, k: nat, tx: T.Tx, next: T.Tx)
    requires T.Start(tx, T.Statement(k)) == (next, T.Pending)
    ensures var a := Entering(n, tx, S.Installed, Some(S.Entry(n, T.Statement(k), S.Unpolled)));
      && R.Own(a, S.OperationPolled(n, true, EASY)) == [T.Issue(T.Statement(k))]
      && S.Step(a, S.OperationPolled(n, true, EASY)).0 == Busy(n, k, next)
  {
    hide Ended, T.Start;
  }

  lemma LaterPollStep(n: nat, k: nat, tx: T.Tx, next: T.Tx)
    requires tx.run.Some? && T.Poll(tx, EASY) == (next, T.Pending)
    ensures R.Own(Busy(n, k, tx), S.OperationPolled(n, true, EASY)) == [T.Continue(EASY)]
    ensures S.Step(Busy(n, k, tx), S.OperationPolled(n, true, EASY)).0 == Busy(n, k, next)
  {
    hide Ended, T.Poll;
  }

  lemma LastPollStep(n: nat, k: nat, tx: T.Tx, next: T.Tx)
    requires tx.run.Some? && T.Poll(tx, EASY) == (next, T.Ready(None))
    ensures R.Own(Busy(n, k, tx), S.OperationPolled(n, true, EASY)) == [T.Continue(EASY)]
    ensures S.Step(Busy(n, k, tx), S.OperationPolled(n, true, EASY)).0 == Calm(n + 1, next)
  {
    hide T.Poll;
    assert Ended(n)[n := S.Installed][n := S.Ended] == Ended(n + 1);
  }

  lemma {:induction false} PollsBusy(stock: map<string, int>, store: W.Store, s: W.Session, n: nat, k: nat, next: W.Session)
    requires Reached(stock, At(store, s, Busy(n, k, s.tx))) && Polls(store, s, next, T.Pending)
    ensures Reached(stock, At(store, next, Busy(n, k, next.tx)))
  {
    hide R.Own, S.Step, Reached, Goes, Busy, At, T.Poll;
    LaterPollStep(n, k, s.tx, next.tx);
    Seen(stock, store, s, Busy(n, k, s.tx), S.OperationPolled(n, true, EASY), T.Continue(EASY), next, Busy(n, k, next.tx));
  }

  /** The server's turn, in any scope. */
  lemma {:induction false} ServerTurn(stock: map<string, int>, store: W.Store, s: W.Session, a: S.Scope, next: W.Session)
    requires Reached(stock, At(store, s, a)) && Serves(store, s, next) && a.slots.tx == s.tx
    ensures Reached(stock, At(store, next, S.Advance(a, next.tx)))
  {
    hide Reached, Goes, At, T.Serve;
    Seen(stock, store, s, a, S.ServerMoves(Finish), T.ServerMove(Finish), next, S.Advance(a, next.tx));
  }

  /** Statement `n + 2` of the call, as operation `n` of its scope. */
  lemma {:induction false} Operates(stock: map<string, int>, store: W.Store, request: W.Reservation, n: nat)
    requires n + 1 < W.INSERT && Suffices(store, request) && W.NewId(store, request.id)
    requires var s := Between(request, store.stock[request.sku], n + 1); Reached(stock, At(store, s, Calm(n, s.tx)))
    ensures var s := Between(request, store.stock[request.sku], n + 2); Reached(stock, At(store, s, Calm(n + 1, s.tx)))
  {
    hide R.Own, S.Step, Reached, Goes, Calm, Entering, At, T.Poll, T.Start, T.Serve;
    hide Between, During, PrepareSent, PrepareDone, ExecuteSent, ExecuteDone;
    var a, m, k := store.stock[request.sku], n + 1, n + 2;
    var s0, s1 := Between(request, a, m), During(request, a, m, T.Leasing);
    var s2, s3 := During(request, a, m, T.Preparing(true)), PrepareSent(request, a, m);
    var s4, s5 := PrepareDone(request, a, m), During(request, a, m, T.Executing);
    var s6, s7, s8 := ExecuteSent(request, a, m), ExecuteDone(request, a, m), Between(request, a, m + 1);
    StartHops(store, request, m);
    PrepareHops(store, request, m);
    SendHop(store, request, m);
    ServeHop(store, request, m);
    AckHop(store, request, m);
    Enters(stock, store, s0, n, k);
    FirstPollStep(n, k, s0.tx, s1.tx);
    Seen(stock, store, s0, Entering(n, s0.tx, S.Installed, Some(S.Entry(n, T.Statement(k), S.Unpolled))),
         S.OperationPolled(n, true, EASY), T.Issue(T.Statement(k)), s1, Busy(n, k, s1.tx));
    PollsBusy(stock, store, s1, n, k, s2);
    PollsBusy(stock, store, s2, n, k, s3);
    ServerTurn(stock, store, s3, Busy(n, k, s3.tx), s4);
    PollsBusy(stock, store, s4, n, k, s5);
    PollsBusy(stock, store, s5, n, k, s6);
    ServerTurn(stock, store, s6, Busy(n, k, s6.tx), s7);
    LastPollStep(n, k, s7.tx, s8.tx);
    Seen(stock, store, s7, Busy(n, k, s7.tx), S.OperationPolled(n, true, EASY), T.Continue(EASY), s8, Calm(n + 1, s8.tx));
  }

  // ---------------------------------------------------------------- owner

  const OWNER := S.OwnerPolls(EASY, 1)

  lemma EarlyPollStep(phase: S.Phase, tx: T.Tx, next: T.Tx)
    requires (phase == S.Opening(S.LockRow(W.LOCK)) || phase == S.Locking) && tx.run.Some?
    requires T.Poll(tx, EASY) == (next, T.Pending)
    ensures R.Own(Early(phase, tx), OWNER) == [T.Continue(EASY)] && S.Step(Early(phase, tx), OWNER).0 == Early(phase, next)
  {
    hide T.Poll;
  }

  lemma {:induction false} PollsEarly(stock: map<string, int>, store: W.Store, s: W.Session, phase: S.Phase, next: W.Session)
    requires Reached(stock, At(store, s, Early(phase, s.tx))) && Polls(store, s, next, T.Pending)
    requires phase == S.Opening(S.LockRow(W.LOCK)) || phase == S.Locking
    ensures Reached(stock, At(store, next, Early(phase, next.tx)))
  {
    hide R.Own, S.Step, Reached, Goes, Early, At, T.Poll;
    EarlyPollStep(phase, s.tx, next.tx);
    Seen(stock, store, s, Early(phase, s.tx), OWNER, T.Continue(EASY), next, Early(phase, next.tx));
  }

  /** BEGIN was answered: the owner goes on with the lock in the same poll. */
  lemma LockStep(tx: T.Tx, begun: T.Tx, next: T.Tx)
    requires tx.run.Some? && T.Poll(tx, EASY) == (begun, T.Ready(None))
    requires T.Start(begun, T.Statement(W.LOCK)) == (next, T.Pending)
    ensures var a := Early(S.Opening(S.LockRow(W.LOCK)), tx);
      && R.Own(a, OWNER) == [T.Continue(EASY), T.Issue(T.Statement(W.LOCK))]
      && S.Step(a, OWNER).0 == Early(S.Locking, next)
  {
    hide T.Poll, T.Start;
  }

  lemma FeedTwo(store: W.Store, s: W.Session, e1: T.Event, mid: W.Session, e2: T.Event, next: W.Session)
    requires Goes(store, s, e1, mid) && Goes(store, mid, e2, next)
    ensures Feed(Only(store, s), 0, [e1, e2]) == Some(Only(store, next))
  {
    hide W.Allowed, W.Advance;
    FeedOne(store, s, e1, mid);
    assert [e1, e2][..1] == [e1];
    assert map[0 := mid][0 := next] == map[0 := next];
  }

  lemma ActivateStep(tx: T.Tx, next: T.Tx)
    requires tx.run.Some? && T.Poll(tx, EASY) == (next, T.Ready(None))
    ensures R.Own(Early(S.Locking, tx), OWNER) == [T.Continue(EASY)]
    ensures S.Step(Early(S.Locking, tx), OWNER).0 == Calm(0, next)
  {
    hide T.Poll;
  }

  lemma {:induction false} Begins(stock: map<string, int>, request: W.Reservation)
    requires Suffices(W.Store(stock, []), request)
    ensures var s := During(request, stock[request.sku], 0, T.Leasing);
      Reached(stock, At(W.Store(stock, []), s, Early(S.Locking, s.tx)))
  {
    hide R.Own, S.Step, Goes, T.Poll, T.Start, T.Serve, LockOf, Between, During, BeginStage;
    var store, a := W.Store(stock, []), stock[request.sku];
    var opening := S.Opening(S.LockRow(W.LOCK));
    var s0 := W.Session(request, T.Init(Sqlite), 0, false, 0, 0, false);
    var s1, s2 := BeginStage(request, Fresh(Sqlite).(inflight := Some(Begin))), BeginStage(request, Conn(0));
    var s3, s4 := Between(request, a, 0), During(request, a, 0, T.Leasing);
    assert Run(Seeded(stock), []) == Seeded(stock);
    LockIsTaken(request.sku, Sqlite);
    StepReaches(stock, Seeded(stock), Call(0, request, Sqlite));
    assert Step(Seeded(stock), Call(0, request, Sqlite)) == At(store, s0, Early(opening, s0.tx));
    BeginHops(store, request, a);
    StartHops(store, request, 0);
    hide Reached, Early, At, T.Init;
    PollsEarly(stock, store, s0, opening, s1);
    EarlyShape(opening, s1.tx, s2.tx);
    ServerTurn(stock, store, s1, Early(opening, s1.tx), s2);
    Locks(stock, store, s2, s3, s4);
  }

  lemma EarlyShape(phase: S.Phase, tx: T.Tx, next: T.Tx)
    ensures Early(phase, tx).slots.tx == tx && S.Advance(Early(phase, tx), next) == Early(phase, next)
  {
  }

  lemma {:induction false} Locks(stock: map<string, int>, store: W.Store, s: W.Session, begun: W.Session, next: W.Session)
    requires Reached(stock, At(store, s, Early(S.Opening(S.LockRow(W.LOCK)), s.tx)))
    requires Polls(store, s, begun, T.Ready(None)) && Starts(store, begun, T.Statement(W.LOCK), next)
    ensures Reached(stock, At(store, next, Early(S.Locking, next.tx)))
  {
    hide R.Own, S.Step, Reached, Goes, Early, Feed, T.Poll, T.Start;
    var a, b := Early(S.Opening(S.LockRow(W.LOCK)), s.tx), Early(S.Locking, next.tx);
    LockStep(s.tx, begun.tx, next.tx);
    FeedTwo(store, s, T.Continue(EASY), begun, T.Issue(T.Statement(W.LOCK)), next);
    StepReaches(stock, At(store, s, a), Do(0, OWNER));
    assert map[0 := a][0 := b] == map[0 := b];
  }

  /** The row lock, taken by the owner before the closure. */
  lemma {:induction false} TakesTheLock(stock: map<string, int>, store: W.Store, request: W.Reservation)
    requires Suffices(store, request) && W.NewId(store, request.id)
    requires var s := During(request, store.stock[request.sku], 0, T.Leasing); Reached(stock, At(store, s, Early(S.Locking, s.tx)))
    ensures var s := Between(request, store.stock[request.sku], 1); Reached(stock, At(store, s, Calm(0, s.tx)))
  {
    hide R.Own, S.Step, Reached, Goes, Early, Calm, At, T.Poll, T.Start, T.Serve;
    hide Between, During, PrepareSent, PrepareDone, ExecuteSent, ExecuteDone;
    var a := store.stock[request.sku];
    var s1, s2, s3 := During(request, a, 0, T.Leasing), During(request, a, 0, T.Preparing(true)), PrepareSent(request, a, 0);
    var s4, s5 := PrepareDone(request, a, 0), During(request, a, 0, T.Executing);
    var s6, s7, s8 := ExecuteSent(request, a, 0), ExecuteDone(request, a, 0), Between(request, a, 1);
    StartHops(store, request, 0);
    PrepareHops(store, request, 0);
    SendHop(store, request, 0);
    ServeHop(store, request, 0);
    AckHop(store, request, 0);
    PollsEarly(stock, store, s1, S.Locking, s2);
    PollsEarly(stock, store, s2, S.Locking, s3);
    EarlyShape(S.Locking, s3.tx, s4.tx);
    ServerTurn(stock, store, s3, Early(S.Locking, s3.tx), s4);
    PollsEarly(stock, store, s4, S.Locking, s5);
    PollsEarly(stock, store, s5, S.Locking, s6);
    EarlyShape(S.Locking, s6.tx, s7.tx);
    ServerTurn(stock, store, s6, Early(S.Locking, s6.tx), s7);
    ActivateStep(s7.tx, s8.tx);
    Seen(stock, store, s7, Early(S.Locking, s7.tx), OWNER, T.Continue(EASY), s8, Calm(0, s8.tx));
  }

  lemma ClosingSteps(tx: T.Tx, next: T.Tx)
    requires T.Start(tx, T.CommitTx) == (next, T.Pending)
    ensures var c0, c1 := Late(S.Closing(S.Returns(true), 0, false), tx), Late(S.Closing(S.Returns(true), 1, false), tx);
      var c2 := Late(S.Closing(S.Returns(true), 2, false), tx);
      && R.Own(Calm(3, tx), S.ClosureEnds(true)) == [] && S.Step(Calm(3, tx), S.ClosureEnds(true)).0 == c0
      && R.Own(c0, OWNER) == [] && S.Step(c0, OWNER).0 == c1
      && R.Own(c1, OWNER) == [] && S.Step(c1, OWNER).0 == c2
      && R.Own(c2, OWNER) == [T.Issue(T.CommitTx)] && S.Step(c2, OWNER).0 == Late(S.Finishing(None), next)
  {
    hide Ended, T.Start;
  }

  lemma LatePollStep(tx: T.Tx, next: T.Tx, result: T.PollResult)
    requires tx.run.Some? && T.Poll(tx, EASY) == (next, result) && (result == T.Pending || result == T.Ready(None))
    ensures R.Own(Late(S.Finishing(None), tx), OWNER) == [T.Continue(EASY)]
    ensures S.Step(Late(S.Finishing(None), tx), OWNER).0 ==
            Late(if result.Ready? then S.Returned(None) else S.Finishing(None), next)
  {
    hide Ended, T.Poll;
  }

  lemma {:induction false} PollsLate(stock: map<string, int>, store: W.Store, s: W.Session, next: W.Session, result: T.PollResult)
    requires Reached(stock, At(store, s, Late(S.Finishing(None), s.tx))) && Polls(store, s, next, result)
    requires result == T.Pending || result == T.Ready(None)
    ensures Reached(stock, At(store, next, Late(if result.Ready? then S.Returned(None) else S.Finishing(None), next.tx)))
  {
    hide R.Own, S.Step, Reached, Goes, Late, At, T.Poll;
    LatePollStep(s.tx, next.tx, result);
    Seen(stock, store, s, Late(S.Finishing(None), s.tx), OWNER, T.Continue(EASY), next,
         Late(if result.Ready? then S.Returned(None) else S.Finishing(None), next.tx));
  }

  lemma {:induction false} SendsCommit(stock: map<string, int>, store: W.Store, request: W.Reservation)
    requires Suffices(store, request)
    requires var s := Between(request, store.stock[request.sku], W.INSERT); Reached(stock, At(store, s, Calm(3, s.tx)))
    ensures var s := CommitOnTheWire(request, store.stock[request.sku]); Reached(stock, At(store, s, Late(S.Finishing(None), s.tx)))
  {
    hide R.Own, S.Step, Reached, Goes, Late, Calm, At, T.Poll, T.Start, Between, Committing, CommitOnTheWire;
    var a := store.stock[request.sku];
    var s0, s1 := Between(request, a, W.INSERT), Committing(request, a, T.Leasing);
    var s2, s3 := Committing(request, a, T.Controlling(Commit)), CommitOnTheWire(request, a);
    CommitHops(store, request);
    ClosingSteps(s0.tx, s1.tx);
    var c0 := Late(S.Closing(S.Returns(true), 0, false), s0.tx);
    var c1, c2 := Late(S.Closing(S.Returns(true), 1, false), s0.tx), Late(S.Closing(S.Returns(true), 2, false), s0.tx);
    Unseen(stock, store, s0, Calm(3, s0.tx), S.ClosureEnds(true), c0);
    Unseen(stock, store, s0, c0, OWNER, c1);
    Unseen(stock, store, s0, c1, OWNER, c2);
    Seen(stock, store, s0, c2, OWNER, T.Issue(T.CommitTx), s1, Late(S.Finishing(None), s1.tx));
    PollsLate(stock, store, s1, s2, T.Pending);
    PollsLate(stock, store, s2, s3, T.Pending);
  }

  lemma {:induction false} Applies(stock: map<string, int>, store: W.Store, request: W.Reservation)
    requires Suffices(store, request)
    requires var s := CommitOnTheWire(request, store.stock[request.sku]); Reached(stock, At(store, s, Late(S.Finishing(None), s.tx)))
    ensures var s := CommitApplied(request, store.stock[request.sku]);
      Reached(stock, At(Sold(store, request), s, Late(S.Finishing(None), s.tx)))
  {
    hide Reached, T.Serve, W.Allowed, W.Step, CommitOnTheWire, CommitApplied, Ended;
    var a := store.stock[request.sku];
    var s, next := CommitOnTheWire(request, a), CommitApplied(request, a);
    var before, after := Late(S.Finishing(None), s.tx), Late(S.Finishing(None), next.tx);
    ApplyHop(store, request);
    assert [T.ServerMove(Finish)][..0] == [];
    assert Feed(Only(store, s), 0, []) == Some(Only(store, s));
    assert Feed(Only(store, s), 0, [T.ServerMove(Finish)]) == Some(Only(Sold(store, request), next));
    StepReaches(stock, At(store, s, before), Do(0, S.ServerMoves(Finish)));
    assert map[0 := before][0 := after] == map[0 := after];
  }

  /** Every request that the stock allows is served by some run of its write scope: `reserve`
      returns Ok, its row is the only one, and the stock is down by its quantity. */
  lemma {:induction false} ReserveCanSucceed(stock: map<string, int>, request: W.Reservation)
    requires Suffices(W.Store(stock, []), request)
    ensures exists events :: var st := Run(Seeded(stock), events);
      0 in st.scopes && ReturnedOk(st.scopes[0]) && st.tables.store == Sold(W.Store(stock, []), request)
  {
    hide Run, Goes, Between, During, CommitOnTheWire, CommitApplied, CommitAnswered, Early, Calm, T.Poll;
    var store, a := W.Store(stock, []), stock[request.sku];
    Begins(stock, request);
    TakesTheLock(stock, store, request);
    Operates(stock, store, request, 0);
    Operates(stock, store, request, 1);
    Operates(stock, store, request, 2);
    SendsCommit(stock, store, request);
    Applies(stock, store, request);
    AnswerHop(Sold(store, request), request, a);
    PollsLate(stock, Sold(store, request), CommitApplied(request, a), CommitAnswered(request, a), T.Ready(None));
    var end := At(Sold(store, request), CommitAnswered(request, a), Late(S.Returned(None), CommitAnswered(request, a).tx));
    var events :| Run(Seeded(stock), events) == end;
    assert ReturnedOk(end.scopes[0]);
  }
}
