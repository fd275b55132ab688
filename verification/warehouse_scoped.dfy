/** The warehouse of consumers/warehouse as it is written: every `reserve` call is a write scope
    entered through `write_locking`, with all the freedom of the scope machine, over the shared
    tables. What its transaction sees is a call of the warehouse machine, event by event. */
module ScopedWarehouse {
  import opened Common
  import opened Server
  import T = Transactions
  import S = Scopes
  import R = ScopeRefinement
  import W = Warehouse
  import RowLocks

  datatype State = State(tables: W.State, scopes: map<nat, S.Scope>)

  datatype Event =
    | Call(i: nat, request: W.Reservation, backend: Backend)
    | Do(i: nat, event: S.Event)

  /** The transaction's events on the tables, in order; none if one of them is not what the body
      of `reserve`, or the database, would do. */
  function Feed(tables: W.State, i: nat, own: seq<T.Event>): Option<W.State>
    decreases |own|
  {
    if own == [] then Some(tables)
    else
      var before, last := Feed(tables, i, own[..|own| - 1]), own[|own| - 1];
      if before.None? || i !in before.value.sessions || !W.Allowed(before.value, i, last) then None
      else Some(W.Step(before.value, W.Do(i, last)))
  }

  /** The lock `reserve` hands to `write_locking`: the selector of the stock row, which is the
      first statement of the call, if its builder yields one. */
  function LockOf(sku: string, backend: Backend): S.LockRequest {
    var lock := RowLocks.Build("warehouse_stock", [RowLocks.Call("sku", Some(RowLocks.Scalar(sku)))]);
    if RowLocks.Statement(lock, backend.Postgres?).Success? then S.LockRow(W.LOCK) else S.BadLock
  }

  lemma LockIsTaken(sku: string, backend: Backend)
    ensures LockOf(sku, backend) == S.LockRow(W.LOCK)
  {
    hide RowLocks.Build, RowLocks.Statement;
    W.LockSelectsTheStockRow(RowLocks.Scalar(sku), backend.Postgres?);
  }

  function Step(st: State, event: Event): State {
    match event
    case Call(i, request, backend) =>
      if i in st.tables.sessions || request.quantity <= 0 then st
      else State(W.Step(st.tables, W.Open(i, request, backend)),
                 st.scopes[i := S.Init(backend, LockOf(request.sku, backend))])
    case Do(i, e) =>
      if i !in st.scopes then st
      else
        var fed := Feed(st.tables, i, R.Own(st.scopes[i], e));
        if fed.None? then st else State(fed.value, st.scopes[i := S.Step(st.scopes[i], e).0])
  }

  function Run(st: State, events: seq<Event>): State
    decreases |events|
  {
    if events == [] then st else Step(Run(st, events[..|events| - 1]), events[|events| - 1])
  }

  function Seeded(stock: map<string, int>): State {
    State(W.Seeded(stock), map[])
  }

  /** Each call's transaction is the one in its scope. */
  predicate Coupled(st: State) {
    && st.scopes.Keys == st.tables.sessions.Keys
    && forall i :: i in st.scopes ==> S.Inv(st.scopes[i]) && st.tables.sessions[i].tx == st.scopes[i].slots.tx
  }

  predicate Inv(seed: map<string, int>, st: State) {
    W.Inv(seed, st.tables) && Coupled(st)
  }

  predicate OthersKept(i: nat, before: map<nat, W.Session>, after: map<nat, W.Session>) {
    after.Keys == before.Keys && forall j :: j in before && j != i ==> after[j] == before[j]
  }

  lemma {:induction false} FeedFollows(seed: map<string, int>, tables: W.State, i: nat, own: seq<T.Event>)
    requires W.Inv(seed, tables) && i in tables.sessions && Feed(tables, i, own).Some?
    ensures var fed := Feed(tables, i, own).value;
      && W.Inv(seed, fed) && OthersKept(i, tables.sessions, fed.sessions)
      && fed.sessions[i].tx == T.Run(tables.sessions[i].tx, own)
    decreases |own|
  {
    hide W.Inv, W.Allowed, W.Effect, T.Step;
    if own != [] {
      var front, last := own[..|own| - 1], own[|own| - 1];
      FeedFollows(seed, tables, i, front);
      W.StepInv(seed, Feed(tables, i, front).value, W.Do(i, last));
    }
  }

  lemma {:induction false} CallInv(seed: map<string, int>, st: State, i: nat, request: W.Reservation, backend: Backend)
    requires Inv(seed, st)
    ensures Inv(seed, Step(st, Call(i, request, backend)))
  {
    hide W.Inv, S.Inv, T.Init, S.Init, LockOf;
    W.StepInv(seed, st.tables, W.Open(i, request, backend));
    S.InitInv(backend, LockOf(request.sku, backend));
    InitShares(backend, LockOf(request.sku, backend));
  }

  lemma InitShares(backend: Backend, lock: S.LockRequest)
    ensures S.Init(backend, lock).slots.tx == T.Init(backend)
  {
  }

  lemma {:induction false} DoInv(seed: map<string, int>, st: State, i: nat, e: S.Event)
    requires Inv(seed, st) && i in st.scopes && Feed(st.tables, i, R.Own(st.scopes[i], e)).Some?
    ensures Inv(seed, Step(st, Do(i, e)))
  {
    hide W.Inv, S.Inv, S.Step, R.Own, Feed, T.Run, LockOf;
    FeedFollows(seed, st.tables, i, R.Own(st.scopes[i], e));
    R.StepOwn(st.scopes[i], e);
    S.StepInv(st.scopes[i], e);
  }

  lemma {:induction false} StepInv(seed: map<string, int>, st: State, event: Event)
    requires Inv(seed, st)
    ensures Inv(seed, Step(st, event))
  {
    hide Inv, R.Own, Feed, S.Step, W.Step, LockOf;
    match event
    case Call(i, request, backend) => CallInv(seed, st, i, request, backend);
    case Do(i, e) => if i in st.scopes && Feed(st.tables, i, R.Own(st.scopes[i], e)).Some? { DoInv(seed, st, i, e); }
  }

  lemma {:induction false} RunInv(stock: map<string, int>, events: seq<Event>)
    requires W.Seed(stock)
    ensures Inv(stock, Run(Seeded(stock), events))
    decreases |events|
  {
    hide Step;
    if events == [] {
      W.SeededInv(stock);
      hide W.Inv;
    } else {
      hide Inv;
      RunInv(stock, events[..|events| - 1]);
      StepInv(stock, Run(Seeded(stock), events[..|events| - 1]), events[|events| - 1]);
    }
  }

  /** Conservation for `reserve` as written: over every interleaving of scopes, handles, drops,
      panics, cancellations and server moves, each SKU's stock and its reservations add up to
      what was seeded, the stock is never negative, no reservation id occurs twice, and every
      reservation is of a positive quantity and a seeded SKU. */
  lemma {:induction false} Conservation(stock: map<string, int>, events: seq<Event>)
    requires W.Seed(stock)
    ensures var store := Run(Seeded(stock), events).tables.store;
      W.Conserved(stock, store) && W.UniqueIds(store.reservations) && W.Sales(store)
  {
    RunInv(stock, events);
    W.RowsAreSales(stock, Run(Seeded(stock), events).tables);
    hide Run, W.SessionInv, W.Conserved, W.UniqueIds, W.Sales, Coupled;
  }

  predicate ReturnedOk(s: S.Scope) {
    s.phase == S.Returned(None)
  }

  predicate ReturnedDefinite(s: S.Scope) {
    s.phase.Returned? && s.phase.result.Some? && T.Definite(s.slots.tx.conn.backend, s.phase.result.value)
  }

  /** What `reserve` returns is true of its own row. Ok means that its commit was applied; a
      definite error, and any end before COMMIT was sent, mean that it was not. `OwnRow` and
      `OncePerCall` say what that means for the table, and two calls that returned Ok have
      different ids, hence two rows. */
  lemma {:induction false} ReserveTellsTheTruth(stock: map<string, int>, events: seq<Event>, i: nat)
    requires W.Seed(stock) && i in Run(Seeded(stock), events).scopes
    ensures var st := Run(Seeded(stock), events);
      && st.scopes.Keys == st.tables.sessions.Keys
      && (ReturnedOk(st.scopes[i]) ==> st.tables.sessions[i].applied)
      && (!st.scopes[i].slots.tx.commitSent || ReturnedDefinite(st.scopes[i]) ==> !st.tables.sessions[i].applied)
      && W.OwnRow(st.tables, i) && W.OncePerCall(st.tables)
      && (forall j :: j in st.scopes && j != i && ReturnedOk(st.scopes[i]) && ReturnedOk(st.scopes[j]) ==>
            st.tables.sessions[i].request.id != st.tables.sessions[j].request.id)
  {
    hide Run, Inv, W.OwnRow, W.OncePerCall, ReturnedOk, ReturnedDefinite;
    RunInv(stock, events);
    Truth(stock, Run(Seeded(stock), events), i);
  }

  lemma {:induction false} Truth(seed: map<string, int>, st: State, i: nat)
    requires Inv(seed, st) && i in st.scopes
    ensures st.scopes.Keys == st.tables.sessions.Keys
    ensures ReturnedOk(st.scopes[i]) ==> st.tables.sessions[i].applied
    ensures !st.scopes[i].slots.tx.commitSent || ReturnedDefinite(st.scopes[i]) ==> !st.tables.sessions[i].applied
    ensures W.OwnRow(st.tables, i) && W.OncePerCall(st.tables)
    ensures forall j :: j in st.scopes && j != i && ReturnedOk(st.scopes[i]) && ReturnedOk(st.scopes[j]) ==>
      st.tables.sessions[i].request.id != st.tables.sessions[j].request.id
  {
    hide W.Inv, S.Inv, T.Definite, W.OwnRow, W.OncePerCall;
    W.Outcome(seed, st.tables, i);
    forall j | j in st.scopes
      ensures ReturnedOk(st.scopes[j]) ==> st.tables.sessions[j].tx.answer == Some(None)
    {
      ScopeAnswers(st.scopes[j]);
    }
    ScopeAnswers(st.scopes[i]);
  }

  lemma ScopeAnswers(s: S.Scope)
    requires S.Inv(s)
    ensures s.phase == S.Returned(None) ==> s.slots.tx.answer == Some(None)
    ensures s.phase.Returned? && s.phase.result.Some? ==> s.slots.tx.answer == Some(s.phase.result) || !s.slots.tx.commitSent
  {
    hide T.Inv, S.TokensInv;
  }
}
