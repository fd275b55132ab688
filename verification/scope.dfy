/** The ambient write scope of src/scoped.rs: one transaction behind a fair mutex, a cursor
    slot and an operation slot filled by futures, a serialising lock, and a `closed` flag.

    Each event is one atomic action of the owner, of a handle, of the server or of another
    thread. Handles may be polled inside or outside the scope, retained, or dropped at any
    time, so a run is an arbitrary sequence of events. */
module Scopes {
  import opened Common
  import opened Server
  import T = Transactions

  type Token = nat

  /** A boxed future stored in a slot: never polled, waiting for the transaction mutex, or
      holding its guard while an operation runs on the transaction. */
  datatype Future = Unpolled | Queued | Holding

  datatype Entry = Entry(token: Token, op: T.Operation, future: Future)

  /** tokio's fair mutex: a release hands the permit to the first waiter in the queue. */
  datatype Mutex = Mutex(holder: Option<Token>, queue: seq<Token>)

  /** The shared part of a scope. `stored` says whether the mutex contains the transaction. */
  datatype Slots = Slots(
    tx: T.Tx,
    stored: bool,
    guard: Mutex,
    cursor: Option<Entry>,
    operation: Option<Entry>)

  /** Where a call of `Scope::operate` stands. */
  datatype Frame =
    | Waiting(op: T.Operation)
    | Entered(op: T.Operation)
    | Admitted(op: T.Operation)
    | Installed
    | Ended
  {
    predicate HoldsSerial() {
      Entered? || Admitted? || Installed?
    }

    predicate Carries() {
      (Waiting? || Entered? || Admitted?) ==> op.Borrows()
    }
  }

  /** A started `ScopedRows`: bound to its cursor entry, or done. */
  datatype Handle = Bound | Over

  datatype LockRequest = NoLock | BadLock | LockRow(id: StatementId)

  datatype Ending = Returns(ok: bool) | Unwinds

  /** Where `ScopedDatabase::enter` stands. `Closing` counts the slots already emptied. */
  datatype Phase =
    | Opening(lock: LockRequest)
    | Locking
    | Active
    | Closing(ending: Ending, taken: nat, activeStream: bool)
    | Finishing(result: Option<T.Error>)
    | Returned(result: Option<T.Error>)
    | Gone

  datatype Scope = Scope(
    phase: Phase,
    slots: Slots,
    closed: bool,
    serial: Option<Token>,
    frames: map<Token, Frame>,
    handles: map<Token, Handle>,
    next: Token)

  function Init(backend: Backend, lock: LockRequest): Scope {
    Scope(Opening(lock), Slots(T.Init(backend), false, Mutex(None, []), None, None),
          false, None, map[], map[], 0)
  }

  // ---------------------------------------------------------------- slots and guard

  function Release(m: Mutex): Mutex {
    if m.queue == [] then Mutex(None, []) else Mutex(Some(m.queue[0]), m.queue[1..])
  }

  function Without(queue: seq<Token>, token: Token): seq<Token> {
    if queue == [] then []
    else if queue[0] == token then queue[1..]
    else [queue[0]] + Without(queue[1..], token)
  }

  /** Drop a future taken out of its slot: cancel what it runs, give back or leave the mutex. */
  function DropEntry(s: Slots, e: Entry): Slots {
    match e.future
    case Unpolled => s
    case Queued =>
      if s.guard.holder == Some(e.token) then s.(guard := Release(s.guard))
      else s.(guard := s.guard.(queue := Without(s.guard.queue, e.token)))
    case Holding => s.(tx := T.Cancel(s.tx), guard := Release(s.guard))
  }

  function TakeCursor(s: Slots): Slots {
    if s.cursor.None? then s else DropEntry(s.(cursor := None), s.cursor.value)
  }

  function TakeOperation(s: Slots): Slots {
    if s.operation.None? then s else DropEntry(s.(operation := None), s.operation.value)
  }

  /** The guard has been acquired: begin the operation on the stored transaction. */
  function Acquired(s: Slots, e: Entry): (Slots, Option<Future>, T.PollResult) {
    if !s.stored then (s.(guard := Release(s.guard)), None, T.Ready(Some(T.TransactionAborted)))
    else
      var (tx, result) := T.Start(s.tx, e.op);
      if result.Ready? then (s.(tx := tx, guard := Release(s.guard)), None, result)
      else (s.(tx := tx), Some(Holding), result)
  }

  /** Poll the future of an entry; no future remains once it is ready. */
  function PollEntry(s: Slots, e: Entry, choice: T.Choice): (Slots, Option<Future>, T.PollResult) {
    match e.future
    case Unpolled =>
      if s.guard.holder.None? then Acquired(s.(guard := s.guard.(holder := Some(e.token))), e)
      else (s.(guard := s.guard.(queue := s.guard.queue + [e.token])), Some(Queued), T.Pending)
    case Queued =>
      if s.guard.holder == Some(e.token) then Acquired(s, e) else (s, Some(Queued), T.Pending)
    case Holding =>
      if s.tx.run.None? then (s, Some(Holding), T.Pending)
      else
        var (tx, result) := T.Poll(s.tx, choice);
        if result.Ready? then (s.(tx := tx, guard := Release(s.guard)), None, result)
        else (s.(tx := tx), Some(Holding), result)
  }

  function Kept(e: Entry, future: Option<Future>): Option<Entry> {
    if future.None? then None else Some(e.(future := future.value))
  }

  function PollCursorSlot(s: Slots, choice: T.Choice): (Slots, T.PollResult)
    requires s.cursor.Some?
  {
    var (polled, future, result) := PollEntry(s, s.cursor.value, choice);
    (polled.(cursor := Kept(s.cursor.value, future)), result)
  }

  function PollOperationSlot(s: Slots, choice: T.Choice): (Slots, T.PollResult)
    requires s.operation.Some?
  {
    var (polled, future, result) := PollEntry(s, s.operation.value, choice);
    (polled.(operation := Kept(s.operation.value, future)), result)
  }

  predicate Occupies(slot: Option<Entry>, token: Token) {
    slot.Some? && slot.value.token == token
  }

  function Available(s: Scope): Option<T.Error> {
    if s.closed then Some(T.ScopeDatabaseMismatch)
    else if s.slots.cursor.Some? then Some(T.ActiveStream)
    else None
  }

  /** The current scope is this one only while the owner polls the closure's future. */
  predicate Current(s: Scope, inside: bool) {
    inside && s.phase.Active?
  }

  // ---------------------------------------------------------------- operations

  datatype Output =
    | Silent
    | End
    | Polled(result: T.PollResult)
    | Refused(error: T.Error)

  /** `operate` returns or is dropped: its handle clears only its own slot entry, then the
      serialising lock is released. */
  function EndFrame(s: Scope, f: Token): Scope {
    s.(slots := if Occupies(s.slots.operation, f) then TakeOperation(s.slots) else s.slots,
       serial := if s.serial == Some(f) then None else s.serial,
       frames := s.frames[f := Ended])
  }

  function StartOperation(s: Scope, id: StatementId, inside: bool): (Scope, Output) {
    if !Current(s, inside) then (s, Refused(T.NoActiveWriteScope))
    else if Available(s).Some? then (s, Refused(Available(s).value))
    else (s.(frames := s.frames[s.next := Waiting(T.Statement(id))], next := s.next + 1), Silent)
  }

  function GrantSerial(s: Scope, f: Token): Scope {
    if f in s.frames && s.frames[f].Waiting? && s.serial.None? then
      s.(serial := Some(f), frames := s.frames[f := Entered(s.frames[f].op)])
    else s
  }

  function Recheck(s: Scope, f: Token): (Scope, Output) {
    if f in s.frames && s.frames[f].Entered? then
      if Available(s).Some? then (EndFrame(s, f), Refused(Available(s).value))
      else (s.(frames := s.frames[f := Admitted(s.frames[f].op)]), Silent)
    else (s, Silent)
  }

  /** Assigning the slot drops whatever it contained. */
  function Install(s: Scope, f: Token): Scope {
    if f in s.frames && s.frames[f].Admitted? then
      s.(slots := TakeOperation(s.slots).(operation := Some(Entry(f, s.frames[f].op, Unpolled))),
         frames := s.frames[f := Installed])
    else s
  }

  function PollOperation(s: Scope, f: Token, inside: bool, choice: T.Choice): (Scope, Output) {
    if !(f in s.frames && s.frames[f].Installed?) then (s, Silent)
    else if s.closed || !Current(s, inside) || !Occupies(s.slots.operation, f) then
      (EndFrame(s, f), Refused(T.ScopeDatabaseMismatch))
    else
      var (slots, result) := PollOperationSlot(s.slots, choice);
      var polled := s.(slots := slots);
      (if slots.operation.None? then EndFrame(polled, f) else polled, Polled(result))
  }

  function DropOperation(s: Scope, f: Token): Scope {
    if f in s.frames then EndFrame(s, f) else s
  }

  // ---------------------------------------------------------------- streams

  function FinishStream(s: Scope, h: Token): Scope {
    s.(slots := if Occupies(s.slots.cursor, h) then TakeCursor(s.slots) else s.slots,
       handles := s.handles[h := Over])
  }

  /** First poll of a stream: bind it to a fresh cursor entry or fail for good. */
  function StartStream(s: Scope, id: StatementId, inside: bool): (Scope, Output) {
    var h := s.next;
    var over := s.(handles := s.handles[h := Over], next := h + 1);
    if !Current(s, inside) then (over, Refused(T.NoActiveWriteScope))
    else if Available(s).Some? then (over, Refused(Available(s).value))
    else
      (s.(slots := s.slots.(cursor := Some(Entry(h, T.Stream(id), Unpolled))),
          handles := s.handles[h := Bound], next := h + 1), Silent)
  }

  /** Later polls. The first error, end of rows or failing row mapper ends the stream. */
  function PollStream(s: Scope, h: Token, inside: bool, choice: T.Choice, mapperFails: bool): (Scope, Output) {
    if h !in s.handles then (s, Silent)
    else if s.handles[h].Over? then (s, End)
    else if s.closed || !Current(s, inside) || !Occupies(s.slots.cursor, h) then
      (FinishStream(s, h), Refused(T.ScopeDatabaseMismatch))
    else
      var (slots, result) := PollCursorSlot(s.slots, choice);
      var polled := s.(slots := slots);
      if result.Row? && mapperFails then (FinishStream(polled, h), Refused(T.Decode))
      else (if slots.cursor.None? then FinishStream(polled, h) else polled, Polled(result))
  }

  function DropStream(s: Scope, h: Token): Scope {
    if h in s.handles then FinishStream(s, h) else s
  }

  // ---------------------------------------------------------------- owner

  /** `Drop for ScopeOwner` once the transaction is out of the mutex. */
  function Retire(s: Scope, phase: Phase): Scope {
    s.(slots := TakeOperation(TakeCursor(s.slots)), phase := phase, closed := true)
  }

  function Advance(s: Scope, tx: T.Tx): Scope {
    s.(slots := s.slots.(tx := tx))
  }

  function Share(s: Scope, tx: T.Tx): Scope {
    s.(slots := s.slots.(tx := tx, stored := true), phase := Active)
  }

  /** Consume the transaction with COMMIT or ROLLBACK. */
  function Consume(s: Scope, tx: T.Tx, op: T.Operation, result: Option<T.Error>): Scope {
    s.(phase := Finishing(result), slots := s.slots.(tx := T.Start(tx, op).0, stored := false))
  }

  function OwnerOpening(s: Scope, choice: T.Choice): Scope
    requires s.phase.Opening? && s.slots.tx.run.Some?
  {
    var (tx, result) := T.Poll(s.slots.tx, choice);
    if !result.Ready? then Advance(s, tx)
    else if result.error.Some? then Retire(Advance(s, tx), Returned(result.error))
    else
      match s.phase.lock
      case NoLock => Share(s, tx)
      case BadLock => Consume(s, tx, T.RollbackTx, Some(T.InvalidLock))
      case LockRow(id) => Advance(s, T.Start(tx, T.Statement(id)).0).(phase := Locking)
  }

  function OwnerLocking(s: Scope, choice: T.Choice, rows: nat): Scope
    requires s.phase.Locking? && s.slots.tx.run.Some?
  {
    var (tx, result) := T.Poll(s.slots.tx, choice);
    if !result.Ready? then Advance(s, tx)
    else if result.error.Some? then Consume(s, tx, T.RollbackTx, result.error)
    else if rows == 0 then Consume(s, tx, T.RollbackTx, Some(T.LockNotFound))
    else if rows > 1 then Consume(s, tx, T.RollbackTx, Some(T.NonUniqueLock))
    else Share(s, tx)
  }

  /** Teardown after the closure: empty the cursor slot, then the operation slot, then take
      the transaction out of the mutex. A cancelled scope only tries the mutex. */
  function OwnerClosing(s: Scope): Scope
    requires s.phase.Closing?
  {
    var p, tx := s.phase, s.slots.tx;
    if p.taken == 0 then
      s.(slots := TakeCursor(s.slots), phase := p.(taken := 1, activeStream := s.slots.cursor.Some?))
    else if p.taken == 1 then
      s.(slots := TakeOperation(s.slots), phase := p.(taken := 2))
    else if s.slots.guard.holder.Some? then
      if p.ending.Unwinds? then s.(phase := Gone) else s
    else if p.ending.Unwinds? then
      Retire(if s.slots.stored then s.(slots := s.slots.(tx := T.DropTx(tx), stored := false)) else s, Gone)
    else if !s.slots.stored then Retire(s, Returned(Some(T.TransactionAborted)))
    else if !p.ending.ok then Consume(s, tx, T.RollbackTx, Some(T.Application))
    else if p.activeStream then Consume(s, tx, T.RollbackTx, Some(T.ActiveStream))
    else Consume(s, tx, T.CommitTx, None)
  }

  function OwnerFinishing(s: Scope, choice: T.Choice): Scope
    requires s.phase.Finishing? && s.slots.tx.run.Some?
  {
    var (tx, result) := T.Poll(s.slots.tx, choice);
    if !result.Ready? then Advance(s, tx)
    else Retire(Advance(s, tx), Returned(if s.phase.result.Some? then s.phase.result else result.error))
  }

  function PollOwner(s: Scope, choice: T.Choice, rows: nat): Scope {
    if s.phase.Closing? then OwnerClosing(s)
    else if s.slots.tx.run.None? then s
    else
      match s.phase
      case Opening(_) => OwnerOpening(s, choice)
      case Locking => OwnerLocking(s, choice, rows)
      case Finishing(_) => OwnerFinishing(s, choice)
      case _ => s
  }

  function EndClosure(s: Scope, ok: bool): Scope {
    if s.phase.Active? then s.(closed := true, phase := Closing(Returns(ok), 0, false)) else s
  }

  /** The future of `enter` is dropped, or a panic unwinds through it. */
  function DropOwner(s: Scope): Scope {
    match s.phase
    case Active => s.(closed := true, phase := Closing(Unwinds, 0, false))
    case Closing(ending, taken, _) =>
      if taken >= 2 && ending.Returns? then s.(phase := Closing(Unwinds, 0, false)) else s
    case Returned(_) => s
    case Gone => s
    case _ => Retire(Advance(s, T.DropTx(s.slots.tx)), Gone)
  }

  // ---------------------------------------------------------------- runs

  datatype Event =
    | OwnerPolls(choice: T.Choice, rows: nat)
    | ClosureEnds(ok: bool)
    | OwnerDropped
    | OperationStarts(id: StatementId, inside: bool)
    | SerialGranted(f: Token)
    | OperationRechecks(f: Token)
    | OperationInstalls(f: Token)
    | OperationPolled(f: Token, inside: bool, choice: T.Choice)
    | OperationDropped(f: Token)
    | StreamStarts(id: StatementId, inside: bool)
    | StreamPolled(h: Token, inside: bool, choice: T.Choice, mapperFails: bool)
    | StreamDropped(h: Token)
    | ServerMoves(move: Move)

  function Step(s: Scope, event: Event): (Scope, Output) {
    match event
    case OwnerPolls(choice, rows) => (PollOwner(s, choice, rows), Silent)
    case ClosureEnds(ok) => (EndClosure(s, ok), Silent)
    case OwnerDropped => (DropOwner(s), Silent)
    case OperationStarts(id, inside) => StartOperation(s, id, inside)
    case SerialGranted(f) => (GrantSerial(s, f), Silent)
    case OperationRechecks(f) => Recheck(s, f)
    case OperationInstalls(f) => (Install(s, f), Silent)
    case OperationPolled(f, inside, choice) => PollOperation(s, f, inside, choice)
    case OperationDropped(f) => (DropOperation(s, f), Silent)
    case StreamStarts(id, inside) => StartStream(s, id, inside)
    case StreamPolled(h, inside, choice, mapperFails) => PollStream(s, h, inside, choice, mapperFails)
    case StreamDropped(h) => (DropStream(s, h), Silent)
    case ServerMoves(move) => (Advance(s, T.Serve(s.slots.tx, move)), Silent)
  }

  function Run(s: Scope, events: seq<Event>): Scope
    decreases |events|
  {
    if events == [] then s else Step(Run(s, events[..|events| - 1]), events[|events| - 1]).0
  }

  // ---------------------------------------------------------------- invariant

  predicate EntryFits(guard: Mutex, e: Entry) {
    && e.op.Borrows()
    && match e.future
       case Unpolled => guard.holder != Some(e.token) && e.token !in guard.queue
       case Queued => guard.holder == Some(e.token) <==> e.token !in guard.queue
       case Holding => guard.holder == Some(e.token) && e.token !in guard.queue
  }

  predicate Holds(slot: Option<Entry>) {
    slot.Some? && slot.value.future.Holding?
  }

  /** Every holder of, and waiter for, the transaction mutex sits in one of the two slots. */
  predicate GuardInv(s: Slots) {
    && |s.guard.queue| <= 1
    && (s.guard.holder.None? ==> s.guard.queue == [])
    && (s.guard.holder.Some? ==> Occupies(s.cursor, s.guard.holder.value) || Occupies(s.operation, s.guard.holder.value))
    && (s.guard.queue != [] ==>
          && (Occupies(s.cursor, s.guard.queue[0]) || Occupies(s.operation, s.guard.queue[0]))
          && s.guard.holder != Some(s.guard.queue[0]))
    && (s.cursor.Some? ==> EntryFits(s.guard, s.cursor.value))
    && (s.operation.Some? ==> EntryFits(s.guard, s.operation.value))
    && (s.cursor.Some? && s.operation.Some? ==> s.cursor.value.token != s.operation.value.token)
  }

  /** While the transaction is shared, it runs an operation exactly when a slot's future holds
      the guard. */
  predicate SharedInv(s: Slots) {
    && GuardInv(s)
    && s.stored && !s.tx.dropped
    && (s.tx.run.Some? <==> Holds(s.cursor) || Holds(s.operation))
    && (s.tx.run.Some? ==> s.tx.run.value.op.Borrows())
  }

  /** Nothing in the slots can touch the transaction. A late installation from another thread
      may still leave an operation there, never polled. */
  predicate SlotsIdle(s: Slots) {
    && s.cursor.None?
    && (s.operation.Some? ==> s.operation.value.future.Unpolled? && s.operation.value.op.Borrows())
    && s.guard == Mutex(None, [])
  }

  predicate TokensInv(s: Scope) {
    && (forall f :: f in s.frames ==> f < s.next && s.frames[f].Carries())
    && (forall h :: h in s.handles ==> h < s.next && h !in s.frames)
    && (s.slots.operation.Some? ==>
          s.slots.operation.value.token in s.frames && s.frames[s.slots.operation.value.token].Installed?)
    && (s.slots.cursor.Some? ==>
          s.slots.cursor.value.token in s.handles && s.handles[s.slots.cursor.value.token].Bound?)
    && (forall f :: f in s.frames && s.frames[f].HoldsSerial() ==> s.serial == Some(f))
  }

  /** What the enclosing `enter` guarantees in each of its phases. */
  predicate PhaseInv(s: Scope) {
    var tx := s.slots.tx;
    match s.phase
    case Opening(_) =>
      && SlotsIdle(s.slots) && s.frames == map[] && !s.slots.stored && !s.closed
      && tx.run.Some? && tx.run.value.op.OpenTx?
    case Locking =>
      && SlotsIdle(s.slots) && s.frames == map[] && !s.slots.stored && !s.closed
      && tx.run.Some? && tx.run.value.op.Statement?
    case Active => SharedInv(s.slots) && !s.closed
    case Closing(_, taken, _) =>
      && SharedInv(s.slots) && s.closed && taken <= 2
      && (taken >= 1 ==> s.slots.cursor.None?)
      && (taken >= 2 ==> SlotsIdle(s.slots))
    case Finishing(result) =>
      && SlotsIdle(s.slots) && !s.slots.stored && tx.run.Some?
      && tx.run.value.op == (if result.Some? then T.RollbackTx else T.CommitTx)
    case Returned(result) =>
      && SlotsIdle(s.slots) && !s.slots.stored && tx.dropped && tx.run.None?
      && (if result.None? then tx.answer == Some(None)
          else tx.answer == Some(result) || !tx.commitSent)
    case Gone => SlotsIdle(s.slots) && !s.slots.stored && tx.dropped && tx.run.None?
  }

  predicate Inv(s: Scope) {
    T.Inv(s.slots.tx) && TokensInv(s) && PhaseInv(s)
  }

  lemma InitInv(backend: Backend, lock: LockRequest)
    ensures Inv(Init(backend, lock))
  {
    T.InitInv(backend);
  }

  // ---------------------------------------------------------------- slots keep the guard

  lemma TakeCursorShared(s: Slots)
    requires T.Inv(s.tx) && SharedInv(s)
    ensures T.Inv(TakeCursor(s).tx) && SharedInv(TakeCursor(s))
    ensures TakeCursor(s).cursor.None? && TakeCursor(s).operation == s.operation
  {
    hide T.Inv;
    T.CancelInv(s.tx);
  }

  lemma TakeOperationShared(s: Slots)
    requires T.Inv(s.tx) && SharedInv(s)
    ensures T.Inv(TakeOperation(s).tx) && SharedInv(TakeOperation(s))
    ensures TakeOperation(s).operation.None? && TakeOperation(s).cursor == s.cursor
  {
    hide T.Inv;
    T.CancelInv(s.tx);
  }

  lemma PollCursorShared(s: Slots, choice: T.Choice)
    requires T.Inv(s.tx) && SharedInv(s) && s.cursor.Some?
    ensures var polled := PollCursorSlot(s, choice).0;
      && T.Inv(polled.tx) && SharedInv(polled)
      && polled.operation == s.operation
      && (polled.cursor.Some? ==> polled.cursor.value.token == s.cursor.value.token)
  {
    hide T.Poll, T.Start, T.Inv;
    if s.tx.run.Some? {
      T.PollInv(s.tx, choice);
      T.PollKeepsBorrow(s.tx, choice);
    } else {
      T.StartInv(s.tx, s.cursor.value.op);
      T.StartKeepsBorrow(s.tx, s.cursor.value.op);
    }
  }

  lemma PollOperationShared(s: Slots, choice: T.Choice)
    requires T.Inv(s.tx) && SharedInv(s) && s.operation.Some?
    ensures var polled := PollOperationSlot(s, choice).0;
      && T.Inv(polled.tx) && SharedInv(polled)
      && polled.cursor == s.cursor
      && (polled.operation.Some? ==> polled.operation.value.token == s.operation.value.token)
  {
    hide T.Poll, T.Start, T.Inv;
    if s.tx.run.Some? {
      T.PollInv(s.tx, choice);
      T.PollKeepsBorrow(s.tx, choice);
    } else {
      T.StartInv(s.tx, s.operation.value.op);
      T.StartKeepsBorrow(s.tx, s.operation.value.op);
    }
  }

  // ---------------------------------------------------------------- every step keeps Inv

  predicate Shared(s: Scope) {
    s.phase.Active? || s.phase.Closing?
  }

  /** With the cursor gone, dropping the operation leaves the mutex free. */
  lemma TakeOperationEmptiesGuard(s: Slots)
    requires SharedInv(s) && s.cursor.None?
    ensures SlotsIdle(TakeOperation(s))
  {
  }

  lemma SharedFacts(s: Slots)
    requires SharedInv(s) && SlotsIdle(s)
    ensures s.stored && s.tx.run.None? && !s.tx.dropped
  {
  }

  lemma TakesFromIdleSlots(s: Slots)
    requires SlotsIdle(s)
    ensures TakeCursor(s) == s && TakeOperation(s) == s.(operation := None)
    ensures SlotsIdle(TakeOperation(s))
  {
  }

  lemma EndFrameInv(s: Scope, f: Token)
    requires Inv(s) && f in s.frames
    ensures Inv(EndFrame(s, f))
  {
    hide T.Inv, SharedInv, TakeOperation;
    if Occupies(s.slots.operation, f) {
      if Shared(s) { TakeOperationShared(s.slots); }
      if SlotsIdle(s.slots) { TakesFromIdleSlots(s.slots); }
    }
  }

  lemma FinishStreamInv(s: Scope, h: Token)
    requires Inv(s) && h in s.handles
    ensures Inv(FinishStream(s, h))
  {
    hide T.Inv, SharedInv, TakeCursor;
    if Shared(s) { TakeCursorShared(s.slots); }
    if SlotsIdle(s.slots) { TakesFromIdleSlots(s.slots); }
  }

  lemma StartOperationInv(s: Scope, id: StatementId, inside: bool)
    requires Inv(s)
    ensures Inv(StartOperation(s, id, inside).0)
  {
    hide T.Inv, SharedInv, SlotsIdle, Available;
  }

  lemma GrantSerialInv(s: Scope, f: Token)
    requires Inv(s)
    ensures Inv(GrantSerial(s, f))
  {
    hide T.Inv, SharedInv, SlotsIdle;
  }

  lemma RecheckInv(s: Scope, f: Token)
    requires Inv(s)
    ensures Inv(Recheck(s, f).0) && Inv(DropOperation(s, f))
  {
    hide T.Inv, SharedInv, SlotsIdle, EndFrame, Available;
    if f in s.frames { EndFrameInv(s, f); }
  }

  /** The operation slot is free whenever an operation is installed: its previous tenant would
      still hold the serialising lock. */
  lemma InstallFindsSlotEmpty(s: Scope, f: Token)
    requires Inv(s) && f in s.frames && s.frames[f].Admitted?
    ensures s.slots.operation.None?
  {
  }

  lemma InstallInv(s: Scope, f: Token)
    requires Inv(s)
    ensures Inv(Install(s, f))
  {
    hide T.Inv;
    if f in s.frames && s.frames[f].Admitted? { InstallFindsSlotEmpty(s, f); }
  }

  lemma PollOperationInv(s: Scope, f: Token, inside: bool, choice: T.Choice)
    requires Inv(s)
    ensures Inv(PollOperation(s, f, inside, choice).0)
  {
    hide T.Inv, SharedInv, SlotsIdle, EndFrame, PollOperationSlot;
    if f in s.frames && s.frames[f].Installed? {
      EndFrameInv(s, f);
      if Current(s, inside) && Occupies(s.slots.operation, f) {
        PollOperationShared(s.slots, choice);
        EndFrameInv(s.(slots := PollOperationSlot(s.slots, choice).0), f);
      }
    }
  }

  lemma StartStreamInv(s: Scope, id: StatementId, inside: bool)
    requires Inv(s)
    ensures Inv(StartStream(s, id, inside).0)
  {
    hide T.Inv;
  }

  lemma PollStreamInv(s: Scope, h: Token, inside: bool, choice: T.Choice, mapperFails: bool)
    requires Inv(s)
    ensures Inv(PollStream(s, h, inside, choice, mapperFails).0)
    ensures Inv(DropStream(s, h))
  {
    hide T.Inv, SharedInv, SlotsIdle, FinishStream, PollCursorSlot;
    if h in s.handles {
      FinishStreamInv(s, h);
      if Current(s, inside) && Occupies(s.slots.cursor, h) {
        PollCursorShared(s.slots, choice);
        FinishStreamInv(s.(slots := PollCursorSlot(s.slots, choice).0), h);
      }
    }
  }

  lemma RetireInv(s: Scope, phase: Phase)
    requires T.Inv(s.slots.tx) && TokensInv(s) && SlotsIdle(s.slots) && !s.slots.stored
    requires s.slots.tx.dropped && s.slots.tx.run.None?
    requires phase.Gone? ||
      (phase.Returned? && if phase.result.None? then s.slots.tx.answer == Some(None)
                          else s.slots.tx.answer == Some(phase.result) || !s.slots.tx.commitSent)
    ensures Inv(Retire(s, phase))
  {
    hide T.Inv, TakeCursor, TakeOperation;
    TakesFromIdleSlots(s.slots);
  }

  /** The owner's own operations: what `Poll` and `Start` do to a transaction that is not
      shared. */
  lemma ConsumeInv(s: Scope, tx: T.Tx, op: T.Operation, result: Option<T.Error>)
    requires TokensInv(s) && SlotsIdle(s.slots)
    requires T.Inv(tx) && tx.run.None? && !tx.dropped
    requires op == (if result.Some? then T.RollbackTx else T.CommitTx)
    ensures Inv(Consume(s, tx, op, result))
  {
    T.StartInv(tx, op);
  }

  lemma OwnerOpeningInv(s: Scope, choice: T.Choice)
    requires Inv(s) && s.phase.Opening?
    ensures Inv(OwnerOpening(s, choice))
  {
    hide T.Inv, T.Poll, T.Start, Retire, Consume;
    var (tx, result) := T.Poll(s.slots.tx, choice);
    T.PollInv(s.slots.tx, choice);
    T.PollKeepsOwned(s.slots.tx, choice);
    if result.Ready? {
      if result.error.Some? {
        RetireInv(Advance(s, tx), Returned(result.error));
      } else {
        ConsumeInv(s, tx, T.RollbackTx, Some(T.InvalidLock));
        if s.phase.lock.LockRow? {
          T.StartInv(tx, T.Statement(s.phase.lock.id));
          T.StartKeepsBorrow(tx, T.Statement(s.phase.lock.id));
        }
      }
    }
  }

  lemma OwnerLockingInv(s: Scope, choice: T.Choice, rows: nat)
    requires Inv(s) && s.phase.Locking?
    ensures Inv(OwnerLocking(s, choice, rows))
  {
    hide T.Inv, T.Poll, Consume;
    var (tx, result) := T.Poll(s.slots.tx, choice);
    T.PollInv(s.slots.tx, choice);
    T.PollKeepsBorrow(s.slots.tx, choice);
    if result.Ready? {
      ConsumeInv(s, tx, T.RollbackTx, Some(if result.error.Some? then result.error.value else T.LockNotFound));
      ConsumeInv(s, tx, T.RollbackTx, Some(T.NonUniqueLock));
    }
  }

  lemma OwnerClosingInv(s: Scope)
    requires Inv(s) && s.phase.Closing?
    ensures Inv(OwnerClosing(s))
  {
    hide T.Inv, SharedInv, TakeCursor, TakeOperation, Consume, Retire;
    TakeCursorShared(s.slots);
    TakeOperationShared(s.slots);
    if s.phase.taken == 1 {
      TakeOperationEmptiesGuard(s.slots);
    } else if s.phase.taken >= 2 {
      SharedFacts(s.slots);
      T.CancelInv(s.slots.tx);
      RetireInv(s.(slots := s.slots.(tx := T.DropTx(s.slots.tx), stored := false)), Gone);
      ConsumeInv(s, s.slots.tx, T.RollbackTx, Some(T.Application));
      ConsumeInv(s, s.slots.tx, T.RollbackTx, Some(T.ActiveStream));
      ConsumeInv(s, s.slots.tx, T.CommitTx, None);
    }
  }

  lemma OwnerFinishingInv(s: Scope, choice: T.Choice)
    requires Inv(s) && s.phase.Finishing?
    ensures Inv(OwnerFinishing(s, choice))
  {
    hide T.Inv, T.Poll, Retire;
    var (tx, result) := T.Poll(s.slots.tx, choice);
    T.PollInv(s.slots.tx, choice);
    T.PollKeepsOwned(s.slots.tx, choice);
    if result.Ready? {
      RetireInv(Advance(s, tx), Returned(if s.phase.result.Some? then s.phase.result else result.error));
    }
  }

  lemma PollOwnerInv(s: Scope, choice: T.Choice, rows: nat)
    requires Inv(s)
    ensures Inv(PollOwner(s, choice, rows))
  {
    hide OwnerOpening, OwnerLocking, OwnerClosing, OwnerFinishing, T.Inv, SharedInv;
    match s.phase
    case Opening(_) => OwnerOpeningInv(s, choice);
    case Locking => OwnerLockingInv(s, choice, rows);
    case Closing(_, _, _) => OwnerClosingInv(s);
    case Finishing(_) => OwnerFinishingInv(s, choice);
    case _ =>
  }

  lemma EndClosureInv(s: Scope, ok: bool)
    requires Inv(s)
    ensures Inv(EndClosure(s, ok))
  {
    hide T.Inv, SharedInv, SlotsIdle;
  }

  lemma DropOwnerInv(s: Scope)
    requires Inv(s)
    ensures Inv(DropOwner(s))
  {
    hide T.Inv, SharedInv, Retire;
    T.CancelInv(s.slots.tx);
    if s.phase.Opening? || s.phase.Locking? || s.phase.Finishing? {
      RetireInv(Advance(s, T.DropTx(s.slots.tx)), Gone);
    }
  }

  lemma ServerMoveInv(s: Scope, move: Move)
    requires Inv(s)
    ensures Inv(Advance(s, T.Serve(s.slots.tx, move)))
  {
    hide T.Inv, Server.Serve;
    T.ServeInv(s.slots.tx, move);
  }

  lemma StepInv(s: Scope, event: Event)
    requires Inv(s)
    ensures Inv(Step(s, event).0)
  {
    hide Inv, PollOwner, EndClosure, DropOwner, Recheck, Install, PollOperation, DropOperation;
    hide StartOperation, GrantSerial, StartStream, PollStream, DropStream, T.Serve;
    match event
    case OwnerPolls(choice, rows) => PollOwnerInv(s, choice, rows);
    case ClosureEnds(ok) => EndClosureInv(s, ok);
    case OwnerDropped => DropOwnerInv(s);
    case OperationStarts(id, inside) => StartOperationInv(s, id, inside);
    case SerialGranted(f) => GrantSerialInv(s, f);
    case OperationRechecks(f) => RecheckInv(s, f);
    case OperationInstalls(f) => InstallInv(s, f);
    case OperationPolled(f, inside, choice) => PollOperationInv(s, f, inside, choice);
    case OperationDropped(f) => RecheckInv(s, f);
    case StreamStarts(id, inside) => StartStreamInv(s, id, inside);
    case StreamPolled(h, inside, choice, mapperFails) => PollStreamInv(s, h, inside, choice, mapperFails);
    case StreamDropped(h) => PollStreamInv(s, h, false, T.Choice(true, true, T.Accept), false);
    case ServerMoves(move) => ServerMoveInv(s, move);
  }

  lemma {:induction false} RunInv(s: Scope, events: seq<Event>)
    requires Inv(s)
    ensures Inv(Run(s, events))
    decreases |events|
  {
    hide Inv, Step;
    if events != [] {
      RunInv(s, events[..|events| - 1]);
      StepInv(Run(s, events[..|events| - 1]), events[|events| - 1]);
    }
  }

  // ---------------------------------------------------------------- theorems

  /** What the result of a scope says about the database. */
  lemma ReturnedMeans(s: Scope)
    requires Inv(s)
    ensures var tx := s.slots.tx;
      && (s.phase == Returned(None) ==> tx.conn.published == tx.acked == tx.begun)
      && (s.phase.Returned? && s.phase.result.Some? && T.Definite(tx.conn.backend, s.phase.result.value) ==>
            tx.conn.published == [])
  {
    hide T.Synchronised, CommitRefused, TokensInv;
  }

  /** Scope atomicity, over every interleaving of polls, drops, retained handles, panics and
      cancellation. What the database holds is nothing or all of the acknowledged statements,
      in order. A scope that returned Ok published them, and no statement it began was cut
      short; a scope that returned a definite error, and a scope dropped before COMMIT was
      sent, published nothing. */
  lemma {:induction false} ScopeAtomicity(backend: Backend, lock: LockRequest, events: seq<Event>)
    ensures var s := Run(Init(backend, lock), events);
      var tx := s.slots.tx;
      && (tx.conn.published == [] || tx.conn.published == tx.acked)
      && (s.phase == Returned(None) ==> tx.conn.published == tx.acked == tx.begun)
      && (s.phase.Returned? && s.phase.result.Some? && T.Definite(tx.conn.backend, s.phase.result.value) ==>
            tx.conn.published == [])
      && (!tx.commitSent ==> tx.conn.published == [])
  {
    InitInv(backend, lock);
    RunInv(Init(backend, lock), events);
    ReturnedMeans(Run(Init(backend, lock), events));
    hide T.Synchronised, T.Definite, Run;
  }

  /** Inside the scope the server mirrors the acknowledged statements whenever the transaction
      is not rollback-only. */
  lemma {:induction false} ScopeSimulation(backend: Backend, lock: LockRequest, events: seq<Event>)
    ensures var s := Run(Init(backend, lock), events);
      var tx := s.slots.tx;
      s.phase.Active? && !tx.aborted ==>
        && tx.run.None? && tx.conn.inflight.None? && tx.begun == tx.acked
        && (tx.conn.live ==> T.Healthy(tx))
  {
    InitInv(backend, lock);
    RunInv(Init(backend, lock), events);
  }

  /** Exclusivity: at most one future holds the transaction guard, and it sits in a slot; the
      transaction runs something only on behalf of that future. */
  lemma {:induction false} GuardExclusive(backend: Backend, lock: LockRequest, events: seq<Event>)
    ensures var s := Run(Init(backend, lock), events);
      && !(Holds(s.slots.cursor) && Holds(s.slots.operation))
      && (s.slots.guard.holder.Some? ==>
            || Occupies(s.slots.cursor, s.slots.guard.holder.value)
            || Occupies(s.slots.operation, s.slots.guard.holder.value))
      && (Shared(s) && s.slots.tx.run.Some? ==> Holds(s.slots.cursor) || Holds(s.slots.operation))
  {
    InitInv(backend, lock);
    RunInv(Init(backend, lock), events);
  }

  /** Teardown never blocks and nothing keeps the connection: once both slots are empty the
      mutex is free and still contains the transaction, and once the scope is over the
      transaction is gone from it, whatever handles survive. */
  lemma {:induction false} TeardownNeverBlocks(backend: Backend, lock: LockRequest, events: seq<Event>)
    ensures var s := Run(Init(backend, lock), events);
      && (s.phase.Closing? && s.phase.taken >= 2 ==> s.slots.guard.holder.None? && s.slots.stored)
      && (s.phase.Returned? || s.phase.Gone? ==>
            !s.slots.stored && s.slots.tx.dropped && s.slots.tx.run.None? && s.slots.guard.holder.None?)
  {
    InitInv(backend, lock);
    RunInv(Init(backend, lock), events);
  }

  /** The first error or end of a stream is final: the handle is over, and over it stays. */
  lemma StreamEndsOnce(s: Scope, h: Token, inside: bool, choice: T.Choice, mapperFails: bool)
    requires Inv(s) && h in s.handles
    ensures var (next, output) := PollStream(s, h, inside, choice, mapperFails);
      output.End? || output.Refused? || (output.Polled? && output.result.Ready?) ==> next.handles[h].Over?
  {
    hide T.Inv;
    if Current(s, inside) && Occupies(s.slots.cursor, h) {
      if s.slots.tx.run.Some? { T.PollKeepsBorrow(s.slots.tx, choice); }
      else { T.StartKeepsBorrow(s.slots.tx, s.slots.cursor.value.op); }
    }
  }

  predicate StreamOver(s: Scope, h: Token) {
    h in s.handles && s.handles[h].Over? && h < s.next
  }

  lemma StepKeepsOver(s: Scope, h: Token, event: Event)
    requires StreamOver(s, h)
    ensures StreamOver(Step(s, event).0, h)
  {
    hide T.Poll, T.Start, TakeCursor, TakeOperation, PollEntry;
  }

  lemma {:induction false} StreamStaysOver(s: Scope, h: Token, events: seq<Event>, inside: bool, choice: T.Choice,
                                           mapperFails: bool)
    requires StreamOver(s, h)
    ensures var later := Run(s, events);
      StreamOver(later, h) && PollStream(later, h, inside, choice, mapperFails) == (later, End)
    decreases |events|
  {
    hide Step;
    if events != [] {
      StreamStaysOver(s, h, events[..|events| - 1], inside, choice, mapperFails);
      StepKeepsOver(Run(s, events[..|events| - 1]), h, events[|events| - 1]);
    }
  }
}
