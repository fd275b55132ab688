/** The write scope as the shared object src/scoped.rs has: slots filled and taken in place, a
    `closed` flag, and drop handlers that clear only their own entry. Each method is one atomic
    action, proved against the step function of the scope machine. */
module ScopeObjects {
  import opened Common
  import opened Server
  import opened Scopes
  import T = Transactions
  import opened TransactionObjects
  import opened ScopeConfinement

  class WriteScope {
    const transaction: Transaction
    var phase: Phase
    var stored: bool
    var guard: Mutex
    var cursor: Option<Entry>
    var operation: Option<Entry>
    var closed: bool
    var serial: Option<Token>
    var frames: map<Token, Frame>
    var handles: map<Token, Handle>
    var next: Token

    ghost function SlotsState(): Slots
      reads this, transaction
    {
      Slots(transaction.State(), stored, guard, cursor, operation)
    }

    ghost function State(): Scope
      reads this, transaction
    {
      Scope(phase, SlotsState(), closed, serial, frames, handles, next)
    }

    ghost predicate Valid()
      reads this, transaction
    {
      Inv(State())
    }

    constructor (backend: Backend, lock: LockRequest)
      ensures Valid() && State() == Init(backend, lock) && fresh(transaction)
    {
      transaction := new Transaction(backend);
      phase := Opening(lock);
      stored, guard, cursor, operation := false, Mutex(None, []), None, None;
      closed, serial, frames, handles, next := false, None, map[], map[], 0;
      new;
      InitInv(backend, lock);
    }

    method ReleaseGuard()
      modifies this`guard
      ensures guard == Scopes.Release(old(guard))
    {
      if guard.queue == [] {
        guard := Mutex(None, []);
      } else {
        guard := Mutex(Some(guard.queue[0]), guard.queue[1..]);
      }
    }

    /** Drop a future that was taken out of its slot. */
    method DropFuture(e: Entry)
      requires transaction.Valid()
      modifies this`guard, transaction
      ensures transaction.Valid() && SlotsState() == DropEntry(old(SlotsState()), e)
    {
      if e.future.Holding? {
        transaction.Abandon();
        ReleaseGuard();
      } else if e.future.Queued? {
        if guard.holder == Some(e.token) {
          ReleaseGuard();
        } else {
          guard := guard.(queue := Without(guard.queue, e.token));
        }
      }
    }

    /** `cursor.take()`. */
    method ClearCursor()
      requires transaction.Valid()
      modifies this`cursor, this`guard, transaction
      ensures transaction.Valid() && SlotsState() == TakeCursor(old(SlotsState()))
    {
      if cursor.Some? {
        var e := cursor.value;
        cursor := None;
        DropFuture(e);
      }
    }

    /** `operation.take()`. */
    method ClearOperation()
      requires transaction.Valid()
      modifies this`operation, this`guard, transaction
      ensures transaction.Valid() && SlotsState() == TakeOperation(old(SlotsState()))
    {
      if operation.Some? {
        var e := operation.value;
        operation := None;
        DropFuture(e);
      }
    }

    /** Poll the future of an entry. */
    method PollFuture(e: Entry, choice: T.Choice) returns (future: Option<Future>, result: T.PollResult)
      requires SharedInv(SlotsState()) && transaction.Valid() && (cursor == Some(e) || operation == Some(e))
      modifies this`guard, transaction
      ensures transaction.Valid() && (SlotsState(), future, result) == PollEntry(old(SlotsState()), e, choice)
    {
      hide T.Inv, T.Poll, T.Start;
      future, result := Some(Queued), T.Pending;
      if e.future.Unpolled? && guard.holder.Some? {
        guard := guard.(queue := guard.queue + [e.token]);
        return;
      }
      if e.future.Unpolled? {
        guard := guard.(holder := Some(e.token));
      } else if e.future.Queued? && guard.holder != Some(e.token) {
        return;
      }
      if e.future.Holding? {
        result := transaction.Continue(choice);
      } else {
        result := transaction.Issue(e.op);
      }
      if result.Ready? {
        future := None;
        ReleaseGuard();
      } else {
        future := Some(Holding);
      }
    }

    /** Poll the future in the cursor slot and clear the slot once it is ready. */
    method PollCursor(choice: T.Choice) returns (result: T.PollResult)
      requires Valid() && phase.Active? && cursor.Some?
      modifies this`cursor, this`guard, transaction
      ensures Valid() && result == PollCursorSlot(old(SlotsState()), choice).1
      ensures State() == old(State()).(slots := PollCursorSlot(old(SlotsState()), choice).0)
    {
      PollCursorShared(SlotsState(), choice);
      hide T.Inv, PollEntry, SharedInv;
      var e := cursor.value;
      var future;
      future, result := PollFuture(e, choice);
      cursor := if future.None? then None else Some(e.(future := future.value));
    }

    /** Poll the future in the operation slot and clear the slot once it is ready. */
    method PollOperationFuture(choice: T.Choice) returns (result: T.PollResult)
      requires Valid() && phase.Active? && operation.Some?
      modifies this`operation, this`guard, transaction
      ensures Valid() && result == PollOperationSlot(old(SlotsState()), choice).1
      ensures State() == old(State()).(slots := PollOperationSlot(old(SlotsState()), choice).0)
    {
      PollOperationShared(SlotsState(), choice);
      hide T.Inv, PollEntry, SharedInv;
      var e := operation.value;
      var future;
      future, result := PollFuture(e, choice);
      operation := if future.None? then None else Some(e.(future := future.value));
    }

    // -------------------------------------------------------------- handles

    /** `Drop for OperationHandle`, then the serialising lock is released. */
    method EndOperation(f: Token)
      requires Valid() && f in frames
      modifies this, transaction
      ensures Valid() && State() == EndFrame(old(State()), f)
    {
      EndFrameInv(State(), f);
      hide T.Inv, TakeOperation;
      if operation.Some? && operation.value.token == f {
        ClearOperation();
      }
      if serial == Some(f) {
        serial := None;
      }
      frames := frames[f := Ended];
    }

    /** Assigning the slot drops what it contained, which is nothing. */
    method InstallOperation(f: Token)
      requires Valid() && f in frames && frames[f].Admitted?
      modifies this
      ensures Valid() && State() == Install(old(State()), f)
      ensures old(operation).None? && operation.Some?
    {
      InstallFindsSlotEmpty(State(), f);
      InstallInv(State(), f);
      hide T.Inv;
      operation := Some(Entry(f, frames[f].op, Unpolled));
      frames := frames[f := Installed];
    }

    /** The `poll_fn` of `operate`: the scope must be open and current, and the slot must carry
        the handle's own token. */
    method PollInstalled(f: Token, inside: bool, choice: T.Choice) returns (output: Output)
      requires Valid() && f in frames && frames[f].Installed?
      modifies this, transaction
      ensures Valid() && (State(), output) == PollOperation(old(State()), f, inside, choice)
      ensures output.Refused? ==> transaction.connection == old(transaction.connection) && transaction.begun == old(transaction.begun)
      ensures cursor == old(cursor) && OnlyOwn(old(operation), operation, f)
    {
      OperationPollFacts(State(), f, inside, choice);
      hide Inv, EndFrame, PollOperationSlot, OnlyOwn;
      if closed || !(inside && phase.Active?) || !(operation.Some? && operation.value.token == f) {
        EndOperation(f);
        return Refused(T.ScopeDatabaseMismatch);
      }
      var result := PollOperationFuture(choice);
      if operation.None? {
        EndOperation(f);
      }
      output := Polled(result);
    }

    /** `ScopedRows::finish`: clear the cursor slot only if it bears the stream's token. */
    method EndStream(h: Token)
      requires Valid() && h in handles
      modifies this, transaction
      ensures Valid() && State() == FinishStream(old(State()), h)
    {
      FinishStreamInv(State(), h);
      hide T.Inv, TakeCursor;
      if cursor.Some? && cursor.value.token == h {
        ClearCursor();
      }
      handles := handles[h := Over];
    }

    /** `ScopedRows::poll_next` after the stream started. */
    method PollRows(h: Token, inside: bool, choice: T.Choice, mapperFails: bool) returns (output: Output)
      requires Valid() && h in handles
      modifies this, transaction
      ensures Valid() && (State(), output) == PollStream(old(State()), h, inside, choice, mapperFails)
      ensures output == Refused(T.ScopeDatabaseMismatch) || output.End? ==>
        transaction.connection == old(transaction.connection) && transaction.begun == old(transaction.begun)
      ensures operation == old(operation) && OnlyOwn(old(cursor), cursor, h)
    {
      StreamPollFacts(State(), h, inside, choice, mapperFails);
      hide Inv, FinishStream, PollCursorSlot, OnlyOwn;
      if handles[h].Over? {
        return End;
      }
      if closed || !(inside && phase.Active?) || !(cursor.Some? && cursor.value.token == h) {
        EndStream(h);
        return Refused(T.ScopeDatabaseMismatch);
      }
      var result := PollCursor(choice);
      var unmappable := result.Row? && mapperFails;
      if unmappable || cursor.None? {
        EndStream(h);
      }
      output := if unmappable then Refused(T.Decode) else Polled(result);
    }

    // -------------------------------------------------------------- other handle actions

    /** `Scope::available`. */
    function Check(): (refusal: Option<T.Error>)
      reads this
      ensures refusal == Available(State())
    {
      if closed then Some(T.ScopeDatabaseMismatch) else if cursor.Some? then Some(T.ActiveStream) else None
    }

    /** `ScopedDatabase::run` up to the serialising lock. */
    method BeginOperation(id: StatementId, inside: bool) returns (output: Output)
      requires Valid()
      modifies this
      ensures Valid() && (State(), output) == StartOperation(old(State()), id, inside)
    {
      StartOperationInv(State(), id, inside);
      hide Inv;
      if !(inside && phase.Active?) {
        return Refused(T.NoActiveWriteScope);
      }
      if Check().Some? {
        return Refused(Check().value);
      }
      frames := frames[next := Waiting(T.Statement(id))];
      next := next + 1;
      output := Silent;
    }

    method LockSerial(f: Token)
      requires Valid() && f in frames && frames[f].Waiting? && serial.None?
      modifies this
      ensures Valid() && State() == GrantSerial(old(State()), f)
    {
      GrantSerialInv(State(), f);
      hide Inv;
      serial := Some(f);
      frames := frames[f := Entered(frames[f].op)];
    }

    /** The second look at the scope, under the serialising lock. */
    method CheckAgain(f: Token) returns (output: Output)
      requires Valid() && f in frames && frames[f].Entered?
      modifies this, transaction
      ensures Valid() && (State(), output) == Recheck(old(State()), f)
    {
      RecheckInv(State(), f);
      hide Inv, EndFrame;
      if Check().Some? {
        output := Refused(Check().value);
        EndOperation(f);
        return;
      }
      frames := frames[f := Admitted(frames[f].op)];
      output := Silent;
    }

    /** The first poll of a stream. */
    method BeginStream(id: StatementId, inside: bool) returns (output: Output)
      requires Valid()
      modifies this
      ensures Valid() && (State(), output) == StartStream(old(State()), id, inside)
    {
      StartStreamInv(State(), id, inside);
      hide Inv;
      var h := next;
      next := h + 1;
      if !(inside && phase.Active?) {
        handles := handles[h := Over];
        return Refused(T.NoActiveWriteScope);
      }
      if Check().Some? {
        handles := handles[h := Over];
        return Refused(Check().value);
      }
      cursor := Some(Entry(h, T.Stream(id), Unpolled));
      handles := handles[h := Bound];
      output := Silent;
    }

    // -------------------------------------------------------------- owner

    /** Take the transaction out of the mutex and consume it. */
    method TakeTransaction(op: T.Operation, result: Option<T.Error>)
      requires TokensInv(State()) && SlotsIdle(SlotsState()) && transaction.Valid()
      requires transaction.running.None? && !transaction.dropped
      requires op == (if result.Some? then T.RollbackTx else T.CommitTx)
      modifies this, transaction
      ensures Valid() && State() == Consume(old(State()), old(transaction.State()), op, result)
    {
      ConsumeInv(State(), transaction.State(), op, result);
      hide T.Inv, T.Start;
      stored := false;
      var started := transaction.Issue(op);
      phase := Finishing(result);
    }

    /** `Drop for ScopeOwner` once the transaction is gone. */
    method Retires(end: Phase)
      requires transaction.Valid()
      modifies this, transaction
      ensures transaction.Valid() && State() == Retire(old(State()), end)
    {
      hide T.Inv, TakeCursor, TakeOperation;
      closed := true;
      ClearCursor();
      ClearOperation();
      phase := end;
    }

    /** The next action of the teardown after the closure: empty the cursor slot, then the
        operation slot, then take the transaction. The mutex is never found held. */
    method TearDown()
      requires Valid() && phase.Closing?
      modifies this, transaction
      ensures Valid() && State() == OwnerClosing(old(State()))
      ensures old(phase.taken) >= 2 ==> old(guard.holder).None? && !stored
    {
      OwnerClosingInv(State());
      var p := phase;
      if p.taken == 0 {
        hide T.Inv, TakeCursor;
        phase := p.(taken := 1, activeStream := cursor.Some?);
        ClearCursor();
      } else if p.taken == 1 {
        hide T.Inv, TakeOperation;
        ClearOperation();
        phase := p.(taken := 2);
      } else {
        SharedFacts(SlotsState());
        hide T.Inv, SharedInv, T.DropTx, Consume, Retire;
        if p.ending.Unwinds? {
          stored := false;
          var closes := transaction.Discard();
          Retires(Gone);
        } else if !p.ending.ok {
          TakeTransaction(T.RollbackTx, Some(T.Application));
        } else if p.activeStream {
          TakeTransaction(T.RollbackTx, Some(T.ActiveStream));
        } else {
          TakeTransaction(T.CommitTx, None);
        }
      }
    }

    /** `enter` up to the scope's closure: BEGIN, then the optional row lock. */
    method Open(choice: T.Choice)
      requires Valid() && phase.Opening?
      modifies this, transaction
      ensures Valid() && State() == OwnerOpening(old(State()), choice)
    {
      OwnerOpeningInv(State(), choice);
      T.PollKeepsOwned(transaction.State(), choice);
      hide T.Inv, T.Poll, T.Start, Consume, Retire;
      var lock := phase.lock;
      var result := transaction.Continue(choice);
      if result.Ready? {
        if result.error.Some? {
          Retires(Returned(result.error));
        } else if lock.NoLock? {
          stored := true;
          phase := Active;
        } else if lock.BadLock? {
          TakeTransaction(T.RollbackTx, Some(T.InvalidLock));
        } else {
          var started := transaction.Issue(T.Statement(lock.id));
          phase := Locking;
        }
      }
    }

    /** The row lock of `write_locking`: exactly one row must answer. */
    method AcquireRow(choice: T.Choice, rows: nat)
      requires Valid() && phase.Locking?
      modifies this, transaction
      ensures Valid() && State() == OwnerLocking(old(State()), choice, rows)
    {
      OwnerLockingInv(State(), choice, rows);
      T.PollKeepsBorrow(transaction.State(), choice);
      hide T.Inv, T.Poll, Consume;
      var result := transaction.Continue(choice);
      if result.Ready? {
        if result.error.Some? {
          TakeTransaction(T.RollbackTx, result.error);
        } else if rows == 0 {
          TakeTransaction(T.RollbackTx, Some(T.LockNotFound));
        } else if rows > 1 {
          TakeTransaction(T.RollbackTx, Some(T.NonUniqueLock));
        } else {
          stored := true;
          phase := Active;
        }
      }
    }

    /** The COMMIT or ROLLBACK that ends the scope. */
    method Conclude(choice: T.Choice)
      requires Valid() && phase.Finishing?
      modifies this, transaction
      ensures Valid() && State() == OwnerFinishing(old(State()), choice)
      ensures phase == Returned(None) ==> transaction.connection.published == transaction.acked == transaction.begun
      ensures phase.Returned? && phase.result.Some? && T.Definite(transaction.connection.backend, phase.result.value) ==>
        transaction.connection.published == []
    {
      OwnerFinishingInv(State(), choice);
      ReturnedMeans(OwnerFinishing(State(), choice));
      hide T.Inv, T.Poll, Retire, T.Definite;
      var earlier := phase.result;
      var result := transaction.Continue(choice);
      if result.Ready? {
        Retires(Returned(if earlier.Some? then earlier else result.error));
      }
    }

    /** The future of `enter` is dropped, or a panic unwinds through it. */
    method Unwind()
      requires Valid()
      modifies this, transaction
      ensures Valid() && State() == DropOwner(old(State()))
    {
      DropOwnerInv(State());
      hide T.Inv, T.DropTx, Retire, SharedInv;
      if phase.Active? {
        closed := true;
        phase := Closing(Unwinds, 0, false);
      } else if phase.Closing? {
        if phase.taken >= 2 && phase.ending.Returns? {
          phase := Closing(Unwinds, 0, false);
        }
      } else if !phase.Returned? && !phase.Gone? {
        var closes := transaction.Discard();
        Retires(Gone);
      }
    }
  }
}
