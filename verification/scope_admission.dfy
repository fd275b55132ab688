/** Who gets into a write scope: when operations and streams are admitted, when they are refused
    and with what, and that a stream keeps operations out while it is open. */
module ScopeAdmission {
  import opened Common
  import opened Server
  import opened Scopes
  import T = Transactions

  /** Open, and no stream in the cursor slot. */
  predicate HasRoom(s: Scope) {
    !s.closed && s.slots.cursor.None?
  }

  predicate Becomes(s: Scope, next: Scope, f: Token, frame: Frame) {
    f in next.frames && next.frames[f] == frame && !(f in s.frames && s.frames[f] == frame)
  }

  /** Whatever happens, an operation newly waits only if it starts inside an active scope with
      room, and is newly admitted only in a scope with room. */
  lemma AdmissionNeedsRoom(s: Scope, event: Event, f: Token, frame: Frame)
    requires Becomes(s, Step(s, event).0, f, frame) && (frame.Waiting? || frame.Admitted?)
    ensures HasRoom(s)
    ensures frame.Waiting? ==> event.OperationStarts? && event.inside && s.phase.Active? && f == s.next
    ensures frame.Admitted? ==> f in s.frames && s.frames[f] == Entered(frame.op)
  {
    hide TakeCursor, TakeOperation, PollCursorSlot, PollOperationSlot, T.Poll, T.Start, T.Serve;
  }

  /** The first look of an operation. */
  lemma StartIsAnswered(s: Scope, id: StatementId, inside: bool)
    ensures var (next, output) := Step(s, OperationStarts(id, inside));
      if !inside || !s.phase.Active? then next == s && output == Refused(T.NoActiveWriteScope)
      else if s.closed then next == s && output == Refused(T.ScopeDatabaseMismatch)
      else if s.slots.cursor.Some? then next == s && output == Refused(T.ActiveStream)
      else
        && output == Silent && next.slots == s.slots && next.serial == s.serial
        && s.next in next.frames && next.frames[s.next] == Waiting(T.Statement(id))
  {
  }

  /** An operation that is over holds neither the slot nor the serialising lock. */
  predicate LetGo(s: Scope, f: Token) {
    f in s.frames && s.frames[f].Ended? && !Occupies(s.slots.operation, f) && s.serial != Some(f)
  }

  lemma EndLetsGo(s: Scope, f: Token)
    ensures LetGo(EndFrame(s, f), f)
  {
    hide T.Cancel;
  }

  /** The second look, under the serialising lock: the same refusals, after which the operation
      has let go of everything. */
  lemma RecheckIsAnswered(s: Scope, f: Token)
    requires f in s.frames && s.frames[f].Entered?
    ensures var (next, output) := Step(s, OperationRechecks(f));
      if s.closed then LetGo(next, f) && output == Refused(T.ScopeDatabaseMismatch)
      else if s.slots.cursor.Some? then LetGo(next, f) && output == Refused(T.ActiveStream)
      else output == Silent && next.slots == s.slots && next.frames[f] == Admitted(s.frames[f].op)
  {
    EndLetsGo(s, f);
    hide EndFrame;
  }

  /** A poll of an installed operation is refused exactly when the scope is closed, not current or
      no longer has the operation, and then the operation lets go of everything. */
  lemma PollIsAnswered(s: Scope, f: Token, inside: bool, choice: T.Choice)
    requires f in s.frames && s.frames[f].Installed?
    ensures var (next, output) := Step(s, OperationPolled(f, inside, choice));
      if s.closed || !inside || !s.phase.Active? || !Occupies(s.slots.operation, f) then
        LetGo(next, f) && output == Refused(T.ScopeDatabaseMismatch)
      else output.Polled? && (next.slots.operation.None? ==> LetGo(next, f))
  {
    EndLetsGo(s, f);
    if s.slots.operation.Some? { EndLetsGo(s.(slots := PollOperationSlot(s.slots, choice).0), f); }
    hide EndFrame, PollOperationSlot, LetGo;
    if s.slots.operation.Some? { EndKeepsEmpty(s.(slots := PollOperationSlot(s.slots, choice).0), f); }
  }

  lemma EndKeepsEmpty(s: Scope, f: Token)
    ensures s.slots.operation.None? ==> EndFrame(s, f).slots.operation.None?
  {
  }

  /** The first poll of a stream: refused for good outside a scope and where there is no room, and
      otherwise bound to a fresh entry of the cursor slot. */
  lemma StreamIsAnswered(s: Scope, id: StatementId, inside: bool)
    ensures var (next, output) := Step(s, StreamStarts(id, inside));
      && s.next in next.handles && next.slots.operation == s.slots.operation && next.slots.tx == s.slots.tx
      && if inside && s.phase.Active? && HasRoom(s) then
           && output == Silent && next.handles[s.next].Bound?
           && next.slots.cursor == Some(Entry(s.next, T.Stream(id), Unpolled))
         else
           && next.handles[s.next].Over? && next.slots == s.slots
           && output == Refused(if !inside || !s.phase.Active? then T.NoActiveWriteScope
                                else if s.closed then T.ScopeDatabaseMismatch else T.ActiveStream)
  {
  }

  /** A later poll of a stream: nothing once it is over, a mismatch where the scope is closed, not
      current or no longer has it, the mapper's failure instead of a row, and otherwise what its
      cursor yields. */
  lemma StreamPollIsAnswered(s: Scope, h: Token, inside: bool, choice: T.Choice, mapperFails: bool)
    requires h in s.handles
    ensures var (next, output) := Step(s, StreamPolled(h, inside, choice, mapperFails));
      if s.handles[h].Over? then output == End && next == s
      else if s.closed || !inside || !s.phase.Active? || !Occupies(s.slots.cursor, h) then
        output == Refused(T.ScopeDatabaseMismatch) && next.handles[h].Over?
      else
        var result := PollCursorSlot(s.slots, choice).1;
        if result == T.Row && mapperFails then output == Refused(T.Decode) && next.handles[h].Over? && !Occupies(next.slots.cursor, h)
        else output == Polled(result)
  {
    TakeEmpties(s.slots);
    if s.slots.cursor.Some? { TakeEmpties(PollCursorSlot(s.slots, choice).0); }
    hide PollCursorSlot, TakeCursor;
  }

  lemma TakeEmpties(s: Slots)
    ensures TakeCursor(s).cursor.None?
  {
    hide T.Cancel;
  }

  /** The cursor slot is occupied all along. */
  predicate StreamThroughout(s: Scope, events: seq<Event>) {
    forall k :: 0 <= k <= |events| ==> Run(s, events[..k]).slots.cursor.Some?
  }

  /** A stream keeps operations out: as long as it occupies the cursor slot, whatever happens, no
      operation newly waits for the transaction or is newly admitted to it. */
  lemma {:induction false} StreamKeepsOperationsOut(s: Scope, events: seq<Event>, f: Token, frame: Frame)
    requires StreamThroughout(s, events) && (frame.Waiting? || frame.Admitted?)
    requires f in Run(s, events).frames && Run(s, events).frames[f] == frame
    ensures f in s.frames && s.frames[f] == frame
    decreases |events|
  {
    hide Step;
    if events != [] {
      var n := |events| - 1;
      var before := Run(s, events[..n]);
      assert before.slots.cursor.Some?;
      if Becomes(before, Run(s, events), f, frame) {
        AdmissionNeedsRoom(before, events[n], f, frame);
        assert false;
      }
      assert forall k :: 0 <= k <= n ==> events[..n][..k] == events[..k];
      StreamKeepsOperationsOut(s, events[..n], f, frame);
    }
  }

  // ---------------------------------------------------------------- the transaction mutex

  /** Who gets the transaction: the future whose turn it is begins its operation, any other first
      joins the queue and then waits; a future that is ready hands the guard to the first waiter. */
  lemma GuardIsGranted(s: Slots, e: Entry, choice: T.Choice)
    requires SharedInv(s) && (s.cursor == Some(e) || s.operation == Some(e)) && !e.future.Holding?
    ensures var (next, future, result) := PollEntry(s, e, choice);
      var turn := s.guard.holder == Some(e.token) || (e.future.Unpolled? && s.guard.holder.None?);
      if !turn then
        && result == T.Pending && future == Some(Queued) && next.tx == s.tx && next.guard.holder == s.guard.holder
        && next.guard.queue == if e.future.Unpolled? then s.guard.queue + [e.token] else s.guard.queue
      else
        && (next.tx, result) == T.Start(s.tx, e.op)
        && (result.Ready? ==>
              future.None? && next.guard.holder == if s.guard.queue == [] then None else Some(s.guard.queue[0]))
        && (!result.Ready? ==> future == Some(Holding) && next.guard.holder == Some(e.token))
  {
    hide T.Start;
  }

  /** A future that gets the guard after the transaction was taken out reports
      `TransactionAborted` and touches nothing. */
  lemma EmptiedMutexRefuses(s: Slots, e: Entry, choice: T.Choice)
    requires !s.stored && s.guard == Mutex(None, []) && e.future.Unpolled?
    ensures PollEntry(s, e, choice) == (s, None, T.Ready(Some(T.TransactionAborted)))
  {
  }

  // ---------------------------------------------------------------- early drops

  /** A stream or operation dropped before its end, whoever drops it, makes the transaction
      rollback-only if it had begun to use it. */
  lemma EarlyDropAborts(s: Slots)
    requires T.Inv(s.tx) && SharedInv(s)
    ensures Holds(s.cursor) ==> T.RollbackOnly(TakeCursor(s).tx)
    ensures Holds(s.operation) ==> T.RollbackOnly(TakeOperation(s).tx)
  {
    if s.tx.run.Some? { T.CancelledStatementAborts(s.tx); }
    hide T.Inv, T.RollbackOnly, T.Cancel;
  }

  /** A stream ended by its mapper aborts the transaction likewise. */
  lemma FailedMappingAborts(s: Scope, h: Token, choice: T.Choice)
    requires Inv(s) && h in s.handles
    requires Step(s, StreamPolled(h, true, choice, true)).1 == Refused(T.Decode)
    ensures T.RollbackOnly(Step(s, StreamPolled(h, true, choice, true)).0.slots.tx)
  {
    var polled := PollCursorSlot(s.slots, choice).0;
    PollCursorShared(s.slots, choice);
    RowKeepsHolding(s.slots, choice);
    EarlyDropAborts(polled);
    hide T.Inv, T.Poll, T.Start, T.RollbackOnly, SharedInv, TakeCursor, TokensInv;
  }

  lemma RowKeepsHolding(s: Slots, choice: T.Choice)
    requires s.cursor.Some? && PollCursorSlot(s, choice).1 == T.Row
    ensures Holds(PollCursorSlot(s, choice).0.cursor)
  {
    hide T.Poll;
  }
}
