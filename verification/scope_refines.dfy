/** A write scope refines the explicit transaction: whatever its owner, its handles and other
    threads do, the transaction inside it sees exactly the events listed here, in this order. */
module ScopeRefinement {
  import opened Common
  import opened Server
  import opened Scopes
  import T = Transactions
  import opened TransactionRuns

  // ---------------------------------------------------------------- the transaction's own events

  function OwnDrop(slot: Option<Entry>): seq<T.Event> {
    if Holds(slot) then [T.Abandon] else []
  }

  function OwnPoll(s: Slots, e: Entry, choice: T.Choice): seq<T.Event> {
    match e.future
    case Unpolled => if s.guard.holder.None? && s.stored then [T.Issue(e.op)] else []
    case Queued => if s.guard.holder == Some(e.token) && s.stored then [T.Issue(e.op)] else []
    case Holding => if s.tx.run.None? then [] else [T.Continue(choice)]
  }

  function OwnEndFrame(s: Scope, f: Token): seq<T.Event> {
    if Occupies(s.slots.operation, f) then OwnDrop(s.slots.operation) else []
  }

  function OwnEndStream(s: Scope, h: Token): seq<T.Event> {
    if Occupies(s.slots.cursor, h) then OwnDrop(s.slots.cursor) else []
  }

  function OwnPollOperation(s: Scope, f: Token, inside: bool, choice: T.Choice): seq<T.Event> {
    if !(f in s.frames && s.frames[f].Installed?) then []
    else if s.closed || !Current(s, inside) || !Occupies(s.slots.operation, f) then OwnEndFrame(s, f)
    else OwnPoll(s.slots, s.slots.operation.value, choice)
  }

  function OwnPollStream(s: Scope, h: Token, inside: bool, choice: T.Choice, mapperFails: bool): seq<T.Event> {
    if h !in s.handles || s.handles[h].Over? then []
    else if s.closed || !Current(s, inside) || !Occupies(s.slots.cursor, h) then OwnEndStream(s, h)
    else
      var (slots, result) := PollCursorSlot(s.slots, choice);
      OwnPoll(s.slots, s.slots.cursor.value, choice) +
        if result.Row? && mapperFails then OwnDrop(slots.cursor) else []
  }

  /** What the owner begins once the polled operation is ready. */
  function OwnNext(s: Scope, result: T.PollResult, rows: nat): seq<T.Event> {
    if !result.Ready? then []
    else if s.phase.Opening? && result.error.None? then
      match s.phase.lock
      case NoLock => []
      case BadLock => [T.Issue(T.RollbackTx)]
      case LockRow(id) => [T.Issue(T.Statement(id))]
    else if s.phase.Locking? && (result.error.Some? || rows != 1) then [T.Issue(T.RollbackTx)]
    else []
  }

  function OwnClosing(s: Scope): seq<T.Event>
    requires s.phase.Closing?
  {
    var p := s.phase;
    if p.taken == 0 then OwnDrop(s.slots.cursor)
    else if p.taken == 1 then OwnDrop(s.slots.operation)
    else if s.slots.guard.holder.Some? || !s.slots.stored then []
    else if p.ending.Unwinds? then [T.Discard]
    else if !p.ending.ok || p.activeStream then [T.Issue(T.RollbackTx)]
    else [T.Issue(T.CommitTx)]
  }

  function OwnPollOwner(s: Scope, choice: T.Choice, rows: nat): seq<T.Event> {
    if s.phase.Closing? then OwnClosing(s)
    else if s.slots.tx.run.Some? && (s.phase.Opening? || s.phase.Locking? || s.phase.Finishing?) then
      [T.Continue(choice)] + OwnNext(s, T.Poll(s.slots.tx, choice).1, rows)
    else []
  }

  /** The events of the transaction that one event of the scope amounts to. */
  function Own(s: Scope, event: Event): seq<T.Event> {
    match event
    case OwnerPolls(choice, rows) => OwnPollOwner(s, choice, rows)
    case OwnerDropped =>
      if s.phase.Opening? || s.phase.Locking? || s.phase.Finishing? then [T.Discard] else []
    case OperationRechecks(f) =>
      if f in s.frames && s.frames[f].Entered? && Available(s).Some? then OwnEndFrame(s, f) else []
    case OperationInstalls(f) =>
      if f in s.frames && s.frames[f].Admitted? then OwnDrop(s.slots.operation) else []
    case OperationPolled(f, inside, choice) => OwnPollOperation(s, f, inside, choice)
    case OperationDropped(f) => if f in s.frames then OwnEndFrame(s, f) else []
    case StreamPolled(h, inside, choice, mapperFails) => OwnPollStream(s, h, inside, choice, mapperFails)
    case StreamDropped(h) => if h in s.handles then OwnEndStream(s, h) else []
    case ServerMoves(move) => [T.ServerMove(move)]
    case _ => []
  }

  // ---------------------------------------------------------------- slots

  lemma DropOwn(s: Slots)
    ensures TakeCursor(s).tx == T.Run(s.tx, OwnDrop(s.cursor))
    ensures TakeOperation(s).tx == T.Run(s.tx, OwnDrop(s.operation))
  {
    ShortRuns(s.tx, T.Abandon, T.Abandon);
  }

  lemma PollOwn(s: Slots, e: Entry, choice: T.Choice)
    requires SharedInv(s) && (s.cursor == Some(e) || s.operation == Some(e))
    ensures PollEntry(s, e, choice).0.tx == T.Run(s.tx, OwnPoll(s, e, choice))
  {
    ShortRuns(s.tx, T.Continue(choice), T.Abandon);
    ShortRuns(s.tx, T.Issue(e.op), T.Abandon);
    hide T.Poll, T.Start, T.Run;
  }

  lemma EndOwn(s: Scope, t: Token)
    ensures EndFrame(s, t).slots.tx == T.Run(s.slots.tx, OwnEndFrame(s, t))
    ensures FinishStream(s, t).slots.tx == T.Run(s.slots.tx, OwnEndStream(s, t))
  {
    DropOwn(s.slots);
    ShortRuns(s.slots.tx, T.Abandon, T.Abandon);
    hide TakeCursor, TakeOperation, T.Run;
  }

  lemma PollOperationOwn(s: Scope, f: Token, inside: bool, choice: T.Choice)
    requires Inv(s)
    ensures PollOperation(s, f, inside, choice).0.slots.tx ==
            T.Run(s.slots.tx, OwnPollOperation(s, f, inside, choice))
  {
    ShortRuns(s.slots.tx, T.Abandon, T.Abandon);
    EndOwn(s, f);
    if Current(s, inside) && s.slots.operation.Some? {
      PollOwn(s.slots, s.slots.operation.value, choice);
    }
    hide Inv, PollEntry, T.Run, TakeOperation, OwnPoll, OwnEndFrame;
  }

  lemma PollStreamOwn(s: Scope, h: Token, inside: bool, choice: T.Choice, mapperFails: bool)
    requires Inv(s)
    ensures PollStream(s, h, inside, choice, mapperFails).0.slots.tx ==
            T.Run(s.slots.tx, OwnPollStream(s, h, inside, choice, mapperFails))
  {
    ShortRuns(s.slots.tx, T.Abandon, T.Abandon);
    EndOwn(s, h);
    if Current(s, inside) && Occupies(s.slots.cursor, h) {
      PollOwn(s.slots, s.slots.cursor.value, choice);
      var slots := PollCursorSlot(s.slots, choice).0;
      var polls := OwnPoll(s.slots, s.slots.cursor.value, choice);
      DropOwn(slots);
      RunAppends(s.slots.tx, polls, OwnDrop(slots.cursor));
      assert polls + [] == polls;
      PollStreamFinishes(s, h, choice, mapperFails);
    }
    hide Inv, PollEntry, T.Run, TakeCursor, FinishStream, OwnPoll, OwnEndStream, PollCursorSlot, OwnDrop;
  }

  /** Ending a stream whose slot was emptied does nothing more; otherwise it drops the entry. */
  lemma PollStreamFinishes(s: Scope, h: Token, choice: T.Choice, mapperFails: bool)
    requires Occupies(s.slots.cursor, h)
    ensures var (slots, result) := PollCursorSlot(s.slots, choice);
      && (slots.cursor.None? ==> FinishStream(s.(slots := slots), h).slots.tx == slots.tx && TakeCursor(slots) == slots)
      && (slots.cursor.Some? ==> FinishStream(s.(slots := slots), h).slots.tx == TakeCursor(slots).tx)
  {
    hide T.Poll, T.Start, T.Cancel;
  }

  // ---------------------------------------------------------------- owner

  lemma RetireKeeps(s: Scope, phase: Phase)
    requires SlotsIdle(s.slots)
    ensures Retire(s, phase).slots.tx == s.slots.tx
  {
  }

  /** The owner polls, and may then begin the next operation on the transaction. */
  lemma OwnerRuns(tx: T.Tx, choice: T.Choice, op: T.Operation)
    requires tx.run.Some? && !op.OpenTx?
    ensures var polled := T.Poll(tx, choice).0;
      && T.Run(tx, [T.Continue(choice)]) == polled
      && (polled.run.None? && !polled.dropped ==>
            T.Run(tx, [T.Continue(choice)] + [T.Issue(op)]) == T.Start(polled, op).0)
  {
    ShortRuns(tx, T.Continue(choice), T.Issue(op));
    assert [T.Continue(choice)] + [T.Issue(op)] == [T.Continue(choice), T.Issue(op)];
    hide T.Poll, T.Start, T.Run;
  }

  lemma OwnerOpeningOwn(s: Scope, choice: T.Choice)
    requires Inv(s) && s.phase.Opening?
    ensures OwnerOpening(s, choice).slots.tx == T.Run(s.slots.tx, OwnPollOwner(s, choice, 0))
  {
    hide T.Poll, T.Start, T.Inv, T.Run, Retire, TokensInv;
    var tx := T.Poll(s.slots.tx, choice).0;
    T.PollKeepsOwned(s.slots.tx, choice);
    OwnerRuns(s.slots.tx, choice, T.RollbackTx);
    if s.phase.lock.LockRow? { OwnerRuns(s.slots.tx, choice, T.Statement(s.phase.lock.id)); }
    forall phase { RetireKeeps(Advance(s, tx), phase); }
    assert [T.Continue(choice)] + [] == [T.Continue(choice)];
  }

  lemma OwnerLockingOwn(s: Scope, choice: T.Choice, rows: nat)
    requires Inv(s) && s.phase.Locking?
    ensures OwnerLocking(s, choice, rows).slots.tx == T.Run(s.slots.tx, OwnPollOwner(s, choice, rows))
  {
    hide T.Poll, T.Start, T.Inv, T.Run, TokensInv;
    T.PollKeepsBorrow(s.slots.tx, choice);
    OwnerRuns(s.slots.tx, choice, T.RollbackTx);
    assert [T.Continue(choice)] + [] == [T.Continue(choice)];
  }

  lemma OwnerClosingOwn(s: Scope)
    requires Inv(s) && s.phase.Closing?
    ensures OwnerClosing(s).slots.tx == T.Run(s.slots.tx, OwnClosing(s))
  {
    var tx := s.slots.tx;
    DropOwn(s.slots);
    ShortRuns(tx, T.Discard, T.Abandon);
    ShortRuns(tx, T.Issue(T.RollbackTx), T.Abandon);
    ShortRuns(tx, T.Issue(T.CommitTx), T.Abandon);
    if s.phase.taken >= 2 {
      SharedFacts(s.slots);
      RetireKeeps(s.(slots := s.slots.(tx := T.DropTx(tx), stored := false)), Gone);
    }
    hide T.Start, T.Inv, T.DropTx, T.Run, TokensInv, TakeCursor, TakeOperation, SharedInv, Retire, OwnDrop;
  }

  lemma PollOwnerOwn(s: Scope, choice: T.Choice, rows: nat)
    requires Inv(s)
    ensures PollOwner(s, choice, rows).slots.tx == T.Run(s.slots.tx, OwnPollOwner(s, choice, rows))
  {
    hide T.Poll, T.Inv, T.Run, Retire, OwnerOpening, OwnerLocking, OwnerClosing, OwnClosing, SharedInv, TokensInv;
    ShortRuns(s.slots.tx, T.Abandon, T.Abandon);
    match s.phase
    case Opening(_) => OwnerOpeningOwn(s, choice);
    case Locking => OwnerLockingOwn(s, choice, rows);
    case Closing(_, _, _) => OwnerClosingOwn(s);
    case Finishing(_) =>
      OwnerRuns(s.slots.tx, choice, T.CommitTx);
      assert [T.Continue(choice)] + [] == [T.Continue(choice)];
      forall phase { RetireKeeps(Advance(s, T.Poll(s.slots.tx, choice).0), phase); }
    case _ =>
  }

  lemma DropOwnerOwn(s: Scope)
    requires Inv(s)
    ensures DropOwner(s).slots.tx == T.Run(s.slots.tx, Own(s, OwnerDropped))
  {
    ShortRuns(s.slots.tx, T.Discard, T.Abandon);
    if SlotsIdle(s.slots) { RetireKeeps(Advance(s, T.DropTx(s.slots.tx)), Gone); }
    hide T.Inv, T.DropTx, T.Run, Retire, SharedInv, TokensInv;
  }

  /** One event of a scope is, for its transaction, exactly the listed events. */
  lemma StepOwn(s: Scope, event: Event)
    requires Inv(s)
    ensures Step(s, event).0.slots.tx == T.Run(s.slots.tx, Own(s, event))
  {
    hide Inv, T.Run, T.Serve, PollOwner, DropOwner, PollOperation, PollStream, EndFrame, FinishStream, TakeOperation;
    hide OwnPollOwner, OwnPollOperation, OwnPollStream, OwnEndFrame, OwnEndStream, OwnDrop, Available;
    ShortRuns(s.slots.tx, T.Abandon, T.Abandon);
    match event
    case OwnerPolls(choice, rows) => PollOwnerOwn(s, choice, rows);
    case OwnerDropped => DropOwnerOwn(s);
    case OperationRechecks(f) => EndOwn(s, f);
    case OperationInstalls(f) => DropOwn(s.slots);
    case OperationPolled(f, inside, choice) => PollOperationOwn(s, f, inside, choice);
    case OperationDropped(f) => EndOwn(s, f);
    case StreamPolled(h, inside, choice, mapperFails) => PollStreamOwn(s, h, inside, choice, mapperFails);
    case StreamDropped(h) => EndOwn(s, h);
    case ServerMoves(move) => ShortRuns(s.slots.tx, T.ServerMove(move), T.Abandon);
    case _ =>
  }

  /** The transaction's events in a run of the scope, in order. */
  function Trace(s: Scope, events: seq<Event>): seq<T.Event>
    decreases |events|
  {
    if events == [] then []
    else
      var front := events[..|events| - 1];
      Trace(s, front) + Own(Run(s, front), events[|events| - 1])
  }

  /** In every run of a scope, the transaction it shares is where an explicitly held transaction
      arrives by its own events: the same issues, polls, drops and server moves, in the same
      order, one operation at a time. */
  lemma {:induction false} ScopeRefinesTransaction(backend: Backend, lock: LockRequest, events: seq<Event>)
    ensures var s := Init(backend, lock);
      Run(s, events).slots.tx == T.Run(T.Init(backend), Trace(s, events))
    decreases |events|
  {
    hide Step, T.Step, Own;
    if events != [] {
      var s, front := Init(backend, lock), events[..|events| - 1];
      ScopeRefinesTransaction(backend, lock, front);
      InitInv(backend, lock);
      RunInv(s, front);
      StepOwn(Run(s, front), events[|events| - 1]);
      RunAppends(T.Init(backend), Trace(s, front), Own(Run(s, front), events[|events| - 1]));
    }
  }
}
