/** How a write scope ends: what the closure's result, a stream left open and the row lock of
    `write_locking` decide, over every run. */
module ScopeResults {
  import opened Common
  import opened Server
  import opened Scopes
  import T = Transactions
  import opened TransactionRuns
  import ScopeRefinement

  // ---------------------------------------------------------------- doomed scopes

  /** The scope ends with this error and without COMMIT, or is dropped. */
  predicate Fails(s: Scope, error: T.Error) {
    && !s.slots.tx.commitSent
    && match s.phase
       case Closing(ending, taken, activeStream) =>
         || ending.Unwinds?
         || (!ending.ok && error == T.Application)
         || (ending.ok && taken >= 1 && activeStream && error == T.ActiveStream)
       case Finishing(result) => result == Some(error)
       case Returned(result) => result == Some(error)
       case Gone => true
       case _ => false
  }

  lemma OwnerKeepsFailing(s: Scope, choice: T.Choice, rows: nat, error: T.Error)
    requires Inv(s) && Fails(s, error)
    ensures Fails(PollOwner(s, choice, rows), error)
  {
    if s.phase.Closing? {
      ClosingKeepsFailing(s, error);
    } else if s.phase.Finishing? {
      T.PollKeepsOwned(s.slots.tx, choice);
      FinishingKeepsFailing(s, choice, error);
    }
    hide OwnerClosing, OwnerFinishing, T.Inv, T.Poll, TokensInv, SharedInv;
  }

  lemma RetireShape(s: Scope, phase: Phase)
    ensures Retire(s, phase).phase == phase && Retire(s, phase).slots.tx.commitSent == s.slots.tx.commitSent
  {
  }

  lemma ClosingKeepsFailing(s: Scope, error: T.Error)
    requires Inv(s) && Fails(s, error) && s.phase.Closing?
    ensures Fails(OwnerClosing(s), error)
  {
    if s.phase.taken >= 2 { TakingKeepsFailing(s, error); } else { TakesAreQuiet(s.slots); }
    hide TakeCursor, TakeOperation, Retire, Consume, T.DropTx, Inv;
  }

  /** The transaction leaves the mutex: to be dropped, or to be rolled back. */
  lemma TakingKeepsFailing(s: Scope, error: T.Error)
    requires Inv(s) && Fails(s, error) && s.phase.Closing? && s.phase.taken >= 2
    ensures Fails(OwnerClosing(s), error)
  {
    var tx := s.slots.tx;
    SharedFacts(s.slots);
    RetireShape(s.(slots := s.slots.(tx := T.DropTx(tx), stored := false)), Gone);
    assert !T.DropTx(tx).commitSent && !T.Start(tx, T.RollbackTx).0.commitSent;
    hide Retire, T.Inv, T.DropTx, T.Start, TokensInv, SharedInv;
  }

  lemma TakesAreQuiet(s: Slots)
    ensures TakeCursor(s).tx.commitSent == s.tx.commitSent && TakeOperation(s).tx.commitSent == s.tx.commitSent
  {
  }

  lemma FinishingKeepsFailing(s: Scope, choice: T.Choice, error: T.Error)
    requires Inv(s) && Fails(s, error) && s.phase.Finishing?
    ensures Fails(OwnerFinishing(s, choice), error)
  {
    T.PollInv(s.slots.tx, choice);
    T.PollKeepsOwned(s.slots.tx, choice);
    RollbackSendsNoCommit(T.Poll(s.slots.tx, choice).0);
    RetireShape(Advance(s, T.Poll(s.slots.tx, choice).0), Returned(Some(error)));
    hide T.Inv, T.Poll, TokensInv, Retire;
  }

  /** While a rollback runs, COMMIT has not been sent. */
  lemma RollbackSendsNoCommit(tx: T.Tx)
    requires T.Inv(tx)
    ensures tx.run.Some? && tx.run.value.op.RollbackTx? ==> !tx.commitSent
  {
  }

  lemma HandleKeepsFailing(s: Scope, event: Event, error: T.Error)
    requires Inv(s) && Fails(s, error) && !event.OwnerPolls?
    ensures Fails(Step(s, event).0, error)
  {
    TakesAreQuiet(s.slots);
    RetireShape(Advance(s, T.DropTx(s.slots.tx)), Gone);
    hide TakeCursor, TakeOperation, PollCursorSlot, PollOperationSlot, Retire, T.Inv, TokensInv, SharedInv, Server.Serve;
  }

  lemma {:induction false} FailsForGood(s: Scope, events: seq<Event>, error: T.Error)
    requires Inv(s) && Fails(s, error)
    ensures Fails(Run(s, events), error)
    decreases |events|
  {
    hide Step, Inv, Fails;
    if events != [] {
      var before, last := Run(s, events[..|events| - 1]), events[|events| - 1];
      FailsForGood(s, events[..|events| - 1], error);
      RunInv(s, events[..|events| - 1]);
      StepKeepsFailing(before, last, error);
    }
  }

  lemma StepKeepsFailing(s: Scope, event: Event, error: T.Error)
    requires Inv(s) && Fails(s, error)
    ensures Fails(Step(s, event).0, error)
  {
    hide Inv, Fails, PollOwner;
    if event.OwnerPolls? { OwnerKeepsFailing(s, event.choice, event.rows, error); } else { HandleKeepsFailing(s, event, error); }
  }

  /** The end of a run in which the scope fails: COMMIT was never sent, nothing is published, and
      if the scope returned it returned the error. */
  predicate FailedWith(s: Scope, error: T.Error) {
    && !s.slots.tx.commitSent && s.slots.tx.conn.published == []
    && (s.phase.Returned? ==> s.phase.result == Some(error))
  }

  lemma FailsMeans(s: Scope, error: T.Error)
    requires Inv(s) && Fails(s, error)
    ensures FailedWith(s, error)
  {
    hide T.Synchronised, TokensInv;
  }

  lemma FailsOn(s: Scope, events: seq<Event>, error: T.Error)
    requires Inv(s) && Fails(s, error)
    ensures FailedWith(Run(s, events), error)
  {
    hide Inv, Fails, Run, FailedWith;
    FailsForGood(s, events, error);
    RunInv(s, events);
    FailsMeans(Run(s, events), error);
  }

  lemma Reachable(backend: Backend, lock: LockRequest, events: seq<Event>)
    ensures Inv(Run(Init(backend, lock), events))
  {
    hide Inv, Run, Init;
    InitInv(backend, lock);
    RunInv(Init(backend, lock), events);
  }

  // ---------------------------------------------------------------- the closure's result

  /** A closure that returns an error rolls back: whatever happens afterwards, COMMIT is never
      sent, nothing is published, and the scope returns the closure's error. */
  lemma ClosureErrorRollsBack(backend: Backend, lock: LockRequest, before: seq<Event>, after: seq<Event>)
    requires Run(Init(backend, lock), before).phase.Active?
    ensures FailedWith(Run(Step(Run(Init(backend, lock), before), ClosureEnds(false)).0, after), T.Application)
  {
    hide FailedWith, Run;
    var s := Run(Init(backend, lock), before);
    Reachable(backend, lock, before);
    StepInv(s, ClosureEnds(false));
    NothingSentYet(s);
    FailsOn(Step(s, ClosureEnds(false)).0, after, T.Application);
  }

  /** While the transaction is shared, COMMIT has not been sent. */
  lemma NothingSentYet(s: Scope)
    requires Inv(s) && (Shared(s) || s.phase.Opening? || s.phase.Locking?)
    ensures !s.slots.tx.commitSent
  {
    hide TokensInv, GuardInv;
  }

  /** A closure that returns Ok with a stream still in the cursor slot rolls back likewise, and
      the scope returns `ActiveStream`. */
  lemma OpenStreamRollsBack(backend: Backend, lock: LockRequest, before: seq<Event>, choice: T.Choice, rows: nat,
                            after: seq<Event>)
    requires var s := Run(Init(backend, lock), before);
      s.phase.Closing? && s.phase.ending == Returns(true) && s.phase.taken == 0 && s.slots.cursor.Some?
    ensures FailedWith(Run(Step(Run(Init(backend, lock), before), OwnerPolls(choice, rows)).0, after), T.ActiveStream)
  {
    hide FailedWith, Run;
    var s := Run(Init(backend, lock), before);
    Reachable(backend, lock, before);
    StepInv(s, OwnerPolls(choice, rows));
    NothingSentYet(s);
    TakesAreQuiet(s.slots);
    assert Fails(Step(s, OwnerPolls(choice, rows)).0, T.ActiveStream);
    FailsOn(Step(s, OwnerPolls(choice, rows)).0, after, T.ActiveStream);
  }

  // ---------------------------------------------------------------- when a scope succeeds

  /** The closure ended with Ok or an error while the scope was active. */
  predicate ClosureEnded(s: Scope, events: seq<Event>, ok: bool) {
    exists k :: 0 <= k < |events| && events[k] == ClosureEnds(ok) && Run(s, events[..k]).phase.Active?
  }

  /** The owner emptied the cursor slot after Ok and found it empty. */
  predicate FoundNoStream(s: Scope, events: seq<Event>) {
    exists k :: 0 <= k < |events| && events[k].OwnerPolls? && EmptyAfterOk(Run(s, events[..k]))
  }

  predicate EmptyAfterOk(s: Scope) {
    s.phase.Closing? && s.phase.ending == Returns(true) && s.phase.taken == 0 && s.slots.cursor.None?
  }

  lemma Earlier(s: Scope, events: seq<Event>, ok: bool)
    requires events != []
    ensures ClosureEnded(s, events[..|events| - 1], ok) ==> ClosureEnded(s, events, ok)
    ensures FoundNoStream(s, events[..|events| - 1]) ==> FoundNoStream(s, events)
  {
    hide Run, EmptyAfterOk;
    var front := events[..|events| - 1];
    assert forall k :: 0 <= k < |front| ==> front[..k] == events[..k] && front[k] == events[k];
    if ClosureEnded(s, front, ok) {
      var k :| 0 <= k < |front| && front[k] == ClosureEnds(ok) && Run(s, front[..k]).phase.Active?;
      assert events[k] == ClosureEnds(ok) && Run(s, events[..k]).phase.Active?;
    }
    if FoundNoStream(s, front) {
      var k :| 0 <= k < |front| && front[k].OwnerPolls? && EmptyAfterOk(Run(s, front[..k]));
      assert events[k].OwnerPolls? && EmptyAfterOk(Run(s, events[..k]));
    }
  }

  /** A phase that only Ok without a stream leads to. */
  predicate Succeeding(phase: Phase) {
    || (phase.Closing? && phase.ending == Returns(true) && phase.taken >= 1 && !phase.activeStream)
    || (phase.Finishing? && phase.result.None?)
    || (phase.Returned? && phase.result.None?)
  }

  predicate ClosingOn(phase: Phase, ok: bool) {
    phase.Closing? && phase.ending == Returns(ok)
  }

  /** One step into these phases. */
  lemma StepSucceeds(s: Scope, event: Event)
    requires Inv(s)
    ensures var next := Step(s, event).0.phase;
      && (Succeeding(next) && !Succeeding(s.phase) ==> event.OwnerPolls? && EmptyAfterOk(s))
      && (forall ok :: ClosingOn(next, ok) && !ClosingOn(s.phase, ok) ==> event == ClosureEnds(ok) && s.phase.Active?)
  {
    if event.OwnerPolls? { OwnerSucceeds(s, event.choice, event.rows); } else { OthersSucceed(s, event); }
    hide PollOwner, Inv, Succeeding, ClosingOn, EmptyAfterOk;
  }

  lemma OwnerSucceeds(s: Scope, choice: T.Choice, rows: nat)
    requires Inv(s)
    ensures var next := PollOwner(s, choice, rows).phase;
      && (Succeeding(next) && !Succeeding(s.phase) ==> EmptyAfterOk(s))
      && (forall ok :: ClosingOn(next, ok) ==> ClosingOn(s.phase, ok))
  {
    if s.phase.Closing? && s.phase.taken >= 2 { SharedFacts(s.slots); }
    hide TakeCursor, TakeOperation, T.Inv, T.Poll, T.Start, TokensInv, SharedInv;
  }

  lemma OthersSucceed(s: Scope, event: Event)
    requires !event.OwnerPolls?
    ensures var next := Step(s, event).0.phase;
      && (Succeeding(next) ==> Succeeding(s.phase))
      && (forall ok :: ClosingOn(next, ok) && !ClosingOn(s.phase, ok) ==> event == ClosureEnds(ok) && s.phase.Active?)
  {
    hide TakeCursor, TakeOperation, PollCursorSlot, PollOperationSlot, T.Serve;
  }

  lemma {:induction false} SuccessNeedsOk(s: Scope, events: seq<Event>)
    requires Inv(s) && (s.phase.Opening? || s.phase.Locking?)
    ensures var phase := Run(s, events).phase;
      && (forall ok :: ClosingOn(phase, ok) ==> ClosureEnded(s, events, ok))
      && (Succeeding(phase) ==> ClosureEnded(s, events, true) && FoundNoStream(s, events))
    decreases |events|
  {
    hide Step, Inv, ClosureEnded, FoundNoStream, EmptyAfterOk;
    if events != [] {
      var front, last := events[..|events| - 1], events[|events| - 1];
      var before := Run(s, front);
      SuccessNeedsOk(s, front);
      RunInv(s, front);
      StepSucceeds(before, last);
      Earlier(s, events, true);
      Earlier(s, events, false);
      LastEvent(s, events);
    }
  }

  lemma LastEvent(s: Scope, events: seq<Event>)
    requires events != []
    ensures var before, last := Run(s, events[..|events| - 1]), events[|events| - 1];
      && (forall ok :: last == ClosureEnds(ok) && before.phase.Active? ==> ClosureEnded(s, events, ok))
      && (last.OwnerPolls? && EmptyAfterOk(before) ==>
            FoundNoStream(s, events) && ClosingOn(before.phase, true))
  {
    hide Run;
  }

  /** Success has one way: in every run, a scope returns Ok only after its closure returned Ok
      while it was active, and the owner then found no stream in the cursor slot. */
  lemma {:induction false} OkNeedsOk(backend: Backend, lock: LockRequest, events: seq<Event>)
    requires Run(Init(backend, lock), events).phase == Returned(None)
    ensures ClosureEnded(Init(backend, lock), events, true) && FoundNoStream(Init(backend, lock), events)
  {
    hide Run, Inv, ClosureEnded, FoundNoStream;
    InitInv(backend, lock);
    SuccessNeedsOk(Init(backend, lock), events);
  }

  // ---------------------------------------------------------------- the row lock

  /** How a scope begins. A BEGIN that fails, a lock that cannot be built, a lock statement that
      fails, and a lock that finds no row or more than one, all end the scope without its closure:
      nothing is published and the scope returns the reason. Otherwise the lock follows BEGIN, and
      the closure follows the lock. */
  lemma LockDecides(backend: Backend, lock: LockRequest, before: seq<Event>, choice: T.Choice, rows: nat,
                    after: seq<Event>)
    requires var s := Run(Init(backend, lock), before);
      && (s.phase.Locking? || s.phase.Opening?)
      && s.slots.tx.run.Some? && T.Poll(s.slots.tx, choice).1.Ready?
    ensures var s := Run(Init(backend, lock), before);
      var error, next := T.Poll(s.slots.tx, choice).1.error, Step(s, OwnerPolls(choice, rows)).0;
      if error.Some? then FailedWith(Run(next, after), error.value)
      else if s.phase == Opening(BadLock) then FailedWith(Run(next, after), T.InvalidLock)
      else if s.phase == Opening(NoLock) then next.phase.Active?
      else if s.phase.Opening? then
        next.phase.Locking? && next.slots.tx.run.Some? && next.slots.tx.run.value.op == T.Statement(s.phase.lock.id)
      else if rows == 1 then next.phase.Active?
      else FailedWith(Run(next, after), if rows == 0 then T.LockNotFound else T.NonUniqueLock)
  {
    hide FailedWith, Run, T.Poll;
    var s := Run(Init(backend, lock), before);
    Reachable(backend, lock, before);
    StepInv(s, OwnerPolls(choice, rows));
    NothingSentYet(s);
    var error, next := T.Poll(s.slots.tx, choice).1.error, Step(s, OwnerPolls(choice, rows)).0;
    LockStep(s, choice, rows);
    if error.Some? {
      FailsOn(next, after, error.value);
    } else if s.phase == Opening(BadLock) {
      FailsOn(next, after, T.InvalidLock);
    } else if s.phase.Locking? && rows != 1 {
      FailsOn(next, after, if rows == 0 then T.LockNotFound else T.NonUniqueLock);
    }
  }

  lemma LockStep(s: Scope, choice: T.Choice, rows: nat)
    requires Inv(s) && (s.phase.Locking? || s.phase.Opening?) && T.Poll(s.slots.tx, choice).1.Ready?
    ensures var error, next := T.Poll(s.slots.tx, choice).1.error, Step(s, OwnerPolls(choice, rows)).0;
      if error.Some? then Fails(next, error.value)
      else if s.phase == Opening(BadLock) then Fails(next, T.InvalidLock)
      else if s.phase == Opening(NoLock) then next.phase.Active?
      else if s.phase.Opening? then
        next.phase.Locking? && next.slots.tx.run.Some? && next.slots.tx.run.value.op == T.Statement(s.phase.lock.id)
      else if rows == 1 then next.phase.Active?
      else Fails(next, if rows == 0 then T.LockNotFound else T.NonUniqueLock)
  {
    var tx := T.Poll(s.slots.tx, choice).0;
    if s.phase.Opening? {
      T.PollKeepsOwned(s.slots.tx, choice);
      RetireShape(Advance(s, tx), Returned(T.Poll(s.slots.tx, choice).1.error));
    } else {
      T.PollKeepsBorrow(s.slots.tx, choice);
      T.PollSettles(s.slots.tx, choice);
      NothingSentYet(s);
    }
    hide T.Inv, T.Poll, TokensInv, Retire;
  }

  /** The lock is the first thing a scope with a row lock does: whenever its closure runs, and
      whenever it returned Ok, the lock statement is the first that was acknowledged. */
  predicate LockFirst(s: Scope, id: StatementId) {
    var tx := s.slots.tx;
    match s.phase
    case Opening(lock) => lock == LockRow(id)
    case Locking => tx.run.Some? && tx.run.value.op == T.Statement(id) && tx.acked == []
    case Active => tx.acked != [] && tx.acked[0] == id
    case Closing(_, _, _) => tx.acked != [] && tx.acked[0] == id
    case Finishing(result) => result.Some? || (tx.acked != [] && tx.acked[0] == id)
    case Returned(result) => result.Some? || (tx.acked != [] && tx.acked[0] == id)
    case Gone => true
  }

  lemma StepAcks(tx: T.Tx, event: T.Event)
    requires T.Inv(tx)
    ensures tx.acked <= T.Step(tx, event).acked
  {
    if event.Continue? && tx.run.Some? && T.Poll(tx, event.choice).0.acked != tx.acked { T.PollAcks(tx, event.choice); }
    hide T.Inv, T.Poll;
  }

  lemma {:induction false} RunAcks(tx: T.Tx, events: seq<T.Event>)
    requires T.Inv(tx)
    ensures tx.acked <= T.Run(tx, events).acked
    decreases |events|
  {
    hide T.Inv, T.Step;
    if events != [] {
      RunAcks(tx, events[..|events| - 1]);
      T.RunInv(tx, events[..|events| - 1]);
      StepAcks(T.Run(tx, events[..|events| - 1]), events[|events| - 1]);
    }
  }

  lemma EarlyLockFirst(s: Scope, id: StatementId, choice: T.Choice, rows: nat)
    requires Inv(s) && LockFirst(s, id) && (s.phase.Opening? || s.phase.Locking?)
    ensures LockFirst(PollOwner(s, choice, rows), id)
  {
    var tx := T.Poll(s.slots.tx, choice).0;
    if s.phase.Opening? {
      T.PollKeepsOwned(s.slots.tx, choice);
      NothingAcked(s.slots.tx);
      if tx.acked != s.slots.tx.acked { T.PollAcks(s.slots.tx, choice); }
      forall phase { RetireShape(Advance(s, tx), phase); }
    } else {
      T.PollKeepsBorrow(s.slots.tx, choice);
      T.PollSettles(s.slots.tx, choice);
    }
    hide T.Inv, T.Poll, TokensInv, Retire;
  }

  lemma NothingAcked(tx: T.Tx)
    requires T.Inv(tx) && tx.run.Some? && tx.run.value.op.OpenTx?
    ensures tx.acked == [] && !tx.aborted
  {
  }

  /** The phases after the lock do not lead back. */
  lemma LaterPhases(s: Scope, event: Event)
    requires Inv(s) && !s.phase.Opening? && !s.phase.Locking?
    ensures var next := Step(s, event).0.phase;
      && !next.Opening? && !next.Locking?
      && (s.phase.Gone? ==> next.Gone?)
      && ((s.phase.Finishing? || s.phase.Returned?) && s.phase.result.Some? ==>
            next.Gone? || ((next.Finishing? || next.Returned?) && next.result.Some?))
  {
    hide TakeCursor, TakeOperation, PollCursorSlot, PollOperationSlot, T.Poll, T.Start, Server.Serve, T.Inv, TokensInv, SharedInv;
  }

  lemma StepKeepsLockFirst(s: Scope, event: Event, id: StatementId)
    requires Inv(s) && LockFirst(s, id)
    ensures LockFirst(Step(s, event).0, id)
  {
    if s.phase.Opening? || s.phase.Locking? {
      if event.OwnerPolls? {
        EarlyLockFirst(s, id, event.choice, event.rows);
      } else {
        EarlyOthers(s, event, id);
      }
      hide PollOwner, LockFirst, Inv;
    } else {
      LaterPhases(s, event);
      ScopeRefinement.StepOwn(s, event);
      RunAcks(s.slots.tx, ScopeRefinement.Own(s, event));
      hide Step, T.Run, ScopeRefinement.Own, T.Inv, TokensInv, SharedInv;
    }
  }

  lemma EarlyOthers(s: Scope, event: Event, id: StatementId)
    requires Inv(s) && LockFirst(s, id) && (s.phase.Opening? || s.phase.Locking?) && !event.OwnerPolls?
    ensures LockFirst(Step(s, event).0, id)
  {
    hide TakeCursor, TakeOperation, PollCursorSlot, PollOperationSlot, T.Inv, Server.Serve;
    RetireShape(Advance(s, T.DropTx(s.slots.tx)), Gone);
  }

  lemma {:induction false} LockComesFirst(backend: Backend, id: StatementId, events: seq<Event>)
    ensures LockFirst(Run(Init(backend, LockRow(id)), events), id)
    decreases |events|
  {
    hide Step, Inv, LockFirst;
    if events == [] {
      InitLockFirst(backend, id);
    } else {
      LockComesFirst(backend, id, events[..|events| - 1]);
      Reachable(backend, LockRow(id), events[..|events| - 1]);
      StepKeepsLockFirst(Run(Init(backend, LockRow(id)), events[..|events| - 1]), events[|events| - 1], id);
    }
  }

  lemma InitLockFirst(backend: Backend, id: StatementId)
    ensures LockFirst(Init(backend, LockRow(id)), id)
  {
  }
}
