/** What handles can do to a write scope, and what its teardown achieves, over whole runs: a
    handle reaches only the slot entry with its own token, does no input or output once the
    scope is closed or not current, and cannot keep the owner from letting go of the
    transaction. */
module ScopeConfinement {
  import opened Common
  import opened Server
  import opened Scopes
  import T = Transactions

  // ---------------------------------------------------------------- no input or output

  /** Actions of operation handles and streams; the others are the owner's and the server's. */
  predicate OfHandle(event: Event) {
    !event.OwnerPolls? && !event.ClosureEnds? && !event.OwnerDropped? && !event.ServerMoves?
  }

  /** The handle is used where the scope is not the current one. */
  predicate Outside(event: Event) {
    match event
    case OperationStarts(_, inside) => !inside
    case OperationPolled(_, inside, _) => !inside
    case StreamStarts(_, inside) => !inside
    case StreamPolled(_, inside, _, _) => !inside
    case _ => true
  }

  /** Nothing was sent, received, acknowledged or answered. */
  predicate Silence(tx: T.Tx, next: T.Tx) {
    && next.conn == tx.conn && next.begun == tx.begun && next.acked == tx.acked
    && next.commitSent == tx.commitSent && next.answer == tx.answer
  }

  lemma TakesAreSilent(s: Slots)
    ensures Silence(s.tx, TakeCursor(s).tx) && Silence(s.tx, TakeOperation(s).tx)
  {
  }

  lemma HandleStepIsSilent(s: Scope, event: Event)
    requires OfHandle(event) && (s.closed || Outside(event))
    ensures Silence(s.slots.tx, Step(s, event).0.slots.tx) && Step(s, event).0.closed == s.closed
  {
    TakesAreSilent(s.slots);
    hide TakeCursor, TakeOperation, PollCursorSlot, PollOperationSlot;
  }

  /** No input or output after the end: from a closed scope, whatever handles do, in whatever
      order, sends and receives nothing; and so does whatever they do outside an open one. */
  lemma {:induction false} HandlesAreSilent(s: Scope, events: seq<Event>)
    requires forall i :: 0 <= i < |events| ==> OfHandle(events[i]) && (s.closed || Outside(events[i]))
    ensures Silence(s.slots.tx, Run(s, events).slots.tx) && Run(s, events).closed == s.closed
    decreases |events|
  {
    hide Step, OfHandle, Outside;
    if events != [] {
      var last := |events| - 1;
      HandlesAreSilent(s, events[..last]);
      HandleStepIsSilent(Run(s, events[..last]), events[last]);
    }
  }

  lemma StepKeepsClosed(s: Scope, event: Event)
    requires s.closed
    ensures Step(s, event).0.closed
  {
    hide TakeCursor, TakeOperation, PollCursorSlot, PollOperationSlot, T.Poll, T.Start, T.Serve;
  }

  /** A closed scope stays closed, whoever acts. */
  lemma {:induction false} ClosedForever(s: Scope, events: seq<Event>)
    requires s.closed
    ensures Run(s, events).closed
    decreases |events|
  {
    hide Step;
    if events != [] {
      ClosedForever(s, events[..|events| - 1]);
      StepKeepsClosed(Run(s, events[..|events| - 1]), events[|events| - 1]);
    }
  }

  // ---------------------------------------------------------------- tokens

  predicate OfStream(event: Event) {
    event.StreamStarts? || event.StreamPolled? || event.StreamDropped?
  }

  /** The token of the handle that acts; a start draws a fresh one. */
  function Actor(s: Scope, event: Event): Token
    requires OfHandle(event)
  {
    match event
    case OperationStarts(_, _) => s.next
    case StreamStarts(_, _) => s.next
    case SerialGranted(f) => f
    case OperationRechecks(f) => f
    case OperationInstalls(f) => f
    case OperationPolled(f, _, _) => f
    case OperationDropped(f) => f
    case StreamPolled(h, _, _, _) => h
    case StreamDropped(h) => h
  }

  /** A slot is unchanged, or both what it held and what it holds bears the token. */
  predicate OnlyOwn(slot: Option<Entry>, next: Option<Entry>, token: Token) {
    next == slot || ((slot.Some? ==> slot.value.token == token) && (next.Some? ==> next.value.token == token))
  }

  predicate Reaches(s: Scope, next: Scope, stream: bool, token: Token) {
    && (if stream then
          OnlyOwn(s.slots.cursor, next.slots.cursor, token) && next.slots.operation == s.slots.operation
        else
          OnlyOwn(s.slots.operation, next.slots.operation, token) && next.slots.cursor == s.slots.cursor)
    && (next.slots.tx != s.slots.tx ==> Occupies(if stream then s.slots.cursor else s.slots.operation, token))
    && (forall f :: f in s.frames && f != token ==> f in next.frames && next.frames[f] == s.frames[f])
    && (forall h :: h in s.handles && h != token ==> h in next.handles && next.handles[h] == s.handles[h])
  }

  lemma PollSlotReaches(s: Slots, choice: T.Choice)
    ensures s.cursor.Some? ==>
      var p := PollCursorSlot(s, choice).0;
      p.operation == s.operation && OnlyOwn(s.cursor, p.cursor, s.cursor.value.token)
    ensures s.operation.Some? ==>
      var p := PollOperationSlot(s, choice).0;
      p.cursor == s.cursor && OnlyOwn(s.operation, p.operation, s.operation.value.token)
  {
    hide T.Poll, T.Start;
  }

  lemma TakesReach(s: Slots)
    ensures TakeCursor(s).cursor.None? && TakeCursor(s).operation == s.operation
    ensures TakeOperation(s).operation.None? && TakeOperation(s).cursor == s.cursor
    ensures s.cursor.None? ==> TakeCursor(s) == s
    ensures s.operation.None? ==> TakeOperation(s) == s
  {
    hide T.Cancel;
  }

  lemma EndReaches(s: Scope, t: Token)
    ensures Reaches(s, EndFrame(s, t), false, t) && Reaches(s, FinishStream(s, t), true, t)
  {
    TakesReach(s.slots);
    hide TakeCursor, TakeOperation;
  }

  lemma PollOperationReaches(s: Scope, f: Token, inside: bool, choice: T.Choice)
    ensures Reaches(s, PollOperation(s, f, inside, choice).0, false, f)
  {
    EndReaches(s, f);
    PollSlotReaches(s.slots, choice);
    hide TakeOperation, PollOperationSlot, Available;
    if Occupies(s.slots.operation, f) {
      var polled := s.(slots := PollOperationSlot(s.slots, choice).0);
      EndReaches(polled, f);
      hide EndFrame;
    }
  }

  lemma PollStreamReaches(s: Scope, h: Token, inside: bool, choice: T.Choice, mapperFails: bool)
    ensures Reaches(s, PollStream(s, h, inside, choice, mapperFails).0, true, h)
  {
    EndReaches(s, h);
    PollSlotReaches(s.slots, choice);
    hide TakeCursor, PollCursorSlot, Available;
    if Occupies(s.slots.cursor, h) {
      var polled := s.(slots := PollCursorSlot(s.slots, choice).0);
      EndReaches(polled, h);
      hide FinishStream;
    }
  }

  lemma InstallReaches(s: Scope, f: Token)
    requires Inv(s)
    ensures Reaches(s, Install(s, f), false, f)
  {
    TakesReach(s.slots);
    if f in s.frames && s.frames[f].Admitted? { InstallFindsSlotEmpty(s, f); }
    hide TakeOperation, Inv;
  }

  lemma StartOperationReaches(s: Scope, id: StatementId, inside: bool)
    ensures Reaches(s, StartOperation(s, id, inside).0, false, s.next)
  {
    hide Available;
  }

  lemma GrantReaches(s: Scope, f: Token)
    ensures Reaches(s, GrantSerial(s, f), false, f)
  {
  }

  lemma RecheckReaches(s: Scope, f: Token)
    ensures Reaches(s, Recheck(s, f).0, false, f)
  {
    EndReaches(s, f);
    hide EndFrame, Available;
  }

  lemma OperationStepReaches(s: Scope, event: Event)
    requires Inv(s) && OfHandle(event) && !OfStream(event)
    ensures Reaches(s, Step(s, event).0, false, Actor(s, event))
  {
    match event
    case OperationStarts(id, inside) => StartOperationReaches(s, id, inside);
    case SerialGranted(f) => GrantReaches(s, f);
    case OperationRechecks(f) => RecheckReaches(s, f);
    case OperationInstalls(f) => InstallReaches(s, f);
    case OperationPolled(f, inside, choice) => PollOperationReaches(s, f, inside, choice);
    case OperationDropped(f) => DropReaches(s, f);
    hide Reaches, StartOperation, GrantSerial, Recheck, Install, PollOperation, DropOperation, Inv;
  }

  lemma DropReaches(s: Scope, t: Token)
    ensures Reaches(s, DropOperation(s, t), false, t) && Reaches(s, DropStream(s, t), true, t)
  {
    EndReaches(s, t);
    hide EndFrame, FinishStream;
  }

  lemma StartStreamReaches(s: Scope, id: StatementId, inside: bool)
    ensures Reaches(s, StartStream(s, id, inside).0, true, s.next)
  {
  }

  lemma StreamStepReaches(s: Scope, event: Event)
    requires OfStream(event)
    ensures Reaches(s, Step(s, event).0, true, Actor(s, event))
  {
    match event
    case StreamStarts(id, inside) => StartStreamReaches(s, id, inside);
    case StreamPolled(h, inside, choice, mapperFails) => PollStreamReaches(s, h, inside, choice, mapperFails);
    case StreamDropped(h) => DropReaches(s, h);
    hide Reaches, StartStream, PollStream, DropStream;
  }

  /** What a caller of `operate` sees of one poll. */
  lemma OperationPollFacts(s: Scope, f: Token, inside: bool, choice: T.Choice)
    ensures var (next, output) := PollOperation(s, f, inside, choice);
      && next.slots.cursor == s.slots.cursor && OnlyOwn(s.slots.operation, next.slots.operation, f)
      && (output.Refused? ==> Silence(s.slots.tx, next.slots.tx))
  {
    PollOperationReaches(s, f, inside, choice);
    TakesAreSilent(s.slots);
    hide TakeOperation, PollOperationSlot;
  }

  /** What a caller of `poll_next` sees of one poll. */
  lemma StreamPollFacts(s: Scope, h: Token, inside: bool, choice: T.Choice, mapperFails: bool)
    ensures var (next, output) := PollStream(s, h, inside, choice, mapperFails);
      && next.slots.operation == s.slots.operation && OnlyOwn(s.slots.cursor, next.slots.cursor, h)
      && (output == Refused(T.ScopeDatabaseMismatch) || output.End? ==> Silence(s.slots.tx, next.slots.tx))
  {
    PollStreamReaches(s, h, inside, choice, mapperFails);
    TakesAreSilent(s.slots);
    hide TakeCursor, PollCursorSlot;
  }

  /** Token confinement: in every run, whatever a handle does next, it polls, fills or clears
      only the slot entry with its own token, moves the transaction only through that entry, and
      leaves every other handle as it is. */
  lemma {:induction false} HandlesAreConfined(backend: Backend, lock: LockRequest, events: seq<Event>, event: Event)
    requires OfHandle(event)
    ensures var s := Run(Init(backend, lock), events);
      Reaches(s, Step(s, event).0, OfStream(event), Actor(s, event))
  {
    hide Step, Reaches, Run;
    InitInv(backend, lock);
    RunInv(Init(backend, lock), events);
    var s := Run(Init(backend, lock), events);
    if OfStream(event) { StreamStepReaches(s, event); } else { OperationStepReaches(s, event); }
  }

  // ---------------------------------------------------------------- teardown

  function OwnerTurns(events: seq<Event>): nat {
    if events == [] then 0
    else OwnerTurns(events[..|events| - 1]) + if events[|events| - 1].OwnerPolls? then 1 else 0
  }

  /** How many more turns the owner needs to let go of the transaction. A drop at the final
      lock starts the teardown over. */
  function Remaining(phase: Phase): int {
    match phase
    case Closing(ending, taken, _) => (if ending.Unwinds? then 3 else 6) - taken
    case _ => 0
  }

  /** The closure is over. */
  predicate Ending(phase: Phase) {
    || (phase.Closing? && phase.taken <= 2)
    || phase.Finishing? || phase.Returned? || phase.Gone?
  }

  /** The future of `enter` was dropped, so that nobody waits for a result. */
  predicate Dropping(phase: Phase) {
    (phase.Closing? && phase.ending.Unwinds?) || phase.Returned? || phase.Gone?
  }

  lemma OwnerTurnAdvances(s: Scope, event: Event)
    requires Inv(s) && Ending(s.phase) && event.OwnerPolls?
    ensures var next := Step(s, event).0.phase;
      && Ending(next) && (Dropping(s.phase) ==> Dropping(next))
      && Remaining(next) <= (if Remaining(s.phase) > 0 then Remaining(s.phase) - 1 else 0)
  {
    if s.phase.Closing? && s.phase.taken == 2 { SharedFacts(s.slots); }
    hide TakeCursor, TakeOperation, T.Poll, T.Start, T.Inv, TokensInv, SharedInv;
  }

  lemma OthersDoNotDelay(s: Scope, event: Event)
    requires Ending(s.phase) && !event.OwnerPolls?
    ensures var next := Step(s, event).0.phase;
      && Ending(next) && (Dropping(s.phase) ==> Dropping(next)) && Remaining(next) <= Remaining(s.phase)
  {
    hide TakeCursor, TakeOperation, PollCursorSlot, PollOperationSlot, T.Poll, T.Start, T.Serve;
  }

  lemma {:induction false} TeardownAdvances(s: Scope, events: seq<Event>)
    requires Inv(s) && Ending(s.phase)
    ensures var end := Run(s, events).phase;
      && Ending(end) && (Dropping(s.phase) ==> Dropping(end))
      && Remaining(end) <= (if Remaining(s.phase) > OwnerTurns(events) then Remaining(s.phase) - OwnerTurns(events) else 0)
    decreases |events|
  {
    hide Step, Ending, Dropping, Remaining, Inv;
    if events != [] {
      var last := |events| - 1;
      var before := Run(s, events[..last]);
      TeardownAdvances(s, events[..last]);
      RunInv(s, events[..last]);
      if events[last].OwnerPolls? { OwnerTurnAdvances(before, events[last]); } else { OthersDoNotDelay(before, events[last]); }
    }
  }

  /** Teardown ends. Once the closure is over, six turns of the owner, interleaved with any
      events of others and even with the drop of the owner, take the transaction out of the
      scope: the mutex is free and no handle can reach the transaction again. */
  lemma {:induction false} TeardownEnds(backend: Backend, lock: LockRequest, before: seq<Event>, events: seq<Event>)
    requires Ending(Run(Init(backend, lock), before).phase) && OwnerTurns(events) >= 6
    ensures var end := Run(Run(Init(backend, lock), before), events);
      && !end.slots.stored && end.slots.guard.holder.None? && (end.phase.Finishing? || end.phase.Returned? || end.phase.Gone?)
  {
    hide Run, T.Inv, TokensInv, SharedInv;
    InitInv(backend, lock);
    RunInv(Init(backend, lock), before);
    RunInv(Run(Init(backend, lock), before), events);
    TeardownAdvances(Run(Init(backend, lock), before), events);
  }

  /** A drop of `enter` takes effect where the owner awaits: not between emptying the slots. */
  predicate AtAwait(phase: Phase) {
    !(phase.Closing? && phase.ending.Returns? && phase.taken < 2)
  }

  lemma DropStarts(s: Scope)
    requires Inv(s) && AtAwait(s.phase)
    ensures var next := Step(s, OwnerDropped).0.phase; Ending(next) && Dropping(next) && Remaining(next) <= 3
  {
    hide TakeCursor, TakeOperation, T.Inv, TokensInv;
  }

  /** A cancelled or panicking scope: from every reachable state in which the owner awaits, its
      drop and the turns of its drop handlers, interleaved with any events of others, end with
      the transaction dropped and out of the scope, whatever handles are retained. */
  lemma {:induction false} DroppedScopeLetsGo(backend: Backend, lock: LockRequest, before: seq<Event>, events: seq<Event>)
    requires AtAwait(Run(Init(backend, lock), before).phase) && OwnerTurns(events) >= 3
    ensures var end := Run(Step(Run(Init(backend, lock), before), OwnerDropped).0, events);
      !end.slots.stored && end.slots.tx.dropped && end.slots.tx.run.None? && end.slots.guard.holder.None?
  {
    hide Run, Step, T.Inv, TokensInv, SharedInv;
    var s := Run(Init(backend, lock), before);
    InitInv(backend, lock);
    RunInv(Init(backend, lock), before);
    DropStarts(s);
    StepInv(s, OwnerDropped);
    var dropped := Step(s, OwnerDropped).0;
    RunInv(dropped, events);
    TeardownAdvances(dropped, events);
  }
}
