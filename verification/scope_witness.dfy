/** Concrete runs of a write scope, showing that the theorems about all runs are not vacuous
    and that the two slots are not exclusive. */
module ScopeWitnesses {
  import opened Common
  import opened Server
  import opened Scopes
  import T = Transactions

  const EASY := T.Choice(true, true, T.Accept)
  const OWNER := OwnerPolls(EASY, 1)
  const OP := OperationPolled(0, true, EASY)
  const OPENED := Fresh(Sqlite).(open := true, reply := Some(Done))

  lemma RunExtends(s: Scope, events: seq<Event>, a: Event, b: Event, c: Event)
    ensures Run(s, events + [a, b, c]) == Step(Step(Step(Run(s, events), a).0, b).0, c).0
  {
    hide Step;
    assert (events + [a, b, c])[..|events| + 2] == events + [a, b];
    assert (events + [a, b])[..|events| + 1] == events + [a];
    assert (events + [a])[..|events|] == events;
    assert Run(s, events + [a]) == Step(Run(s, events), a).0;
    assert Run(s, events + [a, b]) == Step(Run(s, events + [a]), b).0;
  }

  /** The scope with one frame and at most one operation, while statement 7 makes its way. */
  function At(phase: Phase, tx: T.Tx, operation: Option<Entry>, frames: map<Token, Frame>): Scope {
    Scope(phase,
          Slots(tx, phase.Active? || phase.Closing?,
                Mutex(if Holds(operation) then Some(0) else None, []), None, operation),
          !phase.Active?,
          if 0 in frames && frames[0].HoldsSerial() then Some(0) else None,
          frames, map[], |frames|)
  }

  function Running(conn: Connection, stage: T.Stage): T.Tx {
    T.Tx(conn, true, false, false, Some(T.Running(T.Statement(7), stage, false)), [], [], false, None)
  }

  const IDLE := T.Tx(OPENED, false, false, false, None, [], [], false, None)
  const ACKED := T.Tx(OPENED.(pending := [7]), false, false, false, None, [7], [7], false, None)
  const HELD := Some(Entry(0, T.Statement(7), Holding))
  const SENT := T.Tx(OPENED.(pending := [7], inflight := Some(Commit), reply := None), false, false, false,
                     Some(T.Running(T.CommitTx, T.Controlling(Commit), true)), [7], [7], true, None)

  lemma Opens(s: Scope)
    requires s == Init(Sqlite, NoLock)
    ensures Step(Step(Step(s, OWNER).0, ServerMoves(Finish)).0, OWNER).0 == At(Active, IDLE, None, map[])
  {
  }

  lemma Queues(s: Scope)
    requires s == At(Active, IDLE, None, map[])
    ensures Step(Step(Step(s, OperationStarts(7, true)).0, SerialGranted(0)).0, OperationRechecks(0)).0 ==
            At(Active, IDLE, None, map[0 := Admitted(T.Statement(7))])
  {
  }

  lemma Begins(s: Scope)
    requires s == At(Active, IDLE, None, map[0 := Admitted(T.Statement(7))])
    ensures Step(Step(Step(s, OperationInstalls(0)).0, OP).0, OP).0 ==
            At(Active, Running(OPENED, T.Preparing(true)), HELD, map[0 := Installed])
  {
  }

  lemma Prepares(s: Scope)
    requires s == At(Active, Running(OPENED, T.Preparing(true)), HELD, map[0 := Installed])
    ensures Step(Step(Step(s, OP).0, ServerMoves(Finish)).0, OP).0 ==
            At(Active, Running(OPENED, T.Executing), HELD, map[0 := Installed])
  {
  }

  const SENDING := Running(OPENED.(inflight := Some(Execute([7])), reply := None), T.Executing).(
    begun := [7], run := Some(T.Running(T.Statement(7), T.Executing, true)))
  const EXECUTED := SENDING.(conn := OPENED.(pending := [7]))

  lemma StatementIsAnswered()
    ensures T.Poll(Running(OPENED, T.Executing), EASY) == (SENDING, T.Pending)
    ensures T.Serve(SENDING, Finish) == EXECUTED
    ensures T.Poll(EXECUTED, EASY) == (ACKED, T.Ready(None))
  {
    var none: seq<StatementId> := [];
    assert none + [7] == [7];
  }

  lemma Executes(s: Scope)
    requires s == At(Active, Running(OPENED, T.Executing), HELD, map[0 := Installed])
    ensures Step(Step(Step(s, OP).0, ServerMoves(Finish)).0, OP).0 ==
            At(Active, ACKED, None, map[0 := Ended])
  {
    StatementIsAnswered();
    hide T.Poll, T.Serve;
  }

  lemma Closes(s: Scope)
    requires s == At(Active, ACKED, None, map[0 := Ended])
    ensures Step(Step(Step(s, ClosureEnds(true)).0, OWNER).0, OWNER).0 ==
            At(Closing(Returns(true), 2, false), ACKED, None, map[0 := Ended])
  {
  }

  lemma Leases(s: Scope)
    requires s == At(Closing(Returns(true), 2, false), ACKED, None, map[0 := Ended])
    ensures Step(Step(Step(s, OWNER).0, OWNER).0, OWNER).0 ==
            At(Finishing(None), SENT, None, map[0 := Ended])
  {
  }

  const ANSWERED := SENT.(conn := Fresh(Sqlite).(published := [7], reply := Some(Done)))

  lemma CommitIsAnswered()
    ensures T.Serve(SENT, Finish) == ANSWERED
    ensures T.Poll(ANSWERED, EASY) == (ANSWERED.(run := None, finished := true, dropped := true, answer := Some(None)), T.Ready(None))
  {
  }

  lemma Commits(s: Scope)
    requires s == At(Finishing(None), SENT, None, map[0 := Ended])
    ensures var end := Step(Step(Step(s, ServerMoves(Finish)).0, OWNER).0, OWNER).0;
      end.phase == Returned(None) && end.slots.tx.conn.published == [7]
  {
    hide T.Serve, T.Poll;
    CommitIsAnswered();
    var answered := Step(s, ServerMoves(Finish)).0;
    assert answered.slots == s.slots.(tx := ANSWERED);
  }

  function UntilHeld(): seq<Event> {
    []
    + [OWNER, ServerMoves(Finish), OWNER]
    + [OperationStarts(7, true), SerialGranted(0), OperationRechecks(0)]
    + [OperationInstalls(0), OP, OP]
  }

  lemma RunUntilHeld()
    ensures Run(Init(Sqlite, NoLock), UntilHeld()) ==
            At(Active, Running(OPENED, T.Preparing(true)), HELD, map[0 := Installed])
  {
    hide Step;
    var s := Init(Sqlite, NoLock);
    var e1 := [] + [OWNER, ServerMoves(Finish), OWNER];
    var e2 := e1 + [OperationStarts(7, true), SerialGranted(0), OperationRechecks(0)];
    assert Run(s, []) == s;
    RunExtends(s, [], OWNER, ServerMoves(Finish), OWNER);
    Opens(s);
    RunExtends(s, e1, OperationStarts(7, true), SerialGranted(0), OperationRechecks(0));
    Queues(Run(s, e1));
    RunExtends(s, e2, OperationInstalls(0), OP, OP);
    Begins(Run(s, e2));
  }

  /** A starting stream checks only the cursor slot, so both slots can be occupied while one
      operation holds the guard: exclusivity is a property of the guard, not of the slots. */
  lemma BothSlotsCanBeOccupied()
    ensures exists events :: var s := Run(Init(Sqlite, NoLock), events);
      Holds(s.slots.operation) && s.slots.cursor.Some?
  {
    RunUntilHeld();
    var events := UntilHeld() + [StreamStarts(2, true)];
    assert events[..|events| - 1] == UntilHeld();
    assert Holds(Run(Init(Sqlite, NoLock), events).slots.operation);
  }

  /** A scope that runs one statement, returns Ok and has published it. */
  lemma ScopeCanCommit()
    ensures exists events :: var s := Run(Init(Sqlite, NoLock), events);
      s.phase == Returned(None) && s.slots.tx.conn.published == [7]
  {
    hide Step, At, Running, Init, UntilHeld;
    var s := Init(Sqlite, NoLock);
    var e3 := UntilHeld();
    RunUntilHeld();
    var e4 := e3 + [OP, ServerMoves(Finish), OP];
    RunExtends(s, e3, OP, ServerMoves(Finish), OP);
    Prepares(Run(s, e3));
    var e5 := e4 + [OP, ServerMoves(Finish), OP];
    RunExtends(s, e4, OP, ServerMoves(Finish), OP);
    Executes(Run(s, e4));
    var e6 := e5 + [ClosureEnds(true), OWNER, OWNER];
    RunExtends(s, e5, ClosureEnds(true), OWNER, OWNER);
    Closes(Run(s, e5));
    var e7 := e6 + [OWNER, OWNER, OWNER];
    RunExtends(s, e6, OWNER, OWNER, OWNER);
    Leases(Run(s, e6));
    var e8 := e7 + [ServerMoves(Finish), OWNER, OWNER];
    RunExtends(s, e7, ServerMoves(Finish), OWNER, OWNER);
    Commits(Run(s, e7));
    assert Run(s, e8).phase == Returned(None);
  }
}
