/** The transaction state machine of src/transaction.rs, with the statement protocol of
    src/driver.rs that runs inside it.

    Every `async fn` is a sequence of stages separated by await points. `Start` is the part
    before the first await, `Poll` continues from one await to the next, `Cancel` is the
    drop of the future at an await, and `Serve` is the server's turn. */
module Transactions {
  import opened Common
  import opened Server

  datatype Error =
    | BindCount
    | Encode
    | Driver
    | DatabaseLost
    | TransactionAborted
    | CommitUnknown
    | CommitRejected(code: string)
    | InvalidLock
    | LockNotFound
    | NonUniqueLock
    | NoActiveWriteScope
    | ScopeDatabaseMismatch
    | ActiveStream
    | Decode
    | Application

  datatype Operation =
    | OpenTx
    | Statement(id: StatementId)
    | Batch(ids: seq<StatementId>)
    | Stream(id: StatementId)
    | CommitTx
    | RollbackTx
  {
    /** An operation that borrows the transaction; the others own or consume it. */
    predicate Borrows() {
      Statement? || Batch? || Stream?
    }

    function Effects(): seq<StatementId> {
      match this
      case Statement(id) => [id]
      case Stream(id) => [id]
      case Batch(ids) => ids
      case _ => []
    }
  }

  /** The await point an operation is suspended at. */
  datatype Stage =
    | Leasing
    | Saving
    | Preparing(full: bool)
    | ProbeUndo
    | Undoing
    | Releasing(accepted: bool)
    | Executing
    | Controlling(command: Command)

  datatype Running = Running(op: Operation, stage: Stage, sent: bool) {
    function Wire(): Command {
      match stage
      case Saving => Savepoint
      case Preparing(_) => Prepare
      case ProbeUndo => RollbackTo
      case Undoing => RollbackTo
      case Releasing(_) => Release
      case Executing => Execute(op.Effects())
      case Controlling(command) => command
      case Leasing => Prepare
    }
  }

  /** Decisions the model leaves to the environment: whether the keeper of an in-memory
      database answers, whether the arguments encode, and what parameter counting finds. */
  datatype Verdict = Probe | Accept | Mismatch
  datatype Choice = Choice(leaseOk: bool, encodeOk: bool, verdict: Verdict)

  datatype PollResult =
    | Pending
    | Row
    | Ready(error: Option<Error>)

  /** `acked` and `begun` record which statements were acknowledged and which were sent for
      execution; `commitSent` whether COMMIT went out; `answer` what `commit` returned. */
  datatype Tx = Tx(
    conn: Connection,
    aborted: bool,
    finished: bool,
    dropped: bool,
    run: Option<Running>,
    acked: seq<StatementId>,
    begun: seq<StatementId>,
    commitSent: bool,
    answer: Option<Option<Error>>)

  function Init(backend: Backend): Tx {
    Tx(Fresh(backend), false, false, false, Some(Running(OpenTx, Controlling(Begin), false)),
       [], [], false, None)
  }

  predicate IndeterminateParameter(code: string) {
    code == "42P18"
  }

  predicate ParameterResolutionError(code: string) {
    code in ["42P18", "42P08", "42725", "42883", "42804", "42846"]
  }

  /** The codes for which `commit` reports a definite failure, whatever the backend. */
  predicate RollbackCertain(code: string) {
    || HasPrefix(code, "23")
    || (HasPrefix(code, "40") && code != "40003")
    || code in ["5", "6", "19", "787", "1299", "1555", "2067", "275"]
  }

  function CommitError(reply: Reply): Error {
    if reply.Rejected? && RollbackCertain(reply.code) then CommitRejected(reply.code) else CommitUnknown
  }

  /** An error of `commit` that says for sure that nothing was committed. */
  predicate Definite(backend: Backend, error: Error) {
    error != CommitUnknown && (error.CommitRejected? ==> CommitRefused(backend, error.code))
  }

  /** The prologue of an operation: a rollback-only transaction refuses statements, and every
      statement marks the transaction rollback-only before its first await. */
  function Start(tx: Tx, op: Operation): (Tx, PollResult) {
    match op
    case OpenTx => (tx, Pending)
    case CommitTx =>
      (tx.(run := Some(Running(op, if tx.aborted then Controlling(Rollback) else Leasing, false))), Pending)
    case RollbackTx =>
      (tx.(run := Some(Running(op, Controlling(Rollback), false))), Pending)
    case _ =>
      if tx.aborted then (tx, Ready(Some(TransactionAborted)))
      else (tx.(aborted := true, run := Some(Running(op, Leasing, false))), Pending)
  }

  function GoTo(tx: Tx, r: Running, stage: Stage): (Tx, PollResult) {
    (tx.(run := Some(Running(r.op, stage, false))), Pending)
  }

  /** The operation returns an error. Statements leave the transaction rollback-only. */
  function Fail(tx: Tx, r: Running, error: Error): (Tx, PollResult) {
    (tx.(run := None,
         dropped := tx.dropped || !r.op.Borrows(),
         answer := if r.op.CommitTx? then Some(Some(error)) else tx.answer),
     Ready(Some(error)))
  }

  /** A purely local error: the transaction stays usable. */
  function FailLocally(tx: Tx, error: Error): (Tx, PollResult) {
    (tx.(run := None, aborted := false), Ready(Some(error)))
  }

  function Succeed(tx: Tx, r: Running): (Tx, PollResult) {
    if r.op.Borrows() then
      (tx.(run := None, aborted := false, acked := tx.acked + r.op.Effects()), Ready(None))
    else if r.op.OpenTx? then
      (tx.(run := None), Ready(None))
    else
      (tx.(run := None, finished := true, dropped := true,
           answer := if r.op.CommitTx? then Some(None) else tx.answer),
       Ready(None))
  }

  function AfterLease(tx: Tx, r: Running, choice: Choice): (Tx, PollResult) {
    if !choice.leaseOk then Fail(tx, r, DatabaseLost)
    else if !r.op.Borrows() then GoTo(tx, r, Controlling(Commit))
    else if r.op.Batch? then GoTo(tx, r, Executing)
    else if !choice.encodeOk then FailLocally(tx, Encode)
    else GoTo(tx, r, if tx.conn.backend.Postgres? then Saving else Preparing(true))
  }

  function AfterPrepare(tx: Tx, r: Running, reply: Reply, choice: Choice): (Tx, PollResult)
    requires r.stage.Preparing?
  {
    if tx.conn.backend.Sqlite? then
      if !reply.Done? then Fail(tx, r, Driver)
      else if choice.verdict.Mismatch? then FailLocally(tx, BindCount)
      else GoTo(tx, r, Executing)
    else
      match reply
      case Done =>
        GoTo(tx, r, match choice.verdict
                    case Probe => Preparing(false)
                    case Accept => Releasing(true)
                    case Mismatch => Undoing)
      case Rejected(code) =>
        if r.stage.full && IndeterminateParameter(code) then GoTo(tx, r, Undoing)
        else if !r.stage.full && ParameterResolutionError(code) then GoTo(tx, r, ProbeUndo)
        else Fail(tx, r, Driver)
      case _ => Fail(tx, r, Driver)
  }

  /** The control statements BEGIN, COMMIT and ROLLBACK. A rollback-only commit rolls back and
      reports `TransactionAborted` whatever the rollback answers. */
  function AfterControl(tx: Tx, r: Running, reply: Reply): (Tx, PollResult)
    requires r.stage.Controlling?
  {
    if r.op.CommitTx? && r.stage.command.Rollback? then Fail(tx, r, TransactionAborted)
    else if reply.Done? then Succeed(tx, r)
    else Fail(tx, r, if r.op.CommitTx? then CommitError(reply) else Driver)
  }

  function AfterReply(tx: Tx, r: Running, reply: Reply, choice: Choice): (Tx, PollResult) {
    match r.stage
    case Leasing => (tx, Pending)
    case Controlling(_) => AfterControl(tx, r, reply)
    case Preparing(_) => AfterPrepare(tx, r, reply, choice)
    case _ =>
      if !reply.Done? then Fail(tx, r, Driver)
      else
        match r.stage
        case Saving => GoTo(tx, r, Preparing(true))
        case ProbeUndo => GoTo(tx, r, if choice.verdict.Mismatch? then Undoing else Releasing(true))
        case Undoing => GoTo(tx, r, Releasing(false))
        case Releasing(accepted) =>
          if accepted then GoTo(tx, r, Executing) else FailLocally(tx, BindCount)
        case _ => Succeed(tx, r)
  }

  function Send(tx: Tx, r: Running): (Tx, PollResult) {
    (tx.(conn := tx.conn.(inflight := Some(r.Wire()), reply := None),
         run := Some(r.(sent := true)),
         begun := if r.stage.Executing? then tx.begun + r.op.Effects() else tx.begun,
         commitSent := tx.commitSent || r.Wire().Commit?),
     Pending)
  }

  /** Continue the running operation to its next await. A command is sent only once the
      connection has drained whatever a cancelled operation left in flight. */
  function Poll(tx: Tx, choice: Choice): (Tx, PollResult)
    requires tx.run.Some?
  {
    var r := tx.run.value;
    if r.stage.Leasing? then AfterLease(tx, r, choice)
    else if !r.sent then
      if tx.conn.inflight.Some? then (tx, Pending)
      else if !tx.conn.live then AfterReply(tx, r, Lost, choice)
      else Send(tx, r)
    else
      match tx.conn.reply
      case None => (tx, Pending)
      case Some(RowReady) =>
        (tx.(conn := tx.conn.(reply := None)), if r.op.Stream? then Row else Pending)
      case Some(reply) => AfterReply(tx, r, reply, choice)
  }

  /** The future of the running operation is dropped. Consuming operations drop the
      transaction with them. */
  function Cancel(tx: Tx): Tx {
    if tx.run.None? then tx
    else tx.(run := None, dropped := tx.dropped || !tx.run.value.op.Borrows())
  }

  /** `Drop for Transaction`: the connection goes back to the pool only when finished. */
  function DropTx(tx: Tx): Tx {
    Cancel(tx).(dropped := true)
  }

  function Serve(tx: Tx, move: Move): Tx {
    tx.(conn := Server.Serve(tx.conn, move))
  }

  // ---------------------------------------------------------------- runs

  datatype Event =
    | Issue(op: Operation)
    | Continue(choice: Choice)
    | Abandon
    | Discard
    | ServerMove(move: Move)

  /** One event of an explicit transaction. Events the type system rules out (two operations
      borrowing the transaction at once, using it after it was consumed) change nothing. */
  function Step(tx: Tx, event: Event): Tx {
    match event
    case Issue(op) => if tx.dropped || tx.run.Some? || op.OpenTx? then tx else Start(tx, op).0
    case Continue(choice) => if tx.run.Some? then Poll(tx, choice).0 else tx
    case Abandon => Cancel(tx)
    case Discard => DropTx(tx)
    case ServerMove(move) => Serve(tx, move)
  }

  function Run(tx: Tx, events: seq<Event>): Tx
    decreases |events|
  {
    if events == [] then tx else Step(Run(tx, events[..|events| - 1]), events[|events| - 1])
  }

  // ---------------------------------------------------------------- invariant

  /** The server transaction is open, not failed, without savepoints, and holds exactly the
      acknowledged statements. */
  predicate Healthy(tx: Tx) {
    tx.conn.open && !tx.conn.failed && tx.conn.savepoints == [] && tx.conn.pending == tx.acked
  }

  /** Like `Healthy`, inside the internal savepoint. */
  predicate Saved(tx: Tx) {
    && tx.conn.open && !tx.conn.failed
    && tx.conn.savepoints == [tx.acked] && tx.conn.pending == tx.acked
  }

  predicate Damaged(tx: Tx) {
    tx.conn.open && tx.conn.savepoints == [tx.acked]
  }

  /** What must hold of the server when the command of the stage is sent. */
  predicate Before(tx: Tx, r: Running) {
    match r.stage
    case Leasing => Healthy(tx)
    case Saving => Healthy(tx)
    case Preparing(_) => if tx.conn.backend.Postgres? then Saved(tx) else Healthy(tx)
    case ProbeUndo => Damaged(tx)
    case Undoing => Damaged(tx)
    case Releasing(_) => Saved(tx)
    case Executing => Healthy(tx)
    case Controlling(command) =>
      match command
      case Begin => !tx.conn.open && tx.acked == []
      case Commit => Healthy(tx)
      case _ => true
  }

  /** What holds of the server once it answered the command of the stage. */
  predicate After(tx: Tx, r: Running, reply: Reply) {
    if reply.Done? then
      match r.stage
      case Leasing => true
      case Saving => Saved(tx)
      case Preparing(_) => if tx.conn.backend.Postgres? then Saved(tx) else Healthy(tx)
      case ProbeUndo => Saved(tx)
      case Undoing => Saved(tx)
      case Releasing(_) => Healthy(tx)
      case Executing =>
        && tx.conn.open && !tx.conn.failed && tx.conn.savepoints == []
        && tx.conn.pending == tx.acked + r.op.Effects()
      case Controlling(command) =>
        match command
        case Begin => Healthy(tx)
        case Commit => !tx.conn.open && tx.conn.published == tx.acked
        case _ => !tx.conn.open
    else if reply.Rejected? then
      match r.stage
      case Preparing(_) => tx.conn.backend.Postgres? ==> Damaged(tx)
      case Controlling(command) =>
        command.Commit? && CommitRefused(tx.conn.backend, reply.code) ==> tx.conn.published == []
      case _ => true
    else true
  }

  /** Which stages belong to which operation. */
  predicate StageFits(tx: Tx, r: Running) {
    match r.op
    case OpenTx => r.stage == Controlling(Begin) && tx.acked == [] && !tx.aborted
    case CommitTx =>
      || ((r.stage.Leasing? || r.stage == Controlling(Commit)) && !tx.aborted)
      || (r.stage == Controlling(Rollback) && tx.aborted)
    case RollbackTx => r.stage == Controlling(Rollback)
    case Batch(_) => (r.stage.Leasing? || r.stage.Executing?) && tx.aborted
    case _ =>
      && !r.stage.Controlling? && tx.aborted
      && (r.stage.Saving? || r.stage.ProbeUndo? || r.stage.Undoing? || r.stage.Releasing? ==> tx.conn.backend.Postgres?)
  }

  predicate Undoes(r: Running) {
    r.stage == Controlling(Rollback)
  }

  /** The running operation and the server agree on where the protocol stands. */
  predicate Synchronised(tx: Tx, r: Running) {
    && StageFits(tx, r)
    && (r.stage.Leasing? ==> !r.sent)
    && (!Undoes(r) ==> tx.begun == if r.stage.Executing? && r.sent then tx.acked + r.op.Effects() else tx.acked)
    && (if !r.sent then
          && (!Undoes(r) ==> tx.conn.inflight.None?)
          && (tx.conn.live ==> Before(tx, r))
        else if tx.conn.inflight.Some? then
          && tx.conn.inflight.value == r.Wire()
          && (tx.conn.live ==> Before(tx, r))
          && (tx.conn.reply.None? || tx.conn.reply.value.RowReady?)
        else
          && tx.conn.reply.Some?
          && !tx.conn.reply.value.RowReady?
          && (tx.conn.live ==> !tx.conn.reply.value.Lost?)
          && (tx.conn.live ==> After(tx, r, tx.conn.reply.value))
          && (!tx.conn.live ==> tx.conn.reply.value.Lost?))
  }

  /** Nothing is published except by the one COMMIT, and that publishes what was
      acknowledged. */
  predicate PublishesAll(tx: Tx) {
    && (tx.conn.published == [] || tx.conn.published == tx.acked)
    && (!tx.commitSent ==> tx.conn.published == [] && tx.conn.inflight != Some(Commit))
    && (tx.commitSent ==>
          || tx.dropped
          || (tx.run.Some? && tx.run.value.op.CommitTx? && tx.run.value.stage == Controlling(Commit) && tx.run.value.sent))
    && (tx.conn.live && tx.conn.inflight.Some? ==>
          match tx.conn.inflight.value
          case Commit => Healthy(tx) && tx.conn.published == []
          case Execute(_) => tx.conn.open
          case _ => true)
  }

  /** What a returned `commit` says about the database, now and for good. */
  predicate AnswerTrue(tx: Tx) {
    tx.answer.Some? ==>
      && tx.dropped
      && (tx.answer.value.None? ==> tx.conn.published == tx.acked && tx.begun == tx.acked)
      && (tx.answer.value.Some? && tx.answer.value.value.CommitRejected? ==> RollbackCertain(tx.answer.value.value.code))
      && (tx.answer.value.Some? && Definite(tx.conn.backend, tx.answer.value.value) ==>
            tx.conn.published == [] && tx.conn.inflight != Some(Commit))
  }

  predicate Inv(tx: Tx) {
    && (tx.run.Some? ==> !tx.dropped && Synchronised(tx, tx.run.value))
    && (tx.run.None? && !tx.aborted && !tx.dropped ==>
          && tx.conn.inflight.None?
          && tx.begun == tx.acked
          && (tx.conn.live ==> Healthy(tx)))
    && (!tx.conn.live ==> tx.conn.inflight.None?)
    && (tx.finished ==> tx.dropped && !tx.conn.open && tx.conn.inflight.None?)
    && PublishesAll(tx)
    && AnswerTrue(tx)
  }

  lemma InitInv(backend: Backend)
    ensures Inv(Init(backend))
  {
  }

  /** Only COMMIT, and statements outside a transaction, publish. */
  lemma QuietCommand(c: Connection, command: Command)
    requires !command.Commit? && (command.Execute? ==> c.open)
    ensures var after := RunToEnd(c, command);
      after.published == c.published && after.inflight.None? && after.backend == c.backend
  {
  }

  lemma FinishPublishes(tx: Tx)
    requires Inv(tx) && tx.conn.live && tx.conn.inflight.Some?
    ensures PublishesAll(Serve(tx, Finish)) && AnswerTrue(Serve(tx, Finish))
  {
    if !tx.conn.inflight.value.Commit? {
      QuietCommand(tx.conn, tx.conn.inflight.value);
      hide Synchronised, RunToEnd, CommitRefused, RollbackCertain;
    } else {
      hide Synchronised, CommitRefused, RollbackCertain;
    }
  }

  /** Whatever it does, a finished command is answered and leaves the connection's identity. */
  lemma QuietFields(c: Connection, command: Command)
    ensures var after := RunToEnd(c, command);
      && after.inflight.None? && after.backend == c.backend && after.live == c.live
      && after.reply.Some? && !after.reply.value.RowReady? && !after.reply.value.Lost?
      && (!c.open && !command.Begin? ==> !after.open)
  {
  }

  predicate ControlFits(r: Running) {
    r.stage.Controlling? ==> r.stage.command.Begin? || r.stage.command.Commit? || r.stage.command.Rollback?
  }

  lemma ControlAnswers(tx: Tx, r: Running)
    requires tx.conn.live && tx.conn.inflight == Some(r.Wire()) && Before(tx, r) && r.stage.Controlling?
    requires ControlFits(r) && tx.conn.published == []
    ensures var after := Serve(tx, Finish); After(after, r, after.conn.reply.value)
  {
    hide CommitRefused, Saved, Damaged;
    var c, after := tx.conn, Serve(tx, Finish);
    match r.stage.command
    case Begin => assert after.conn == Answer(Server.Closed(c).(open := true), Done);
    case Commit => assert after.conn == Answer(Server.Closed(c).(published := c.pending), Done);
    case Rollback =>
  }

  lemma SavepointAnswers(tx: Tx, r: Running)
    requires tx.conn.live && tx.conn.inflight == Some(r.Wire()) && Before(tx, r)
    requires r.stage.Saving? || r.stage.ProbeUndo? || r.stage.Undoing? || r.stage.Releasing?
    ensures var after := Serve(tx, Finish); After(after, r, after.conn.reply.value)
  {
    hide CommitRefused;
    assert r.stage.Releasing? ==> [tx.acked][..0] == [];
  }

  lemma WorkAnswers(tx: Tx, r: Running)
    requires tx.conn.live && tx.conn.inflight == Some(r.Wire()) && Before(tx, r)
    requires r.stage.Preparing? || r.stage.Executing?
    ensures var after := Serve(tx, Finish); After(after, r, after.conn.reply.value)
  {
    hide CommitRefused;
  }

  /** The answer to the command of a stage means what the stage expects. */
  lemma FinishAnswers(tx: Tx, r: Running)
    requires tx.conn.live && tx.conn.inflight == Some(r.Wire()) && Before(tx, r)
    requires !r.stage.Leasing? && ControlFits(r) && tx.conn.published == []
    ensures var after := Serve(tx, Finish); After(after, r, after.conn.reply.value)
  {
    hide Before, After, RunToEnd;
    match r.stage
    case Controlling(_) => ControlAnswers(tx, r);
    case Preparing(_) => WorkAnswers(tx, r);
    case Executing => WorkAnswers(tx, r);
    case _ => SavepointAnswers(tx, r);
  }

  lemma FinishInv(tx: Tx)
    requires Inv(tx) && tx.conn.live && tx.conn.inflight.Some?
    ensures Inv(Serve(tx, Finish))
  {
    FinishPublishes(tx);
    QuietFields(tx.conn, tx.conn.inflight.value);
    if tx.run.Some? && tx.run.value.sent { FinishAnswers(tx, tx.run.value); }
    hide PublishesAll, AnswerTrue, Before, After, RunToEnd;
  }

  lemma RejectPublishes(tx: Tx, code: string, junk: seq<StatementId>, keepOpen: bool, applied: bool)
    requires Inv(tx) && tx.conn.live && tx.conn.inflight.Some?
    ensures PublishesAll(Serve(tx, Reject(code, junk, keepOpen, applied)))
    ensures AnswerTrue(Serve(tx, Reject(code, junk, keepOpen, applied)))
  {
  }

  lemma RejectInv(tx: Tx, code: string, junk: seq<StatementId>, keepOpen: bool, applied: bool)
    requires Inv(tx) && tx.conn.live && tx.conn.inflight.Some?
    ensures Inv(Serve(tx, Reject(code, junk, keepOpen, applied)))
  {
    RejectPublishes(tx, code, junk, keepOpen, applied);
    if tx.run.Some? && tx.run.value.sent {
      var after, r := Serve(tx, Reject(code, junk, keepOpen, applied)), tx.run.value;
      assert After(after, r, Rejected(code)) by {
        match r.stage { case Controlling(_) => case _ => }
      }
    }
  }

  lemma DisconnectInv(tx: Tx, runFirst: bool)
    requires Inv(tx) && tx.conn.live
    ensures Inv(Serve(tx, Disconnect(runFirst)))
  {
    var ran := if runFirst && tx.conn.inflight.Some? then Serve(tx, Finish) else tx;
    if runFirst && tx.conn.inflight.Some? {
      FinishInv(tx);
    }
    assert Inv(ran);
  }

  lemma ServeInv(tx: Tx, move: Move)
    requires Inv(tx)
    ensures Inv(Serve(tx, move))
  {
    if tx.conn.live {
      match move
      case Finish => if tx.conn.inflight.Some? { FinishInv(tx); }
      case EmitRow =>
      case Reject(code, junk, keepOpen, applied) =>
        if tx.conn.inflight.Some? { RejectInv(tx, code, junk, keepOpen, applied); }
      case Disconnect(runFirst) => DisconnectInv(tx, runFirst);
    }
  }

  lemma StartInv(tx: Tx, op: Operation)
    requires Inv(tx) && tx.run.None? && !tx.dropped && !op.OpenTx?
    ensures Inv(Start(tx, op).0)
  {
  }

  lemma SendInv(tx: Tx, r: Running)
    requires Inv(tx) && tx.run == Some(r) && !r.sent && !r.stage.Leasing?
    requires tx.conn.live && tx.conn.inflight.None?
    ensures Inv(Send(tx, r).0)
  {
  }

  /** The running operation stands where the poll of its answer finds it. */
  predicate Answered(tx: Tx, r: Running, reply: Reply) {
    && tx.run == Some(r) && !r.stage.Leasing? && tx.conn.inflight.None?
    && if tx.conn.live then r.sent && tx.conn.reply == Some(reply) else reply == Lost
  }

  lemma AfterPrepareInv(tx: Tx, r: Running, reply: Reply, choice: Choice)
    requires Inv(tx) && Answered(tx, r, reply) && r.stage.Preparing?
    ensures Inv(AfterPrepare(tx, r, reply, choice).0)
  {
  }

  lemma AfterControlInv(tx: Tx, r: Running, reply: Reply)
    requires Inv(tx) && Answered(tx, r, reply) && r.stage.Controlling?
    ensures Inv(AfterControl(tx, r, reply).0)
  {
  }

  lemma AfterReplyInv(tx: Tx, r: Running, reply: Reply, choice: Choice)
    requires Inv(tx) && Answered(tx, r, reply)
    ensures Inv(AfterReply(tx, r, reply, choice).0)
  {
    hide AfterPrepare, AfterControl;
    if r.stage.Preparing? {
      AfterPrepareInv(tx, r, reply, choice);
    } else if r.stage.Controlling? {
      AfterControlInv(tx, r, reply);
    }
  }

  lemma PollInv(tx: Tx, choice: Choice)
    requires Inv(tx) && tx.run.Some?
    ensures Inv(Poll(tx, choice).0)
  {
    var r := tx.run.value;
    if r.stage.Leasing? {
    } else if !r.sent {
      if tx.conn.inflight.None? {
        if tx.conn.live { SendInv(tx, r); } else { AfterReplyInv(tx, r, Lost, choice); }
      }
    } else if tx.conn.reply.Some? && !tx.conn.reply.value.RowReady? {
      AfterReplyInv(tx, r, tx.conn.reply.value, choice);
    }
  }

  lemma CancelInv(tx: Tx)
    requires Inv(tx)
    ensures Inv(Cancel(tx)) && Inv(DropTx(tx))
  {
  }

  /** What a caller sees of `Start`, `Poll` and `Cancel` for an operation that borrows. */
  lemma StartKeepsBorrow(tx: Tx, op: Operation)
    requires tx.run.None? && !tx.dropped && op.Borrows()
    ensures var (next, result) := Start(tx, op);
      && !next.dropped
      && (result.Ready? <==> next.run.None?)
      && (next.run.Some? <==> !tx.aborted)
      && (next.run.Some? ==> next.run.value.op == op)
  {
  }

  lemma PollKeepsBorrow(tx: Tx, choice: Choice)
    requires Inv(tx) && tx.run.Some? && tx.run.value.op.Borrows()
    ensures var (next, result) := Poll(tx, choice);
      && !next.dropped
      && (result.Ready? <==> next.run.None?)
      && (next.run.Some? ==> next.run.value.op == tx.run.value.op)
  {
  }

  /** What the owner sees of an operation that owns or consumes the transaction. */
  lemma PollKeepsOwned(tx: Tx, choice: Choice)
    requires Inv(tx) && tx.run.Some? && !tx.run.value.op.Borrows()
    ensures var op, (next, result) := tx.run.value.op, Poll(tx, choice);
      && (result.Ready? <==> next.run.None?)
      && (next.run.Some? ==> next.run.value.op == op)
      && (op.OpenTx? && result.Ready? ==> (next.dropped <==> result.error.Some?) && !next.commitSent && !next.aborted)
      && (!op.OpenTx? && result.Ready? ==> next.dropped)
      && (op.CommitTx? && result.Ready? ==> next.answer == Some(result.error))
      && (op.RollbackTx? && result.Ready? ==> !next.commitSent)
  {
  }

  /** A poll acknowledges exactly the effects of an operation whose execution the server
      answered. */
  lemma PollAcks(tx: Tx, choice: Choice)
    requires Inv(tx) && tx.run.Some? && Poll(tx, choice).0.acked != tx.acked
    ensures var r, next := tx.run.value, Poll(tx, choice).0;
      && next.acked == tx.acked + r.op.Effects() && next.run.None?
      && r.op.Borrows() && r.stage.Executing? && r.sent
      && tx.conn.live && tx.conn.inflight.None? && tx.conn.reply == Some(Done)
  {
    hide PublishesAll, AnswerTrue, Before, After;
  }

  /** The client moved on without touching the connection. */
  predicate Quiet(tx: Tx, r: Running, next: Tx) {
    && next.conn == tx.conn && next.commitSent == tx.commitSent
    && (next.run.Some? ==> next.run.value.op == r.op && !next.run.value.sent)
  }

  lemma EndsAreQuiet(tx: Tx, r: Running)
    ensures forall error :: Quiet(tx, r, Fail(tx, r, error).0) && Quiet(tx, r, FailLocally(tx, error).0)
    ensures forall stage :: Quiet(tx, r, GoTo(tx, r, stage).0)
    ensures Quiet(tx, r, Succeed(tx, r).0)
  {
  }

  lemma AfterPrepareIsQuiet(tx: Tx, r: Running, reply: Reply, choice: Choice)
    requires r.stage.Preparing?
    ensures Quiet(tx, r, AfterPrepare(tx, r, reply, choice).0)
  {
    EndsAreQuiet(tx, r);
    hide Quiet, Fail, FailLocally, GoTo;
  }

  lemma AfterReplyIsQuiet(tx: Tx, r: Running, reply: Reply, choice: Choice)
    requires !r.stage.Leasing?
    ensures Quiet(tx, r, AfterReply(tx, r, reply, choice).0)
  {
    EndsAreQuiet(tx, r);
    if r.stage.Preparing? { AfterPrepareIsQuiet(tx, r, reply, choice); }
    hide Quiet, Fail, FailLocally, GoTo, Succeed, AfterPrepare;
  }

  /** What a poll does to the connection: nothing, or take a row, or send the command of its
      stage. */
  lemma PollSends(tx: Tx, choice: Choice)
    requires tx.run.Some?
    ensures var r, next := tx.run.value, Poll(tx, choice).0;
      || Quiet(tx, r, next)
      || next == tx
      || (r.sent && next == tx.(conn := tx.conn.(reply := None)))
      || (!r.sent && !r.stage.Leasing? && tx.conn.inflight.None? && next == Send(tx, r).0)
  {
    var r := tx.run.value;
    EndsAreQuiet(tx, r);
    if r.stage.Leasing? {
    } else if !r.sent {
      AfterReplyIsQuiet(tx, r, Lost, choice);
    } else if tx.conn.reply.Some? {
      AfterReplyIsQuiet(tx, r, tx.conn.reply.value, choice);
    }
    hide Quiet, AfterReply, Fail, FailLocally, GoTo, Succeed, Send;
  }

  /** What the caller of a statement, batch or stream learns from its result. */
  lemma PollSettles(tx: Tx, choice: Choice)
    requires Inv(tx) && tx.run.Some? && tx.run.value.op.Borrows()
    ensures var (next, result) := Poll(tx, choice);
      && next.commitSent == tx.commitSent && next.answer == tx.answer
      && (result == Ready(None) ==> next.acked == tx.acked + tx.run.value.op.Effects() && !next.aborted)
      && (result != Ready(None) ==> next.acked == tx.acked)
  {
    hide PublishesAll, AnswerTrue, Before, After;
  }

  /** A usable transaction without a running operation is mirrored by the server. */
  predicate Mirrored(tx: Tx) {
    tx.conn.inflight.None? && tx.begun == tx.acked && (tx.conn.live ==> Healthy(tx))
  }

  /** Only `commit` of a transaction that is not rollback-only can report success. */
  lemma PollAnswers(tx: Tx, choice: Choice)
    requires Inv(tx) && tx.run.Some? && Poll(tx, choice).0.answer == Some(None) != tx.answer
    ensures tx.run.value.op.CommitTx? && !tx.aborted && Poll(tx, choice).0.acked == tx.acked
  {
    hide PublishesAll, AnswerTrue, Before, After;
  }

  /** The connection publishes only by the COMMIT of a healthy transaction. */
  lemma ServePublishes(tx: Tx, move: Move)
    requires Inv(tx) && Serve(tx, move).conn.published != tx.conn.published
    ensures tx.conn.live && tx.conn.inflight == Some(Commit) && tx.commitSent && Healthy(tx)
    ensures !Serve(tx, move).conn.open && Serve(tx, move).conn.published != []
  {
    hide Synchronised, AnswerTrue, CommitRefused;
    if tx.conn.inflight.Some? && !tx.conn.inflight.value.Commit? {
      QuietCommand(tx.conn, tx.conn.inflight.value);
      hide RunToEnd;
    }
  }

  lemma StepInv(tx: Tx, event: Event)
    requires Inv(tx)
    ensures Inv(Step(tx, event))
  {
    match event
    case Issue(op) => if !tx.dropped && tx.run.None? && !op.OpenTx? { StartInv(tx, op); }
    case Continue(choice) => if tx.run.Some? { PollInv(tx, choice); }
    case Abandon => CancelInv(tx);
    case Discard => CancelInv(tx);
    case ServerMove(move) => ServeInv(tx, move);
  }

  lemma {:induction false} RunInv(tx: Tx, events: seq<Event>)
    requires Inv(tx)
    ensures Inv(Run(tx, events))
    decreases |events|
  {
    if events != [] {
      RunInv(tx, events[..|events| - 1]);
      StepInv(Run(tx, events[..|events| - 1]), events[|events| - 1]);
    }
  }

  // ---------------------------------------------------------------- theorems

  /** Client/server simulation. In every run, a transaction that does not consider itself
      rollback-only and has not been consumed is mirrored exactly by the server: open, not
      failed, no internal savepoint left, nothing in flight, and its pending effects are the
      acknowledged statements, which are all the statements ever begun. */
  lemma {:induction false} Simulation(backend: Backend, events: seq<Event>)
    ensures var tx := Run(Init(backend), events);
      !tx.aborted && !tx.dropped && tx.run.None? ==>
        && tx.conn.inflight.None?
        && tx.begun == tx.acked
        && (tx.conn.live ==> Healthy(tx))
  {
    InitInv(backend);
    RunInv(Init(backend), events);
  }

  /** Atomicity of the explicit transaction. Whatever was published is everything that was
      acknowledged; a successful commit published it; any definite error, and any end before
      COMMIT was sent, published nothing. */
  lemma {:induction false} CommitAtomicity(backend: Backend, events: seq<Event>)
    ensures var tx := Run(Init(backend), events);
      && (tx.conn.published == [] || tx.conn.published == tx.acked)
      && (tx.answer == Some(None) ==> tx.conn.published == tx.acked == tx.begun)
      && (tx.answer.Some? && tx.answer.value.Some? && Definite(tx.conn.backend, tx.answer.value.value) ==>
            tx.conn.published == [])
      && (!tx.commitSent ==> tx.conn.published == [])
  {
    InitInv(backend);
    RunInv(Init(backend), events);
    hide Synchronised, CommitRefused;
  }

  lemma ServeKeepsBackend(c: Connection, move: Move)
    ensures Server.Serve(c, move).backend == c.backend
  {
    hide CommitRefused;
  }

  lemma StepKeepsBackend(tx: Tx, event: Event)
    ensures Step(tx, event).conn.backend == tx.conn.backend
  {
    if event.ServerMove? {
      ServeKeepsBackend(tx.conn, event.move);
      hide Server.Serve;
    } else if event.Continue? && tx.run.Some? {
      PollSends(tx, event.choice);
      hide Poll;
    }
  }

  lemma {:induction false} RunKeepsBackend(tx: Tx, events: seq<Event>)
    ensures Run(tx, events).conn.backend == tx.conn.backend
    decreases |events|
  {
    hide Step;
    if events != [] {
      RunKeepsBackend(tx, events[..|events| - 1]);
      StepKeepsBackend(Run(tx, events[..|events| - 1]), events[|events| - 1]);
    }
  }

  /** A connection is handed back for reuse only without an open transaction and without a
      statement in flight. */
  lemma {:induction false} ReturnedConnectionsAreClean(backend: Backend, events: seq<Event>)
    ensures var tx := Run(Init(backend), events);
      tx.finished ==> tx.dropped && !tx.conn.open && tx.conn.inflight.None?
  {
    InitInv(backend);
    RunInv(Init(backend), events);
  }

  /** Exactly the local errors leave the transaction usable: after an error a statement leaves
      it rollback-only unless the error is `BindCount` or `Encode`, and after one of those the
      server is as it was before the statement. */
  lemma LocalErrorsKeepTheTransaction(tx: Tx, choice: Choice)
    requires Inv(tx) && tx.run.Some? && tx.run.value.op.Borrows()
    requires Poll(tx, choice).1.Ready? && Poll(tx, choice).1.error.Some?
    ensures var (next, result) := Poll(tx, choice);
      && (next.aborted <==> result.error.value != BindCount && result.error.value != Encode)
      && next.acked == tx.acked
      && (!next.aborted ==> next.begun == next.acked && (next.conn.live ==> Healthy(next)))
  {
    PollInv(tx, choice);
  }

  predicate RollbackOnly(tx: Tx) {
    && tx.aborted && !tx.commitSent && tx.answer != Some(None)
    && (tx.run.Some? ==> tx.run.value.stage == Controlling(Rollback))
  }

  /** Rollback-only is for good: once a statement failed or its future was dropped, no later
      events publish anything or make `commit` succeed. */
  lemma {:induction false} RollbackOnlyForever(tx: Tx, events: seq<Event>)
    requires Inv(tx) && RollbackOnly(tx)
    ensures RollbackOnly(Run(tx, events)) && Run(tx, events).conn.published == []
    decreases |events|
  {
    RunInv(tx, events);
    if events != [] {
      RollbackOnlyForever(tx, events[..|events| - 1]);
      RunInv(tx, events[..|events| - 1]);
    }
  }

  /** Dropping the future of a started statement at any await makes the transaction
      rollback-only. */
  lemma CancelledStatementAborts(tx: Tx)
    requires Inv(tx) && tx.run.Some? && tx.run.value.op.Borrows()
    ensures RollbackOnly(Cancel(tx))
  {
  }
}
