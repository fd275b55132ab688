/** What the results of a transaction's calls say: which error means what, what a counted
    parameter list decides, and what becomes of `commit` on a rollback-only transaction. */
module TransactionResults {
  import opened Common
  import opened Server
  import opened Transactions

  // ---------------------------------------------------------------- rollback-only

  /** A rollback-only transaction refuses every statement, batch and stream, and is left alone. */
  lemma RollbackOnlyRefuses(tx: Tx, op: Operation)
    requires tx.aborted && op.Borrows()
    ensures Start(tx, op) == (tx, Ready(Some(TransactionAborted)))
  {
  }

  /** `commit` of a rollback-only transaction, from its first poll on. */
  predicate CommitRollsBack(tx: Tx) {
    && tx.aborted && !tx.commitSent
    && (tx.run.Some? ==> tx.run.value.op.CommitTx? && tx.run.value.stage == Controlling(Rollback))
    && (tx.run.None? ==> tx.dropped)
    && (tx.answer.None? || tx.answer == Some(Some(TransactionAborted)))
  }

  lemma RolledBackStep(tx: Tx, event: Event)
    requires Inv(tx) && CommitRollsBack(tx)
    ensures CommitRollsBack(Step(tx, event))
  {
    hide PublishesAll, Before, After, Server.Serve;
  }

  lemma {:induction false} RolledBackRun(tx: Tx, events: seq<Event>)
    requires Inv(tx) && CommitRollsBack(tx)
    ensures CommitRollsBack(Run(tx, events))
    decreases |events|
  {
    hide Step, Inv, CommitRollsBack;
    if events != [] {
      RolledBackRun(tx, events[..|events| - 1]);
      RunInv(tx, events[..|events| - 1]);
      RolledBackStep(Run(tx, events[..|events| - 1]), events[|events| - 1]);
    }
  }

  /** Committing a rollback-only transaction never sends COMMIT, whatever happens, and if it
      answers it answers `TransactionAborted`. */
  lemma AbortedCommitReports(tx: Tx, events: seq<Event>)
    requires Inv(tx) && tx.aborted && !tx.dropped && tx.run.None?
    ensures var end := Run(Start(tx, CommitTx).0, events);
      && !end.commitSent && end.conn.published == []
      && (end.answer.None? || end.answer == Some(Some(TransactionAborted)))
  {
    var started := Start(tx, CommitTx).0;
    StartInv(tx, CommitTx);
    assert CommitRollsBack(started);
    RolledBackRun(started, events);
    RunInv(started, events);
    hide Run, Synchronised;
  }

  // ---------------------------------------------------------------- errors

  /** What the server's answer to the running command is, when it is not a success. */
  predicate Unanswered(tx: Tx) {
    !tx.conn.live || (tx.conn.reply.Some? && !tx.conn.reply.value.Done?)
  }

  /** Which error a statement, batch or stream reports: the keeper is lost, before anything is
      sent; an argument does not encode, likewise; the parameters do not match, after the server
      answered; anything else is the database's refusal, or its loss. */
  lemma ErrorsTellTheCause(tx: Tx, choice: Choice)
    requires Inv(tx) && tx.run.Some? && tx.run.value.op.Borrows() && Poll(tx, choice).1.Ready?
    ensures var r, (next, result) := tx.run.value, Poll(tx, choice);
      var error := result.error;
      && next.conn == tx.conn && next.begun == tx.begun
      && (error == Some(DatabaseLost) <==> r.stage.Leasing? && !choice.leaseOk)
      && (error == Some(Encode) <==> r.stage.Leasing? && choice.leaseOk && !choice.encodeOk && !r.op.Batch?)
      && (error == Some(Driver) <==> !r.stage.Leasing? && Unanswered(tx))
      && (error == Some(BindCount) ==> !r.stage.Leasing? && !r.stage.Executing? && !Unanswered(tx))
      && (error.None? <==> r.stage.Executing? && !Unanswered(tx))
      && (error.None? || error.value in {DatabaseLost, Encode, Driver, BindCount})
  {
    hide PublishesAll, AnswerTrue, Before, After;
  }

  /** What begin, commit and rollback report: success exactly when the database answered it,
      `DatabaseLost` exactly when the keeper is lost before COMMIT is sent, the classified reply of
      COMMIT, and for begin and rollback the driver's error. */
  lemma ControlsTellTheCause(tx: Tx, choice: Choice)
    requires Inv(tx) && tx.run.Some? && !tx.run.value.op.Borrows() && !tx.aborted && Poll(tx, choice).1.Ready?
    ensures var r, error := tx.run.value, Poll(tx, choice).1.error;
      && (error.None? <==> !r.stage.Leasing? && !Unanswered(tx))
      && (error == Some(DatabaseLost) <==> r.stage.Leasing? && !choice.leaseOk)
      && (!r.op.CommitTx? && error.Some? ==> error == Some(Driver))
      && (r.op.CommitTx? && !r.stage.Leasing? && error.Some? ==>
            error.value == if tx.conn.live then CommitError(tx.conn.reply.value) else CommitUnknown)
      && Poll(tx, choice).0.conn == tx.conn
  {
    hide PublishesAll, AnswerTrue, Before, After, RollbackCertain;
  }

  /** Rows are for streams: a buffered statement that the server answers with rows stays pending. */
  lemma RowsAreForStreams(tx: Tx, choice: Choice)
    requires Inv(tx) && tx.run.Some?
    ensures var r := tx.run.value;
      Poll(tx, choice).1 == Row <==> r.op.Stream? && r.sent && tx.conn.reply == Some(RowReady)
  {
    hide PublishesAll, AnswerTrue, Before, After;
  }

  // ---------------------------------------------------------------- counting parameters

  /** The count has been taken: the statement goes on to execute, or to undo and report. */
  predicate Decided(r: Running, accepted: bool) {
    if accepted then r.stage == Releasing(true) || r.stage.Executing?
    else r.stage.Undoing? || r.stage == Releasing(false)
  }

  /** The refusals of a preparation that say something about the parameters. */
  predicate BlamesParameters(full: bool, code: string) {
    if full then code == "42P18"
    else code == "42P18" || code == "42P08" || code == "42725" || code == "42883" || code == "42804" || code == "42846"
  }

  /** What the answer to a preparation, and the count taken from it, decide. */
  lemma CountDecides(tx: Tx, choice: Choice)
    requires Inv(tx) && tx.run.Some? && tx.run.value.op.Borrows() && tx.run.value.stage.Preparing?
    requires tx.run.value.sent && tx.conn.live && tx.conn.inflight.None?
    ensures var r, (next, result), reply := tx.run.value, Poll(tx, choice), tx.conn.reply.value;
      var postgres := tx.conn.backend.Postgres?;
      if reply.Done? then
        match choice.verdict
        case Accept => next.run.Some? && Decided(next.run.value, true)
        case Mismatch =>
          if postgres then next.run.Some? && Decided(next.run.value, false) else result == Ready(Some(BindCount))
        case Probe =>
          if postgres then next.run == Some(Running(r.op, Preparing(false), false))
          else next.run.Some? && Decided(next.run.value, true)
      else if postgres && reply.Rejected? && BlamesParameters(r.stage.full, reply.code) then
        next.run.Some? && if r.stage.full then Decided(next.run.value, false) else next.run.value.stage.ProbeUndo?
      else result == Ready(Some(Driver))
  {
    hide PublishesAll, AnswerTrue, Before, After;
  }

  /** A refused probe is undone first, and then the count decides. */
  lemma UndoneProbeDecides(tx: Tx, choice: Choice)
    requires Inv(tx) && tx.run.Some? && tx.run.value.stage.ProbeUndo? && tx.run.value.sent
    requires tx.conn.live && tx.conn.inflight.None? && tx.conn.reply == Some(Done)
    ensures var next := Poll(tx, choice).0; next.run.Some? && Decided(next.run.value, !choice.verdict.Mismatch?)
  {
  }

  /** One poll of a decided statement. */
  lemma DecisionHolds(tx: Tx, choice: Choice, accepted: bool)
    requires Inv(tx) && tx.run.Some? && tx.run.value.op.Borrows() && Decided(tx.run.value, accepted)
    ensures var (next, result) := Poll(tx, choice);
      && (next.run.Some? ==> Decided(next.run.value, accepted) && next.acked == tx.acked)
      && (!accepted ==> next.begun == tx.begun && next.acked == tx.acked)
      && (result.Ready? ==>
            || result.error == Some(Driver)
            || (if accepted then result.error.None? && next.acked == tx.acked + tx.run.value.op.Effects()
                else result.error == Some(BindCount)))
  {
    hide PublishesAll, AnswerTrue, Before, After;
  }

  /** Polls and server moves, without the drop of the future. */
  predicate Driven(events: seq<Event>) {
    forall i :: 0 <= i < |events| ==> events[i].Continue? || events[i].ServerMove?
  }

  /** Over any polls and server moves: a statement whose parameters do not match is never sent for
      execution and acknowledges nothing; once it is over without a database error the
      transaction is usable. A statement whose parameters match is acknowledged exactly if it
      leaves the transaction usable. */
  lemma {:induction false} DecisionStands(tx: Tx, events: seq<Event>, accepted: bool)
    requires Inv(tx) && tx.run.Some? && tx.run.value.op.Borrows() && Decided(tx.run.value, accepted) && Driven(events)
    ensures var end := Run(tx, events);
      && (end.run.Some? ==> end.run.value.op == tx.run.value.op && Decided(end.run.value, accepted) && end.acked == tx.acked)
      && (!accepted ==> end.begun == tx.begun && end.acked == tx.acked)
      && (end.run.None? && accepted ==>
            end.acked == if end.aborted then tx.acked else tx.acked + tx.run.value.op.Effects())
    decreases |events|
  {
    hide Inv, Poll, Server.Serve, Decided;
    if events != [] {
      var before, last := Run(tx, events[..|events| - 1]), events[|events| - 1];
      DecisionStands(tx, events[..|events| - 1], accepted);
      RunInv(tx, events[..|events| - 1]);
      if last.Continue? && before.run.Some? {
        DecisionHolds(before, last.choice, accepted);
        PollKeepsBorrow(before, last.choice);
        PollSettles(before, last.choice);
        if Poll(before, last.choice).1.Ready? { SettledFlag(before, last.choice); }
      }
    }
  }

  /** A statement that ends leaves the transaction usable exactly on success or a local error. */
  lemma SettledFlag(tx: Tx, choice: Choice)
    requires Inv(tx) && tx.run.Some? && tx.run.value.op.Borrows() && Poll(tx, choice).1.Ready?
    ensures var (next, result) := Poll(tx, choice);
      next.aborted <==> result.error.Some? && result.error.value != BindCount && result.error.value != Encode
  {
    hide PublishesAll, AnswerTrue, Before, After;
  }
}
