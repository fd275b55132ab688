/** The transaction as the object src/transaction.rs has: flags and a connection updated in
    place around every await. Each method is proved against the step function of the
    transaction machine, and so keeps its invariant. */
module TransactionObjects {
  import opened Common
  import opened Server
  import opened Transactions

  /** What the result of a poll tells the caller. */
  lemma Outcomes(tx: Tx, choice: Choice)
    requires Inv(tx) && tx.run.Some?
    ensures var op, (next, result) := tx.run.value.op, Poll(tx, choice);
      && next.conn.backend == tx.conn.backend
      && (op.Borrows() && result == Ready(None) ==>
            !next.aborted && next.acked == tx.acked + op.Effects() && Mirrored(next))
      && (op.Borrows() && result != Ready(None) ==> next.acked == tx.acked)
      && (op.CommitTx? && result.Ready? ==>
            && (result.error.None? ==> next.conn.published == next.acked == next.begun)
            && (result.error.Some? && Definite(next.conn.backend, result.error.value) ==> next.conn.published == []))
  {
    PollInv(tx, choice);
    StepKeepsBackend(tx, Event.Continue(choice));
    if tx.run.value.op.Borrows() {
      PollSettles(tx, choice);
      PollKeepsBorrow(tx, choice);
    } else {
      PollKeepsOwned(tx, choice);
    }
    hide Poll, Synchronised, PublishesAll, Definite;
  }

  class Transaction {
    var connection: Connection
    var aborted: bool
    var finished: bool
    var dropped: bool
    var running: Option<Running>
    ghost var acked: seq<StatementId>
    ghost var begun: seq<StatementId>
    ghost var commitSent: bool
    ghost var answer: Option<Option<Error>>

    ghost function State(): Tx
      reads this
    {
      Tx(connection, aborted, finished, dropped, running, acked, begun, commitSent, answer)
    }

    ghost predicate Valid()
      reads this
    {
      Inv(State())
    }

    /** `begin`: the object exists before BEGIN is sent. */
    constructor (backend: Backend)
      ensures Valid() && State() == Init(backend)
    {
      connection := Fresh(backend);
      aborted, finished, dropped := false, false, false;
      running := Some(Running(OpenTx, Controlling(Begin), false));
      acked, begun, commitSent, answer := [], [], false, None;
      new;
      InitInv(backend);
    }

    /** The part of `commit`, `rollback`, `run_statement`, `batch` and `rows` before the first
        await. */
    method Issue(op: Operation) returns (result: PollResult)
      requires Valid() && running.None? && !dropped && !op.OpenTx?
      modifies this
      ensures Valid() && (State(), result) == Start(old(State()), op)
      ensures op.Borrows() ==> aborted && acked == old(acked) && connection == old(connection)
      ensures result.Ready? <==> op.Borrows() && old(aborted)
    {
      StartInv(State(), op);
      result := Pending;
      if op.CommitTx? {
        running := Some(Running(op, if aborted then Controlling(Rollback) else Leasing, false));
      } else if op.RollbackTx? {
        running := Some(Running(op, Controlling(Rollback), false));
      } else if aborted {
        result := Ready(Some(TransactionAborted));
      } else {
        // A future dropped at any later await leaves the transaction rollback-only.
        aborted := true;
        running := Some(Running(op, Leasing, false));
      }
    }

    method Enter(stage: Stage) returns (result: PollResult)
      requires running.Some?
      modifies this
      ensures (State(), result) == GoTo(old(State()), old(running.value), stage)
    {
      running := Some(Running(running.value.op, stage, false));
      result := Pending;
    }

    method Fails(error: Error) returns (result: PollResult)
      requires running.Some?
      modifies this
      ensures (State(), result) == Fail(old(State()), old(running.value), error)
    {
      var op := running.value.op;
      running := None;
      if !op.Borrows() {
        dropped := true;
      }
      if op.CommitTx? {
        answer := Some(Some(error));
      }
      result := Ready(Some(error));
    }

    method FailsLocally(error: Error) returns (result: PollResult)
      modifies this
      ensures (State(), result) == FailLocally(old(State()), error)
    {
      running := None;
      aborted := false;
      result := Ready(Some(error));
    }

    method Succeeds() returns (result: PollResult)
      requires running.Some?
      modifies this
      ensures (State(), result) == Succeed(old(State()), old(running.value))
    {
      var op := running.value.op;
      running := None;
      if op.Borrows() {
        aborted := false;
        acked := acked + op.Effects();
      } else if !op.OpenTx? {
        finished, dropped := true, true;
        if op.CommitTx? {
          answer := Some(None);
        }
      }
      result := Ready(None);
    }

    /** `check_lease` came back. */
    method Leased(choice: Choice) returns (result: PollResult)
      requires running.Some?
      modifies this
      ensures (State(), result) == AfterLease(old(State()), old(running.value), choice)
    {
      var op := running.value.op;
      if !choice.leaseOk {
        result := Fails(DatabaseLost);
      } else if !op.Borrows() {
        result := Enter(Controlling(Commit));
      } else if op.Batch? {
        result := Enter(Executing);
      } else if !choice.encodeOk {
        result := FailsLocally(Encode);
      } else if connection.backend.Postgres? {
        result := Enter(Saving);
      } else {
        result := Enter(Preparing(true));
      }
    }

    method Prepared(reply: Reply, choice: Choice) returns (result: PollResult)
      requires running.Some? && running.value.stage.Preparing?
      modifies this
      ensures (State(), result) == AfterPrepare(old(State()), old(running.value), reply, choice)
    {
      hide Fail, FailLocally, GoTo;
      var full := running.value.stage.full;
      if connection.backend.Sqlite? {
        if !reply.Done? {
          result := Fails(Driver);
        } else if choice.verdict.Mismatch? {
          result := FailsLocally(BindCount);
        } else {
          result := Enter(Executing);
        }
      } else if reply.Done? {
        match choice.verdict
        case Probe => result := Enter(Preparing(false));
        case Accept => result := Enter(Releasing(true));
        case Mismatch => result := Enter(Undoing);
      } else if reply.Rejected? && full && IndeterminateParameter(reply.code) {
        result := Enter(Undoing);
      } else if reply.Rejected? && !full && ParameterResolutionError(reply.code) {
        result := Enter(ProbeUndo);
      } else {
        result := Fails(Driver);
      }
    }

    method Controlled(reply: Reply) returns (result: PollResult)
      requires running.Some? && running.value.stage.Controlling?
      modifies this
      ensures (State(), result) == AfterControl(old(State()), old(running.value), reply)
    {
      hide Fail, Succeed;
      var r := running.value;
      if r.op.CommitTx? && r.stage.command.Rollback? {
        result := Fails(TransactionAborted);
      } else if reply.Done? {
        result := Succeeds();
      } else if r.op.CommitTx? {
        result := Fails(CommitError(reply));
      } else {
        result := Fails(Driver);
      }
    }

    method Replied(reply: Reply, choice: Choice) returns (result: PollResult)
      requires running.Some? && !running.value.stage.Leasing?
      modifies this
      ensures (State(), result) == AfterReply(old(State()), old(running.value), reply, choice)
    {
      hide Fail, FailLocally, GoTo, Succeed, AfterPrepare, AfterControl;
      var stage := running.value.stage;
      if stage.Controlling? {
        result := Controlled(reply);
      } else if stage.Preparing? {
        result := Prepared(reply, choice);
      } else if !reply.Done? {
        result := Fails(Driver);
      } else if stage.Saving? {
        result := Enter(Preparing(true));
      } else if stage.ProbeUndo? {
        result := Enter(if choice.verdict.Mismatch? then Undoing else Releasing(true));
      } else if stage.Undoing? {
        result := Enter(Releasing(false));
      } else if stage == Releasing(true) {
        result := Enter(Executing);
      } else if stage == Releasing(false) {
        result := FailsLocally(BindCount);
      } else {
        result := Succeeds();
      }
    }

    /** Resume the running operation until its next await. */
    method Continue(choice: Choice) returns (result: PollResult)
      requires Valid() && running.Some?
      modifies this
      ensures Valid() && (State(), result) == Poll(old(State()), choice)
      ensures connection.backend == old(connection.backend)
      ensures old(running.value.op).Borrows() && result == Ready(None) ==>
        !aborted && acked == old(acked) + old(running.value.op).Effects() && Mirrored(State())
      ensures old(running.value.op).Borrows() && result != Ready(None) ==> acked == old(acked)
      ensures old(running.value.op).CommitTx? && result.Ready? ==>
        && (result.error.None? ==> connection.published == acked == begun)
        && (result.error.Some? && Definite(connection.backend, result.error.value) ==> connection.published == [])
    {
      PollInv(State(), choice);
      Outcomes(State(), choice);
      hide Inv, Poll, Mirrored, Definite;
      result := Resume(choice);
    }

    /** The body of the future from one await to the next. */
    method Resume(choice: Choice) returns (result: PollResult)
      requires running.Some?
      modifies this
      ensures (State(), result) == Poll(old(State()), choice)
    {
      hide AfterLease, AfterReply;
      var r := running.value;
      if r.stage.Leasing? {
        result := Leased(choice);
      } else if !r.sent && connection.inflight.Some? {
        result := Pending;
      } else if !r.sent && !connection.live {
        result := Replied(Lost, choice);
      } else if !r.sent {
        connection := connection.(inflight := Some(r.Wire()), reply := None);
        running := Some(r.(sent := true));
        if r.stage.Executing? {
          begun := begun + r.op.Effects();
        }
        if r.Wire().Commit? {
          commitSent := true;
        }
        result := Pending;
      } else if connection.reply.None? {
        result := Pending;
      } else if connection.reply == Some(RowReady) {
        connection := connection.(reply := None);
        result := if r.op.Stream? then Row else Pending;
      } else {
        result := Replied(connection.reply.value, choice);
      }
    }

    /** The future of the running operation is dropped. */
    method Abandon()
      requires Valid()
      modifies this
      ensures Valid() && State() == Cancel(old(State()))
      ensures old(running).Some? && old(running.value.op).Borrows() ==> RollbackOnly(State())
    {
      CancelInv(State());
      if running.Some? && running.value.op.Borrows() { CancelledStatementAborts(State()); }
      if running.Some? {
        if !running.value.op.Borrows() {
          dropped := true;
        }
        running := None;
      }
    }

    /** `Drop`: what becomes of the connection is decided by `finished`. */
    method Discard() returns (closesConnection: bool)
      requires Valid()
      modifies this
      ensures Valid() && State() == DropTx(old(State()))
      ensures closesConnection <==> !finished
      ensures !closesConnection ==> !connection.open && connection.inflight.None?
    {
      CancelInv(State());
      running := None;
      dropped := true;
      closesConnection := !finished;
    }

    /** The server's turn. */
    method Serve(move: Move)
      requires Valid()
      modifies this
      ensures Valid() && State() == Transactions.Serve(old(State()), move)
      ensures connection.backend == old(connection.backend)
    {
      ServeKeepsBackend(connection, move);
      ServeInv(State(), move);
      hide Inv, Server.Serve;
      connection := Server.Serve(connection, move);
    }
  }
}
