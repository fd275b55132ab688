/** Connection hygiene (src/driver.rs, src/transaction.rs): leases for pooled queries and
    streams, transactions, and the SQLite progress handler that interrupts cancelled
    statements. Every physical connection is one line; any number of lines run concurrently. */
module Pool {
  import opened Common
  import opened Server
  import T = Transactions

  type Flag = nat

  /** A pooled statement holding a `Lease`. */
  datatype Lease = Lease(id: StatementId, stream: bool, executing: bool, full: bool, sent: bool)

  datatype User =
    | Idle
    | Leased(lease: Lease)
    | InTx(tx: T.Tx)
    | Closed

  /** `handler` is the cancellation flag the SQLite progress handler watches; `own` the flag of
      the statement whose guard is alive; `running` the flag of the statement, if any, that the
      command in flight belongs to. While a transaction uses the line, its connection is the
      transaction's. */
  datatype Line = Line(
    conn: Connection,
    user: User,
    handler: Option<Flag>,
    own: Option<Flag>,
    running: Option<Flag>)

  datatype Pool = Pool(lines: map<nat, Line>, tripped: set<Flag>, next: Flag)

  datatype Event =
    | Connect(i: nat, backend: Backend)
    | AcquireLease(i: nat, id: StatementId, stream: bool)
    | PollLease(i: nat, choice: T.Choice)
    | DropLease(i: nat)
    | BeginTx(i: nat)
    | IssueTx(i: nat, op: T.Operation)
    | PollTx(i: nat, choice: T.Choice)
    | CancelTx(i: nat)
    | DropTx(i: nat)
    | Serve(i: nat, move: Move)

  function Wire(l: Line): Connection {
    if l.user.InTx? then l.user.tx.conn else l.conn
  }

  // ---------------------------------------------------------------- interruption guards

  /** Create the statement's flag and install it as the progress handler. */
  function Guard(p: Pool, l: Line): (Pool, Line) {
    if Wire(l).backend.Sqlite? then
      (p.(next := p.next + 1), l.(handler := Some(p.next), own := Some(p.next)))
    else (p, l)
  }

  /** `Drop for SqliteCancellation`: trip the flag unless the statement completed. */
  function Unguard(p: Pool, l: Line, complete: bool): (Pool, Line) {
    (if l.own.Some? && !complete then p.(tripped := p.tripped + {l.own.value}) else p, l.(own := None))
  }

  // ---------------------------------------------------------------- leases

  datatype Progress = Continues(lease: Lease) | Finishes(reusable: bool, complete: bool)

  predicate CountsAsBindCount(backend: Backend, lease: Lease, code: string) {
    backend.Postgres? && lease.full && T.IndeterminateParameter(code)
  }

  /** The reply to a pooled statement. Only success, and for buffered queries `BindCount`, makes
      the connection reusable. */
  function AfterReply(c: Connection, lease: Lease, reply: Reply, choice: T.Choice): Progress {
    if lease.executing then Finishes(reply.Done?, reply.Done?)
    else
      match reply
      case Done =>
        if choice.verdict.Mismatch? then Finishes(!lease.stream, false)
        else if choice.verdict.Probe? && c.backend.Postgres? then Continues(lease.(full := false, sent := false))
        else Continues(lease.(executing := true, sent := false))
      case Rejected(code) =>
        if CountsAsBindCount(c.backend, lease, code) then Finishes(!lease.stream, false)
        else if c.backend.Postgres? && !lease.full && T.ParameterResolutionError(code) then
          if choice.verdict.Mismatch? then Finishes(!lease.stream, false)
          else Continues(lease.(executing := true, sent := false))
        else Finishes(false, false)
      case _ => Finishes(false, false)
  }

  function LeaseCommand(lease: Lease): Command {
    if lease.executing then Execute([lease.id]) else Prepare
  }

  function SettleLease(p: Pool, l: Line, progress: Progress): (Pool, Line) {
    match progress
    case Continues(lease) => (p, l.(user := Leased(lease)))
    case Finishes(reusable, complete) =>
      Unguard(p, l.(user := if reusable then Idle else Closed), complete)
  }

  function StepLease(p: Pool, l: Line, choice: T.Choice): (Pool, Line)
    requires l.user.Leased?
  {
    var c, lease := l.conn, l.user.lease;
    if !lease.sent then
      if !c.live then SettleLease(p, l, Finishes(false, false))
      else
        (p, l.(conn := c.(inflight := Some(LeaseCommand(lease)), reply := None),
               user := Leased(lease.(sent := true)), running := l.own))
    else
      match c.reply
      case None => (p, l)
      case Some(RowReady) => (p, l.(conn := c.(reply := None)))
      case Some(reply) => SettleLease(p, l, AfterReply(c, lease, reply, choice))
  }

  // ---------------------------------------------------------------- transactions

  /** `control` removes the progress handler before its raw SQL; statements keep their own. */
  predicate Raw(r: T.Running) {
    r.stage.Controlling? || r.op.Batch?
  }

  predicate Sends(tx: T.Tx) {
    && tx.run.Some? && !tx.run.value.stage.Leasing? && !tx.run.value.sent
    && tx.conn.inflight.None? && tx.conn.live
  }

  function Settle(p: Pool, l: Line): (Pool, Line)
    requires l.user.InTx?
  {
    var tx := l.user.tx;
    if !tx.dropped then (p, l)
    else (p, l.(conn := tx.conn, user := if tx.finished then Idle else Closed))
  }

  function StepTx(p: Pool, l: Line, choice: T.Choice): (Pool, Line)
    requires l.user.InTx? && l.user.tx.run.Some?
  {
    var tx := l.user.tx;
    var r := tx.run.value;
    var (next, result) := T.Poll(tx, choice);
    var moved := l.(user := InTx(next));
    if Sends(tx) then
      (p, if Raw(r) then moved.(handler := None, running := None) else moved.(running := l.own))
    else if r.stage.Leasing? && next.run.Some? && next.run.value.stage.Preparing? then Guard(p, moved)
    else if next.run.None? then
      var (p1, l1) := Unguard(p, moved, result.Ready? && result.error.None?);
      Settle(p1, l1)
    else (p, moved)
  }

  function StopTx(p: Pool, l: Line, drop: bool): (Pool, Line)
    requires l.user.InTx?
  {
    var tx := l.user.tx;
    var (p1, l1) := Unguard(p, l.(user := InTx(if drop then T.DropTx(tx) else T.Cancel(tx))), false);
    Settle(p1, l1)
  }

  // ---------------------------------------------------------------- steps

  function StepLine(p: Pool, l: Line, event: Event): (Pool, Line) {
    match event
    case Connect(_, _) => (p, l)
    case AcquireLease(_, id, stream) =>
      if l.user.Idle? then Guard(p, l.(user := Leased(Lease(id, stream, false, true, false)))) else (p, l)
    case PollLease(_, choice) => if l.user.Leased? then StepLease(p, l, choice) else (p, l)
    case DropLease(_) => if l.user.Leased? then Unguard(p, l.(user := Closed), false) else (p, l)
    case BeginTx(_) =>
      if l.user.Idle? then (p, l.(user := InTx(T.Init(l.conn.backend).(conn := l.conn.(published := []))))) else (p, l)
    case IssueTx(_, op) =>
      if l.user.InTx? && l.user.tx.run.None? && !op.OpenTx? then
        (p, l.(user := InTx(T.Start(l.user.tx, op).0)))
      else (p, l)
    case PollTx(_, choice) => if l.user.InTx? && l.user.tx.run.Some? then StepTx(p, l, choice) else (p, l)
    case CancelTx(_) => if l.user.InTx? then StopTx(p, l, false) else (p, l)
    case DropTx(_) => if l.user.InTx? then StopTx(p, l, true) else (p, l)
    case Serve(_, move) =>
      if l.user.InTx? then (p, l.(user := InTx(T.Serve(l.user.tx, move))))
      else (p, l.(conn := Server.Serve(l.conn, move)))
  }

  function Step(p: Pool, event: Event): Pool {
    if event.i in p.lines then
      var (next, l) := StepLine(p, p.lines[event.i], event);
      next.(lines := next.lines[event.i := l])
    else if event.Connect? then
      p.(lines := p.lines[event.i := Line(Fresh(event.backend), Idle, None, None, None)])
    else p
  }

  function Run(events: seq<Event>): Pool
    decreases |events|
  {
    if events == [] then Pool(map[], {}, 0) else Step(Run(events[..|events| - 1]), events[|events| - 1])
  }

  // ---------------------------------------------------------------- invariant

  predicate Clean(c: Connection) {
    !c.open && c.inflight.None?
  }

  predicate LeaseInv(c: Connection, lease: Lease) {
    && !c.open
    && (c.inflight.Some? ==> lease.sent && c.inflight.value == LeaseCommand(lease))
    && (lease.sent && c.inflight.Some? ==> c.reply.None? || c.reply.value.RowReady?)
  }

  /** A SQLite statement is guarded from preparation until it ends. */
  predicate Guarded(tx: T.Tx) {
    && tx.conn.backend.Sqlite? && tx.run.Some?
    && (tx.run.value.op.Statement? || tx.run.value.op.Stream?)
    && (tx.run.value.stage.Preparing? || tx.run.value.stage.Executing?)
  }

  predicate UserInv(l: Line) {
    match l.user
    case Idle => Clean(l.conn) && l.own.None?
    case Leased(lease) => LeaseInv(l.conn, lease) && (l.own.Some? <==> l.conn.backend.Sqlite?)
    case InTx(tx) => T.Inv(tx) && !tx.dropped && (l.own.Some? <==> Guarded(tx))
    case Closed => l.own.None?
  }

  /** A guard alive is the installed handler and has not tripped; a command in flight runs under
      the handler of its own statement, or under none. */
  predicate HandlerInv(p: Pool, l: Line) {
    && (l.handler.Some? ==> l.handler.value < p.next)
    && (l.own.Some? ==> l.handler == l.own && l.own.value !in p.tripped)
    && (Wire(l).backend.Postgres? ==> l.handler.None?)
    && (Wire(l).inflight.Some? ==> l.handler == l.running)
  }

  predicate LineInv(p: Pool, l: Line) {
    UserInv(l) && HandlerInv(p, l)
  }

  predicate Inv(p: Pool) {
    && (forall f :: f in p.tripped ==> f < p.next)
    && (forall i :: i in p.lines ==> LineInv(p, p.lines[i]))
    && (forall i, j :: i in p.lines && j in p.lines && i != j && p.lines[i].own.Some? ==>
          p.lines[i].own != p.lines[j].own)
  }

  // ---------------------------------------------------------------- every step keeps Inv

  /** What polling a transaction does to the wire and to the guarded stages. */
  lemma PollOnTheWire(tx: T.Tx, choice: T.Choice)
    requires T.Inv(tx) && tx.run.Some?
    ensures var r, next := tx.run.value, T.Poll(tx, choice).0;
      && next.conn.backend == tx.conn.backend
      && (Sends(tx) ==> next.run == Some(r.(sent := true)) && !next.dropped)
      && (Sends(tx) && tx.conn.backend.Sqlite? ==> (Raw(r) <==> !Guarded(tx)))
      && (!Sends(tx) ==> next.conn.inflight == tx.conn.inflight)
      && (r.stage.Leasing? ==> !Guarded(tx) && tx.conn.inflight.None?)
      && (r.stage.Leasing? && next.run.Some? && next.run.value.stage.Preparing? ==> Guarded(next) && !next.dropped)
      && (!Sends(tx) && next.run.Some? && !(r.stage.Leasing? && next.run.value.stage.Preparing?) ==>
            (Guarded(next) <==> Guarded(tx)) && !next.dropped)
  {
  }

  ghost predicate Fits(p: Pool, l: Line, p': Pool, l': Line) {
    && LineInv(p', l')
    && p'.lines == p.lines && p'.next >= p.next
    && (p'.tripped == p.tripped || (l.own.Some? && p'.tripped == p.tripped + {l.own.value}))
    && (l'.own.Some? ==> l'.own == l.own || l'.own.value >= p.next)
  }

  predicate FlagsKnown(p: Pool) {
    forall f :: f in p.tripped ==> f < p.next
  }

  lemma StepTxInv(p: Pool, l: Line, choice: T.Choice)
    requires FlagsKnown(p) && LineInv(p, l) && l.user.InTx? && l.user.tx.run.Some?
    ensures var (p', l') := StepTx(p, l, choice); Fits(p, l, p', l')
  {
    hide T.Inv, T.Poll;
    var tx := l.user.tx;
    var next := T.Poll(tx, choice).0;
    T.PollInv(tx, choice);
    PollOnTheWire(tx, choice);
    DroppedIsClean(next);
    NotGuarded(next);
  }

  lemma DroppedIsClean(tx: T.Tx)
    requires T.Inv(tx)
    ensures tx.finished ==> Clean(tx.conn)
  {
  }

  lemma NotGuarded(tx: T.Tx)
    ensures tx.run.None? ==> !Guarded(tx)
  {
  }

  lemma StopTxInv(p: Pool, l: Line, drop: bool)
    requires FlagsKnown(p) && LineInv(p, l) && l.user.InTx?
    ensures var (p', l') := StopTx(p, l, drop); Fits(p, l, p', l')
  {
    hide T.Inv;
    T.CancelInv(l.user.tx);
    DroppedIsClean(T.Cancel(l.user.tx));
    DroppedIsClean(T.DropTx(l.user.tx));
  }

  lemma StepLeaseInv(p: Pool, l: Line, choice: T.Choice)
    requires FlagsKnown(p) && LineInv(p, l) && l.user.Leased?
    ensures var (p', l') := StepLease(p, l, choice); Fits(p, l, p', l')
  {
    hide T.Inv;
  }

  /** What a move of the server does to any connection. */
  lemma ServeFacts(c: Connection, move: Move)
    ensures var c' := Server.Serve(c, move);
      && c'.backend == c.backend
      && (c'.inflight.None? || c'.inflight == c.inflight)
      && (c'.open ==> c.open || c.inflight == Some(Begin))
      && (c'.inflight.Some? ==> c'.reply == c.reply || c'.reply == Some(RowReady))
  {
    hide CommitRefused;
  }

  lemma ServeInv(p: Pool, l: Line, move: Move)
    requires FlagsKnown(p) && LineInv(p, l)
    ensures var (p', l') := StepLine(p, l, Serve(0, move)); Fits(p, l, p', l')
  {
    ServeFacts(Wire(l), move);
    if l.user.InTx? { T.ServeInv(l.user.tx, move); }
    hide T.Inv, Server.Serve;
  }

  lemma OtherLineStepsInv(p: Pool, l: Line, event: Event)
    requires FlagsKnown(p) && LineInv(p, l)
    requires event.AcquireLease? || event.DropLease? || event.BeginTx? || event.IssueTx? || event.Connect?
    ensures var (p', l') := StepLine(p, l, event); Fits(p, l, p', l')
  {
    if event.IssueTx? && l.user.InTx? && l.user.tx.run.None? && !event.op.OpenTx? {
      T.StartInv(l.user.tx, event.op);
    }
  }

  lemma StepLineInv(p: Pool, l: Line, event: Event)
    requires FlagsKnown(p) && LineInv(p, l)
    ensures var (p', l') := StepLine(p, l, event); Fits(p, l, p', l')
  {
    hide LineInv, StepTx, StopTx, StepLease;
    match event
    case PollLease(_, choice) => if l.user.Leased? { StepLeaseInv(p, l, choice); }
    case PollTx(_, choice) => if l.user.InTx? && l.user.tx.run.Some? { StepTxInv(p, l, choice); }
    case CancelTx(_) => if l.user.InTx? { StopTxInv(p, l, false); }
    case DropTx(_) => if l.user.InTx? { StopTxInv(p, l, true); }
    case Serve(_, move) => ServeInv(p, l, move);
    case _ => OtherLineStepsInv(p, l, event);
  }

  lemma StepInv(p: Pool, event: Event)
    requires Inv(p)
    ensures Inv(Step(p, event))
  {
    hide StepLine, UserInv;
    if event.i in p.lines {
      var l := p.lines[event.i];
      StepLineInv(p, l, event);
      var (p', l') := StepLine(p, l, event);
      forall j | j in p.lines && j != event.i ensures LineInv(p', p.lines[j]) {
        assert LineInv(p, p.lines[j]);
      }
    } else if event.Connect? {
      assert UserInv(Line(Fresh(event.backend), Idle, None, None, None)) by { FreshIsClean(event.backend); }
    }
  }

  lemma FreshIsClean(backend: Backend)
    ensures UserInv(Line(Fresh(backend), Idle, None, None, None))
  {
  }

  lemma {:induction false} RunInv(events: seq<Event>)
    ensures Inv(Run(events))
    decreases |events|
  {
    hide Step, LineInv;
    if events != [] {
      RunInv(events[..|events| - 1]);
      StepInv(Run(events[..|events| - 1]), events[|events| - 1]);
    }
  }

  // ---------------------------------------------------------------- theorems

  /** Pool cleanliness: over any sequence of pooled queries, pooled streams, transactions,
      cancellations and drops, a connection available for reuse has no open transaction and no
      unfinished statement. */
  lemma {:induction false} IdleConnectionsAreClean(events: seq<Event>, i: nat)
    requires i in Run(events).lines && Run(events).lines[i].user.Idle?
    ensures !Run(events).lines[i].conn.open && Run(events).lines[i].conn.inflight.None?
  {
    hide Run;
    RunInv(events);
    assert LineInv(Run(events), Run(events).lines[i]);
  }

  predicate Interrupted(p: Pool, l: Line) {
    Wire(l).inflight.Some? && l.handler.Some? && l.handler.value in p.tripped
  }

  /** Stale interruption cannot leak: although a tripped handler may stay on a connection, a
      command is interrupted only by the flag of its own statement, and only after that
      statement's guard was dropped. */
  lemma {:induction false} InterruptionIsOwn(events: seq<Event>, i: nat)
    requires i in Run(events).lines && Interrupted(Run(events), Run(events).lines[i])
    ensures var l := Run(events).lines[i]; l.running == l.handler && l.own.None?
  {
    hide Run;
    RunInv(events);
    assert LineInv(Run(events), Run(events).lines[i]);
  }

  // ---------------------------------------------------------------- what becomes of a connection

  /** The answer to a pooled statement's preparation says that its parameters do not match. */
  predicate CountRefused(c: Connection, lease: Lease, reply: Reply, choice: T.Choice) {
    || (reply.Done? && choice.verdict.Mismatch?)
    || (c.backend.Postgres? && reply.Rejected? && lease.full && reply.code == "42P18")
    || (&& c.backend.Postgres? && reply.Rejected? && !lease.full && choice.verdict.Mismatch?
        && reply.code in ["42P18", "42P08", "42725", "42883", "42804", "42846"])
  }

  /** The pooled statement has its final answer. */
  predicate Concluded(l: Line)
    requires l.user.Leased?
  {
    l.user.lease.sent && l.conn.reply.Some? && !l.conn.reply.value.RowReady?
  }

  /** When a pooled statement gives its connection back: exactly when it executed successfully,
      or, unless it is a stream, when its parameters do not match. It trips its flag exactly when
      it ends without having executed successfully. */
  lemma LeaseFate(p: Pool, l: Line, choice: T.Choice)
    requires LineInv(p, l) && l.user.Leased?
    ensures var (next, line), lease := StepLease(p, l, choice), l.user.lease;
      var executed := Concluded(l) && lease.executing && l.conn.reply == Some(Done);
      var refused := Concluded(l) && !lease.executing && CountRefused(l.conn, lease, l.conn.reply.value, choice);
      && (line.user.Idle? <==> executed || (refused && !lease.stream))
      && (executed ==> next.tripped == p.tripped)
      && (!line.user.Leased? && !executed && l.own.Some? ==> l.own.value in next.tripped)
      && (line.user.Leased? ==> next.tripped == p.tripped)
  {
    hide T.Inv;
  }

  /** A dropped pooled statement closes its connection, and on SQLite what it left running is
      interrupted. */
  lemma DroppedLeaseIsInterrupted(p: Pool, l: Line, i: nat)
    requires LineInv(p, l) && l.user.Leased?
    ensures var (next, line) := StepLine(p, l, DropLease(i));
      && line.user.Closed?
      && (l.conn.backend.Sqlite? && l.conn.inflight.Some? ==> Interrupted(next, line))
  {
    hide T.Inv;
  }

  /** A statement cancelled inside a SQLite transaction is interrupted likewise. */
  lemma CancelledStatementIsInterrupted(p: Pool, l: Line, i: nat)
    requires LineInv(p, l) && l.user.InTx? && Guarded(l.user.tx) && l.user.tx.conn.inflight.Some?
    ensures var (next, line) := StepLine(p, l, CancelTx(i)); line.user.InTx? && Interrupted(next, line)
  {
    hide T.Inv;
  }

  /** When a transaction gives its connection back: exactly when its commit or rollback was
      answered with success. */
  lemma TransactionFate(p: Pool, l: Line, choice: T.Choice)
    requires LineInv(p, l) && l.user.InTx? && l.user.tx.run.Some?
    ensures var line, op, result := StepTx(p, l, choice).1, l.user.tx.run.value.op, T.Poll(l.user.tx, choice).1;
      && (line.user.Idle? <==> (op.CommitTx? || op.RollbackTx?) && result == T.Ready(None))
      && (line.user.Closed? <==> !op.Borrows() && result.Ready? && result.error.Some?)
  {
    var tx := l.user.tx;
    if tx.run.value.op.Borrows() { T.PollKeepsBorrow(tx, choice); } else { T.PollKeepsOwned(tx, choice); }
    PollFinishes(tx, choice);
    PollOnTheWire(tx, choice);
    hide T.Inv, T.Poll;
  }

  lemma PollFinishes(tx: T.Tx, choice: T.Choice)
    requires T.Inv(tx) && tx.run.Some?
    ensures var op, (next, result) := tx.run.value.op, T.Poll(tx, choice);
      next.finished <==> (op.CommitTx? || op.RollbackTx?) && result == T.Ready(None)
  {
    hide T.PublishesAll, T.AnswerTrue, T.Before, T.After;
  }

  const MISMATCHING := T.Choice(true, true, T.Mismatch)

  /** A pooled SQLite query 7, leased and with its preparation answered. */
  function Answered(): Line {
    Line(Fresh(Sqlite).(reply := Some(Done)), Leased(Lease(7, false, false, true, true)), Some(0), Some(0), Some(0))
  }

  lemma QueryIsPrepared(empty: Pool)
    requires empty == Pool(map[], {}, 0)
    ensures Step(Step(Step(Step(empty, Connect(0, Sqlite)), AcquireLease(0, 7, false)), PollLease(0, MISMATCHING)),
                 Serve(0, Finish)) == Pool(map[0 := Answered()], {}, 1)
  {
    var leased := Step(Step(empty, Connect(0, Sqlite)), AcquireLease(0, 7, false));
    var l := Line(Fresh(Sqlite), Leased(Lease(7, false, false, true, false)), Some(0), Some(0), None);
    assert leased == Pool(map[0 := l], {}, 1);
  }

  lemma BindCountIsRefused(p: Pool)
    requires p == Pool(map[0 := Answered()], {}, 1)
    ensures var p' := Step(p, PollLease(0, MISMATCHING));
      0 in p'.lines && p'.lines[0].user.Idle? && p'.lines[0].handler == Some(0) && 0 in p'.tripped
  {
  }

  lemma RunSnoc(events: seq<Event>, event: Event)
    ensures Run(events + [event]) == Step(Run(events), event)
  {
    assert (events + [event])[..|events|] == events;
  }

  /** The theorem above is not idle: a statement refused for its bind count leaves its tripped
      handler on a connection that is available for reuse. */
  lemma StaleHandlerCanStay()
    ensures exists events :: var p := Run(events);
      && 0 in p.lines && p.lines[0].user.Idle?
      && p.lines[0].handler.Some? && p.lines[0].handler.value in p.tripped
  {
    hide Step;
    var e1 := [] + [Connect(0, Sqlite)];
    var e2 := e1 + [AcquireLease(0, 7, false)];
    var e3 := e2 + [PollLease(0, MISMATCHING)];
    var e4 := e3 + [Serve(0, Finish)];
    var e5 := e4 + [PollLease(0, MISMATCHING)];
    RunSnoc([], Connect(0, Sqlite));
    RunSnoc(e1, AcquireLease(0, 7, false));
    RunSnoc(e2, PollLease(0, MISMATCHING));
    RunSnoc(e3, Serve(0, Finish));
    RunSnoc(e4, PollLease(0, MISMATCHING));
    assert Run([]) == Pool(map[], {}, 0);
    QueryIsPrepared(Run([]));
    BindCountIsRefused(Run(e4));
    assert 0 in Run(e5).tripped;
  }
}
