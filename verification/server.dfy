/** The database server as seen through one connection: a small explicit contract
    for the part of SQLite and PostgreSQL that sqly's transaction code relies on.

    A connection carries at most one command at a time. The client sends it, the
    server runs it whenever the environment decides, and the client later reads the
    reply. A client future that is dropped leaves its command in flight. */
module Server {
  import opened Common
  import opened Decimals

  datatype Backend = Sqlite | Postgres

  /** Statements are identified by number; the effect of a statement is its own identity. */
  type StatementId = nat

  datatype Command =
    | Begin
    | Commit
    | Rollback
    | Savepoint
    | RollbackTo
    | Release
    | Prepare
    | Execute(effects: seq<StatementId>)

  datatype Reply =
    | Done
    | RowReady
    | Rejected(code: string)
    | Lost

  /** `savepoints` holds, innermost last, the pending effects at each savepoint. */
  datatype Connection = Connection(
    backend: Backend,
    live: bool,
    open: bool,
    failed: bool,
    savepoints: seq<seq<StatementId>>,
    pending: seq<StatementId>,
    published: seq<StatementId>,
    inflight: Option<Command>,
    reply: Option<Reply>)

  /** What the server, or the network, may do next with the command in flight. A rejected
      command may leave any partial work (`junk`) behind, may end the transaction
      (`keepOpen`), and a rejected COMMIT may nevertheless have been applied unless its
      code rules that out. */
  datatype Move =
    | Finish
    | EmitRow
    | Reject(code: string, junk: seq<StatementId>, keepOpen: bool, applied: bool)
    | Disconnect(runFirst: bool)

  predicate HasPrefix(code: string, prefix: string) {
    prefix <= code
  }

  /** The codes with which a database refuses COMMIT for sure. PostgreSQL: SQLSTATE class 23
      (integrity constraint) and class 40 (transaction rollback) except 40003 (completion
      unknown). SQLite: decimal result codes whose primary code, the low byte, is busy, locked,
      constraint or auth. Answered with any other code, COMMIT may have been applied. */
  predicate CommitRefused(backend: Backend, code: string) {
    match backend
    case Postgres =>
      |code| == 5 && (HasPrefix(code, "23") || (HasPrefix(code, "40") && code != "40003"))
    case Sqlite =>
      code != "" && AllDigits(code) && PrimaryCode(code) in {5, 6, 19, 23}
  }

  function PrimaryCode(code: string): nat
    requires AllDigits(code)
  {
    Decimals.Value(code) % 256
  }

  function Fresh(backend: Backend): Connection {
    Connection(backend, true, false, false, [], [], [], None, None)
  }

  function Closed(c: Connection): Connection {
    c.(open := false, failed := false, savepoints := [], pending := [])
  }

  function Answer(c: Connection, reply: Reply): Connection {
    c.(inflight := None, reply := Some(reply))
  }

  function Refuse(c: Connection): Connection {
    Answer(c.(failed := c.failed || (c.backend.Postgres? && c.open)), Rejected("25P02"))
  }

  /** The server runs the command to completion. COMMIT of a failed PostgreSQL transaction
      rolls back and still answers success; a statement outside a transaction publishes at
      once. */
  function RunToEnd(c: Connection, command: Command): Connection {
    match command
    case Begin =>
      if c.open then Refuse(c) else Answer(Closed(c).(open := true), Done)
    case Commit =>
      if !c.open then
        if c.backend.Postgres? then Answer(c, Done) else Refuse(c)
      else if c.failed then Answer(Closed(c), Done)
      else Answer(Closed(c).(published := c.published + c.pending), Done)
    case Rollback =>
      if !c.open && c.backend.Sqlite? then Refuse(c) else Answer(Closed(c), Done)
    case Savepoint =>
      if !c.open || c.failed then Refuse(c)
      else Answer(c.(savepoints := c.savepoints + [c.pending]), Done)
    case RollbackTo =>
      if !c.open || c.savepoints == [] then Refuse(c)
      else Answer(c.(failed := false, pending := c.savepoints[|c.savepoints| - 1]), Done)
    case Release =>
      if !c.open || c.failed || c.savepoints == [] then Refuse(c)
      else Answer(c.(savepoints := c.savepoints[..|c.savepoints| - 1]), Done)
    case Prepare =>
      if c.failed then Refuse(c) else Answer(c, Done)
    case Execute(effects) =>
      if c.failed then Refuse(c)
      else if !c.open then Answer(c.(published := c.published + effects), Done)
      else Answer(c.(pending := c.pending + effects), Done)
  }

  function RunRejected(c: Connection, command: Command, code: string, junk: seq<StatementId>,
                       keepOpen: bool, applied: bool): Connection {
    var answered := Answer(c, Rejected(code));
    match command
    case Begin => answered
    case Rollback => answered
    case Commit =>
      if applied && c.open && !c.failed && !CommitRefused(c.backend, code) then
        Closed(answered).(published := c.published + c.pending)
      else if keepOpen then answered
      else Closed(answered)
    case Savepoint => answered.(failed := c.failed || (c.backend.Postgres? && c.open))
    case RollbackTo => answered.(failed := c.failed || (c.backend.Postgres? && c.open))
    case Release => answered.(failed := c.failed || (c.backend.Postgres? && c.open))
    case Prepare => answered.(failed := c.failed || (c.backend.Postgres? && c.open))
    case Execute(_) =>
      if !c.open then answered
      else if !keepOpen then Closed(answered)
      else answered.(pending := junk, failed := c.failed || c.backend.Postgres?)
  }

  /** One move of the environment; a move that does not apply changes nothing. */
  function Serve(c: Connection, move: Move): Connection {
    if !c.live then c
    else
      match move
      case Finish =>
        if c.inflight.Some? then RunToEnd(c, c.inflight.value) else c
      case EmitRow =>
        if c.inflight.Some? && c.inflight.value.Execute? then c.(reply := Some(RowReady)) else c
      case Reject(code, junk, keepOpen, applied) =>
        if c.inflight.Some? then
          RunRejected(c, c.inflight.value, code, junk, keepOpen, applied)
        else c
      case Disconnect(runFirst) =>
        var ran := if runFirst && c.inflight.Some? then RunToEnd(c, c.inflight.value) else c;
        Answer(Closed(ran), Lost).(live := false)
  }
}
