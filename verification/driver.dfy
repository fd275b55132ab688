/** Parameter counting on PostgreSQL (src/driver.rs): prepare with every type hint, then drop
    hints from the tail until the server notices, all inside an internal savepoint. */
module ParameterProbe {
  import opened Common
  import Server
  import T = Transactions

  /** The server's answer to preparing a statement with a number of leading type hints. */
  datatype Answer = Prepared(count: nat) | Refused(code: string)

  type Answers = nat -> Answer

  /** The statement references exactly `$1..$k`. Hints past `k` never affect resolution and are
      merely counted; with fewer hints the server may infer the missing types, and then reports
      all `k`, or refuse. */
  ghost predicate Dense(answers: Answers, k: nat) {
    && (forall h: nat {:trigger answers(h)} :: h >= k ==>
          answers(h) == if answers(k).Prepared? then Prepared(h) else answers(k))
    && (forall h: nat {:trigger answers(h)} :: h < k && answers(h).Prepared? ==> answers(h).count == k)
  }

  /** A probe that tells something: a count, or a refusal that blames a missing type. */
  predicate Decides(answer: Answer) {
    answer.Prepared? || T.ParameterResolutionError(answer.code)
  }

  /** The probe loop from `hints` leading hints downward: the number of referenced parameters,
      or nothing if a probe fails for another reason. */
  function Referenced(answers: Answers, hints: nat, referenced: nat): Option<nat> {
    if hints == 0 then Some(referenced)
    else
      match answers(hints - 1)
      case Prepared(count) => if count > hints - 1 then Some(count) else Referenced(answers, hints - 1, count)
      case Refused(code) => if T.ParameterResolutionError(code) then Some(hints) else None
  }

  /** The loop recovers the truth: it computes exactly `k`, unless the one probe that withholds
      the last used hint fails for an unrelated reason. */
  lemma {:induction false} ReferencedIsExact(answers: Answers, k: nat, hints: nat)
    requires Dense(answers, k) && answers(k).Prepared? && k <= hints
    ensures Referenced(answers, hints, hints) ==
      if k == 0 || Decides(answers(k - 1)) then Some(k) else None
    decreases hints
  {
    if hints > k {
      assert answers(hints - 1) == Prepared(hints - 1);
      ReferencedIsExact(answers, k, hints - 1);
    }
  }

  /** The case that is left out: a statement that uses `$1` and prepares with its type, whose
      preparation without it is refused because a literal, read at another type, does not parse. The
      loop then gives up. */
  lemma UnrelatedRefusalHidesTheCount()
    ensures exists answers: Answers ::
      && Dense(answers, 1) && answers(1).Prepared? && !Decides(answers(0))
      && Referenced(answers, 1, 1).None?
  {
    var answers: Answers := (h: nat) => if h == 0 then Refused("22P02") else Prepared(h);
    assert answers(0) == Refused("22P02");
    assert Referenced(answers, 1, 1).None?;
  }

  /** Which refusals of a probe count as a missing type: with the last used hint withheld, the
      loop finds the count exactly for these six codes. */
  lemma ProbeCodes(answers: Answers, k: nat, hints: nat, code: string)
    requires Dense(answers, k) && answers(k).Prepared? && 0 < k <= hints && answers(k - 1) == Refused(code)
    ensures Referenced(answers, hints, hints) ==
      if code == "42P18" || code == "42P08" || code == "42725" || code == "42883" || code == "42804" || code == "42846"
      then Some(k) else None
  {
    ReferencedIsExact(answers, k, hints);
  }

  /** What a live server's answers decide: an indeterminate parameter, any other refusal of the
      full preparation, a count beyond the hints, and what the probes tell. */
  ghost function Verdict(answers: Answers, k: nat, actual: nat): Outcome {
    if answers(actual).Refused? then if answers(actual).code == "42P18" then BindCount(None) else DriverError
    else if k > actual then BindCount(Some(k))
    else if k > 0 && !Decides(answers(k - 1)) then DriverError
    else if k == actual then Statement
    else BindCount(Some(k))
  }

  /** What the loop has to find. */
  lemma VerdictOfLoop(answers: Answers, k: nat, actual: nat)
    requires Dense(answers, k) && answers(actual).Prepared? && k <= actual
    ensures Verdict(answers, k, actual) ==
      match Referenced(answers, actual, actual)
      case None => DriverError
      case Some(n) => if n == actual then Statement else BindCount(Some(n))
  {
    ReferencedIsExact(answers, k, actual);
  }

  datatype Outcome = Statement | BindCount(expected: Option<nat>) | DriverError

  /** The same connection, whatever its last reply was. */
  predicate AsBefore(before: Server.Connection, after: Server.Connection) {
    after.(reply := None) == before.(reply := None)
  }

  /** One PostgreSQL connection; `budget` counts the replies left before the transport fails. */
  class Connection {
    var wire: Server.Connection
    var budget: nat

    predicate Ready(inTransaction: bool)
      reads this
    {
      wire.backend.Postgres? && wire.live && wire.inflight.None? && !wire.failed && wire.open == inTransaction
    }

    method Reply() returns (alive: bool)
      modifies `budget
      ensures alive == (old(budget) > 0)
      ensures budget == if alive then old(budget) - 1 else 0
    {
      alive := budget > 0;
      if alive { budget := budget - 1; }
    }

    /** Preparing inside a transaction fails it when the statement is refused. */
    method Prepare(answers: Answers, hints: nat, inTransaction: bool) returns (answer: Option<Answer>)
      requires Ready(inTransaction)
      modifies `budget, `wire
      ensures old(budget) > 0 ==> answer == Some(answers(hints)) && budget == old(budget) - 1
      ensures old(budget) == 0 ==> answer.None? && budget == 0
      ensures AsBefore(old(wire), wire.(failed := false))
      ensures wire.failed == (inTransaction && answer.Some? && answer.value.Refused?)
    {
      var alive := Reply();
      if !alive {
        return None;
      }
      answer := Some(answers(hints));
      if answer.value.Refused? {
        wire := Server.RunRejected(wire, Server.Prepare, answer.value.code, [], true, false);
      } else {
        wire := Server.RunToEnd(wire, Server.Prepare);
      }
    }

    method Save() returns (ok: bool)
      requires Ready(true)
      modifies `budget, `wire
      ensures ok == (old(budget) > 0) && budget == if ok then old(budget) - 1 else 0
      ensures ok ==> AsBefore(old(wire).(savepoints := old(wire).savepoints + [old(wire).pending]), wire)
      ensures !ok ==> wire == old(wire)
    {
      ok := Reply();
      if ok { wire := Server.RunToEnd(wire, Server.Savepoint); }
    }

    method RollBackToSavepoint() returns (ok: bool)
      requires wire.open && wire.inflight.None? && wire.savepoints != []
      modifies `budget, `wire
      ensures ok == (old(budget) > 0) && budget == if ok then old(budget) - 1 else 0
      ensures ok ==> AsBefore(old(wire).(failed := false, pending := old(wire).savepoints[|old(wire).savepoints| - 1]), wire)
      ensures !ok ==> wire == old(wire)
    {
      ok := Reply();
      if ok { wire := Server.RunToEnd(wire, Server.RollbackTo); }
    }

    method ReleaseSavepoint() returns (ok: bool)
      requires Ready(true) && wire.savepoints != []
      modifies `budget, `wire
      ensures ok == (old(budget) > 0) && budget == if ok then old(budget) - 1 else 0
      ensures ok ==> AsBefore(old(wire).(savepoints := old(wire).savepoints[..|old(wire).savepoints| - 1]), wire)
      ensures !ok ==> wire == old(wire)
    {
      ok := Reply();
      if ok { wire := Server.RunToEnd(wire, Server.Release); }
    }

    /** The probe loop: drop hints from the tail until the server notices. It finds what
        `Referenced` says, or nothing when a probe or the transport fails. */
    method CountReferenced(answers: Answers, ghost k: nat, actual: nat, inTransaction: bool)
      returns (found: Option<nat>)
      requires Dense(answers, k) && Ready(inTransaction) && answers(k).Prepared? && k <= actual
      requires inTransaction ==> wire.savepoints != [] && wire.savepoints[|wire.savepoints| - 1] == wire.pending
      modifies `budget, `wire
      ensures AsBefore(old(wire), wire.(failed := false)) && (!inTransaction || found.Some? ==> !wire.failed)
      ensures found.Some? ==> found == Referenced(answers, actual, actual)
      ensures budget + actual + 1 >= old(budget)
      ensures old(budget) > actual ==> found == Referenced(answers, actual, actual)
    {
      ReferencedIsExact(answers, k, actual);
      hide Decides;
      var referenced := actual;
      for hints := actual downto 0
        invariant referenced == hints && k <= hints && !wire.failed && AsBefore(old(wire), wire)
        invariant Referenced(answers, actual, actual) == Referenced(answers, hints, referenced)
        invariant budget + (actual - hints) >= old(budget)
      {
        var probe := Prepare(answers, hints, inTransaction);
        if probe.None? {
          return None;
        }
        if probe.value.Refused? {
          if !T.ParameterResolutionError(probe.value.code) {
            return None;
          }
          if inTransaction {
            var undone := RollBackToSavepoint();
            if !undone {
              return None;
            }
          }
          referenced := hints + 1;
          break;
        }
        referenced := probe.value.count;
        if probe.value.count > hints {
          break;
        }
      }
      return Some(referenced);
    }

    /** `postgres_prepare`. The counts it reports are true, it accepts only the true count, and
        with a live server it always reaches the verdict. */
    method PrepareCounted(answers: Answers, ghost k: nat, actual: nat, inTransaction: bool)
      returns (outcome: Outcome)
      requires Dense(answers, k) && Ready(inTransaction)
      requires inTransaction ==> wire.savepoints != [] && wire.savepoints[|wire.savepoints| - 1] == wire.pending
      modifies `budget, `wire
      ensures outcome.Statement? ==> k == actual && !wire.failed
      ensures outcome.BindCount? && outcome.expected.Some? ==> outcome.expected.value == k != actual && !wire.failed
      ensures outcome.BindCount? && outcome.expected.None? ==>
        answers(actual).Refused? && T.IndeterminateParameter(answers(actual).code)
      ensures AsBefore(old(wire), wire.(failed := false)) && (!inTransaction ==> !wire.failed)
      ensures budget + actual + 2 >= old(budget)
      ensures old(budget) > actual + 1 ==> outcome == Verdict(answers, k, actual)
    {
      var full := Prepare(answers, actual, inTransaction);
      if full.None? {
        return DriverError;
      }
      if full.value.Refused? {
        return if T.IndeterminateParameter(full.value.code) then BindCount(None) else DriverError;
      }
      if full.value.count != actual {
        assert actual < k;
        return BindCount(Some(full.value.count));
      }
      assert k <= actual && answers(k).Prepared?;
      ReferencedIsExact(answers, k, actual);
      VerdictOfLoop(answers, k, actual);
      hide Verdict, Decides;
      var referenced := CountReferenced(answers, k, actual, inTransaction);
      if referenced.None? {
        return DriverError;
      }
      return if referenced.value != actual then BindCount(referenced) else Statement;
    }

    /** `postgres_statement`. Whenever it returns a statement or `BindCount`, on every path
        through full preparation, probes and their failures, the connection is as it was but for
        its last reply: the transaction open, not failed, with the same savepoints and the same
        pending effects. */
    method PrepareStatement(answers: Answers, ghost k: nat, actual: nat, inTransaction: bool)
      returns (outcome: Outcome)
      requires Dense(answers, k) && Ready(inTransaction)
      modifies this
      ensures outcome.Statement? ==> k == actual
      ensures outcome.BindCount? && outcome.expected.Some? ==> outcome.expected.value == k != actual
      ensures !outcome.DriverError? ==>
        AsBefore(old(wire), wire) && Ready(inTransaction)
      ensures old(budget) > actual + 4 ==> outcome == Verdict(answers, k, actual)
    {
      if inTransaction {
        var saved := Save();
        if !saved {
          return DriverError;
        }
      }
      outcome := PrepareCounted(answers, k, actual, inTransaction);
      if inTransaction {
        if outcome.BindCount? {
          var undone := RollBackToSavepoint();
          if !undone {
            return DriverError;
          }
        }
        if !outcome.DriverError? {
          var released := ReleaseSavepoint();
          if !released {
            return DriverError;
          }
        }
      }
    }
  }
}
