/** How `commit` classifies a refused COMMIT (src/transaction.rs): which codes it may call a
    definite failure, and the family it misreads. */
module CommitErrors {
  import opened Common
  import opened Decimals
  import opened Server
  import opened Transactions
  import opened TransactionRuns
  import S = Scopes
  import ScopeRefinement

  /** On PostgreSQL the classification is exact for every SQLSTATE. */
  lemma PostgresCodesAreExact(code: string)
    requires |code| == 5
    ensures RollbackCertain(code) <==> CommitRefused(Postgres, code)
  {
  }

  /** The tests for SQLSTATE classes 23 and 40 are also applied to SQLite's decimal codes. */
  predicate Misread(code: string)
    requires AllDigits(code)
  {
    && (HasPrefix(code, "23") || (HasPrefix(code, "40") && code != "40003"))
    && PrimaryCode(code) !in {5, 6, 19, 23}
  }

  /** Reading a number digit by digit. */
  lemma ValueOfDigits(a: char, b: char, c: char, d: char)
    requires IsDigit(a) && IsDigit(b) && IsDigit(c) && IsDigit(d)
    ensures Value([a]) == DigitValue(a)
    ensures Value([a, b]) == 10 * Value([a]) + DigitValue(b)
    ensures Value([a, b, c]) == 10 * Value([a, b]) + DigitValue(c)
    ensures Value([a, b, c, d]) == 10 * Value([a, b, c]) + DigitValue(d)
  {
    assert [] + [a] == [a] && [a] + [b] == [a, b] && [a, b] + [c] == [a, b, c] && [a, b, c] + [d] == [a, b, c, d];
    ValueOfSnoc([], a);
    ValueOfSnoc([a], b);
    ValueOfSnoc([a, b], c);
    ValueOfSnoc([a, b, c], d);
  }

  /** The codes `commit` lists for SQLite are busy, locked, and kinds of constraint. */
  lemma ListedCodes(code: string)
    requires code in ["5", "6", "19", "787", "1299", "1555", "2067", "275"]
    ensures CommitRefused(Sqlite, code)
  {
    hide Value;
    ValueOfDigits('5', '0', '0', '0');
    ValueOfDigits('6', '0', '0', '0');
    ValueOfDigits('1', '9', '0', '0');
    ValueOfDigits('7', '8', '7', '0');
    ValueOfDigits('2', '7', '5', '0');
    ValueOfDigits('1', '2', '9', '9');
    ValueOfDigits('1', '5', '5', '5');
    ValueOfDigits('2', '0', '6', '7');
  }

  /** On SQLite the classification claims too much for exactly the misread codes. */
  lemma SqliteCodesAreExact(code: string)
    requires code != "" && AllDigits(code)
    ensures RollbackCertain(code) && !CommitRefused(Sqlite, code) <==> Misread(code)
  {
    hide PrimaryCode;
    if code in ["5", "6", "19", "787", "1299", "1555", "2067", "275"] {
      ListedCodes(code);
    }
  }

  /** Result code 2314, an input/output error while changing a file lock, begins with 23. */
  lemma MisreadExample()
    ensures AllDigits("2314") && Misread("2314") && RollbackCertain("2314") && !CommitRefused(Sqlite, "2314")
  {
    ValueOfDigits('2', '3', '1', '4');
  }

  // ---------------------------------------------------------------- what commit answers

  /** The decimal digits of `n` begin with those of `p`. */
  predicate Leads(p: nat, n: nat) {
    n == p || (n > p && Leads(p, n / 10))
  }

  /** The result codes for which `commit` reports a definite failure on SQLite, as numbers: busy,
      locked, constraint and five kinds of constraint; and whatever begins with 23 or 40. */
  predicate Reported(n: nat) {
    n in {5, 6, 19, 275, 787, 1299, 1555, 2067} || Leads(23, n) || (Leads(40, n) && n != 40003)
  }

  lemma PrintInjective(n: nat, m: nat)
    ensures Print(n) == Print(m) <==> n == m
  {
    ValueOfPrint(n);
    ValueOfPrint(m);
  }

  lemma PrintOne(n: nat)
    ensures n < 10 ==> Print(n) == [Digit(n)]
    ensures n >= 10 ==> Print(n) == Print(n / 10) + [Digit(n % 10)]
  {
  }

  lemma PrintFour(a: nat, b: nat, c: nat, d: nat)
    requires 0 < a < 10 && b < 10 && c < 10 && d < 10
    ensures Print(a) == [Digit(a)]
    ensures Print(10 * a + b) == [Digit(a), Digit(b)]
    ensures Print(100 * a + 10 * b + c) == [Digit(a), Digit(b), Digit(c)]
    ensures Print(1000 * a + 100 * b + 10 * c + d) == [Digit(a), Digit(b), Digit(c), Digit(d)]
  {
    hide Print;
    PrintOne(a);
    PrintOne(10 * a + b);
    PrintOne(100 * a + 10 * b + c);
    PrintOne(1000 * a + 100 * b + 10 * c + d);
  }

  lemma Printed()
    ensures Print(5) == "5" && Print(6) == "6" && Print(19) == "19" && Print(23) == "23" && Print(40) == "40"
    ensures Print(275) == "275" && Print(787) == "787"
    ensures Print(1299) == "1299" && Print(1555) == "1555" && Print(2067) == "2067" && Print(40003) == "40003"
  {
    hide Print;
    PrintFour(5, 0, 0, 0);
    PrintFour(6, 0, 0, 0);
    PrintFour(1, 9, 0, 0);
    PrintFour(2, 3, 0, 0);
    PrintFour(4, 0, 0, 0);
    PrintFour(2, 7, 5, 0);
    PrintFour(7, 8, 7, 0);
    PrintFour(1, 2, 9, 9);
    PrintFour(1, 5, 5, 5);
    PrintFour(2, 0, 6, 7);
    PrintOne(40003);
  }

  lemma {:induction false} LengthOfPrint(n: nat)
    ensures |Print(n)| >= 1 && (|Print(n)| >= 2 <==> n >= 10) && (|Print(n)| == 2 <==> 10 <= n < 100)
  {
    if n >= 10 { LengthOfPrint(n / 10); }
  }

  /** Beginning with the text of a two-digit number is beginning with its digits. */
  lemma {:induction false} PrefixIsLeading(p: nat, n: nat)
    requires 10 <= p < 100
    ensures HasPrefix(Print(n), Print(p)) <==> Leads(p, n)
  {
    LengthOfPrint(n);
    LengthOfPrint(p);
    if n >= 100 {
      PrefixIsLeading(p, n / 10);
      LengthOfPrint(n / 10);
      assert Print(n)[..2] == Print(n / 10)[..2];
    } else if n >= 10 {
      PrintInjective(n, p);
      assert Print(n)[..2] == Print(n);
      assert !Leads(p, n / 10);
    }
  }

  lemma ListIsSet(n: nat)
    ensures Print(n) in ["5", "6", "19", "787", "1299", "1555", "2067", "275"] <==>
      n in {5, 6, 19, 275, 787, 1299, 1555, 2067}
  {
    Printed();
    PrintInjective(n, 5);
    PrintInjective(n, 6);
    PrintInjective(n, 19);
    PrintInjective(n, 275);
    PrintInjective(n, 787);
    PrintInjective(n, 1299);
    PrintInjective(n, 1555);
    PrintInjective(n, 2067);
    hide Print;
  }

  /** For every SQLite result code, what `commit` answers when COMMIT is rejected with it. */
  lemma SqliteCommitAnswers(n: nat)
    ensures CommitError(Rejected(Print(n))) == if Reported(n) then CommitRejected(Print(n)) else CommitUnknown
  {
    Printed();
    ListIsSet(n);
    PrefixIsLeading(23, n);
    PrefixIsLeading(40, n);
    PrintInjective(n, 40003);
    hide Print, Leads;
  }

  /** For every PostgreSQL code likewise: classes 23 and 40, the latter without 40003. */
  lemma PostgresCommitAnswers(code: string)
    requires |code| == 5
    ensures CommitError(Rejected(code)) ==
      if code[..2] == "23" || (code[..2] == "40" && code[2..] != "003") then CommitRejected(code) else CommitUnknown
  {
    assert code == code[..2] + code[2..];
    assert "40003" == "40" + "003";
    if code == "40003" { assert code[2..] == "003"; }
  }

  /** A lost reply is always unknown, and the answer of a rejected COMMIT is its classification:
      in every run, the poll that reads the reply returns it. */
  lemma {:induction false} CommitAnswersItsReply(backend: Backend, events: seq<Event>, choice: Choice)
    requires var tx := Run(Init(backend), events);
      && tx.run == Some(Running(CommitTx, Controlling(Commit), true))
      && tx.conn.reply.Some? && (tx.conn.reply.value.Rejected? || tx.conn.reply.value.Lost?)
    ensures var tx := Run(Init(backend), events);
      var answer := if tx.conn.reply.value.Lost? then CommitUnknown else CommitError(tx.conn.reply.value);
      Poll(tx, choice).1 == PollResult.Ready(Some(answer)) && Poll(tx, choice).0.answer == Some(Some(answer))
  {
    hide Run;
  }

  // ---------------------------------------------------------------- a misread commit

  const EASY := Choice(true, true, Accept)

  function Opened(backend: Backend): Connection {
    Fresh(backend).(open := true, reply := Some(Done))
  }

  lemma Begins(backend: Backend)
    ensures Follows(Init(backend), Tx(Opened(backend), false, false, false, None, [], [], false, None))
  {
    var s0 := Init(backend);
    var s1 := Step(s0, Continue(EASY));
    var s2 := Step(s1, ServerMove(Finish));
    var s3 := Step(s2, Continue(EASY));
    FollowsStep(s0, Continue(EASY));
    FollowsStep(s1, ServerMove(Finish));
    FollowsStep(s2, Continue(EASY));
    FollowsThrough(s0, s1, s2);
    FollowsThrough(s0, s2, s3);
    hide Follows;
    assert s3 == Tx(Opened(backend), false, false, false, None, [], [], false, None);
  }

  function Ready(backend: Backend): Tx {
    Tx(Opened(backend).(pending := [7]), false, false, false, None, [7], [7], false, None)
  }

  lemma Hop(a: Tx, event: Event, b: Tx)
    requires Step(a, event) == b
    ensures Follows(a, b)
  {
    FollowsStep(a, event);
  }

  /** Statement 7 under way in a batch. */
  function Batching(backend: Backend, stage: Stage): Tx {
    Tx(Opened(backend), true, false, false, Some(Running(Batch([7]), stage, false)), [], [], false, None)
  }

  lemma Issues(backend: Backend)
    ensures Follows(Tx(Opened(backend), false, false, false, None, [], [], false, None), Batching(backend, Executing))
  {
    var s0 := Tx(Opened(backend), false, false, false, None, [], [], false, None);
    var s1, s2 := Batching(backend, Leasing), Batching(backend, Executing);
    Hop(s0, Issue(Batch([7])), s1);
    Hop(s1, Continue(EASY), s2);
    FollowsThrough(s0, s1, s2);
  }

  lemma Executes(backend: Backend)
    ensures Follows(Batching(backend, Executing), Ready(backend))
  {
    var s0 := Batching(backend, Executing);
    var sent := s0.(run := Some(Running(Batch([7]), Executing, true)), begun := [7]);
    var s1 := sent.(conn := Opened(backend).(inflight := Some(Execute([7])), reply := None));
    var s2 := sent.(conn := Opened(backend).(pending := [7]));
    Hop(s0, Continue(EASY), s1);
    Hop(s1, ServerMove(Finish), s2);
    Hop(s2, Continue(EASY), Ready(backend));
    FollowsThrough(s0, s1, s2);
    FollowsThrough(s0, s2, Ready(backend));
  }

  function Sent(backend: Backend): Tx {
    Ready(backend).(conn := Opened(backend).(pending := [7], inflight := Some(Commit), reply := None), commitSent := true,
                    run := Some(Running(CommitTx, Controlling(Commit), true)))
  }

  lemma SendsCommit(backend: Backend)
    ensures Follows(Ready(backend), Sent(backend))
  {
    var s0 := Ready(backend);
    var s1 := s0.(run := Some(Running(CommitTx, Leasing, false)));
    var s2 := s0.(run := Some(Running(CommitTx, Controlling(Commit), false)));
    Hop(s0, Issue(CommitTx), s1);
    Hop(s1, Continue(EASY), s2);
    Hop(s2, Continue(EASY), Sent(backend));
    FollowsThrough(s0, s1, s2);
    FollowsThrough(s0, s2, Sent(backend));
  }

  lemma Misreports(backend: Backend, code: string, end: Tx)
    requires RollbackCertain(code) && !CommitRefused(backend, code)
    requires end == Step(Step(Sent(backend), ServerMove(Reject(code, [], false, true))), Continue(EASY))
    ensures Follows(Sent(backend), end)
    ensures end.answer == Some(Some(CommitRejected(code))) && end.conn.published == [7]
  {
    var s0 := Sent(backend);
    var s1 := Step(s0, ServerMove(Reject(code, [], false, true)));
    FollowsStep(s0, ServerMove(Reject(code, [], false, true)));
    FollowsStep(s1, Continue(EASY));
    FollowsThrough(s0, s1, end);
    hide Follows, CommitRefused, RollbackCertain;
    assert s1.conn.reply == Some(Rejected(code)) && s1.conn.published == [7];
  }

  /** Exactly when a definite failure of `commit` is the truth: in all runs on a backend, a
      commit rejected with a code published nothing, if and only if the backend refuses for
      sure with that code. */
  lemma RejectedMeansUnpublished(backend: Backend, code: string)
    requires RollbackCertain(code)
    ensures CommitRefused(backend, code) <==>
      forall events :: Run(Init(backend), events).answer == Some(Some(CommitRejected(code))) ==>
        Run(Init(backend), events).conn.published == []
  {
    hide Step, CommitRefused, RollbackCertain;
    if CommitRefused(backend, code) {
      forall events | Run(Init(backend), events).answer == Some(Some(CommitRejected(code)))
        ensures Run(Init(backend), events).conn.published == []
      {
        CommitAtomicity(backend, events);
        RunKeepsBackend(Init(backend), events);
      }
    } else {
      var idle := Tx(Opened(backend), false, false, false, None, [], [], false, None);
      var end := Step(Step(Sent(backend), ServerMove(Reject(code, [], false, true))), Continue(EASY));
      Begins(backend);
      Issues(backend);
      Executes(backend);
      SendsCommit(backend);
      Misreports(backend, code, end);
      FollowsThrough(Init(backend), idle, Batching(backend, Executing));
      FollowsThrough(Init(backend), Batching(backend, Executing), Ready(backend));
      FollowsThrough(Init(backend), Ready(backend), Sent(backend));
      FollowsThrough(Init(backend), Sent(backend), end);
      var events :| Run(Init(backend), events) == end;
      assert Run(Init(backend), events).answer == Some(Some(CommitRejected(code)));
    }
  }

  // ---------------------------------------------------------------- scopes

  /** A code the backend can answer with and that `commit` reads as the backend means it. */
  predicate ReadRight(backend: Backend, code: string) {
    match backend
    case Postgres => |code| == 5
    case Sqlite => code != "" && AllDigits(code) && !Misread(code)
  }

  lemma ReadRightIsDefinite(backend: Backend, code: string)
    requires RollbackCertain(code) && ReadRight(backend, code)
    ensures CommitRefused(backend, code)
  {
    match backend
    case Postgres => PostgresCodesAreExact(code);
    case Sqlite => SqliteCodesAreExact(code);
  }

  /** A write scope that returns any error except `CommitUnknown` published nothing, on both
      backends, unless its COMMIT was rejected with a code that `commit` misreads. */
  lemma {:induction false} ScopeErrorsAreDefinite(backend: Backend, lock: S.LockRequest, events: seq<S.Event>, error: Error)
    requires S.Run(S.Init(backend, lock), events).phase == S.Returned(Some(error))
    requires error != CommitUnknown && (error.CommitRejected? ==> ReadRight(backend, error.code))
    ensures S.Run(S.Init(backend, lock), events).slots.tx.conn.published == []
  {
    hide Run, S.Run, S.TokensInv, Synchronised, CommitRefused, RollbackCertain, ReadRight;
    var tx := S.Run(S.Init(backend, lock), events).slots.tx;
    S.InitInv(backend, lock);
    S.RunInv(S.Init(backend, lock), events);
    S.ScopeAtomicity(backend, lock, events);
    ScopeRefinement.ScopeRefinesTransaction(backend, lock, events);
    RunKeepsBackend(Init(backend), ScopeRefinement.Trace(S.Init(backend, lock), events));
    if error.CommitRejected? && tx.commitSent {
      assert tx.answer == Some(Some(error));
      ReadRightIsDefinite(backend, error.code);
    }
  }
}
