/** Runs of the transaction machine compose. */
module TransactionRuns {
  import opened Transactions

  /** Some events of the transaction machine lead from one state to the other. */
  ghost predicate Follows(tx: Tx, next: Tx) {
    exists events :: Run(tx, events) == next
  }

  lemma {:induction false} RunAppends(tx: Tx, xs: seq<Event>, ys: seq<Event>)
    ensures Run(tx, xs + ys) == Run(Run(tx, xs), ys)
    decreases |ys|
  {
    hide Step;
    if ys == [] {
      assert xs + ys == xs;
    } else {
      var all, front := xs + ys, ys[..|ys| - 1];
      assert all[..|all| - 1] == xs + front;
      RunAppends(tx, xs, front);
    }
  }

  lemma FollowsThrough(a: Tx, b: Tx, c: Tx)
    requires Follows(a, b) && Follows(b, c)
    ensures Follows(a, c)
  {
    var xs :| Run(a, xs) == b;
    var ys :| Run(b, ys) == c;
    RunAppends(a, xs, ys);
  }

  lemma FollowsStep(tx: Tx, event: Event)
    ensures Follows(tx, tx) && Follows(tx, Step(tx, event))
  {
    ShortRuns(tx, event, event);
  }

  lemma ShortRuns(tx: Tx, first: Event, second: Event)
    ensures Run(tx, []) == tx
    ensures Run(tx, [first]) == Step(tx, first)
    ensures Run(tx, [first, second]) == Step(Step(tx, first), second)
  {
    hide Step;
    assert [first][..0] == [] && [first, second][..1] == [first];
  }
}
