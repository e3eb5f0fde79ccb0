/**
 * Offline evaluation (src/eval/gsm8k.py): counts the rows whose extracted
 * answer equals the ground truth stored in the row's reward model.
 */
module Eval {
  import opened Wrappers
  import opened Text
  import RewardScore
  import Preprocess

  /** One evaluated row: the model's response and the reward model of its record. */
  datatype Row = Row(responses: string, rewardModel: Preprocess.RewardModel)

  /** extract_solution as this script carries it: the same search as the reward scorer's. */
  function ExtractSolution(s: string): (r: Option<string>)
    ensures r == RewardScore.ExtractSolution(s)
    ensures r.None? <==> !RewardScore.HasAnswerBlock(s)
    ensures r.Some? ==> ',' !in r.value && '$' !in r.value
  {
    match Find(s, RewardScore.AnswerOpen, 0)
    case None => None
    case Some(i) =>
      match Find(s, RewardScore.AnswerClose, i + |RewardScore.AnswerOpen|)
      case None => None
      case Some(j) => Some(RewardScore.CleanAnswer(s[i + |RewardScore.AnswerOpen|..j]))
  }

  predicate IsCorrect(row: Row)
  {
    ExtractSolution(row.responses) == Some(row.rewardModel.groundTruth)
  }

  /** The row's response has an answer block at all. */
  ghost predicate IsAnswered(row: Row)
  {
    RewardScore.HasAnswerBlock(row.responses)
  }

  /** How many elements satisfy p, counted front to back. */
  function CountWhere<T>(xs: seq<T>, p: T -> bool): nat
  {
    if xs == [] then 0
    else CountWhere(xs[..|xs| - 1], p) + (if p(xs[|xs| - 1]) then 1 else 0)
  }

  /** The positions of the elements that satisfy p. */
  function IndicesWhere<T>(xs: seq<T>, p: T -> bool): set<nat>
  {
    set i: nat | i < |xs| && p(xs[i])
  }

  /** The number of correct rows, counted front to back as the loop does. */
  function CorrectRows(rows: seq<Row>): nat
  {
    CountWhere(rows, IsCorrect)
  }

  /** One more element adds one to the count when it satisfies p and nothing otherwise. */
  lemma CountWhereStep<T>(xs: seq<T>, p: T -> bool, i: nat)
    requires i < |xs|
    ensures CountWhere(xs[..i + 1], p) == CountWhere(xs[..i], p) + (if p(xs[i]) then 1 else 0)
  {
    assert xs[..i + 1][..i] == xs[..i];
  }

  /** Counting front to back gives the number of satisfying positions. */
  lemma {:induction false} CountWhereIndices<T>(xs: seq<T>, p: T -> bool)
    ensures CountWhere(xs, p) == |IndicesWhere(xs, p)|
    decreases |xs|
  {
    if xs == [] {
      assert IndicesWhere(xs, p) == {};
    } else {
      var n := |xs| - 1;
      var front := xs[..n];
      CountWhereIndices(front, p);
      var extra: set<nat> := if p(xs[n]) then {n} else {};
      forall i: nat ensures i in IndicesWhere(xs, p) <==> i in IndicesWhere(front, p) + extra {
        if i < n {
          assert xs[i] == front[i];
        }
      }
      assert IndicesWhere(xs, p) == IndicesWhere(front, p) + extra;
      assert n !in IndicesWhere(front, p);
    }
  }

  /** A weaker condition is met at least as often. */
  lemma {:induction false} CountWhereMonotone<T>(xs: seq<T>, p: T -> bool, q: T -> bool)
    requires forall x :: p(x) ==> q(x)
    ensures CountWhere(xs, p) <= CountWhere(xs, q) <= |xs|
    decreases |xs|
  {
    if xs != [] {
      CountWhereMonotone(xs[..|xs| - 1], p, q);
    }
  }

  /** A row is counted exactly when it sits at a position whose answer matches. */
  lemma CorrectRowsCountsIndices(rows: seq<Row>)
    ensures CorrectRows(rows) == |IndicesWhere(rows, IsCorrect)|
  {
    CountWhereIndices(rows, IsCorrect);
  }

  /** Only rows with an answer block can be counted, so the count never exceeds the rows. */
  lemma CorrectRowsBounds(rows: seq<Row>)
    ensures CorrectRows(rows) <= CountWhere(rows, IsAnswered) <= |rows|
  {
    CountWhereMonotone(rows, IsCorrect, IsAnswered);
  }

  /** The main loop: total rows and the rows answered correctly. */
  method Evaluate(rows: seq<Row>) returns (total: nat, correct: nat)
    ensures total == |rows|
    ensures correct == CorrectRows(rows)
    ensures correct <= total
  {
    total := |rows|;
    correct := 0;
    for i := 0 to |rows|
      invariant correct == CountWhere(rows[..i], IsCorrect)
    {
      var answer := ExtractSolution(rows[i].responses);
      var gt := rows[i].rewardModel.groundTruth;
      CountWhereStep(rows, IsCorrect, i);
      if answer == Some(gt) {
        correct := correct + 1;
      }
    }
    assert rows[..|rows|] == rows;
    CorrectRowsBounds(rows);
  }
}
