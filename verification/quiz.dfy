/**
 * The quiz: ten multiplication questions with factors drawn from a chosen
 * range, four options each, one point per correct answer.
 */
module Quiz {
  import opened Collections
  import opened Draws
  import opened Options

  /** The number of questions of a quiz. */
  const Questions: int := 10
  /** The lowest score that earns the "excellent" verdict. */
  const ExcellentScore: int := 8

  /** `min + Math.floor(Math.random() * (max - min + 1))`: a factor in [min, max]. */
  function QuizFactor(min: int, max: int, u: real): (f: int)
    requires IsRandom(u)
    ensures min <= max ==> min <= f <= max
  {
    min + Below(u, max - min + 1)
  }

  /** The answer of a question whose factors are drawn from [min, max] with draws `ua` and `ub`. */
  function QuizAnswer(min: int, max: int, ua: real, ub: real): int
    requires IsRandom(ua) && IsRandom(ub)
  {
    QuizFactor(min, max, ua) * QuizFactor(min, max, ub)
  }

  /** What the quiz screen shows: a question with its options, or the final score and verdict. */
  datatype View = Question(a: int, b: int, options: seq<int>) | Finished(score: int, total: int, excellent: bool)

  class QuizGame {
    var min: int
    var max: int
    var current: int
    var total: int
    var score: int
    /** The answer of the question on screen. */
    var ans: int
    /** The options of the question on screen. */
    var options: seq<int>
    /** A question is on screen and has not been answered yet. */
    var awaiting: bool
    /** The calls of `nextQuizQuestion` scheduled by clicks (`setTimeout`) that have not run yet. */
    var pending: nat

    ghost predicate Valid()
      reads this
    {
      total == Questions && 0 <= current <= total && 0 <= score && (awaiting ==> current >= 1)
    }

    /**
     * The score never exceeds the number of questions answered: every
     * question asked counts in `current`, and one still awaiting its answer
     * cannot have scored yet.
     */
    ghost predicate ScoreBound()
      reads this
    {
      score + (if awaiting then 1 else 0) <= current
    }

    /** The state at page load. */
    constructor ()
      ensures Valid() && ScoreBound()
      ensures min == 2 && max == 9 && current == 0 && total == Questions && score == 0 && !awaiting && pending == 0
    {
      min, max, current, total, score := 2, 9, 0, Questions, 0;
      ans, options, awaiting, pending := 0, [], false, 0;
    }

    /** Starts a quiz over [lo, hi] and poses its first question; calls still scheduled are not cancelled. */
    method Start(lo: int, hi: int, ua: real, ub: real, draws: seq<real>) returns (view: View)
      requires IsRandom(ua) && IsRandom(ub)
      requires Completes(QuizAnswer(lo, hi, ua, ub), draws)
      modifies this`min, this`max, this`current, this`total, this`score, this`ans, this`options, this`awaiting
      ensures Valid() && ScoreBound()
      ensures min == lo && max == hi && total == Questions && score == 0 && current == 1 && awaiting
      ensures ans == QuizAnswer(lo, hi, ua, ub)
      ensures options == Fill([ans], ans, draws)
      ensures view == Question(QuizFactor(lo, hi, ua), QuizFactor(lo, hi, ub), options)
    {
      min, max, current, total, score := lo, hi, 0, Questions, 0;
      awaiting := false;
      view := NextQuestion(ua, ub, draws);
    }

    /**
     * Moves on: after the last question the quiz ends and shows the score
     * with the "excellent" verdict iff score >= 8; otherwise the next
     * question is counted and posed, whether or not the one on screen was
     * answered. When the score does not exceed the questions asked so far,
     * the score bound holds afterwards.
     */
    method NextQuestion(ua: real, ub: real, draws: seq<real>) returns (view: View)
      requires Valid()
      requires IsRandom(ua) && IsRandom(ub)
      requires current < total ==> Completes(QuizAnswer(min, max, ua, ub), draws)
      modifies this`current, this`ans, this`options, this`awaiting
      ensures Valid()
      ensures score <= old(current) ==> ScoreBound()
      ensures old(current) >= total ==>
        current == old(current) && !awaiting && ans == old(ans) && options == old(options) &&
        view == Finished(score, total, score >= ExcellentScore)
      ensures old(current) < total ==>
        current == old(current) + 1 && awaiting &&
        ans == QuizAnswer(min, max, ua, ub) &&
        options == Fill([ans], ans, draws) && |options| == OptionCount && options[0] == ans && NoDups(options) &&
        view == Question(QuizFactor(min, max, ua), QuizFactor(min, max, ub), options)
    {
      if current >= total {
        awaiting := false;
        view := Finished(score, total, score >= ExcellentScore);
        return;
      }
      current := current + 1;
      var a := QuizFactor(min, max, ua);
      var b := QuizFactor(min, max, ub);
      ans := a * b;
      options := BuildOptions(ans, draws);
      awaiting := true;
      view := Question(a, b, options);
    }

    /**
     * An option is clicked. Only the first click on a question counts; it
     * scores one point when the clicked value is the answer.
     */
    method CheckAnswer(val: int) returns (accepted: bool)
      requires Valid() && ScoreBound()
      modifies this`score, this`awaiting, this`pending
      ensures Valid() && ScoreBound() && !awaiting
      ensures accepted == old(awaiting)
      ensures score == old(score) + (if accepted && val == ans then 1 else 0)
      ensures pending == old(pending) + (if accepted then 1 else 0)
    {
      accepted := awaiting;
      if accepted {
        if val == ans {
          score := score + 1;
        }
        pending := pending + 1;
      }
      awaiting := false;
    }

    /**
     * An option is clicked, as the handler is written: every click on a
     * correct option scores, and every click schedules a next question.
     */
    method CheckAnswerAsWritten(val: int)
      requires Valid()
      modifies this`score, this`pending
      ensures Valid()
      ensures score == old(score) + (if val == ans then 1 else 0)
      ensures pending == old(pending) + 1
    {
      if val == ans {
        score := score + 1;
      }
      pending := pending + 1;
    }

    /** One scheduled `nextQuizQuestion` runs, one second after the click that scheduled it. */
    method TimerFires(ua: real, ub: real, draws: seq<real>) returns (view: View)
      requires Valid() && pending > 0
      requires IsRandom(ua) && IsRandom(ub)
      requires current < total ==> Completes(QuizAnswer(min, max, ua, ub), draws)
      modifies this`current, this`ans, this`options, this`awaiting, this`pending
      ensures Valid()
      ensures pending == old(pending) - 1
      ensures score <= old(current) ==> ScoreBound()
      ensures old(current) >= total ==> current == old(current) && !awaiting && view == Finished(score, total, score >= ExcellentScore)
      ensures old(current) < total ==>
        current == old(current) + 1 && awaiting && ans == QuizAnswer(min, max, ua, ub) &&
        options == Fill([ans], ans, draws) && view == Question(QuizFactor(min, max, ua), QuizFactor(min, max, ub), options)
    {
      pending := pending - 1;
      view := NextQuestion(ua, ub, draws);
    }
  }

  /**
   * With every click counted, clicking the correct option of the last
   * question twice, before the feedback delay ends, yields 11 points out
   * of 10. Every question here is drawn with the same draws `u` and `draws`
   * (`SuitableDrawsExist` gives such draws for every positive answer).
   */
  method DoubleClickOnLastQuestion(lo: int, hi: int, u: real, draws: seq<real>) returns (q: QuizGame)
    requires IsRandom(u) && Completes(QuizAnswer(lo, hi, u, u), draws)
    ensures q.score > q.total
  {
    q := new QuizGame();
    var view := q.Start(lo, hi, u, u, draws);
    while q.current < q.total
      invariant q.Valid() && q.ScoreBound() && q.awaiting && q.pending == 0
      invariant q.min == lo && q.max == hi
      invariant q.score == q.current - 1
      decreases q.total - q.current
    {
      var accepted := q.CheckAnswer(q.ans);
      view := q.TimerFires(u, u, draws);
    }
    q.CheckAnswerAsWritten(q.ans);
    q.CheckAnswerAsWritten(q.ans);
  }

  /**
   * As written, two clicks on the first question schedule two next
   * questions: once both have run, the quiz is on question 3, and question 2
   * was shown and replaced without being answered.
   */
  method DoubleClickSkipsQuestion(lo: int, hi: int, u: real, draws: seq<real>) returns (q: QuizGame)
    requires IsRandom(u) && Completes(QuizAnswer(lo, hi, u, u), draws)
    ensures q.current == 3 && q.score == 2 && q.pending == 0
  {
    q := new QuizGame();
    var view := q.Start(lo, hi, u, u, draws);
    q.CheckAnswerAsWritten(q.ans);
    q.CheckAnswerAsWritten(q.ans);
    assert q.current == 1 && q.score == 2 && q.pending == 2 && q.min == lo && q.max == hi;
    view := q.TimerFires(u, u, draws);
    assert q.current == 2 && q.pending == 1;
    view := q.TimerFires(u, u, draws);
  }

  /**
   * With only the first click on a question counting, the same two clicks
   * schedule one next question, and the quiz moves on to question 2.
   */
  method DoubleClickCountsOnce(lo: int, hi: int, u: real, draws: seq<real>) returns (q: QuizGame)
    requires IsRandom(u) && Completes(QuizAnswer(lo, hi, u, u), draws)
    ensures q.current == 2 && q.score == 1 && q.pending == 0 && q.ScoreBound()
  {
    q := new QuizGame();
    var view := q.Start(lo, hi, u, u, draws);
    var accepted := q.CheckAnswer(q.ans);
    accepted := q.CheckAnswer(q.ans);
    assert q.current == 1 && q.score == 1 && q.pending == 1 && !q.awaiting && q.ScoreBound();
    view := q.TimerFires(u, u, draws);
  }
}
