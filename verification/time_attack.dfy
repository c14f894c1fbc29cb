/**
 * Time attack: answer as many questions as possible in 60 seconds; a
 * correct answer is worth 10 points, a wrong one costs 5 (never below 0).
 */
module TimeAttack {
  import opened Collections
  import opened Draws
  import opened Options

  /** The length of a round, in interval ticks (seconds). */
  const RoundSeconds: int := 60
  const CorrectReward: int := 10
  const WrongPenalty: int := 5

  /** The score after one answer: +10 when correct, `Math.max(0, score - 5)` when wrong. */
  function AnswerScore(score: int, correct: bool): (r: int)
    ensures correct ==> r == score + CorrectReward
    ensures !correct ==> 0 <= r && score - WrongPenalty <= r && (r == 0 || r == score - WrongPenalty)
  {
    if correct then score + CorrectReward
    else if score - WrongPenalty > 0 then score - WrongPenalty else 0
  }

  /** One answer keeps the score a non-negative multiple of 5. */
  lemma AnswerScoreGrid(score: int, correct: bool)
    requires 0 <= score && score % WrongPenalty == 0
    ensures 0 <= AnswerScore(score, correct) && AnswerScore(score, correct) % WrongPenalty == 0
  {
  }

  /** The score after a round's answers, in order, starting from 0. */
  function ScoreAfter(answers: seq<bool>): int
  {
    if answers == [] then 0 else AnswerScore(ScoreAfter(answers[..|answers| - 1]), answers[|answers| - 1])
  }

  /** The number of correct answers of a round. */
  function Correct(answers: seq<bool>): nat
  {
    if answers == [] then 0 else Correct(answers[..|answers| - 1]) + (if answers[|answers| - 1] then 1 else 0)
  }

  /**
   * The score is never negative and always a multiple of 5; it is at most
   * 10 points per correct answer, and it loses at most 5 per wrong answer.
   */
  lemma {:induction false} ScoreAfterBounds(answers: seq<bool>)
    ensures var s := ScoreAfter(answers);
      0 <= s && s % WrongPenalty == 0 &&
      s <= CorrectReward * Correct(answers) &&
      s >= CorrectReward * Correct(answers) - WrongPenalty * (|answers| - Correct(answers))
  {
    if answers != [] {
      ScoreAfterBounds(answers[..|answers| - 1]);
    }
  }

  class Round {
    var timeLeft: int
    var score: int
    /** The one-second interval is registered. */
    var running: bool
    /** The answer of the question on screen. */
    var ans: int
    /** The options of the question on screen. */
    var options: seq<int>

    ghost predicate Valid()
      reads this
    {
      0 <= timeLeft <= RoundSeconds && 0 <= score && score % WrongPenalty == 0 && (running ==> timeLeft >= 1)
    }

    /** The state at page load. */
    constructor ()
      ensures Valid() && !running && timeLeft == RoundSeconds && score == 0
    {
      timeLeft, score, running := RoundSeconds, 0, false;
      ans, options := 0, [];
    }

    /** Poses a question with factors in [2, 9]. */
    method NextQuestion(ua: real, ub: real, draws: seq<real>)
      requires IsRandom(ua) && IsRandom(ub) && Completes(Factor(ua) * Factor(ub), draws)
      modifies this`ans, this`options
      ensures ans == Factor(ua) * Factor(ub) && 4 <= ans <= 81
      ensures options == Fill([ans], ans, draws) && |options| == OptionCount && options[0] == ans && NoDups(options)
    {
      ProductRange(ua, ub);
      ans := Factor(ua) * Factor(ub);
      options := BuildOptions(ans, draws);
    }

    /** Starts a round: 60 seconds, score 0, a first question, the interval registered. */
    method Start(ua: real, ub: real, draws: seq<real>)
      requires IsRandom(ua) && IsRandom(ub) && Completes(Factor(ua) * Factor(ub), draws)
      modifies this
      ensures Valid() && running && timeLeft == RoundSeconds && score == 0
      ensures ans == Factor(ua) * Factor(ub) && options == Fill([ans], ans, draws)
    {
      timeLeft, score := RoundSeconds, 0;
      NextQuestion(ua, ub, draws);
      running := true;
    }

    /** One interval tick: a second less; at zero the interval is cleared and the round ends. */
    method Tick()
      requires Valid() && running
      modifies this`timeLeft, this`running
      ensures Valid()
      ensures timeLeft == old(timeLeft) - 1
      ensures running <==> timeLeft > 0
    {
      timeLeft := timeLeft - 1;
      if timeLeft <= 0 {
        running := false;
      }
    }

    /** An option is clicked: a correct one scores 10 and brings a new question, a wrong one costs 5 down to 0. */
    method Answer(val: int, ua: real, ub: real, draws: seq<real>)
      requires Valid() && running
      requires IsRandom(ua) && IsRandom(ub)
      requires val == ans ==> Completes(Factor(ua) * Factor(ub), draws)
      modifies this`score, this`ans, this`options
      ensures Valid()
      ensures score == AnswerScore(old(score), val == old(ans))
      ensures val == old(ans) ==> ans == Factor(ua) * Factor(ub) && options == Fill([ans], ans, draws)
      ensures val != old(ans) ==> ans == old(ans) && options == old(options)
    {
      var correct := val == ans;
      score := AnswerScore(score, correct);
      assert score % WrongPenalty == 0 by {
        AnswerScoreGrid(old(score), correct);
      }
      if correct {
        NextQuestion(ua, ub, draws);
      }
    }
  }

  /** A round started afresh ends after exactly 60 ticks, and not before. */
  method PlayOutClock(ua: real, ub: real, draws: seq<real>) returns (ticks: int)
    requires IsRandom(ua) && IsRandom(ub) && Completes(Factor(ua) * Factor(ub), draws)
    ensures ticks == RoundSeconds
  {
    var r := new Round();
    r.Start(ua, ub, draws);
    ticks := 0;
    while r.running
      invariant r.Valid()
      invariant r.running ==> r.timeLeft == RoundSeconds - ticks
      invariant !r.running ==> ticks == RoundSeconds
      decreases r.timeLeft
    {
      r.Tick();
      ticks := ticks + 1;
    }
  }
}
