/**
 * The arithmetic of a level: the per-question countdown, the points that
 * `selectOption` awards, and the percent of `levelComplete`.
 */
module Scoring {
  import opened SeqUtil

  const TIME_PER_Q: int := 15

  /**
   * `Math.round((correct / total) * 100)` for `total > 0`: the integer nearest
   * to `100 * correct / total`, halves rounded up. With at most twelve
   * questions the only exact halves arise for `total == 8`, where the
   * floating-point quotient is exact, so the integer formula agrees with it.
   */
  function RoundedPercent(correct: int, total: int): (r: int)
    requires total > 0
    ensures 2 * total * r - total <= 200 * correct < 2 * total * r + total
    ensures 0 <= correct <= total ==> 0 <= r <= 100
  {
    var r := (200 * correct + total) / (2 * total);
    PercentRange(correct, total, r);
    r
  }

  /** The rounding bounds keep the percent of `0 <= correct <= total` within 0..100. */
  lemma PercentRange(correct: int, total: int, r: int)
    requires total > 0
    requires 2 * total * r - total <= 200 * correct < 2 * total * r + total
    ensures 0 <= correct <= total ==> 0 <= r <= 100
  {
    if 0 <= correct <= total {
      assert total * (2 * r - 1) <= total * 200;
      MulCancel(total, 2 * r - 1, 200);
      assert total * 0 < total * (2 * r + 1);
      MulCancelStrict(total, 0, 2 * r + 1);
    }
  }

  lemma MulCancel(k: int, a: int, b: int)
    requires k > 0 && k * a <= k * b
    ensures a <= b
  {
  }

  lemma MulCancelStrict(k: int, a: int, b: int)
    requires k > 0 && k * a < k * b
    ensures a < b
  {
  }

  /** What `Math.round((correct / total) * 100)` gives: `NaN` for an empty level. */
  datatype Number = Num(value: int) | NaN

  /** The percent as the source computes it. */
  function PercentAsWritten(correct: int, total: nat): (r: Number)
    ensures r.NaN? <==> total == 0
    ensures r.Num? ==> 0 <= correct <= total ==> 0 <= r.value <= 100
  {
    if total == 0 then NaN else Num(RoundedPercent(correct, total))
  }

  /** An empty level (no question of that chapter and level) scores `NaN`. */
  lemma EmptyLevelScoresNaN()
    ensures PercentAsWritten(0, 0) == NaN
  {
  }

  /**
   * The percent of a finished level, with an empty level scoring 0%. This is
   * the intended result; the source computes `NaN` there (`PercentAsWritten`).
   */
  function LevelPercent(correct: int, total: nat): (r: int)
    ensures total == 0 ==> r == 0
    ensures total > 0 ==> 2 * total * r - total <= 200 * correct < 2 * total * r + total
    ensures 0 <= correct <= total ==> 0 <= r <= 100
    ensures total > 0 && correct == total ==> r == 100
  {
    if total == 0 then 0
    else
      var r := RoundedPercent(correct, total);
      FullMarks(correct, total, r);
      r
  }

  /** The rounding bounds pin the percent of an all-right level to 100. */
  lemma FullMarks(correct: int, total: int, r: int)
    requires total > 0
    requires 2 * total * r - total <= 200 * correct < 2 * total * r + total
    ensures correct == total ==> r == 100
  {
    if correct == total {
      assert total * (2 * r - 1) <= total * 200;
      MulCancel(total, 2 * r - 1, 200);
      assert total * 200 < total * (2 * r + 1);
      MulCancelStrict(total, 200, 2 * r + 1);
    }
  }

  /** The running score of a level: `levelScore = {correct, timeBonus}`. */
  datatype Score = Score(correct: int, timeBonus: int)

  const NoScore := Score(0, 0)

  /**
   * `selectOption(choice)` on a question whose answer is `answer` with
   * `timeLeft` seconds left: a right choice adds one to `correct` and the
   * seconds left (never negative) to `timeBonus`; a wrong one changes nothing.
   */
  function Answer(s: Score, choice: int, answer: int, timeLeft: int): (r: Score)
    ensures r.correct == s.correct + 1 <==> choice == answer
    ensures choice != answer <==> r == s
    ensures s.timeBonus <= r.timeBonus <= s.timeBonus + Max(0, timeLeft)
    ensures choice == answer ==> r.timeBonus == s.timeBonus + Max(0, timeLeft)
  {
    if choice == answer then Score(s.correct + 1, s.timeBonus + Max(0, timeLeft))
    else s
  }

  /** One click on an option: the option, the question's answer, the seconds left. */
  datatype Pick = Pick(choice: int, answer: int, timeLeft: int)

  /** A series of clicks scored one after the other. */
  function Run(s: Score, picks: seq<Pick>): Score
    decreases |picks|
  {
    if picks == [] then s
    else Run(Answer(s, picks[0].choice, picks[0].answer, picks[0].timeLeft), picks[1..])
  }

  /**
   * Each click adds at most one right answer and at most TIME_PER_Q bonus
   * seconds for each right answer, when no click comes with more time left
   * than the countdown starts from.
   */
  lemma {:induction false} RunBounds(s: Score, picks: seq<Pick>)
    requires forall i :: 0 <= i < |picks| ==> picks[i].timeLeft <= TIME_PER_Q
    ensures s.correct <= Run(s, picks).correct <= s.correct + |picks|
    ensures s.timeBonus <= Run(s, picks).timeBonus
    ensures Run(s, picks).timeBonus - s.timeBonus <= TIME_PER_Q * (Run(s, picks).correct - s.correct)
    decreases |picks|
  {
    if picks != [] {
      var p := picks[0];
      RunBounds(Answer(s, p.choice, p.answer, p.timeLeft), picks[1..]);
    }
  }

  /** Clicks that are all right each add one to `correct`. */
  lemma {:induction false} AllRight(s: Score, picks: seq<Pick>)
    requires forall i :: 0 <= i < |picks| ==> picks[i].choice == picks[i].answer
    ensures Run(s, picks).correct == s.correct + |picks|
    decreases |picks|
  {
    if picks != [] {
      var p := picks[0];
      AllRight(Answer(s, p.choice, p.answer, p.timeLeft), picks[1..]);
    }
  }

  /**
   * With at most one click per question, the level's percent lies in 0..100;
   * with a right click on every question it is 100.
   */
  lemma OneClickPerQuestion(picks: seq<Pick>, total: nat)
    requires |picks| <= total
    requires forall i :: 0 <= i < |picks| ==> picks[i].timeLeft <= TIME_PER_Q
    ensures 0 <= LevelPercent(Run(NoScore, picks).correct, total) <= 100
    ensures (|picks| == total > 0 && forall i :: 0 <= i < |picks| ==> picks[i].choice == picks[i].answer) ==>
              LevelPercent(Run(NoScore, picks).correct, total) == 100
  {
    RunBounds(NoScore, picks);
    if forall i :: 0 <= i < |picks| ==> picks[i].choice == picks[i].answer {
      AllRight(NoScore, picks);
    }
  }

  /**
   * `selectOption` does not refuse a second click on the same question: two
   * right clicks on a one-question level give two right answers and 200%.
   */
  lemma RepeatedClickCountsTwice()
    ensures Run(NoScore, [Pick(0, 0, 15), Pick(0, 0, 15)]) == Score(2, 30)
    ensures LevelPercent(2, 1) == 200
  {
    var once := Answer(NoScore, 0, 0, 15);
    assert Run(NoScore, [Pick(0, 0, 15), Pick(0, 0, 15)]) == Run(once, [Pick(0, 0, 15)]);
  }

  /**
   * The countdown of one question: `timeLeft` and whether the interval timer
   * is running.
   */
  datatype Timer = Timer(timeLeft: int, running: bool) {
    /** One firing of the interval: `timeLeft--`, and stop at zero or below. */
    function Tick(): (r: Timer)
      ensures !running ==> r == this
      ensures running ==> r.timeLeft == timeLeft - 1 && (r.running <==> r.timeLeft > 0)
    {
      if !running then this
      else Timer(timeLeft - 1, timeLeft - 1 > 0)
    }
  }

  /** `k` firings of the interval. */
  function Ticks(t: Timer, k: nat): Timer
    decreases k
  {
    if k == 0 then t else Ticks(t.Tick(), k - 1)
  }

  /** A countdown from `t` seconds runs for exactly `t` firings and stops at 0. */
  lemma {:induction false} CountdownStopsAtZero(t: int, k: nat)
    requires 0 < t && k <= t
    ensures Ticks(Timer(t, true), k) == Timer(t - k, k < t)
    decreases k
  {
    if k > 0 {
      if t - 1 > 0 {
        CountdownStopsAtZero(t - 1, k - 1);
      }
    }
  }

  /** A stopped timer (`clearInterval`) never fires again. */
  lemma {:induction false} StoppedTimerStaysStopped(t: Timer, k: nat)
    requires !t.running
    ensures Ticks(t, k) == t
    decreases k
  {
    if k > 0 {
      StoppedTimerStaysStopped(t.Tick(), k - 1);
    }
  }
}
