/**
 * The quiz session: the module-level state of the script (the bank, the
 * chapter names, the unlock map, the stored leaderboard and the current level's
 * cursor, score and countdown) as the fields of one object, and the event
 * handlers that change it. Randomness and the clock come in as arguments.
 */
module Quiz {
  import opened SeqUtil
  import opened Bank
  import opened Progress
  import opened Scoring
  import opened Leaderboard
  import opened Shuffle

  class QuizApp {
    const bank: seq<Question>
    const chapters: seq<string>
    var progress: Progress
    var leaderboard: seq<Entry>
    var curChapter: int
    var curLevel: int
    var levelQs: seq<Question>
    /** The chapter `levelQs` was selected for; `openLevels` can move `curChapter` away from it. */
    ghost var levelChapter: int
    var qIndex: nat
    var correct: int
    var timeBonus: int
    var timeLeft: int
    var timerOn: bool

    /**
     * The countdown stays within 0..TIME_PER_Q and runs only while a question
     * is shown; the level's questions are at most twelve, all of the chapter
     * they were selected for and of the current level; every bonus second came
     * with a right answer.
     */
    ghost predicate Valid()
      reads this`timeLeft, this`timerOn, this`qIndex, this`levelQs, this`levelChapter
      reads this`curLevel, this`correct, this`timeBonus
    {
      && 0 <= timeLeft <= TIME_PER_Q
      && (timerOn ==> 0 < timeLeft && qIndex < |levelQs|)
      && |levelQs| <= QUESTIONS_PER_LEVEL
      && AllInLevel(levelQs, levelChapter, curLevel)
      && 0 <= correct
      && 0 <= timeBonus <= TIME_PER_Q * correct
    }

    /** The score part of the state. */
    function CurrentScore(): Score
      reads this
    {
      Score(correct, timeBonus)
    }

    /** The countdown part of the state. */
    function CurrentTimer(): Timer
      reads this
    {
      Timer(timeLeft, timerOn)
    }

    /**
     * The state after the bank is fetched: chapter names from the bank, no
     * progress loaded yet, and the stored leaderboard.
     */
    constructor (bank: seq<Question>, storedLeaderboard: seq<Entry>)
      ensures Valid()
      ensures this.bank == bank && chapters == ChapterNames(bank)
      ensures progress == map[] && leaderboard == storedLeaderboard
      ensures curChapter == 0 && curLevel == 1 && levelQs == [] && qIndex == 0
      ensures CurrentScore() == NoScore && CurrentTimer() == Timer(TIME_PER_Q, false)
    {
      this.bank := bank;
      chapters := ChapterNames(bank);
      progress := map[];
      leaderboard := storedLeaderboard;
      curChapter, curLevel := 0, 1;
      levelChapter := 0;
      levelQs, qIndex := [], 0;
      correct, timeBonus := 0, 0;
      timeLeft, timerOn := TIME_PER_Q, false;
    }

    /**
     * `loadState`: take the stored progress (an absent document reads as the
     * empty map); if it has no chapters, build the first-run progress.
     */
    method LoadState(stored: Progress)
      requires Valid()
      modifies this`progress
      ensures Valid()
      ensures progress == if |stored| == 0 then Initial(|chapters|) else stored
    {
      var p := stored;
      if |p| == 0 {
        for i := 0 to |chapters|
          invariant p == EmptyChapters(i)
        {
          p := p[i := []];
        }
        p := p[0 := [1]];
      }
      progress := p;
    }

    /** `saveLeaderboardEntry`: push, sort, keep the first MAX_ENTRIES; only the leaderboard changes. */
    method SaveLeaderboardEntry(e: Entry)
      modifies this`leaderboard
      ensures leaderboard == Record(old(leaderboard), e)
    {
      var lb := leaderboard;
      lb := lb + [e];
      lb := RankSort(lb);
      leaderboard := lb[..Min(|lb|, MAX_ENTRIES)];
    }

    /**
     * `levelComplete`: stop the timer, record the level's result at time
     * `now`, and unlock the next level (or level 1 of the next chapter).
     */
    method LevelComplete(now: int)
      requires Valid()
      modifies this
      ensures Valid() && !timerOn
      ensures leaderboard == Record(old(leaderboard),
        Entry(curChapter, curLevel, correct, |levelQs|, LevelPercent(correct, |levelQs|), now))
      ensures progress == Completed(old(progress), |chapters|, curChapter, curLevel)
      ensures curChapter == old(curChapter) && curLevel == old(curLevel)
      ensures levelQs == old(levelQs) && qIndex == old(qIndex)
      ensures CurrentScore() == old(CurrentScore()) && timeLeft == old(timeLeft)
    {
      timerOn := false;
      var total := |levelQs|;
      var percent := LevelPercent(correct, total);
      SaveLeaderboardEntry(Entry(curChapter, curLevel, correct, total, percent, now));
      UnlockNext();
    }

    /** Lines 154-156 of `levelComplete`: the guarded appends that unlock the next level. */
    method UnlockNext()
      modifies this`progress
      ensures progress == Completed(old(progress), |chapters|, curChapter, curLevel)
    {
      var p := progress;
      if curChapter !in p {
        p := p[curChapter := []];
      }
      if curLevel < LAST_LEVEL && curLevel + 1 !in p[curChapter] {
        p := p[curChapter := p[curChapter] + [curLevel + 1]];
      }
      if curLevel == LAST_LEVEL && curChapter < |chapters| - 1 {
        if curChapter + 1 !in p {
          p := p[curChapter + 1 := []];
        }
        if 1 !in p[curChapter + 1] {
          p := p[curChapter + 1 := p[curChapter + 1] + [1]];
        }
      }
      progress := p;
    }

    /**
     * `nextQuestion`: complete the level once the cursor is past the last
     * question, otherwise restart the countdown for the current question.
     */
    method NextQuestion(now: int)
      requires Valid()
      modifies this
      ensures Valid()
      ensures curChapter == old(curChapter) && curLevel == old(curLevel)
      ensures levelQs == old(levelQs) && qIndex == old(qIndex)
      ensures CurrentScore() == old(CurrentScore())
      ensures qIndex < |levelQs| ==>
        && CurrentTimer() == Timer(TIME_PER_Q, true)
        && progress == old(progress) && leaderboard == old(leaderboard)
      ensures qIndex >= |levelQs| ==>
        && !timerOn && timeLeft == old(timeLeft)
        && leaderboard == Record(old(leaderboard),
             Entry(curChapter, curLevel, correct, |levelQs|, LevelPercent(correct, |levelQs|), now))
        && progress == Completed(old(progress), |chapters|, curChapter, curLevel)
    {
      if qIndex >= |levelQs| {
        LevelComplete(now);
        return;
      }
      timeLeft := TIME_PER_Q;
      timerOn := true;
    }

    /**
     * `startLevel`: reset the score and the cursor, select the level's
     * questions with the shuffle choices `pick`, and show the first question.
     * A level without questions completes at once.
     */
    method StartLevel(ch: int, lv: int, pick: nat -> nat, now: int)
      requires Valid() && Picks(pick)
      modifies this
      ensures Valid()
      ensures curChapter == ch && curLevel == lv && qIndex == 0
      ensures levelQs == LevelQuestions(bank, ch, lv, pick)
      ensures CurrentScore() == NoScore
      ensures |levelQs| > 0 ==>
        && CurrentTimer() == Timer(TIME_PER_Q, true)
        && progress == old(progress) && leaderboard == old(leaderboard)
      ensures |levelQs| == 0 ==>
        && !timerOn && timeLeft == old(timeLeft)
        && leaderboard == Record(old(leaderboard), Entry(ch, lv, 0, 0, 0, now))
        && progress == Completed(old(progress), |chapters|, ch, lv)
    {
      ResetLevel(ch, lv, pick);
      NextQuestion(now);
    }

    /**
     * Line 94 and lines 96-98 of `startLevel`: the new level's questions, score
     * and cursor. The countdown is marked stopped here; the source stops the
     * interval in the `nextQuestion` or `levelComplete` that follows at once
     * (lines 126 and 147), so `StartLevel` ends in the same state.
     */
    method ResetLevel(ch: int, lv: int, pick: nat -> nat)
      requires Valid() && Picks(pick)
      modifies this`curChapter, this`curLevel, this`levelChapter, this`correct, this`timeBonus
      modifies this`qIndex, this`levelQs, this`timerOn
      ensures Valid()
      ensures curChapter == ch && curLevel == lv && qIndex == 0
      ensures levelQs == LevelQuestions(bank, ch, lv, pick)
      ensures CurrentScore() == NoScore && !timerOn
    {
      var qs := SelectQuestions(bank, ch, lv, pick);
      curChapter, curLevel := ch, lv;
      levelChapter := ch;
      correct, timeBonus := 0, 0;
      qIndex := 0;
      levelQs := qs;
      timerOn := false;
    }

    /**
     * `startDaily`: the random chapter `ch` (`Math.floor(Math.random() *
     * chapters.length)`) and level `lv` (`Math.floor(Math.random() * 10) + 1`)
     * are unlocked if they were not, then started like any level.
     */
    method StartDaily(ch: int, lv: int, pick: nat -> nat, now: int)
      requires Valid() && Picks(pick)
      requires 0 <= ch < Max(|chapters|, 1) && 1 <= lv <= LAST_LEVEL
      modifies this
      ensures Valid()
      ensures curChapter == ch && curLevel == lv && qIndex == 0
      ensures Unlocked(progress, ch, lv)
      ensures levelQs == LevelQuestions(bank, ch, lv, pick)
      ensures CurrentScore() == NoScore
      ensures |levelQs| > 0 ==>
        && CurrentTimer() == Timer(TIME_PER_Q, true)
        && progress == Grant(old(progress), ch, lv) && leaderboard == old(leaderboard)
      ensures |levelQs| == 0 ==>
        && !timerOn && timeLeft == old(timeLeft)
        && leaderboard == Record(old(leaderboard), Entry(ch, lv, 0, 0, 0, now))
        && progress == Completed(Grant(old(progress), ch, lv), |chapters|, ch, lv)
      ensures forall c, l :: Unlocked(old(progress), c, l) ==> Unlocked(progress, c, l)
    {
      if ch !in progress || lv !in progress[ch] {
        if ch !in progress {
          progress := progress[ch := []];
        }
        progress := progress[ch := progress[ch] + [lv]];
      }
      assert progress == Grant(old(progress), ch, lv);
      StartLevel(ch, lv, pick, now);
    }

    /**
     * `openLevels(ch)`: show the level grid of chapter `ch`, which also sets
     * `curChapter`. The level's questions, cursor and score stay as they were,
     * so a later "next" (the script never hides that button again) completes
     * the old level's questions under chapter `ch`.
     */
    method OpenLevels(ch: int)
      requires Valid()
      modifies this`curChapter
      ensures Valid() && curChapter == ch
    {
      curChapter := ch;
    }

    /**
     * `selectOption(choice)` on the shown question: stop the countdown and
     * score the click. A second click on the same question is scored again.
     */
    method SelectOption(choice: int)
      requires Valid() && qIndex < |levelQs|
      modifies this
      ensures Valid() && !timerOn && timeLeft == old(timeLeft)
      ensures CurrentScore() == Answer(old(CurrentScore()), choice, old(levelQs[qIndex]).answer, old(timeLeft))
      ensures progress == old(progress) && leaderboard == old(leaderboard)
      ensures curChapter == old(curChapter) && curLevel == old(curLevel)
      ensures levelQs == old(levelQs) && qIndex == old(qIndex)
    {
      timerOn := false;
      var q := levelQs[qIndex];
      if choice == q.answer {
        correct := correct + 1;
        var tb := Max(0, timeLeft);
        timeBonus := timeBonus + tb;
      }
    }

    /** The "next" button: stop the countdown, advance the cursor, go on. */
    method Next(now: int)
      requires Valid()
      modifies this
      ensures Valid()
      ensures qIndex == old(qIndex) + 1
      ensures curChapter == old(curChapter) && curLevel == old(curLevel) && levelQs == old(levelQs)
      ensures CurrentScore() == old(CurrentScore())
      ensures qIndex < |levelQs| ==>
        && CurrentTimer() == Timer(TIME_PER_Q, true)
        && progress == old(progress) && leaderboard == old(leaderboard)
      ensures qIndex >= |levelQs| ==>
        && !timerOn && timeLeft == old(timeLeft)
        && leaderboard == Record(old(leaderboard),
             Entry(curChapter, curLevel, correct, |levelQs|, LevelPercent(correct, |levelQs|), now))
        && progress == Completed(old(progress), |chapters|, curChapter, curLevel)
    {
      timerOn := false;
      qIndex := qIndex + 1;
      NextQuestion(now);
    }

    /**
     * One firing of the countdown interval: one second less, and the timer
     * stops (time up, counted as no answer) when it reaches zero.
     */
    method TimerTick()
      requires Valid()
      modifies this
      ensures Valid()
      ensures CurrentTimer() == old(CurrentTimer()).Tick()
      ensures CurrentScore() == old(CurrentScore())
      ensures progress == old(progress) && leaderboard == old(leaderboard)
      ensures curChapter == old(curChapter) && curLevel == old(curLevel)
      ensures levelQs == old(levelQs) && qIndex == old(qIndex)
    {
      if timerOn {
        timeLeft := timeLeft - 1;
        if timeLeft <= 0 {
          timerOn := false;
        }
      }
    }
  }
}
