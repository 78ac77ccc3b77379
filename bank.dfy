/**
 * The question bank (`questions`, loaded once) and the choice of a level's
 * questions in `startLevel`: filter by chapter index and level, shuffle,
 * keep at most QUESTIONS_PER_LEVEL.
 */
module Bank {
  import opened SeqUtil
  import opened Shuffle

  const QUESTIONS_PER_LEVEL: nat := 12

  /** One record of the bank. `chapter` is the chapter's name; `chapterIndex` its number. */
  datatype Question = Question(
    chapter: string,
    chapterIndex: int,
    level: int,
    text: string,
    options: seq<string>,
    answer: int)

  /** `q.chapterIndex === ch && q.level === lv` */
  predicate InLevel(q: Question, ch: int, lv: int) {
    q.chapterIndex == ch && q.level == lv
  }

  /** Every question of `qs` belongs to chapter `ch`, level `lv`. */
  predicate AllInLevel(qs: seq<Question>, ch: int, lv: int) {
    forall i :: 0 <= i < |qs| ==> InLevel(qs[i], ch, lv)
  }

  /** `questions.filter(...)`: the questions of one level, each as often as in the bank. */
  function Pool(bank: seq<Question>, ch: int, lv: int): (r: seq<Question>)
    ensures |r| <= |bank|
    ensures forall i :: 0 <= i < |r| ==> InLevel(r[i], ch, lv)
  {
    if bank == [] then []
    else (if InLevel(bank[0], ch, lv) then [bank[0]] else []) + Pool(bank[1..], ch, lv)
  }

  /** The pool holds every question of the level as often as the bank does, and no other. */
  lemma {:induction false} PoolCounts(bank: seq<Question>, ch: int, lv: int)
    ensures forall q :: multiset(Pool(bank, ch, lv))[q] == if InLevel(q, ch, lv) then multiset(bank)[q] else 0
  {
    if bank != [] {
      assert bank == [bank[0]] + bank[1..];
      PoolCounts(bank[1..], ch, lv);
    }
  }

  /**
   * `Array.from(new Set(questions.map(q => q.chapter)))`: each chapter name
   * once, in order of first appearance. Only its length is used by the core.
   */
  function ChapterNames(bank: seq<Question>): (r: seq<string>)
    ensures NoDup(r)
    ensures |r| <= |bank|
    ensures forall name :: name in r <==> exists i :: 0 <= i < |bank| && bank[i].chapter == name
  {
    if bank == [] then []
    else
      var init := bank[..|bank| - 1];
      var names := ChapterNames(init);
      var last := bank[|bank| - 1].chapter;
      assert forall i :: 0 <= i < |init| ==> init[i] == bank[i];
      if last in names then names else names + [last]
  }

  /**
   * `shuffleArray(pool).slice(0, QUESTIONS_PER_LEVEL)`: twelve questions when
   * the pool has that many, otherwise the whole pool.
   */
  function LevelQuestions(bank: seq<Question>, ch: int, lv: int, pick: nat -> nat): (r: seq<Question>)
    requires Picks(pick)
    ensures |r| == Min(|Pool(bank, ch, lv)|, QUESTIONS_PER_LEVEL)
  {
    var pool := Pool(bank, ch, lv);
    if pool == [] then []
    else
      ShuffleFromPermutes(pool, pick, |pool| - 1);
      Take(Shuffled(pool, pick), QUESTIONS_PER_LEVEL)
  }

  /**
   * Lines 96-98 of `startLevel`: at most twelve questions, all of the requested
   * level, none taken more often than the bank holds it (so none twice when the
   * bank has no duplicates), and all of the pool when it has twelve or fewer.
   */
  method SelectQuestions(bank: seq<Question>, ch: int, lv: int, pick: nat -> nat) returns (qs: seq<Question>)
    requires Picks(pick)
    ensures qs == LevelQuestions(bank, ch, lv, pick)
    ensures |qs| == Min(|Pool(bank, ch, lv)|, QUESTIONS_PER_LEVEL)
    ensures AllInLevel(qs, ch, lv)
    ensures multiset(qs) <= multiset(bank)
    ensures |Pool(bank, ch, lv)| <= QUESTIONS_PER_LEVEL ==> multiset(qs) == multiset(Pool(bank, ch, lv))
    ensures NoDup(bank) ==> NoDup(qs)
  {
    var pool := Pool(bank, ch, lv);
    var shuffled := ShuffleArray(pool, pick);
    qs := Take(shuffled, QUESTIONS_PER_LEVEL);
    SelectionFacts(bank, pool, shuffled, qs, ch, lv);
  }

  lemma SelectionFacts(bank: seq<Question>, pool: seq<Question>, shuffled: seq<Question>, qs: seq<Question>, ch: int, lv: int)
    requires pool == Pool(bank, ch, lv)
    requires multiset(shuffled) == multiset(pool)
    requires qs <= shuffled
    ensures forall i :: 0 <= i < |qs| ==> InLevel(qs[i], ch, lv)
    ensures multiset(qs) <= multiset(bank)
    ensures |qs| == |shuffled| ==> multiset(qs) == multiset(pool)
    ensures NoDup(bank) ==> NoDup(qs)
  {
    assert qs == shuffled[..|qs|];
    if |qs| == |shuffled| {
      assert qs == shuffled;
    }
    PrefixMultiset(shuffled, |qs|);
    SubPoolInLevel(bank, pool, qs, ch, lv);
    SubPoolCount(bank, pool, qs, ch, lv);
    if NoDup(bank) {
      NoDupByCount(bank);
      SubPoolNoDup(bank, pool, qs, ch, lv);
    }
  }

  lemma SubPoolInLevel(bank: seq<Question>, pool: seq<Question>, qs: seq<Question>, ch: int, lv: int)
    requires pool == Pool(bank, ch, lv)
    requires multiset(qs) <= multiset(pool)
    ensures forall i :: 0 <= i < |qs| ==> InLevel(qs[i], ch, lv)
  {
    PoolCounts(bank, ch, lv);
    forall i | 0 <= i < |qs| ensures InLevel(qs[i], ch, lv) {
      assert qs[i] in multiset(qs);
      assert qs[i] in multiset(pool);
    }
  }

  lemma SubPoolCount(bank: seq<Question>, pool: seq<Question>, qs: seq<Question>, ch: int, lv: int)
    requires pool == Pool(bank, ch, lv)
    requires multiset(qs) <= multiset(pool)
    ensures forall q :: multiset(qs)[q] <= multiset(bank)[q]
  {
    PoolCounts(bank, ch, lv);
    forall q ensures multiset(qs)[q] <= multiset(bank)[q] {
      assert multiset(qs)[q] <= multiset(pool)[q];
    }
  }

  lemma SubPoolNoDup(bank: seq<Question>, pool: seq<Question>, qs: seq<Question>, ch: int, lv: int)
    requires pool == Pool(bank, ch, lv)
    requires multiset(qs) <= multiset(pool)
    requires forall x :: multiset(bank)[x] <= 1
    ensures NoDup(qs)
  {
    PoolCounts(bank, ch, lv);
    forall x ensures multiset(qs)[x] <= 1 {
      assert multiset(qs)[x] <= multiset(pool)[x];
    }
    CountNoDup(qs);
  }

  /** Without duplicates, every element occurs at most once. */
  lemma {:induction false} NoDupByCount<T>(s: seq<T>)
    requires NoDup(s)
    ensures forall x :: multiset(s)[x] <= 1
  {
    if s != [] {
      assert s == [s[0]] + s[1..];
      assert s[0] !in s[1..];
      NoDupByCount(s[1..]);
    }
  }

  /** A sequence in which every element occurs at most once has no duplicates. */
  lemma CountNoDup<T>(s: seq<T>)
    requires forall x :: multiset(s)[x] <= 1
    ensures NoDup(s)
  {
    forall i, j | 0 <= i < j < |s| ensures s[i] != s[j] {
      if s[i] == s[j] {
        TwiceCounted(s, i, j);
      }
    }
  }

  /** An element at two positions occurs at least twice. */
  lemma TwiceCounted<T>(s: seq<T>, i: nat, j: nat)
    requires i < j < |s| && s[i] == s[j]
    ensures multiset(s)[s[i]] >= 2
  {
    assert s == s[..j] + s[j..];
    assert s[i] in s[..j] && s[j] in s[j..];
  }
}
