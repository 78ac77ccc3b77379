/**
 * The unlock tracker: a map from chapter index to the list of unlocked level
 * numbers (the stored document `cq_progress`). Every change is a guarded
 * append, so unlocking is monotone, adds no duplicates and is idempotent.
 */
module Progress {
  import opened SeqUtil

  type Progress = map<int, seq<int>>

  const LAST_LEVEL := 10

  /** `progress[ch] && progress[ch].includes(lv)` */
  predicate Unlocked(p: Progress, ch: int, lv: int) {
    ch in p && lv in p[ch]
  }

  /** No chapter lists a level twice. */
  predicate WellFormed(p: Progress) {
    forall ch :: ch in p ==> NoDup(p[ch])
  }

  /** The loop `for (i = 0; i < n; i++) progress[i] = []`. */
  function EmptyChapters(n: nat): (p: Progress)
    ensures forall ch :: ch in p <==> 0 <= ch < n
    ensures forall ch :: ch in p ==> p[ch] == []
  {
    if n == 0 then map[] else EmptyChapters(n - 1)[n - 1 := []]
  }

  /**
   * First run: every chapter `0..n-1` gets an empty list, then chapter 0 gets
   * exactly `[1]` (chapter 0 exists even when there are no chapters).
   */
  function Initial(n: nat): (p: Progress)
    ensures forall ch :: ch in p <==> 0 <= ch < Max(n, 1)
    ensures 0 in p && p[0] == [1]
    ensures forall ch :: ch in p && ch != 0 ==> p[ch] == []
    ensures forall ch, lv :: Unlocked(p, ch, lv) <==> ch == 0 && lv == 1
    ensures WellFormed(p)
  {
    EmptyChapters(n)[0 := [1]]
  }

  /** `if (!progress[ch]) progress[ch] = []` */
  function WithChapter(p: Progress, ch: int): (r: Progress)
    ensures r.Keys == p.Keys + {ch}
    ensures forall c :: c in p ==> r[c] == p[c]
    ensures ch !in p ==> r[ch] == []
  {
    if ch in p then p else p[ch := []]
  }

  /**
   * `if (!list.includes(lv)) list.push(lv)` on the chapter's list, creating the
   * list first when the chapter has none. Afterwards `lv` is unlocked, nothing
   * unlocked before is lost, nothing else is unlocked, the old list is a prefix
   * of the new one, no other chapter changes and no duplicate is added.
   */
  function Grant(p: Progress, ch: int, lv: int): (r: Progress)
    ensures Unlocked(r, ch, lv)
    ensures r.Keys == p.Keys + {ch}
    ensures forall c :: c in p && c != ch ==> r[c] == p[c]
    ensures forall c, l :: Unlocked(r, c, l) <==> Unlocked(p, c, l) || (c == ch && l == lv)
    ensures ch in p ==> p[ch] <= r[ch]
    ensures Unlocked(p, ch, lv) ==> r == p
    ensures WellFormed(p) ==> WellFormed(r)
  {
    var q := WithChapter(p, ch);
    if lv in q[ch] then q else q[ch := q[ch] + [lv]]
  }

  /**
   * The unlock rule of `levelComplete` for chapter `ch` and level `lv`, with
   * `chapters` chapters in the bank: level `lv + 1` below the last level,
   * level 1 of the next chapter after the last level of a chapter that is not
   * the last one. Each list only grows at its end.
   */
  function Completed(p: Progress, chapters: nat, ch: int, lv: int): (r: Progress)
    ensures ch in r
    ensures lv < LAST_LEVEL ==> Unlocked(r, ch, lv + 1)
    ensures lv == LAST_LEVEL && ch < chapters - 1 ==> Unlocked(r, ch + 1, 1)
    ensures forall c, l :: Unlocked(p, c, l) ==> Unlocked(r, c, l)
    ensures forall c, l :: Unlocked(r, c, l) ==>
              || Unlocked(p, c, l)
              || (lv < LAST_LEVEL && c == ch && l == lv + 1)
              || (lv == LAST_LEVEL && ch < chapters - 1 && c == ch + 1 && l == 1)
    ensures ch in p ==> p[ch] <= r[ch]
    ensures lv == LAST_LEVEL && ch < chapters - 1 && ch + 1 in p ==> ch + 1 in r && p[ch + 1] <= r[ch + 1]
    ensures forall c :: c in p && c != ch && c != ch + 1 ==> c in r && r[c] == p[c]
    ensures !(lv == LAST_LEVEL && ch < chapters - 1) ==>
              forall c :: c in p && c != ch ==> c in r && r[c] == p[c]
    ensures WellFormed(p) ==> WellFormed(r)
  {
    var q := WithChapter(p, ch);
    if lv < LAST_LEVEL then Grant(q, ch, lv + 1)
    else if lv == LAST_LEVEL && ch < chapters - 1 then Grant(q, ch + 1, 1)
    else q
  }

  /** Completing a level records its chapter, and the next chapter when it unlocks one; no other. */
  lemma CompletedKeys(p: Progress, chapters: nat, ch: int, lv: int)
    ensures Completed(p, chapters, ch, lv).Keys ==
              p.Keys + {ch} + (if lv == LAST_LEVEL && ch < chapters - 1 then {ch + 1} else {})
  {
  }

  /** Completing the same level twice unlocks nothing more than completing it once. */
  lemma CompletedIdempotent(p: Progress, chapters: nat, ch: int, lv: int)
    ensures Completed(Completed(p, chapters, ch, lv), chapters, ch, lv) == Completed(p, chapters, ch, lv)
  {
    var r := Completed(p, chapters, ch, lv);
    assert WithChapter(r, ch) == r;
  }

  /** A grant of a level that is already unlocked changes nothing (the `startDaily` guard). */
  lemma GrantIdempotent(p: Progress, ch: int, lv: int)
    ensures Grant(Grant(p, ch, lv), ch, lv) == Grant(p, ch, lv)
  {
  }
}
