/**
 * The local leaderboard (the stored document `cq_leaderboard_v1`): each new
 * entry is appended, the list is sorted by percent, highest first, then by
 * time, latest first, and only the first MAX_ENTRIES are kept.
 */
module Leaderboard {
  import opened SeqUtil

  const MAX_ENTRIES: nat := 200

  /** One finished level; `time` is the finishing instant in milliseconds. */
  datatype Entry = Entry(chapter: int, level: int, correct: int, total: int, percent: int, time: int)

  /**
   * The comparator handed to `lb.sort`: `b.percent - a.percent`, or, when that
   * is zero (falsy), `b.time - a.time`. Negative puts `a` first.
   */
  function Comparator(a: Entry, b: Entry): int {
    var byPercent := b.percent - a.percent;
    if byPercent != 0 then byPercent else b.time - a.time
  }

  /** Swapping the arguments negates the comparator. */
  lemma ComparatorAntisymmetric(a: Entry, b: Entry)
    ensures Comparator(a, b) == -Comparator(b, a)
  {
  }

  /** `a` sorts strictly before `b`: higher percent, or equal percent and later time. */
  predicate Before(a: Entry, b: Entry)
    ensures Before(a, b) <==> Comparator(a, b) < 0
  {
    a.percent > b.percent || (a.percent == b.percent && a.time > b.time)
  }

  /** No entry sorts strictly before an entry ahead of it. */
  predicate Ranked(s: seq<Entry>) {
    forall i, j :: 0 <= i < j < |s| ==> !Before(s[j], s[i])
  }

  /** Places `e` after every entry it does not sort strictly before. */
  function Insert(t: seq<Entry>, e: Entry): (r: seq<Entry>)
    ensures |r| == |t| + 1
    decreases |t|
  {
    if t == [] then [e]
    else if Before(e, t[0]) then [e] + t
    else [t[0]] + Insert(t[1..], e)
  }

  /** Inserting adds exactly the new entry. */
  lemma {:induction false} InsertCounts(t: seq<Entry>, e: Entry)
    ensures multiset(Insert(t, e)) == multiset(t) + multiset{e}
    decreases |t|
  {
    if t != [] && !Before(e, t[0]) {
      assert t == [t[0]] + t[1..];
      InsertCounts(t[1..], e);
    }
  }

  /**
   * `Array.prototype.sort` with the comparator above. The sort is stable, as
   * the ECMAScript standard requires since its 2019 edition: an insertion sort
   * that puts each entry after those it ties with.
   */
  function RankSort(s: seq<Entry>): (r: seq<Entry>)
    ensures |r| == |s|
    decreases |s|
  {
    if s == [] then []
    else Insert(RankSort(s[..|s| - 1]), s[|s| - 1])
  }

  /** The sort only rearranges its input. */
  lemma {:induction false} RankSortPermutes(s: seq<Entry>)
    ensures multiset(RankSort(s)) == multiset(s)
    decreases |s|
  {
    if s != [] {
      assert s == s[..|s| - 1] + [s[|s| - 1]];
      RankSortPermutes(s[..|s| - 1]);
      InsertCounts(RankSort(s[..|s| - 1]), s[|s| - 1]);
    }
  }

  /** `lb.push(e); lb.sort(...); lb.slice(0, 200)` */
  function Record(lb: seq<Entry>, e: Entry): (r: seq<Entry>)
    ensures |r| == Min(|lb| + 1, MAX_ENTRIES)
    ensures r <= RankSort(lb + [e])
  {
    Take(RankSort(lb + [e]), MAX_ENTRIES)
  }

  /** Inserting into a ranked list keeps it ranked. */
  lemma {:induction false} InsertRanked(t: seq<Entry>, e: Entry)
    requires Ranked(t)
    ensures Ranked(Insert(t, e))
    decreases |t|
  {
    if t != [] && !Before(e, t[0]) {
      var rest := Insert(t[1..], e);
      InsertRanked(t[1..], e);
      forall k | 0 <= k < |rest| ensures !Before(rest[k], t[0]) {
        InsertCounts(t[1..], e);
        assert rest[k] in multiset(rest);
      }
    }
  }

  /** The sort yields a ranked list. */
  lemma {:induction false} RankSortRanked(s: seq<Entry>)
    ensures Ranked(RankSort(s))
    decreases |s|
  {
    if s != [] {
      RankSortRanked(s[..|s| - 1]);
      InsertRanked(RankSort(s[..|s| - 1]), s[|s| - 1]);
    }
  }

  /** An entry that no entry of `t` ranks after goes at the end. */
  lemma {:induction false} InsertLast(t: seq<Entry>, e: Entry)
    requires forall i :: 0 <= i < |t| ==> !Before(e, t[i])
    ensures Insert(t, e) == t + [e]
    decreases |t|
  {
    if t != [] {
      InsertLast(t[1..], e);
    }
  }

  /** Sorting a ranked list leaves it as it is (the sort is stable). */
  lemma {:induction false} RankSortOfRanked(s: seq<Entry>)
    requires Ranked(s)
    ensures RankSort(s) == s
    decreases |s|
  {
    if s != [] {
      var init := s[..|s| - 1];
      RankSortOfRanked(init);
      InsertLast(init, s[|s| - 1]);
      assert init + [s[|s| - 1]] == s;
    }
  }

  /** `a` and `b` tie under the comparator: it returns 0 for them. */
  predicate Tie(a: Entry, b: Entry)
    ensures Tie(a, b) <==> Comparator(a, b) == 0
  {
    a.percent == b.percent && a.time == b.time
  }

  /** The entries of `s` that tie with `k`, in their order in `s`. */
  function Ties(s: seq<Entry>, k: Entry): seq<Entry>
    decreases |s|
  {
    if s == [] then []
    else (if Tie(s[0], k) then [s[0]] else []) + Ties(s[1..], k)
  }

  lemma {:induction false} TiesAppend(s: seq<Entry>, t: seq<Entry>, k: Entry)
    ensures Ties(s + t, k) == Ties(s, k) + Ties(t, k)
    decreases |s|
  {
    if s == [] {
      assert s + t == t;
    } else {
      assert (s + t)[0] == s[0];
      assert (s + t)[1..] == s[1..] + t;
      TiesAppend(s[1..], t, k);
    }
  }

  /** No entry of a ranked list ties with an entry ranked strictly before its head. */
  lemma {:induction false} NoTiesBelow(t: seq<Entry>, e: Entry)
    ensures Ranked(t) && t != [] && Before(e, t[0]) ==> Ties(t, e) == []
    decreases |t|
  {
    if Ranked(t) && |t| > 1 && Before(e, t[0]) {
      assert !Before(t[1], t[0]);
      assert Ranked(t[1..]);
      NoTiesBelow(t[1..], e);
    }
  }

  /** The head of a list is in its own tie class. */
  lemma HeadInOwnTies(s: seq<Entry>)
    ensures s != [] ==> Ties(s, s[0]) != [] && Ties(s, s[0])[0] == s[0]
  {
  }

  /** Inserting into a ranked list puts the new entry after every entry it ties with. */
  lemma {:induction false} InsertStable(t: seq<Entry>, e: Entry, k: Entry)
    requires Ranked(t)
    ensures Ties(Insert(t, e), k) == Ties(t, k) + Ties([e], k)
    decreases |t|
  {
    if t == [] {
      assert Insert(t, e) == [e];
    } else if Before(e, t[0]) {
      InsertAtFront(t, e, k);
    } else {
      assert Ranked(t[1..]);
      InsertStable(t[1..], e, k);
      InsertPastHead(t, e, k);
    }
  }

  /** The case of InsertStable where the new entry goes first. */
  lemma InsertAtFront(t: seq<Entry>, e: Entry, k: Entry)
    requires Ranked(t) && t != [] && Before(e, t[0])
    ensures Ties(Insert(t, e), k) == Ties(t, k) + Ties([e], k)
  {
    assert Insert(t, e) == [e] + t;
    TiesAppend([e], t, k);
    if Tie(e, k) {
      NoTiesBelow(t, e);
      TiesOfTied(t, e, k);
    } else {
      assert Ties([e], k) == [];
    }
  }

  /** The case of InsertStable where the head stays first. */
  lemma InsertPastHead(t: seq<Entry>, e: Entry, k: Entry)
    requires t != [] && !Before(e, t[0])
    requires Ties(Insert(t[1..], e), k) == Ties(t[1..], k) + Ties([e], k)
    ensures Ties(Insert(t, e), k) == Ties(t, k) + Ties([e], k)
  {
    TiesPastHead(t, e, k);
    TiesCons(t, k);
    ConcatAssoc(Ties([t[0]], k), Ties(t[1..], k), Ties([e], k));
  }

  lemma TiesPastHead(t: seq<Entry>, e: Entry, k: Entry)
    requires t != [] && !Before(e, t[0])
    ensures Ties(Insert(t, e), k) == Ties([t[0]], k) + Ties(Insert(t[1..], e), k)
  {
    assert Insert(t, e) == [t[0]] + Insert(t[1..], e);
    TiesAppend([t[0]], Insert(t[1..], e), k);
  }

  lemma TiesCons(t: seq<Entry>, k: Entry)
    requires t != []
    ensures Ties(t, k) == Ties([t[0]], k) + Ties(t[1..], k)
  {
    assert t == [t[0]] + t[1..];
    TiesAppend([t[0]], t[1..], k);
  }

  /** Entries that tie select the same entries. */
  lemma {:induction false} TiesOfTied(s: seq<Entry>, a: Entry, b: Entry)
    requires Tie(a, b)
    ensures Ties(s, a) == Ties(s, b)
    decreases |s|
  {
    if s != [] {
      TiesOfTied(s[1..], a, b);
    }
  }

  /** The sort is stable: the entries that tie with `k` keep their input order. */
  lemma {:induction false} RankSortStable(s: seq<Entry>, k: Entry)
    ensures Ties(RankSort(s), k) == Ties(s, k)
    decreases |s|
  {
    if s != [] {
      var init, last := s[..|s| - 1], s[|s| - 1];
      RankSortStable(init, k);
      RankSortRanked(init);
      InsertStable(RankSort(init), last, k);
      TiesAppend(init, [last], k);
      assert init + [last] == s;
    }
  }

  /**
   * Two ranked lists that hold every tie class in the same order are equal. So
   * every stable sort with this comparator (ranked output, each tie class in
   * input order) returns what RankSort returns.
   */
  lemma {:induction false} StableSortUnique(r1: seq<Entry>, r2: seq<Entry>)
    requires Ranked(r1) && Ranked(r2)
    requires forall k :: Ties(r1, k) == Ties(r2, k)
    ensures r1 == r2
    decreases |r1|
  {
    HeadInOwnTies(r1);
    HeadInOwnTies(r2);
    if r1 != [] && r2 != [] {
      var a, b := r1[0], r2[0];
      HeadTies(r1, r2);
      assert Ties(r1, a) == [a] + Ties(r1[1..], a);
      assert Ties(r2, a) == [b] + Ties(r2[1..], a);
      assert a == Ties(r1, a)[0] == Ties(r2, a)[0] == b;
      forall k ensures Ties(r1[1..], k) == Ties(r2[1..], k) {
        var head := if Tie(a, k) then [a] else [];
        assert Ties(r1, k) == head + Ties(r1[1..], k);
        assert Ties(r2, k) == head + Ties(r2[1..], k);
        assert Ties(r1[1..], k) == Ties(r1, k)[|head|..];
        assert Ties(r2[1..], k) == Ties(r2, k)[|head|..];
      }
      assert Ranked(r1[1..]) && Ranked(r2[1..]);
      StableSortUnique(r1[1..], r2[1..]);
    }
  }

  /** The heads of two such lists tie: neither can rank strictly before the other. */
  lemma HeadTies(r1: seq<Entry>, r2: seq<Entry>)
    requires Ranked(r1) && Ranked(r2) && r1 != [] && r2 != []
    requires forall k :: Ties(r1, k) == Ties(r2, k)
    ensures Tie(r1[0], r2[0])
  {
    HeadInOwnTies(r1);
    HeadInOwnTies(r2);
    NoTiesBelow(r2, r1[0]);
    NoTiesBelow(r1, r2[0]);
  }

  /** RankSort returns the one list a stable sort with this comparator may return. */
  lemma RankSortIsStableSort(s: seq<Entry>, r: seq<Entry>)
    requires Ranked(r)
    requires forall k :: Ties(r, k) == Ties(s, k)
    ensures r == RankSort(s)
  {
    RankSortRanked(s);
    forall k ensures Ties(r, k) == Ties(RankSort(s), k) {
      RankSortStable(s, k);
    }
    StableSortUnique(r, RankSort(s));
  }

  /**
   * After `saveLeaderboardEntry` the list is ranked, holds at most MAX_ENTRIES
   * entries, takes no entry more often than the old list and the new entry
   * hold it, and ranks every dropped entry no higher than every kept one.
   */
  lemma RecordRanked(lb: seq<Entry>, e: Entry)
    ensures Ranked(Record(lb, e))
    ensures |Record(lb, e)| <= MAX_ENTRIES
    ensures multiset(Record(lb, e)) <= multiset(lb) + multiset{e}
    ensures forall x, y :: x in multiset(lb) + multiset{e} && x !in Record(lb, e) && y in Record(lb, e) ==> !Before(x, y)
  {
    var s := RankSort(lb + [e]);
    var r := Record(lb, e);
    RankSortRanked(lb + [e]);
    RankSortPermutes(lb + [e]);
    assert r == s[..|r|];
    PrefixMultiset(s, |r|);
    assert forall k :: 0 <= k < |r| ==> s[k] in r;
    forall x, y | x in multiset(lb) + multiset{e} && x !in r && y in r ensures !Before(x, y) {
      assert x in multiset(s);
      var j :| 0 <= j < |s| && s[j] == x;
      var i :| 0 <= i < |r| && r[i] == y;
      assert s[i] == y;
    }
  }

  /** While the list has room, the new entry is kept. */
  lemma RecordKeepsEntry(lb: seq<Entry>, e: Entry)
    requires |lb| < MAX_ENTRIES
    ensures e in Record(lb, e)
  {
    var s := RankSort(lb + [e]);
    assert Record(lb, e) == s;
    RankSortPermutes(lb + [e]);
    assert e in multiset(s);
  }

  /**
   * On a ranked stored list (every list this code stores), recording an entry
   * inserts it at its rank and drops the last entry when the list is full.
   */
  lemma RecordInsertsAtRank(lb: seq<Entry>, e: Entry)
    requires Ranked(lb)
    ensures Record(lb, e) == Take(Insert(lb, e), MAX_ENTRIES)
  {
    RankSortOfRanked(lb);
    assert (lb + [e])[..|lb|] == lb;
  }
}
