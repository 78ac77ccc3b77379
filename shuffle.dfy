/**
 * `shuffleArray`: copy the input, then run the Durstenfeld form of the
 * Fisher-Yates shuffle over the copy. The random index of step `i`,
 * `Math.floor(Math.random() * (i + 1))`, is `pick(i)` for a caller-supplied
 * `pick` that chooses an index in `0..i` at every step.
 */
module Shuffle {

  /** `pick` gives at every step `i` an index that `Math.floor(Math.random() * (i + 1))` can give. */
  ghost predicate Picks(pick: nat -> nat) {
    forall i: nat :: pick(i) <= i
  }

  /** `[arr[i], arr[j]] = [arr[j], arr[i]]` */
  function Swap<T>(s: seq<T>, i: nat, j: nat): (r: seq<T>)
    requires i < |s| && j < |s|
    ensures |r| == |s|
  {
    s[i := s[j]][j := s[i]]
  }

  /** A swap only rearranges. */
  lemma SwapPermutes<T>(s: seq<T>, i: nat, j: nat)
    requires i < |s| && j < |s|
    ensures multiset(Swap(s, i, j)) == multiset(s)
  {
  }

  /** The steps `i, i - 1, ..., 1` of the loop, applied to `s`. */
  function ShuffleFrom<T>(s: seq<T>, pick: nat -> nat, i: int): seq<T>
    requires i < |s| && Picks(pick)
    decreases i
  {
    if i <= 0 then s
    else ShuffleFrom(Swap(s, i, pick(i)), pick, i - 1)
  }

  /** The whole loop: `for (i = n - 1; i > 0; i--)`. */
  function Shuffled<T>(s: seq<T>, pick: nat -> nat): seq<T>
    requires Picks(pick)
  {
    ShuffleFrom(s, pick, |s| - 1)
  }

  /** Every run of the loop only rearranges its input. */
  lemma {:induction false} ShuffleFromPermutes<T>(s: seq<T>, pick: nat -> nat, i: int)
    requires i < |s| && Picks(pick)
    ensures |ShuffleFrom(s, pick, i)| == |s|
    ensures multiset(ShuffleFrom(s, pick, i)) == multiset(s)
    decreases i
  {
    if i > 0 {
      SwapPermutes(s, i, pick(i));
      ShuffleFromPermutes(Swap(s, i, pick(i)), pick, i - 1);
    }
  }

  /** Picking the current position at every step leaves the order as it was. */
  lemma {:induction false} TopPickKeepsOrder<T>(s: seq<T>, pick: nat -> nat, i: int)
    requires i < |s|
    requires forall k: nat :: pick(k) == k
    ensures ShuffleFrom(s, pick, i) == s
    decreases i
  {
    if i > 0 {
      assert Swap(s, i, pick(i)) == s;
      TopPickKeepsOrder(s, pick, i - 1);
    }
  }

  /** `shuffleArray(a)`: the input is copied (`a.slice()`) and left as it was. */
  method ShuffleArray<T>(a: seq<T>, pick: nat -> nat) returns (r: seq<T>)
    requires Picks(pick)
    ensures r == Shuffled(a, pick)
    ensures |r| == |a| && multiset(r) == multiset(a)
  {
    var arr := new T[|a|](k requires 0 <= k < |a| => a[k]);
    assert arr[..] == a;
    var i := |a| - 1;
    while i > 0
      invariant -1 <= i < |a| && arr.Length == |a|
      invariant ShuffleFrom(arr[..], pick, i) == Shuffled(a, pick)
      invariant multiset(arr[..]) == multiset(a)
      decreases i
    {
      var j := pick(i);
      ghost var before := arr[..];
      var t := arr[i];
      arr[i] := arr[j];
      arr[j] := t;
      assert arr[..] == Swap(before, i, j);
      SwapPermutes(before, i, j);
      i := i - 1;
    }
    r := arr[..];
  }
}
