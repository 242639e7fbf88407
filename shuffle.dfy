/** The Fisher–Yates shuffle of `shuffleArray`. The random draw of step `i`,
    `Math.floor(Math.random() * (i + 1))`, is any index in `0..i`; the caller
    supplies it as `pick(i) % (i + 1)`, so every possible run is one `pick`. */
module Shuffle {

  function Swap<T>(s: seq<T>, i: nat, j: nat): (r: seq<T>)
    requires i < |s| && j < |s|
    ensures |r| == |s| && r[i] == s[j] && r[j] == s[i]
    ensures forall k :: 0 <= k < |s| && k != i && k != j ==> r[k] == s[k]
  {
    s[i := s[j]][j := s[i]]
  }

  lemma SwapPermutes<T>(s: seq<T>, i: nat, j: nat)
    requires i < |s| && j < |s|
    ensures multiset(Swap(s, i, j)) == multiset(s)
  {
    var t := s[i := s[j]];
    assert multiset(t) == multiset(s) - multiset{s[i]} + multiset{s[j]};
    assert multiset(t[j := s[i]]) == multiset(t) - multiset{t[j]} + multiset{s[i]};
  }

  /** The swaps still to do when the loop counter is `i`: steps i, i-1, ..., 1. */
  function FisherYatesFrom<T>(s: seq<T>, i: nat, pick: nat -> nat): (r: seq<T>)
    requires i < |s|
    ensures |r| == |s|
    decreases i
  {
    if i == 0 then s else FisherYatesFrom(Swap(s, i, pick(i) % (i + 1)), i - 1, pick)
  }

  /** The order `shuffleArray` returns for the draws `pick`. */
  function FisherYates<T>(s: seq<T>, pick: nat -> nat): (r: seq<T>)
    ensures |r| == |s|
  {
    if |s| == 0 then s else FisherYatesFrom(s, |s| - 1, pick)
  }

  lemma {:induction false} FisherYatesFromPermutes<T>(s: seq<T>, i: nat, pick: nat -> nat)
    requires i < |s|
    ensures multiset(FisherYatesFrom(s, i, pick)) == multiset(s)
    decreases i
  {
    if i > 0 {
      var j := pick(i) % (i + 1);
      SwapPermutes(s, i, j);
      FisherYatesFromPermutes(Swap(s, i, j), i - 1, pick);
    }
  }

  /** Whatever the draws, the shuffle is a permutation of its input. */
  lemma FisherYatesPermutes<T>(s: seq<T>, pick: nat -> nat)
    ensures multiset(FisherYates(s, pick)) == multiset(s)
  {
    if |s| > 0 {
      FisherYatesFromPermutes(s, |s| - 1, pick);
    }
  }

  /** `shuffleArray`: copy the input, then swap position i with a drawn j <= i,
      for i from the last index down to 1. */
  method ShuffleArray<T>(s: seq<T>, pick: nat -> nat) returns (r: seq<T>)
    ensures r == FisherYates(s, pick)
    ensures |r| == |s| && multiset(r) == multiset(s)
  {
    FisherYatesPermutes(s, pick);
    if |s| == 0 {
      return s;
    }
    var shuffled := new T[|s|](k requires 0 <= k < |s| => s[k]);
    assert shuffled[..] == s;
    var i := |s| - 1;
    while i > 0
      invariant 0 <= i < shuffled.Length == |s|
      invariant FisherYatesFrom(shuffled[..], i, pick) == FisherYates(s, pick)
    {
      var j := pick(i) % (i + 1);
      ghost var before := shuffled[..];
      shuffled[i], shuffled[j] := shuffled[j], shuffled[i];
      assert shuffled[..] == Swap(before, i, j);
      i := i - 1;
    }
    assert FisherYatesFrom(shuffled[..], 0, pick) == shuffled[..];
    r := shuffled[..];
  }
}
