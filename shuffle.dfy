/**
 * The Fisher-Yates shuffle both game engines use to deal the board
 * (`shuffleCards` in src/app.ts, `shuffleArray` in the Angular service).
 * The random index drawn at step `i` is a parameter: `js[i]`, which the
 * source computes as `Math.floor(Math.random() * (i + 1))` and so lies in `0..i`.
 */
module Shuffle {

  /** The random draws a run can make: at every step `i >= 1`, an index in `0..i`. */
  predicate ValidChoices(js: seq<nat>) {
    forall i :: 0 < i < |js| ==> js[i] <= i
  }

  /** `[s[i], s[j]] = [s[j], s[i]]` on a sequence. */
  function Swap<T>(s: seq<T>, i: nat, j: nat): (r: seq<T>)
    requires i < |s| && j < |s|
    ensures |r| == |s| && r[i] == s[j] && r[j] == s[i]
    ensures forall k :: 0 <= k < |s| && k != i && k != j ==> r[k] == s[k]
  {
    s[i := s[j]][j := s[i]]
  }

  /** The loop of the shuffle from step `i` down to step 1. */
  function FisherYatesFrom<T>(s: seq<T>, js: seq<nat>, i: nat): seq<T>
    requires i < |s| == |js| && ValidChoices(js)
    decreases i
  {
    if i == 0 then s else FisherYatesFrom(Swap(s, i, js[i]), js, i - 1)
  }

  /** The whole shuffle: `for (i = n - 1; i > 0; i--) swap(i, js[i])`. */
  function FisherYates<T>(s: seq<T>, js: seq<nat>): seq<T>
    requires |s| == |js| && ValidChoices(js)
  {
    if |s| == 0 then s else FisherYatesFrom(s, js, |s| - 1)
  }

  lemma SwapPermutes<T>(s: seq<T>, i: nat, j: nat)
    requires i < |s| && j < |s|
    ensures multiset(Swap(s, i, j)) == multiset(s)
  {
  }

  lemma {:induction false} FisherYatesFromPermutes<T>(s: seq<T>, js: seq<nat>, i: nat)
    requires i < |s| == |js| && ValidChoices(js)
    ensures |FisherYatesFrom(s, js, i)| == |s|
    ensures multiset(FisherYatesFrom(s, js, i)) == multiset(s)
    decreases i
  {
    if i > 0 {
      SwapPermutes(s, i, js[i]);
      FisherYatesFromPermutes(Swap(s, i, js[i]), js, i - 1);
    }
  }

  /** Whatever the random draws, the shuffle only rearranges: the result is a permutation of its input. */
  lemma FisherYatesPermutes<T>(s: seq<T>, js: seq<nat>)
    requires |s| == |js| && ValidChoices(js)
    ensures |FisherYates(s, js)| == |s|
    ensures multiset(FisherYates(s, js)) == multiset(s)
  {
    if |s| > 0 {
      FisherYatesFromPermutes(s, js, |s| - 1);
    }
  }

  /** The draws that pick `j == i` at every step. */
  function StayDraws(n: nat): (js: seq<nat>)
    ensures |js| == n && ValidChoices(js)
  {
    seq(n, i => i)
  }

  lemma {:induction false} FisherYatesFromStays<T>(s: seq<T>, i: nat)
    requires i < |s|
    ensures FisherYatesFrom(s, StayDraws(|s|), i) == s
    decreases i
  {
    if i > 0 {
      assert Swap(s, i, StayDraws(|s|)[i]) == s;
      FisherYatesFromStays(s, i - 1);
    }
  }

  /** When every draw picks the position itself, every swap is a no-op and the order is kept. */
  lemma FisherYatesStays<T>(s: seq<T>)
    ensures FisherYates(s, StayDraws(|s|)) == s
  {
    if |s| > 0 {
      FisherYatesFromStays(s, |s| - 1);
    }
  }

  /** The swap loop, run in place on an array. */
  method ShuffleInPlace<T>(a: array<T>, js: seq<nat>)
    requires a.Length == |js| && ValidChoices(js)
    modifies a
    ensures a[..] == FisherYates(old(a[..]), js)
    ensures multiset(a[..]) == multiset(old(a[..]))
  {
    ghost var s0 := a[..];
    FisherYatesPermutes(s0, js);
    if a.Length == 0 {
      return;
    }
    var i := a.Length - 1;
    while i > 0
      invariant 0 <= i < a.Length
      invariant FisherYatesFrom(a[..], js, i) == FisherYates(s0, js)
      decreases i
    {
      var j := js[i];
      ghost var before := a[..];
      a[i], a[j] := a[j], a[i];
      assert a[..] == Swap(before, i, j);
      i := i - 1;
    }
  }

  /** The shuffle applied to a list the engines hold as a sequence: copy, shuffle in place, read back. */
  method ShuffleSeq<T>(s: seq<T>, js: seq<nat>) returns (r: seq<T>)
    requires |s| == |js| && ValidChoices(js)
    ensures r == FisherYates(s, js)
    ensures |r| == |s| && multiset(r) == multiset(s)
  {
    var a := new T[|s|](k requires 0 <= k < |s| => s[k]);
    assert a[..] == s;
    ShuffleInPlace(a, js);
    r := a[..];
  }
}
