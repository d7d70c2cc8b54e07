/** The bag of letters players draw from: `Pool`. */
module Pools {
  /** The pool's letters; drawing takes from the back, exchanges use the front. */
  type Pool = seq<char>

  /** `size`. */
  function Size(p: Pool): nat
  {
    |p|
  }

  /** `isEmpty`: no letters left. */
  function IsEmpty(p: Pool): (r: bool)
    ensures r <==> Size(p) == 0
  {
    p == []
  }

  /** `popLetter`: removes and returns the last letter. */
  function PopLetter(p: Pool): (r: (char, Pool))
    requires p != []
    ensures r.0 == p[|p| - 1]
    ensures |r.1| == |p| - 1 && r.1 == p[..|r.1|]
    ensures multiset(r.1) + multiset{r.0} == multiset(p)
  {
    assert p == p[..|p| - 1] + [p[|p| - 1]];
    (p[|p| - 1], p[..|p| - 1])
  }

  /** `exchange(letter)`: the front letter leaves the pool and `x` takes its place. */
  function ExchangeOne(p: Pool, x: char): (r: (Pool, char))
    requires |p| >= 1
    ensures r.1 == p[0]
    ensures |r.0| == |p| && r.0[0] == x
    ensures forall k :: 1 <= k < |p| ==> r.0[k] == p[k]
    ensures multiset(r.0) + multiset{r.1} == multiset(p) + multiset{x}
  {
    (p[0 := x], p[0])
  }

  /** `exchange(letter1, letter2)`: the two front letters leave, `x1` and `x2` take their places. */
  function ExchangeTwo(p: Pool, x1: char, x2: char): (r: (Pool, char, char))
    requires |p| >= 2
    ensures r.1 == p[0] && r.2 == p[1]
    ensures |r.0| == |p| && r.0[0] == x1 && r.0[1] == x2
    ensures forall k :: 2 <= k < |p| ==> r.0[k] == p[k]
    ensures multiset(r.0) + multiset{r.1, r.2} == multiset(p) + multiset{x1, x2}
  {
    (p[0 := x1][1 := x2], p[0], p[1])
  }

  /** Exchanging positions `i` and `j`. */
  function Swap(p: Pool, i: nat, j: nat): (r: Pool)
    requires i < |p| && j < |p|
    ensures |r| == |p| && multiset(r) == multiset(p)
  {
    p[i := p[j]][j := p[i]]
  }

  /** The random choices of one shuffle: step `i` swaps position `i` with some position `draws[i] <= i`. */
  predicate ValidDraws(p: Pool, draws: seq<nat>) {
    |draws| == |p| && forall i :: 0 <= i < |draws| ==> draws[i] <= i
  }

  /**
   * `shuffle`: the Fisher–Yates pass of `std::shuffle`, with the random engine's
   * choices supplied as `draws`. Whatever the choices, the result is a
   * rearrangement of the same letters.
   */
  function Shuffle(p: Pool, draws: seq<nat>): (r: Pool)
    requires ValidDraws(p, draws)
    ensures |r| == |p|
    ensures multiset(r) == multiset(p)
  {
    SwapDown(p, draws, |p|)
  }

  /** Steps `n - 1` down to 1 of the shuffle. */
  function SwapDown(p: Pool, draws: seq<nat>, n: nat): (r: Pool)
    requires ValidDraws(p, draws) && n <= |p|
    ensures |r| == |p|
    ensures multiset(r) == multiset(p)
    decreases n
  {
    if n <= 1 then p
    else
      var q := Swap(p, n - 1, draws[n - 1]);
      SwapDown(q, draws, n - 1)
  }
}
