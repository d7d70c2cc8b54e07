/** `std::count` and `std::find` over letter sequences, related to multisets. */
module Counting {

  /** `std::count`: how many elements of `s` equal `c`. */
  function Count(s: seq<char>, c: char): nat
  {
    if s == [] then 0 else (if s[0] == c then 1 else 0) + Count(s[1..], c)
  }

  /** The count is the multiplicity of `c` in the multiset of `s`. */
  lemma {:induction false} CountIsMultiplicity(s: seq<char>, c: char)
    ensures Count(s, c) == multiset(s)[c]
  {
    if s != [] {
      assert s == [s[0]] + s[1..];
      CountIsMultiplicity(s[1..], c);
    }
  }

  /** Counting over a concatenation adds up. */
  lemma CountAppend(a: seq<char>, b: seq<char>, c: char)
    ensures Count(a + b, c) == Count(a, c) + Count(b, c)
  {
    CountIsMultiplicity(a, c);
    CountIsMultiplicity(b, c);
    CountIsMultiplicity(a + b, c);
  }

  /**
   * `std::find` from index `from`: the first index at or after `from` holding `c`,
   * or |s| when there is none.
   */
  function Find(s: seq<char>, c: char, from: nat): (i: nat)
    requires from <= |s|
    ensures from <= i <= |s|
    ensures i < |s| ==> s[i] == c
    ensures forall j :: from <= j < i ==> s[j] != c
    decreases |s| - from
  {
    if from == |s| then from
    else if s[from] == c then from
    else Find(s, c, from + 1)
  }
}
