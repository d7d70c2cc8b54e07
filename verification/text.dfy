/**
 * Character classes of the "C" locale and the whitespace tokenizer behind
 * `std::istream >> std::string`, which every input parser of the game and of
 * the board builder relies on.
 */
module Text {

  /** `isspace` in the "C" locale: space, \t, \n, \v, \f, \r. */
  predicate IsSpace(c: char) {
    c == ' ' || c == '\t' || c == '\n' || c == '\r' || c == 0x0B as char || c == 0x0C as char
  }

  predicate IsUpper(c: char) {
    'A' <= c <= 'Z'
  }

  predicate IsLower(c: char) {
    'a' <= c <= 'z'
  }

  /** An ASCII letter; the intended meaning of the `isalpha` test on word tokens. */
  predicate IsAlpha(c: char) {
    IsUpper(c) || IsLower(c)
  }

  predicate AllAlpha(s: string) {
    forall i :: 0 <= i < |s| ==> IsAlpha(s[i])
  }

  predicate AllUpper(s: string) {
    forall i :: 0 <= i < |s| ==> IsUpper(s[i])
  }

  predicate NoSpace(s: string) {
    forall i :: 0 <= i < |s| ==> !IsSpace(s[i])
  }

  predicate AllSpace(s: string) {
    forall i :: 0 <= i < |s| ==> IsSpace(s[i])
  }

  /** `toupper` in the "C" locale: only 'a'..'z' change. */
  function ToUpper(c: char): (r: char)
    ensures IsLower(c) ==> IsUpper(r) && r as int == c as int - 32
    ensures !IsLower(c) ==> r == c
  {
    if IsLower(c) then (c as int - 32) as char else c
  }

  /** `std::transform(..., toupper)` over a whole string. */
  function ToUpperStr(s: string): (r: string)
    ensures |r| == |s|
    ensures forall i :: 0 <= i < |s| ==> r[i] == ToUpper(s[i])
  {
    seq(|s|, i requires 0 <= i < |s| => ToUpper(s[i]))
  }

  /** Upper-casing an already upper-case string changes nothing. */
  lemma ToUpperStrOfUpper(s: string)
    requires AllUpper(s)
    ensures ToUpperStr(s) == s
  {
  }

  /** The first index at or after `from` that does not hold whitespace (or |s|). */
  function SpaceRun(s: string, from: nat): (j: nat)
    requires from <= |s|
    ensures from <= j <= |s|
    ensures forall k :: from <= k < j ==> IsSpace(s[k])
    ensures j == |s| || !IsSpace(s[j])
    decreases |s| - from
  {
    if from < |s| && IsSpace(s[from]) then SpaceRun(s, from + 1) else from
  }

  /** The first index at or after `from` that holds whitespace (or |s|). */
  function WordRun(s: string, from: nat): (j: nat)
    requires from <= |s|
    ensures from <= j <= |s|
    ensures forall k :: from <= k < j ==> !IsSpace(s[k])
    ensures j == |s| || IsSpace(s[j])
    decreases |s| - from
  {
    if from < |s| && !IsSpace(s[from]) then WordRun(s, from + 1) else from
  }

  /**
   * One `input >> str` extraction: skips leading whitespace, then returns the
   * maximal run of non-whitespace and the unread rest. An empty token means the
   * extraction failed (nothing but whitespace was left).
   */
  function ReadToken(s: string): (r: (string, string))
    ensures r.0 == [] <==> AllSpace(s)
    ensures NoSpace(r.0)
    ensures r.1 == [] || IsSpace(r.1[0])
    ensures |r.0| + |r.1| <= |s|
  {
    var i := SpaceRun(s, 0);
    var j := WordRun(s, i);
    (s[i..j], s[j..])
  }

  /** The input is some whitespace, then the token, then the unread rest. */
  lemma ReadTokenSplit(s: string)
    ensures var r := ReadToken(s);
      && s[|s| - |r.0| - |r.1|..] == r.0 + r.1
      && AllSpace(s[..|s| - |r.0| - |r.1|])
  {
    var i := SpaceRun(s, 0);
    var j := WordRun(s, i);
    assert s[i..] == s[i..j] + s[j..];
  }

  /** Every token the stream yields, in order; the reference reading of a whole line or file. */
  function Tokens(s: string): seq<string>
    decreases |s|
  {
    var r := ReadToken(s);
    if r.0 == [] then [] else [r.0] + Tokens(r.1)
  }

  lemma TokensUnfold(s: string)
    ensures ReadToken(s).0 == [] ==> Tokens(s) == []
    ensures ReadToken(s).0 != [] ==> Tokens(s) == [ReadToken(s).0] + Tokens(ReadToken(s).1)
  {
  }

  /** A non-empty whitespace-free word followed by whitespace is read back as exactly that word. */
  lemma ReadTokenOfWord(a: string, rest: string)
    requires a != [] && NoSpace(a)
    requires rest == [] || IsSpace(rest[0])
    ensures ReadToken(a + rest) == (a, rest)
  {
    var s := a + rest;
    assert SpaceRun(s, 0) == 0 by {
      assert s[0] == a[0];
    }
    WordRunOfWord(a, rest, 0);
    assert s[..|a|] == a;
    assert s[|a|..] == rest;
  }

  lemma {:induction false} WordRunOfWord(a: string, rest: string, from: nat)
    requires from <= |a| && NoSpace(a)
    requires rest == [] || IsSpace(rest[0])
    ensures WordRun(a + rest, from) == |a|
    decreases |a| - from
  {
    var s := a + rest;
    if from < |a| {
      assert s[from] == a[from];
      WordRunOfWord(a, rest, from + 1);
    } else if rest != [] {
      assert s[from] == rest[0];
    }
  }

  /** Leading whitespace does not change which token is read next. */
  lemma ReadTokenAfterSpace(rest: string)
    ensures ReadToken(" " + rest) == ReadToken(rest)
  {
    var s := " " + rest;
    SpaceRunShift(rest, 0);
    var i := SpaceRun(rest, 0);
    WordRunShift(rest, i);
    assert s[i + 1..WordRun(rest, i) + 1] == rest[i..WordRun(rest, i)];
    assert s[WordRun(rest, i) + 1..] == rest[WordRun(rest, i)..];
  }

  lemma {:induction false} SpaceRunShift(rest: string, from: nat)
    requires from <= |rest|
    ensures SpaceRun(" " + rest, from + 1) == SpaceRun(rest, from) + 1
    ensures from == 0 ==> SpaceRun(" " + rest, 0) == SpaceRun(rest, 0) + 1
    decreases |rest| - from
  {
    var s := " " + rest;
    if from < |rest| {
      assert s[from + 1] == rest[from];
      SpaceRunShift(rest, from + 1);
    }
    if from == 0 {
      assert IsSpace(s[0]);
    }
  }

  lemma {:induction false} WordRunShift(rest: string, from: nat)
    requires from <= |rest|
    ensures WordRun(" " + rest, from + 1) == WordRun(rest, from) + 1
    decreases |rest| - from
  {
    var s := " " + rest;
    if from < |rest| {
      assert s[from + 1] == rest[from];
      WordRunShift(rest, from + 1);
    }
  }
}
