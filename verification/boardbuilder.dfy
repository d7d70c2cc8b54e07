/**
 * The board builder's input validation: the three token parsers of a word
 * record, the check for trailing input, the dictionary lookup and the
 * player-count formula.
 */
module BoardBuilder {
  import opened Wrappers
  import opened Text
  import opened Positions
  import opened Words

  /** `parseOrientation`: a one-character token, 'h'/'H' or 'v'/'V'. */
  function ParseOrientation(t: string): (r: Option<Orientation>)
    ensures r == Some(Horizontal) <==> t == "H" || t == "h"
    ensures r == Some(Vertical) <==> t == "V" || t == "v"
    ensures r.Some? ==> [OrientationChar(r.value)] == ToUpperStr(t)
  {
    if |t| != 1 then None
    else
      var c := ToUpper(t[0]);
      if c == 'H' then Some(Horizontal)
      else if c == 'V' then Some(Vertical)
      else None
  }

  /** Index of the first character that is not a letter, or |t| when there is none. */
  function FirstNonAlpha(t: string): (i: nat)
    ensures i <= |t|
    ensures forall j :: 0 <= j < i ==> IsAlpha(t[j])
    ensures i < |t| ==> !IsAlpha(t[i])
  {
    if t == [] then 0
    else if !IsAlpha(t[0]) then 0
    else 1 + FirstNonAlpha(t[1..])
  }

  /**
   * `parseWordStr`: rejects a token holding any non-letter, then one shorter
   * than two letters, and otherwise yields it upper-cased.
   */
  function ParseWordStr(t: string): (r: Option<string>)
    ensures r.Some? <==> AllAlpha(t) && |t| >= 2
    ensures r.Some? ==> |r.value| == |t| && AllUpper(r.value)
    ensures r.Some? ==> forall i :: 0 <= i < |t| ==> r.value[i] == ToUpper(t[i])
  {
    if FirstNonAlpha(t) != |t| then None
    else if |t| < 2 then None
    else Some(ToUpperStr(t))
  }

  /** A word already accepted by `ParseWordStr` is accepted again and left unchanged. */
  lemma ParseWordStrIdempotent(t: string)
    requires ParseWordStr(t).Some?
    ensures ParseWordStr(ParseWordStr(t).value) == ParseWordStr(t)
  {
    var u := ParseWordStr(t).value;
    ToUpperStrOfUpper(u);
  }

  /**
   * One input line of `run`: a position token, an orientation token and a word
   * token, with nothing after them. Tokens are read in order; reading past a
   * failed extraction yields empty tokens, so the verdict is that of the first
   * failing step.
   */
  function ParseRecord(line: string): (r: Option<Word>)
    ensures r.Some? ==> WellFormed(r.value)
  {
    var (t1, r1) := ReadToken(line);
    var (t2, r2) := ReadToken(r1);
    var (t3, r3) := ReadToken(r2);
    ParseFields(t1, t2, t3, ReadToken(r3).0)
  }

  /** The checks of `run` on the three tokens read and on the token after them. */
  function ParseFields(t1: string, t2: string, t3: string, extra: string): (r: Option<Word>)
    ensures r.Some? ==> WellFormed(r.value)
    ensures r.Some? <==>
      && ParsePositionToken(t1).Some?
      && ParseOrientation(t2).Some?
      && ParseWordStr(t3).Some?
      && extra == []
  {
    if t1 == [] then None
    else
      match ParsePositionToken(t1)
      case None => None
      case Some(p) =>
        if t2 == [] then None
        else
          match ParseOrientation(t2)
          case None => None
          case Some(o) =>
            if t3 == [] then None
            else
              match ParseWordStr(t3)
              case None => None
              case Some(w) =>
                if extra != [] then None
                else Some(Word(p, o, w))
  }

  /**
   * A line is accepted exactly when it holds three tokens that the position,
   * orientation and word parsers each accept; a fourth token rejects it.
   */
  lemma ParseRecordAccepts(line: string)
    ensures ParseRecord(line).Some? <==>
      var ts := Tokens(line);
      && |ts| == 3
      && ParsePositionToken(ts[0]).Some?
      && ParseOrientation(ts[1]).Some?
      && ParseWordStr(ts[2]).Some?
  {
    var (t1, r1) := ReadToken(line);
    var (t2, r2) := ReadToken(r1);
    var (t3, r3) := ReadToken(r2);
    var (t4, r4) := ReadToken(r3);
    assert ParseRecord(line) == ParseFields(t1, t2, t3, t4);
    TokensStep(line, t1, r1);
    TokensStep(r1, t2, r2);
    TokensStep(r2, t3, r3);
    TokensStep(r3, t4, r4);
    FieldsOfTokens(t1, t2, t3, t4, Tokens(line), Tokens(r1), Tokens(r2), Tokens(r3));
  }

  /**
   * The verdict on four extracted tokens, stated on the token list of the line:
   * `ts0` is that list and each later `ts` what is left after one more token.
   */
  lemma FieldsOfTokens(t1: string, t2: string, t3: string, t4: string,
                       ts0: seq<string>, ts1: seq<string>, ts2: seq<string>, ts3: seq<string>)
    requires t1 == [] ==> ts0 == []
    requires t1 != [] ==> ts0 == [t1] + ts1
    requires t2 == [] ==> ts1 == []
    requires t2 != [] ==> ts1 == [t2] + ts2
    requires t3 == [] ==> ts2 == []
    requires t3 != [] ==> ts2 == [t3] + ts3
    requires ts3 == [] <==> t4 == []
    ensures ParseFields(t1, t2, t3, t4).Some? <==>
      && |ts0| == 3
      && ParsePositionToken(ts0[0]).Some?
      && ParseOrientation(ts0[1]).Some?
      && ParseWordStr(ts0[2]).Some?
  {
    if t1 != [] && t2 != [] && t3 != [] {
      assert ts0[0] == t1 && ts0[1] == t2 && ts0[2] == t3;
      assert |ts0| == 3 + |ts3|;
    } else if t1 != [] && t2 != [] {
      assert ParseWordStr(t3).None?;
    }
  }

  /** One extraction peels the first token off the token list. */
  lemma TokensStep(s: string, t: string, rest: string)
    requires (t, rest) == ReadToken(s)
    ensures t == [] ==> Tokens(s) == []
    ensures t != [] ==> Tokens(s) == [t] + Tokens(rest)
  {
    TokensUnfold(s);
  }

  /** Writing a well-formed word as a board-file record and parsing the line gives the word back. */
  lemma RecordRoundTrip(w: Word)
    requires WellFormed(w)
    ensures ParseRecord(Words.Format(w)) == Some(w)
  {
    var a := Positions.Format(w.start);
    var b := [OrientationChar(w.orientation)];
    var line := Words.Format(w);
    assert NoSpace(a) by {
      assert IsUpper(a[0]) && IsLower(a[1]);
    }
    assert NoSpace(b);
    assert NoSpace(w.letters) by {
      assert AllUpper(w.letters);
    }
    assert line == a + (" " + (b + (" " + w.letters)));
    RecordTokens(a, b, w.letters, line);
    FieldsOfWord(w);
  }

  /** The three fields of a well-formed word's record parse back to the word. */
  lemma FieldsOfWord(w: Word)
    requires WellFormed(w)
    ensures ParseFields(Positions.Format(w.start), [OrientationChar(w.orientation)], w.letters, []) == Some(w)
  {
    FormatRoundTrip(w.start);
    assert ParseOrientation([OrientationChar(w.orientation)]) == Some(w.orientation);
    ToUpperStrOfUpper(w.letters);
    assert ParseWordStr(w.letters) == Some(w.letters);
  }

  /** A line of three space-separated words is read as those three tokens and nothing after them. */
  lemma RecordTokens(a: string, b: string, c: string, line: string)
    requires a != [] && NoSpace(a) && b != [] && NoSpace(b) && c != [] && NoSpace(c)
    requires line == a + (" " + (b + (" " + c)))
    ensures ParseRecord(line) == ParseFields(a, b, c, [])
  {
    var rest2 := " " + c;
    var rest1 := " " + (b + rest2);
    WordThenSpace(a, b + rest2);
    WordThenSpace(b, c);
    LastWord(c);
    assert ReadToken(line) == (a, rest1) && ReadToken(rest1) == (b, rest2) && ReadToken(rest2) == (c, []);
  }

  /** A word followed by a space is read as that word, and the space is then skipped. */
  lemma WordThenSpace(a: string, rest: string)
    requires a != [] && NoSpace(a)
    ensures ReadToken(a + (" " + rest)) == (a, " " + rest)
    ensures ReadToken(" " + rest) == ReadToken(rest)
  {
    ReadTokenOfWord(a, " " + rest);
    ReadTokenAfterSpace(rest);
  }

  /** A last word is read whole, and nothing is read after it. */
  lemma LastWord(c: string)
    requires c != [] && NoSpace(c)
    ensures ReadToken(c) == (c, [])
    ensures ReadToken([]).0 == []
  {
    assert c + [] == c;
    ReadTokenOfWord(c, []);
  }

  /**
   * `inDict`: reads the dictionary token by token and answers whether some
   * token, upper-cased, equals `word`.
   */
  function InDict(dict: string, word: string): (r: bool)
    ensures r <==> exists t :: t in Tokens(dict) && ToUpperStr(t) == word
    decreases |dict|
  {
    var (t, rest) := ReadToken(dict);
    TokensUnfold(dict);
    if t == [] then false
    else if ToUpperStr(t) == word then true
    else InDict(rest, word)
  }

  /** The player limit shown while building: one player per 7 letters, at most 4. */
  function MaxPlayers(letters: nat): (r: nat)
    ensures r <= 4
    ensures 7 * r <= letters
    ensures r == 4 || letters < 7 * (r + 1)
  {
    var byLetters := letters / 7;
    if byLetters < 4 then byLetters else 4
  }
}
