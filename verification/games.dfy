/**
 * The turn logic of a Scrabble Junior game (`Game` in game.cpp): the decision
 * table that says what the current player must do, the validators of moves and
 * exchanges, and the bookkeeping of `move`, `exchange` and `nextTurn`.
 *
 * The board is an oracle here. Whether the current hand has a move, the cell
 * under a position, the outcome of the must-play-twice analysis and the number
 * of words a cover completes are all parameters.
 */
module Games {
  import opened Wrappers
  import opened Text
  import opened Positions
  import Cells
  import Pools
  import opened Hands
  import opened Players

  /** What the current player has to do next. */
  datatype TurnState = MustMove | MustEndTurn | MustExchangeTwo | MustExchangeOne | MustSkipTurn

  /** The state `Game` keeps besides the board. */
  datatype Game = Game(players: seq<Player>, pool: Pools.Pool, current: nat, movesLeft: nat)

  /** There is a current player. */
  predicate Valid(g: Game) {
    g.current < |g.players|
  }

  function CurrentHand(g: Game): Hand
    requires Valid(g)
  {
    g.players[g.current].hand
  }

  /**
   * The constructor: players with ids 1..n in that order, each with no points
   * and an empty hand; the pool holds the board's letters; the first player
   * starts with two moves.
   */
  method NewGame(letters: seq<char>, numPlayers: nat) returns (g: Game)
    ensures |g.players| == numPlayers
    ensures forall k :: 0 <= k < numPlayers ==>
      && g.players[k].id == k + 1
      && g.players[k].score == 0
      && |g.players[k].hand| == HAND_SIZE
      && Letters(g.players[k].hand) == multiset{}
    ensures g.pool == letters
    ensures g.current == 0 && g.movesLeft == 2
  {
    var players: seq<Player> := [];
    var i := 1;
    while i <= numPlayers
      invariant 1 <= i <= numPlayers + 1
      invariant |players| == i - 1
      invariant forall k :: 0 <= k < |players| ==> players[k] == NewPlayer(k + 1)
    {
      players := players + [NewPlayer(i)];
      i := i + 1;
    }
    g := Game(players, letters, 0, 2);
  }

  /**
   * `getTurnState`: the first matching row of the table wins. A player who can
   * move must; one who already moved once ends the turn; otherwise the pool
   * size decides between exchanging two letters, exchanging one, or skipping.
   */
  function GetTurnState(hasMove: bool, movesLeft: nat, poolSize: nat): (s: TurnState)
    ensures s == MustMove <==> hasMove
    ensures s == MustEndTurn <==> !hasMove && movesLeft == 1
    ensures s == MustExchangeTwo <==> !hasMove && movesLeft != 1 && poolSize >= 2
    ensures s == MustExchangeOne <==> !hasMove && movesLeft != 1 && poolSize == 1
    ensures s == MustSkipTurn <==> !hasMove && movesLeft != 1 && poolSize == 0
  {
    if hasMove then MustMove
    else if movesLeft == 1 then MustEndTurn
    else if poolSize >= 2 then MustExchangeTwo
    else if poolSize == 1 then MustExchangeOne
    else MustSkipTurn
  }

  /** The turn state of a game, given the board's answer to "does this hand have a move?". */
  function TurnStateOf(g: Game, hasMove: bool): TurnState
  {
    GetTurnState(hasMove, g.movesLeft, |g.pool|)
  }

  /** The order `play` leaves the players in before announcing winners: scores never increase. */
  predicate SortedByScore(ps: seq<Player>) {
    forall i, j :: 0 <= i < j < |ps| ==> ps[i].score >= ps[j].score
  }

  /**
   * `getWinnersId`: the ids of the leading run of players whose score equals
   * the first player's. On a list sorted by score these are exactly the
   * players holding the top score.
   */
  method GetWinnersId(players: seq<Player>) returns (ids: seq<nat>)
    requires |players| > 0
    ensures 1 <= |ids| <= |players|
    ensures forall k :: 0 <= k < |ids| ==> ids[k] == players[k].id && players[k].score == players[0].score
    ensures |ids| < |players| ==> players[|ids|].score != players[0].score
    ensures SortedByScore(players) ==>
      forall k :: 0 <= k < |players| ==>
        players[k].score <= players[0].score && (k < |ids| <==> players[k].score == players[0].score)
  {
    var winnerScore := players[0].score;
    ids := [];
    var i := 0;
    while i < |players|
      invariant 0 <= i <= |players|
      invariant |ids| == i
      invariant forall k :: 0 <= k < i ==> ids[k] == players[k].id && players[k].score == winnerScore
    {
      if players[i].score == winnerScore {
        ids := ids + [players[i].id];
        i := i + 1;
      } else {
        break;
      }
    }
  }

  /**
   * The `CheckLegalMove` closure `getCheckLegalMove` returns: either only the
   * positions the must-play-twice analysis listed, or any coverable cell whose
   * letter the hand holds.
   */
  datatype LegalCheck = OnlyListed(legal: seq<Position>) | CoverableAndHeld(hand: Hand)

  /** Calling the closure on a position and the cell found there. */
  function IsLegal(check: LegalCheck, pos: Position, cell: Cells.Cell): bool
  {
    match check
    case OnlyListed(legal) => pos in legal
    case CoverableAndHeld(hand) => cell.coverable && HasLetter(hand, cell.letter)
  }

  /**
   * `getCheckLegalMove`: the board's must-play-twice analysis (`edgeCase` and
   * the positions it lists) matters only on the first move of a turn.
   * Returns the `must_play_twice` flag and the check.
   */
  function GetCheckLegalMove(g: Game, edgeCase: bool, legalPositions: seq<Position>): (r: (bool, LegalCheck))
    requires Valid(g)
    ensures r.0 <==> g.movesLeft == 2 && edgeCase
    ensures forall pos, cell :: IsLegal(r.1, pos, cell) <==>
      if r.0 then pos in legalPositions
      else cell.coverable && cell.letter in CurrentHand(g)
  {
    var mustPlayTwice := g.movesLeft == 2 && edgeCase;
    if mustPlayTwice then (true, OnlyListed(legalPositions))
    else (false, CoverableAndHeld(CurrentHand(g)))
  }

  /** After the first move of a turn the board's analysis is ignored altogether. */
  lemma EdgeCaseOnlyOnFirstMove(g: Game, e1: bool, l1: seq<Position>, e2: bool, l2: seq<Position>)
    requires Valid(g) && g.movesLeft != 2
    ensures GetCheckLegalMove(g, e1, l1) == GetCheckLegalMove(g, e2, l2)
    ensures !GetCheckLegalMove(g, e1, l1).0
  {
  }

  /**
   * `Game::parsePosition` on one input line: exactly one token, which must be
   * an upper-case row letter followed by a lower-case column letter.
   */
  function ParsePosition(line: string): (r: Option<Position>)
    ensures r.Some? <==> |Tokens(line)| == 1 && ParsePositionToken(Tokens(line)[0]).Some?
    ensures r.Some? ==> var t := Tokens(line)[0];
      r.value == FromChars(t[1], t[0]) && Positions.Format(r.value) == t
  {
    var (t, rest) := ReadToken(line);
    TokensUnfold(line);
    TokensUnfold(rest);
    if t == [] then None
    else if ReadToken(rest).0 != [] then None
    else ParsePositionToken(t)
  }

  /**
   * `validateMove`: the position is on the board, its cell has a letter that
   * is neither covered nor uncoverable, the current hand holds that letter and,
   * when the must-play-twice case applies, the check accepts the position.
   */
  function ValidateMove(g: Game, pos: Position, width: nat, height: nat, cell: Cells.Cell,
                        mustPlayTwice: bool, check: LegalCheck): (r: bool)
    requires Valid(g)
    ensures r <==>
      && InLimits(pos, width, height)
      && cell.letter != Cells.EMPTY
      && !cell.covered
      && cell.coverable
      && cell.letter in CurrentHand(g)
      && (mustPlayTwice ==> IsLegal(check, pos, cell))
  {
    if !InLimits(pos, width, height) then false
    else if Cells.IsEmpty(cell) then false
    else if cell.covered then false
    else if !cell.coverable then false
    else if !HasLetter(CurrentHand(g), cell.letter) then false
    else if mustPlayTwice && !IsLegal(check, pos, cell) then false
    else true
  }

  /** A move that passes validation also passes the legality check the turn computed. */
  lemma ValidatedMoveIsLegal(g: Game, pos: Position, width: nat, height: nat, cell: Cells.Cell,
                             edgeCase: bool, legalPositions: seq<Position>)
    requires Valid(g)
    requires var (mustPlayTwice, check) := GetCheckLegalMove(g, edgeCase, legalPositions);
      ValidateMove(g, pos, width, height, cell, mustPlayTwice, check)
    ensures IsLegal(GetCheckLegalMove(g, edgeCase, legalPositions).1, pos, cell)
  {
  }

  /**
   * `move`: one move fewer this turn, the cell's letter leaves the current
   * hand, and every completed word is worth a point. Nothing else changes.
   */
  function Move(g: Game, letter: char, completed: nat): (r: Game)
    requires Valid(g) && g.movesLeft >= 1
    ensures Valid(r) && |r.players| == |g.players|
    ensures r.movesLeft == g.movesLeft - 1
    ensures r.current == g.current && r.pool == g.pool
    ensures forall k :: 0 <= k < |g.players| && k != g.current ==> r.players[k] == g.players[k]
    ensures var p := g.players[g.current]; var q := r.players[g.current];
      && q.id == p.id
      && q.score == p.score + completed
      && q.hand == UseLetter(p.hand, letter)
  {
    var p := g.players[g.current];
    var q := AddScore(p.(hand := UseLetter(p.hand, letter)), completed);
    g.(movesLeft := g.movesLeft - 1, players := g.players[g.current := q])
  }

  /**
   * A move takes exactly one letter out of play: the cell's letter leaves the
   * current hand and no other hand nor the pool changes.
   */
  lemma MoveSpendsLetter(g: Game, letter: char, completed: nat)
    requires Valid(g) && g.movesLeft >= 1
    requires letter in CurrentHand(g) && letter != EMPTY
    ensures letter in AllLetters(g)
    ensures AllLetters(Move(g, letter, completed)) == AllLetters(g) - multiset{letter}
  {
    var r := Move(g, letter, completed);
    var before := Letters(CurrentHand(g));
    var after := Letters(CurrentHand(r));
    assert letter in before;
    HandsLettersUpdate(g.players, g.current, r.players[g.current]);
    HandHoldsItsLetters(g.players, g.current);
    SpendOne(HandsLetters(r.players), HandsLetters(g.players), before, after, Letters(g.pool), letter);
  }

  /** Every hand's letters are among the letters of all hands. */
  lemma HandHoldsItsLetters(ps: seq<Player>, i: nat)
    requires i < |ps|
    ensures Letters(ps[i].hand) <= HandsLetters(ps)
  {
    var blank := ps[i].(hand := []);
    HandsLettersUpdate(ps, i, blank);
    assert Letters(blank.hand) == multiset{};
  }

  /** Multiset bookkeeping of `MoveSpendsLetter`. */
  lemma SpendOne(now: multiset<char>, was: multiset<char>, before: multiset<char>, after: multiset<char>,
                 pool: multiset<char>, letter: char)
    requires now + before == was + after
    requires letter in before && after == before - multiset{letter}
    requires before <= was
    ensures letter in was + pool
    ensures now + pool == (was + pool) - multiset{letter}
  {
    forall x
      ensures (now + pool)[x] == ((was + pool) - multiset{letter})[x]
    {
      assert (now + before)[x] == (was + after)[x];
    }
  }

  /** `validateExchange(letter)`: an upper-case letter that the current hand holds. */
  function ValidateExchangeOne(g: Game, letter: char): (r: bool)
    requires Valid(g)
    ensures r <==> IsUpper(letter) && letter in CurrentHand(g)
  {
    if letter < 'A' || letter > 'Z' then false
    else HasLetter(CurrentHand(g), letter)
  }

  /**
   * `validateExchange(letter1, letter2)`: two upper-case letters; the hand must
   * hold two of a repeated letter, or each of two different ones.
   */
  function ValidateExchangeTwo(g: Game, l1: char, l2: char): (r: bool)
    requires Valid(g)
    ensures r <==>
      && IsUpper(l1) && IsUpper(l2)
      && (l1 == l2 ==> multiset(CurrentHand(g))[l1] >= 2)
      && (l1 != l2 ==> l1 in CurrentHand(g) && l2 in CurrentHand(g))
  {
    if l1 < 'A' || l1 > 'Z' then false
    else if l2 < 'A' || l2 > 'Z' then false
    else if l1 == l2 then
      var handCount := CountLetter(CurrentHand(g), l1);
      if handCount == 0 then false
      else if handCount == 1 then false
      else true
    else
      HasLetter(CurrentHand(g), l1) && HasLetter(CurrentHand(g), l2)
  }

  /**
   * In the state that asks for one exchanged letter, a validated letter meets
   * everything the hand's exchange demands.
   */
  lemma ValidExchangeOneIsPossible(g: Game, hasMove: bool, letter: char)
    requires Valid(g) && TurnStateOf(g, hasMove) == MustExchangeOne
    requires ValidateExchangeOne(g, letter)
    ensures CanExchangeOne(CurrentHand(g), g.pool, letter)
  {
  }

  /**
   * In the state that asks for two exchanged letters, validated letters meet
   * everything the hand's exchange demands.
   */
  lemma ValidExchangeTwoIsPossible(g: Game, hasMove: bool, l1: char, l2: char)
    requires Valid(g) && TurnStateOf(g, hasMove) == MustExchangeTwo
    requires ValidateExchangeTwo(g, l1, l2)
    ensures CanExchangeTwo(CurrentHand(g), g.pool, l1, l2)
  {
    Counting.CountIsMultiplicity(CurrentHand(g), l1);
  }

  /** The game with the current player's hand and the pool replaced. */
  function WithDeal(g: Game, d: Deal): (r: Game)
    requires Valid(g)
  {
    var p := g.players[g.current];
    g.(players := g.players[g.current := p.(hand := d.hand)], pool := d.pool)
  }

  /**
   * `exchange(letter)`: the hand trades the letter with the pool, and the pool
   * is shuffled again (the engine's choices are `draws`).
   */
  function ExchangeOne(g: Game, letter: char, draws: seq<nat>): (r: Game)
    requires Valid(g) && CanExchangeOne(CurrentHand(g), g.pool, letter)
    requires Pools.ValidDraws(g.pool, draws)
    ensures Valid(r) && |r.players| == |g.players|
    ensures r.current == g.current && r.movesLeft == g.movesLeft
    ensures forall k :: 0 <= k < |g.players| && k != g.current ==> r.players[k] == g.players[k]
    ensures r.players[g.current].id == g.players[g.current].id
    ensures r.players[g.current].score == g.players[g.current].score
    ensures var d := Hands.ExchangeOne(CurrentHand(g), g.pool, letter);
      CurrentHand(r) == d.hand && multiset(r.pool) == multiset(d.pool)
    ensures AllLetters(r) == AllLetters(g)
  {
    var d := Hands.ExchangeOne(CurrentHand(g), g.pool, letter);
    var shuffled := Pools.Shuffle(d.pool, draws);
    DealConserves(g, d, shuffled);
    WithDeal(g, Deal(d.hand, shuffled))
  }

  /** `exchange(letter1, letter2)`: as `ExchangeOne`, trading two letters. */
  function ExchangeTwo(g: Game, l1: char, l2: char, draws: seq<nat>): (r: Game)
    requires Valid(g) && CanExchangeTwo(CurrentHand(g), g.pool, l1, l2)
    requires Pools.ValidDraws(g.pool, draws)
    ensures Valid(r) && |r.players| == |g.players|
    ensures r.current == g.current && r.movesLeft == g.movesLeft
    ensures forall k :: 0 <= k < |g.players| && k != g.current ==> r.players[k] == g.players[k]
    ensures r.players[g.current].id == g.players[g.current].id
    ensures r.players[g.current].score == g.players[g.current].score
    ensures var d := Hands.ExchangeTwo(CurrentHand(g), g.pool, l1, l2);
      CurrentHand(r) == d.hand && multiset(r.pool) == multiset(d.pool)
    ensures AllLetters(r) == AllLetters(g)
  {
    var d := Hands.ExchangeTwo(CurrentHand(g), g.pool, l1, l2);
    var shuffled := Pools.Shuffle(d.pool, draws);
    DealConserves(g, d, shuffled);
    WithDeal(g, Deal(d.hand, shuffled))
  }

  /**
   * `nextTurn`: the current hand is refilled as `RefillCurrent` says; then the
   * next player (cyclically) gets two moves.
   */
  function NextTurn(g: Game, over: bool): (r: Game)
    requires Valid(g)
    ensures Valid(r) && |r.players| == |g.players|
    ensures r.movesLeft == 2
    ensures r.current == NextIndex(g.current, |g.players|)
    ensures r.players == RefillCurrent(g, over).players && r.pool == RefillCurrent(g, over).pool
    ensures AllLetters(r) == AllLetters(g)
  {
    Advance(RefillCurrent(g, over))
  }

  /** The turn-passing half of `nextTurn`: the next player, cyclically, gets two moves. */
  function Advance(g: Game): (r: Game)
    requires Valid(g)
    ensures Valid(r) && r.players == g.players && r.pool == g.pool
    ensures r.movesLeft == 2 && r.current == (g.current + 1) % |g.players|
  {
    g.(movesLeft := 2, current := NextIndex(g.current, |g.players|))
  }

  /** Incrementing an index and resetting it to 0 at the end is counting modulo the length. */
  function NextIndex(i: nat, n: nat): (r: nat)
    requires i < n
    ensures r < n && r == (i + 1) % n
  {
    if i + 1 == n then 0 else i + 1
  }

  /** The refill half of `nextTurn`, which trades letters between the current hand and the pool only. */
  function RefillCurrent(g: Game, over: bool): (r: Game)
    requires Valid(g)
    ensures Valid(r) && |r.players| == |g.players|
    ensures r.current == g.current && r.movesLeft == g.movesLeft
    ensures forall k :: 0 <= k < |g.players| && k != g.current ==> r.players[k] == g.players[k]
    ensures r.players[g.current].id == g.players[g.current].id
    ensures r.players[g.current].score == g.players[g.current].score
    ensures var h := CurrentHand(g);
      if !IsFull(h) && !over && |g.pool| > 0 then
        var d := Refill(h, g.pool);
        r.players[g.current].hand == d.hand && r.pool == d.pool
      else
        r == g
    ensures AllLetters(r) == AllLetters(g)
  {
    var h := CurrentHand(g);
    if !IsFull(h) && !over && !Pools.IsEmpty(g.pool) then
      var d := Refill(h, g.pool);
      LettersDealConserves(g, d);
      WithDeal(g, d)
    else g
  }

  /** The letters held in all hands. */
  function HandsLetters(ps: seq<Player>): multiset<char>
  {
    if ps == [] then multiset{} else HandsLetters(ps[..|ps| - 1]) + Letters(ps[|ps| - 1].hand)
  }

  /** Every letter of the game that is not on the board: all hands plus the pool. */
  function AllLetters(g: Game): multiset<char>
  {
    HandsLetters(g.players) + Letters(g.pool)
  }

  /** Replacing one player changes the hands' letters by exactly that player's difference. */
  lemma {:induction false} HandsLettersUpdate(ps: seq<Player>, i: nat, p: Player)
    requires i < |ps|
    ensures HandsLetters(ps[i := p]) + Letters(ps[i].hand) == HandsLetters(ps) + Letters(p.hand)
  {
    var n := |ps| - 1;
    var qs := ps[i := p];
    if i == n {
      assert qs[..n] == ps[..n];
    } else {
      assert qs[..n] == ps[..n][i := p];
      assert ps[..n][i] == ps[i] && qs[n] == ps[n];
      HandsLettersUpdate(ps[..n], i, p);
      assert HandsLetters(qs) == HandsLetters(qs[..n]) + Letters(ps[n].hand);
      assert HandsLetters(ps) == HandsLetters(ps[..n]) + Letters(ps[n].hand);
      Rebalance(HandsLetters(qs[..n]), HandsLetters(ps[..n]), Letters(ps[i].hand), Letters(p.hand), Letters(ps[n].hand));
    }
  }

  /** Adding the same letters to both sides of a balance keeps it balanced. */
  lemma Rebalance(a: multiset<char>, b: multiset<char>, x: multiset<char>, y: multiset<char>, z: multiset<char>)
    requires a + x == b + y
    ensures (a + z) + x == (b + z) + y
  {
    forall c
      ensures ((a + z) + x)[c] == ((b + z) + y)[c]
    {
      assert (a + x)[c] == (b + y)[c];
    }
  }

  /** A trade between the current hand and the pool that keeps the letters of both keeps every letter. */
  lemma LettersDealConserves(g: Game, d: Deal)
    requires Valid(g)
    requires Letters(d.hand) + Letters(d.pool) == Letters(CurrentHand(g)) + Letters(g.pool)
    ensures AllLetters(WithDeal(g, d)) == AllLetters(g)
  {
    var r := WithDeal(g, d);
    var old_ := Letters(CurrentHand(g));
    HandsLettersUpdate(g.players, g.current, r.players[g.current]);
    assert HandsLetters(r.players) + old_ == HandsLetters(g.players) + Letters(d.hand);
    forall x
      ensures AllLetters(r)[x] == AllLetters(g)[x]
    {
      assert (Letters(d.hand) + Letters(d.pool))[x] == (old_ + Letters(g.pool))[x];
      assert (HandsLetters(r.players) + old_)[x] == (HandsLetters(g.players) + Letters(d.hand))[x];
    }
  }

  /** Letters that a trade keeps as a multiset it also keeps with empty slots left out. */
  lemma LettersOfTrade(a: seq<char>, b: seq<char>, c: seq<char>, d: seq<char>)
    requires multiset(a) + multiset(b) == multiset(c) + multiset(d)
    ensures Letters(a) + Letters(b) == Letters(c) + Letters(d)
  {
    forall x
      ensures (Letters(a) + Letters(b))[x] == (Letters(c) + Letters(d))[x]
    {
      assert (multiset(a) + multiset(b))[x] == (multiset(c) + multiset(d))[x];
    }
  }

  /** A trade between the current hand and the pool, followed by a shuffle, keeps every letter. */
  lemma DealConserves(g: Game, d: Deal, shuffled: Pools.Pool)
    requires Valid(g)
    requires multiset(d.hand) + multiset(d.pool) == multiset(CurrentHand(g)) + multiset(g.pool)
    requires multiset(shuffled) == multiset(d.pool)
    ensures AllLetters(WithDeal(g, Deal(d.hand, shuffled))) == AllLetters(g)
  {
    LettersOfTrade(d.hand, shuffled, CurrentHand(g), g.pool);
    LettersDealConserves(g, Deal(d.hand, shuffled));
  }
}
