/**
 * The Oware game of Source.cpp: twelve pits of seeds, player 0 owning pits
 * 0..5 and player 1 pits 6..11 (0-based). A turn sows the seeds of one own pit
 * counter-clockwise, skipping the pit they came from, captures backwards from
 * the last pit sown while the opponent's pits hold 2 or 3 seeds, and then
 * checks whether the game is over.
 *
 * Houses are numbered 1..12 where the source does so (the chosen place and the
 * sowing cursor) and pits are indexed 0..11 everywhere else.
 */
module Oware {

  import opened Wrappers

  const PITS: nat := 12
  const SIDE: nat := 6
  const INITIAL_SEEDS: nat := 4
  const TOTAL_SEEDS: nat := 48
  const WINNING_SCORE: nat := 25
  const TURN_LIMIT: nat := 200

  /** The globals `board`, the two players' scores, `current_player`, `Turn` and `Game_Over`. */
  datatype State = State(pits: seq<nat>, score0: nat, score1: nat, player: nat, turn: nat, over: bool)

  predicate Valid(s: State) {
    |s.pits| == PITS && s.player <= 1
  }

  function Sum(s: seq<nat>): nat
  {
    if s == [] then 0 else s[0] + Sum(s[1..])
  }

  /** All seeds of the game: those on the board and those captured by either player. */
  function Total(s: State): nat
  {
    Sum(s.pits) + s.score0 + s.score1
  }

  /** Changing one pit changes the sum by the difference. */
  lemma {:induction false} SumUpdate(s: seq<nat>, i: nat, v: nat)
    requires i < |s|
    ensures Sum(s[i := v]) + s[i] == Sum(s) + v
  {
    if i == 0 {
      assert s[i := v][1..] == s[1..];
    } else {
      assert s[i := v][1..] == s[1..][i - 1 := v];
      SumUpdate(s[1..], i - 1, v);
    }
  }

  /** Sums add up pointwise. */
  lemma {:induction false} SumSplit(a: seq<nat>, b: seq<nat>, c: seq<nat>)
    requires |a| == |b| == |c|
    requires forall k :: 0 <= k < |a| ==> a[k] == b[k] + c[k]
    ensures Sum(a) == Sum(b) + Sum(c)
  {
    if a != [] {
      SumSplit(a[1..], b[1..], c[1..]);
    }
  }

  /** A board with no seeds at all. */
  lemma {:induction false} SumZero(s: seq<nat>)
    requires forall k :: 0 <= k < |s| ==> s[k] == 0
    ensures Sum(s) == 0
  {
    if s != [] {
      SumZero(s[1..]);
    }
  }

  /** A sum of zero means every pit is empty. */
  lemma {:induction false} SumZeroOnly(s: seq<nat>)
    requires Sum(s) == 0
    ensures forall k :: 0 <= k < |s| ==> s[k] == 0
  {
    if s != [] {
      SumZeroOnly(s[1..]);
      assert forall k :: 1 <= k < |s| ==> s[k] == s[1..][k - 1];
    }
  }

  /** `reset`: four seeds in every pit, no score, player 0 to move on turn 1. */
  function Reset(): (s: State)
    ensures Valid(s)
    ensures forall k :: 0 <= k < PITS ==> s.pits[k] == INITIAL_SEEDS
    ensures s.score0 == 0 && s.score1 == 0 && s.player == 0 && s.turn == 1 && !s.over
    ensures Total(s) == TOTAL_SEEDS
  {
    var pits := seq(PITS, _ => INITIAL_SEEDS);
    SumOfConstant(pits, INITIAL_SEEDS);
    State(pits, 0, 0, 0, 1, false)
  }

  lemma {:induction false} SumOfConstant(s: seq<nat>, v: nat)
    requires forall k :: 0 <= k < |s| ==> s[k] == v
    ensures Sum(s) == |s| * v
  {
    if s != [] {
      SumOfConstant(s[1..], v);
    }
  }

  // ---------------------------------------------------------------- move choice

  /** The 0-based pit behind `place` (1..6) for the given player. */
  function ChosenPit(player: nat, place: int): int
  {
    place - 1 + SIDE * player
  }

  /** The input loop of `oware()` accepts a place in 1..6 whose pit on the mover's side holds seeds. */
  predicate ValidChoice(s: State, place: int)
    requires Valid(s)
  {
    1 <= place <= SIDE && s.pits[ChosenPit(s.player, place)] != 0
  }

  /** The house (1..12) handed to `play`: player 1's place is shifted by six. */
  function Origin(player: nat, place: int): (h: int)
    requires player <= 1
    ensures h - 1 == ChosenPit(player, place)
  {
    if player == 1 then place + SIDE else place
  }

  /** A valid choice names a non-empty pit on the mover's own side. */
  lemma ValidChoiceIsOwnPit(s: State, place: int)
    requires Valid(s) && ValidChoice(s, place)
    ensures var h := Origin(s.player, place);
      1 <= h <= PITS && OwnSide(s.player, h - 1) && s.pits[h - 1] > 0
  {
  }

  /** Pits 0..5 belong to player 0, pits 6..11 to player 1. */
  predicate OwnSide(player: nat, k: int) {
    if player == 0 then 0 <= k < SIDE else SIDE <= k < PITS
  }

  // ---------------------------------------------------------------- sowing

  /**
   * One step of the sowing cursor exactly as `play` writes it: advance, wrap
   * 13 to 1, and step once more past the origin without wrapping again.
   */
  function StepAsWritten(house: int, start: int): int
  {
    var h := if house + 1 > PITS then 1 else house + 1;
    if h == start then h + 1 else h
  }

  /** The houses `play` writes to, seed by seed, as written. */
  function VisitsAsWritten(house: int, start: int, n: nat): (r: seq<int>)
    ensures |r| == n
    ensures n > 0 ==> r[0] == StepAsWritten(house, start)
    ensures forall k :: 0 < k < n ==> r[k] == StepAsWritten(r[k - 1], start)
    decreases n
  {
    if n == 0 then []
    else
      var h := StepAsWritten(house, start);
      [h] + VisitsAsWritten(h, start, n - 1)
  }

  /**
   * From house 12 with twelve seeds, the twelfth seed is written to house 13,
   * which is `board[12]`: one past the end of the array.
   */
  lemma AsWrittenOverrunsBoard()
    ensures VisitsAsWritten(12, 12, 12)[11] == 13
  {
    var v := VisitsAsWritten(12, 12, 12);
    assert v[0] == 1;
    assert v[1] == 2;
    assert v[2] == 3;
    assert v[3] == 4;
    assert v[4] == 5;
    assert v[5] == 6;
    assert v[6] == 7;
    assert v[7] == 8;
    assert v[8] == 9;
    assert v[9] == 10;
    assert v[10] == 11;
  }

  /**
   * The sowing cursor as intended: the next house counter-clockwise, wrapping
   * 12 to 1, never landing on the origin.
   */
  function NextPit(house: int, start: int): (r: int)
    requires 1 <= house <= PITS && 1 <= start <= PITS
    ensures 1 <= r <= PITS && r != start
  {
    var h := if house + 1 > PITS then 1 else house + 1;
    if h == start then (if h + 1 > PITS then 1 else h + 1) else h
  }

  /**
   * The corrected cursor agrees with the written one whenever that stays on the
   * board; the written one leaves it only from house 11 with origin 12, where
   * the corrected one wraps to house 1.
   */
  lemma NextPitRepairsStep(house: int, start: int)
    requires 1 <= house <= PITS && 1 <= start <= PITS
    ensures StepAsWritten(house, start) <= PITS ==> NextPit(house, start) == StepAsWritten(house, start)
    ensures StepAsWritten(house, start) > PITS ==> start == PITS && house == PITS - 1 && NextPit(house, start) == 1
  {
  }

  /** Only origin 12 can make the written cursor leave the board; from any other origin it agrees with `NextPit`. */
  lemma StepAsWrittenAgrees(house: int, start: int)
    requires 1 <= house <= PITS && 1 <= start < PITS
    ensures StepAsWritten(house, start) == NextPit(house, start)
  {
  }

  /**
   * Sows `n` seeds one at a time from the cursor at `house`. Returns the board
   * and the house the last seed fell into.
   */
  function SowFrom(pits: seq<nat>, start: int, house: int, n: nat): (r: (seq<nat>, int))
    requires |pits| == PITS && 1 <= start <= PITS && 1 <= house <= PITS
    ensures |r.0| == PITS
    ensures 1 <= r.1 <= PITS
    ensures n > 0 ==> r.1 != start
    ensures n == 0 ==> r.1 == house
    ensures r.0[start - 1] == pits[start - 1]
    decreases n
  {
    if n == 0 then (pits, house)
    else
      var h := NextPit(house, start);
      var next := pits[h - 1 := pits[h - 1] + 1];
      SowFrom(next, start, h, n - 1)
  }

  /** Sowing `n` seeds adds exactly `n` seeds to the board. */
  lemma {:induction false} SowFromAdds(pits: seq<nat>, start: int, house: int, n: nat)
    requires |pits| == PITS && 1 <= start <= PITS && 1 <= house <= PITS
    ensures Sum(SowFrom(pits, start, house, n).0) == Sum(pits) + n
    decreases n
  {
    if n > 0 {
      var h := NextPit(house, start);
      var next := pits[h - 1 := pits[h - 1] + 1];
      SowFromStep(pits, start, house, n);
      SumUpdate(pits, h - 1, pits[h - 1] + 1);
      SowFromAdds(next, start, h, n - 1);
      SumChain(pits, next, SowFrom(next, start, h, n - 1).0, n);
    }
  }

  lemma SumChain(a: seq<nat>, b: seq<nat>, c: seq<nat>, n: nat)
    requires n > 0 && Sum(b) == Sum(a) + 1 && Sum(c) == Sum(b) + (n - 1)
    ensures Sum(c) == Sum(a) + n
  {
  }

  /**
   * `play` with the cursor corrected: the origin is emptied and its seeds are
   * sown one per pit onwards, skipping the origin. Returns the board and the
   * house of the last seed.
   */
  function Sow(pits: seq<nat>, start: int): (r: (seq<nat>, int))
    requires |pits| == PITS && 1 <= start <= PITS
    ensures |r.0| == PITS && 1 <= r.1 <= PITS
    ensures Sum(r.0) == Sum(pits)
    ensures r.0[start - 1] == 0
    ensures pits[start - 1] > 0 ==> r.1 != start
    ensures forall k :: 0 <= k < PITS && k != start - 1 ==> r.0[k] >= pits[k]
  {
    var n := pits[start - 1];
    var emptied := pits[start - 1 := 0];
    SumUpdate(pits, start - 1, 0);
    SowFromAdds(emptied, start, start, n);
    assert forall k :: 0 <= k < PITS ==> SowFrom(emptied, start, start, n).0[k] >= emptied[k] by {
      forall k | 0 <= k < PITS {
        SowFromCounts(emptied, start, start, n, k);
      }
    }
    SowFrom(emptied, start, start, n)
  }

  /**
   * The sowing loop of `play` exactly as written: the cursor moves by
   * `StepAsWritten`, and `None` stands for the write to `board[h - 1]` with
   * `h` off the board, which the source does not guard against.
   */
  function SowFromAsWritten(pits: seq<nat>, start: int, house: int, n: nat): (r: Option<(seq<nat>, int)>)
    requires |pits| == PITS
    decreases n
  {
    if n == 0 then Some((pits, house))
    else
      var h := StepAsWritten(house, start);
      if h < 1 || h > PITS then None
      else SowFromAsWritten(pits[h - 1 := pits[h - 1] + 1], start, h, n - 1)
  }

  /** `play`'s emptying of the origin and its sowing loop, as written. */
  function SowAsWritten(pits: seq<nat>, start: int): Option<(seq<nat>, int)>
    requires |pits| == PITS && 1 <= start <= PITS
  {
    SowFromAsWritten(pits[start - 1 := 0], start, start, pits[start - 1])
  }

  /** How far the written cursor is along its way from house 12 to house 11, the house it overruns from. */
  function Progress(house: int): int
  {
    if house == PITS then 0 else house
  }

  /**
   * While the written cursor stays on the board it drops the seeds exactly
   * where the corrected one does: from any origin but 12, always; from origin
   * 12, until it has to step past house 11.
   */
  lemma {:induction false} SowFromAsWrittenAgrees(pits: seq<nat>, start: int, house: int, n: nat)
    requires |pits| == PITS && 1 <= start <= PITS && 1 <= house <= PITS
    requires start < PITS || Progress(house) + n < PITS
    ensures SowFromAsWritten(pits, start, house, n) == Some(SowFrom(pits, start, house, n))
    decreases n
  {
    if n > 0 {
      var h := NextPit(house, start);
      NextPitRepairsStep(house, start);
      assert StepAsWritten(house, start) == h;
      SowFromStep(pits, start, house, n);
      SowFromAsWrittenAgrees(pits[h - 1 := pits[h - 1] + 1], start, h, n - 1);
    }
  }

  /** From origin 12, the written cursor leaves the board once it has to step past house 11. */
  lemma {:induction false} SowFromAsWrittenOverruns(pits: seq<nat>, house: int, n: nat)
    requires |pits| == PITS && 1 <= house <= PITS
    requires Progress(house) + n >= PITS
    ensures SowFromAsWritten(pits, PITS, house, n) == None
    decreases n
  {
    var h := StepAsWritten(house, PITS);
    if house != PITS - 1 {
      assert 1 <= h <= PITS - 1 && Progress(h) == Progress(house) + 1;
      SowFromAsWrittenOverruns(pits[h - 1 := pits[h - 1] + 1], h, n - 1);
    }
  }

  /**
   * `play`'s loop overruns the board exactly when player 1 sows 12 or more
   * seeds from house 12; in every other case it produces the board and last
   * house of `Sow`.
   */
  lemma SowAsWrittenIsSow(pits: seq<nat>, start: int)
    requires |pits| == PITS && 1 <= start <= PITS
    ensures SowAsWritten(pits, start).None? <==> start == PITS && pits[start - 1] >= PITS
    ensures SowAsWritten(pits, start).Some? ==> SowAsWritten(pits, start).value == Sow(pits, start)
  {
    var emptied := pits[start - 1 := 0];
    if start == PITS && pits[start - 1] >= PITS {
      SowFromAsWrittenOverruns(emptied, start, pits[start - 1]);
    } else {
      SowFromAsWrittenAgrees(emptied, start, start, pits[start - 1]);
    }
  }

  /**
   * The house of the `j`-th seed sown from `start`: the seeds cycle through the
   * eleven other houses in order, so seed `j` lands `(j - 1) % 11 + 1` houses on.
   */
  function Offset(j: nat): (d: nat)
    ensures j == 0 <==> d == 0
    ensures d <= PITS - 1
  {
    if j == 0 then 0 else (j - 1) % (PITS - 1) + 1
  }

  function LandingAt(start: int, d: nat): int
  {
    (start - 1 + d) % PITS + 1
  }

  lemma OffsetStep(j: nat)
    ensures Offset(j + 1) == if Offset(j) == PITS - 1 then 1 else Offset(j) + 1
  {
  }

  /** One corrected cursor step moves from the `j`-th landing house to the next one. */
  lemma NextLanding(start: int, j: nat)
    requires 1 <= start <= PITS
    ensures 1 <= LandingAt(start, Offset(j)) <= PITS
    ensures NextPit(LandingAt(start, Offset(j)), start) == LandingAt(start, Offset(j + 1))
  {
    OffsetStep(j);
  }

  /** The house the corrected cursor reaches after `n` steps from `house`. */
  function CursorAfter(house: int, start: int, n: nat): (r: int)
    requires 1 <= house <= PITS && 1 <= start <= PITS
    ensures 1 <= r <= PITS
    decreases n
  {
    if n == 0 then house else CursorAfter(NextPit(house, start), start, n - 1)
  }

  /** Sowing `n` seeds from the cursor ends where `n` cursor steps lead. */
  lemma {:induction false} SowFromEndsAt(pits: seq<nat>, start: int, house: int, n: nat)
    requires |pits| == PITS && 1 <= start <= PITS && 1 <= house <= PITS
    ensures SowFrom(pits, start, house, n).1 == CursorAfter(house, start, n)
    decreases n
  {
    if n > 0 {
      var h := NextPit(house, start);
      SowFromStep(pits, start, house, n);
      SowFromEndsAt(pits[h - 1 := pits[h - 1] + 1], start, h, n - 1);
    }
  }

  /** `n` cursor steps after the `j`-th seed's house lead to the house of seed `j + n`. */
  lemma {:induction false} CursorLands(start: int, j: nat, n: nat)
    requires 1 <= start <= PITS
    requires 1 <= LandingAt(start, Offset(j)) <= PITS
    ensures CursorAfter(LandingAt(start, Offset(j)), start, n) == LandingAt(start, Offset(j + n))
    decreases n
  {
    if n > 0 {
      NextLanding(start, j);
      NextLanding(start, j + 1);
      CursorLands(start, j + 1, n - 1);
    }
  }

  /** The last seed of a sowing lands `Offset(n)` houses after the origin. */
  lemma SowLandsAt(pits: seq<nat>, start: int)
    requires |pits| == PITS && 1 <= start <= PITS
    ensures Sow(pits, start).1 == LandingAt(start, Offset(pits[start - 1]))
  {
    assert LandingAt(start, Offset(0)) == start;
    SowFromEndsAt(pits[start - 1 := 0], start, start, pits[start - 1]);
    CursorLands(start, 0, pits[start - 1]);
  }

  /** How many of the seeds `j + 1 .. j + n` sown from `start` fall into pit `k`. */
  function Hits(start: int, k: int, j: nat, n: nat): nat
    decreases n
  {
    if n == 0 then 0
    else (if LandingAt(start, Offset(j + 1)) == k + 1 then 1 else 0) + Hits(start, k, j + 1, n - 1)
  }

  /** How many of the next `n` corrected cursor steps from `house` land on pit `k`. */
  function Visits(house: int, start: int, k: int, n: nat): nat
    requires 1 <= house <= PITS && 1 <= start <= PITS
    decreases n
  {
    if n == 0 then 0
    else
      var h := NextPit(house, start);
      (if h == k + 1 then 1 else 0) + Visits(h, start, k, n - 1)
  }

  /** Sowing adds to each pit one seed per cursor step that lands on it. */
  lemma {:induction false} SowFromCounts(pits: seq<nat>, start: int, house: int, n: nat, k: nat)
    requires |pits| == PITS && 1 <= start <= PITS && 1 <= house <= PITS && k < PITS
    ensures SowFrom(pits, start, house, n).0[k] == pits[k] + Visits(house, start, k, n)
    decreases n
  {
    if n > 0 {
      var h := NextPit(house, start);
      var next := pits[h - 1 := pits[h - 1] + 1];
      SowFromStep(pits, start, house, n);
      DropOne(pits, h - 1, k);
      VisitsStep(house, start, k, n);
      SowFromCounts(next, start, h, n - 1, k);
    }
  }

  lemma VisitsStep(house: int, start: int, k: int, n: nat)
    requires 1 <= house <= PITS && 1 <= start <= PITS && n > 0
    ensures var h := NextPit(house, start);
      Visits(house, start, k, n) == (if h == k + 1 then 1 else 0) + Visits(h, start, k, n - 1)
  {
  }

  /** Dropping a seed into pit `i` adds one to that pit only. */
  lemma DropOne(pits: seq<nat>, i: nat, k: nat)
    requires i < |pits| && k < |pits|
    ensures pits[i := pits[i] + 1][k] == pits[k] + (if i == k then 1 else 0)
  {
  }

  /** Sowing `n` seeds is dropping one in the next pit, then sowing the remaining `n - 1` from there. */
  lemma SowFromStep(pits: seq<nat>, start: int, house: int, n: nat)
    requires |pits| == PITS && 1 <= start <= PITS && 1 <= house <= PITS && n > 0
    ensures var h := NextPit(house, start);
      SowFrom(pits, start, house, n) == SowFrom(pits[h - 1 := pits[h - 1] + 1], start, h, n - 1)
  {
  }

  /** The cursor steps after the `j`-th seed are the landings of seeds `j + 1 ..`. */
  lemma {:induction false} VisitsAreHits(start: int, k: int, j: nat, n: nat)
    requires 1 <= start <= PITS
    requires 1 <= LandingAt(start, Offset(j)) <= PITS
    ensures Visits(LandingAt(start, Offset(j)), start, k, n) == Hits(start, k, j, n)
    decreases n
  {
    if n > 0 {
      NextLanding(start, j);
      NextLanding(start, j + 1);
      VisitsAreHits(start, k, j + 1, n - 1);
    }
  }

  /**
   * The sowing of `play`: the origin ends empty and every other pit gains one
   * seed for each time the cycle through the eleven other houses reaches it.
   */
  lemma SowDistributes(pits: seq<nat>, start: int, k: nat)
    requires |pits| == PITS && 1 <= start <= PITS && k < PITS
    ensures Sow(pits, start).0[k] == if k == start - 1 then 0 else pits[k] + Hits(start, k, 0, pits[start - 1])
  {
    if k != start - 1 {
      assert LandingAt(start, Offset(0)) == start;
      SowFromCounts(pits[start - 1 := 0], start, start, pits[start - 1], k);
      VisitsAreHits(start, k, 0, pits[start - 1]);
    }
  }

  /** `last_place` of `play`: the 0-based pit `n` steps on, as if no pit were skipped. */
  function LastPlaceAsWritten(start: int, n: nat): int
  {
    (start - 1 + n) % PITS
  }

  /** With at most eleven seeds no pit is skipped, so `last_place` is the pit of the last seed. */
  lemma LastPlaceAgrees(pits: seq<nat>, start: int)
    requires |pits| == PITS && 1 <= start <= PITS && pits[start - 1] < PITS
    ensures LastPlaceAsWritten(start, pits[start - 1]) == Sow(pits, start).1 - 1
  {
    SowLandsAt(pits, start);
    FirstRoundOffset(pits[start - 1]);
  }

  lemma FirstRoundOffset(n: nat)
    requires n < PITS
    ensures Offset(n) == n
  {
  }

  /**
   * With 12 to 22 seeds the origin is skipped once, and `last_place` names the
   * pit just before the one the last seed fell into.
   */
  lemma LastPlaceLags(pits: seq<nat>, start: int)
    requires |pits| == PITS && 1 <= start <= PITS && PITS <= pits[start - 1] <= 2 * PITS - 2
    ensures LastPlaceAsWritten(start, pits[start - 1]) == (Sow(pits, start).1 - 1 + PITS - 1) % PITS
    ensures LastPlaceAsWritten(start, pits[start - 1]) != Sow(pits, start).1 - 1
  {
    SowLandsAt(pits, start);
    SecondRoundLags(start, pits[start - 1]);
  }

  lemma SecondRoundLags(start: int, n: nat)
    requires 1 <= start <= PITS && PITS <= n <= 2 * PITS - 2
    ensures LastPlaceAsWritten(start, n) == (LandingAt(start, Offset(n)) - 1 + PITS - 1) % PITS
    ensures LastPlaceAsWritten(start, n) != LandingAt(start, Offset(n)) - 1
  {
    OffsetSecondRound(n);
    var m := start - 1 + n - (PITS - 1);
    assert LandingAt(start, Offset(n)) - 1 == m % PITS;
    OneBehind(m);
  }

  /** Seeds 12 to 22 make the second round of the eleven other houses. */
  lemma OffsetSecondRound(n: nat)
    requires PITS <= n <= 2 * PITS - 2
    ensures Offset(n) == n - (PITS - 1)
  {
    assert (n - 1) % (PITS - 1) == n - 1 - (PITS - 1);
  }

  /** Counting one pit fewer lands one pit earlier, never on the same pit. */
  lemma OneBehind(m: nat)
    ensures (m + PITS - 1) % PITS == (m % PITS + PITS - 1) % PITS
    ensures (m + PITS - 1) % PITS != m % PITS
  {
    var q := m / PITS;
    var r := m % PITS;
    assert m == q * PITS + r;
    assert m + PITS - 1 == q * PITS + (r + PITS - 1);
  }

  /**
   * Player 0 sows 17 seeds from house 1 of an otherwise empty board: the last
   * seed makes pit 6 hold 2, which player 0 may capture, but `last_place` is
   * pit 5, on the mover's own side, so nothing is captured.
   */
  lemma AsWrittenMissesCapture(pits: seq<nat>)
    requires |pits| == PITS && pits[0] == 17
    requires forall k :: 0 < k < PITS ==> pits[k] == 0
    ensures Sow(pits, 1).1 == 7
    ensures Sow(pits, 1).0[6] == 2
    ensures LastPlaceAsWritten(1, pits[0]) == 5
    ensures Capture(Sow(pits, 1).0, 0, LastPlaceAsWritten(1, pits[0])).1 == 0
    ensures Capture(Sow(pits, 1).0, 0, Sow(pits, 1).1 - 1).1 == 2
  {
    SowLandsAt(pits, 1);
    OffsetSecondRound(17);
    SowDistributes(pits, 1, 6);
    SeventeenSeedsHitPitSixTwice();
    var sown := Sow(pits, 1).0;
    assert sown[6] == 2;
    CaptureFromSix(sown);
  }

  /** A pit 6 holding 2 seeds is captured by player 0, and the walk stops at pit 5. */
  lemma CaptureFromSix(pits: seq<nat>)
    requires |pits| == PITS && pits[6] == 2
    ensures Capture(pits, 0, 5).1 == 0
    ensures Capture(pits, 0, 6).1 == 2
  {
    assert Capturable(pits, 0, 6);
    assert !Capturable(pits[6 := 0], 0, 5);
  }

  lemma SeventeenSeedsHitPitSixTwice()
    ensures Hits(1, 6, 0, 17) == 2
  {
    EarlySeeds(0);
  }

  /** From house 1, of seeds `j + 1` to 17 the sixth one (if still to come) and the seventeenth fall into pit 6. */
  lemma {:induction false} EarlySeeds(j: nat)
    requires j <= 5
    ensures Hits(1, 6, j, 17 - j) == 2
    decreases 5 - j
  {
    FirstRound(j);
    HitsStep(1, 6, j, 17 - j);
    if j < 5 {
      EarlySeeds(j + 1);
    } else {
      LateSeeds(6);
    }
  }

  /** From house 1, of seeds `j + 1` to 17 (with `j` at least 6) only the seventeenth falls into pit 6. */
  lemma {:induction false} LateSeeds(j: nat)
    requires 6 <= j <= 16
    ensures Hits(1, 6, j, 17 - j) == 1
    decreases 16 - j
  {
    HitsStep(1, 6, j, 17 - j);
    if j < 11 {
      FirstRound(j);
    } else {
      OffsetSecondRound(j + 1);
      LandingFromOne(j - 10);
    }
    if j < 16 {
      LateSeeds(j + 1);
    } else {
      HitsStep(1, 6, 17, 0);
    }
  }

  /** Seed `j + 1`, for `j` below eleven, lands `j + 1` houses on; from house 1 that is house `j + 2`. */
  lemma FirstRound(j: nat)
    requires j < PITS - 1
    ensures Offset(j + 1) == j + 1
    ensures LandingAt(1, Offset(j + 1)) == j + 2
  {
  }

  lemma LandingFromOne(d: nat)
    requires d < PITS
    ensures LandingAt(1, d) == d + 1
  {
  }

  /** One unfolding of `Hits`. */
  lemma HitsStep(start: int, k: int, j: nat, n: nat)
    ensures n == 0 ==> Hits(start, k, j, n) == 0
    ensures n > 0 ==>
              Hits(start, k, j, n) == (if LandingAt(start, Offset(j + 1)) == k + 1 then 1 else 0) + Hits(start, k, j + 1, n - 1)
  {
  }

  // ---------------------------------------------------------------- capture

  /** Pits the given player may capture from: those on the other side. */
  predicate OpponentSide(player: nat, k: int) {
    if player == 0 then SIDE <= k < PITS else 0 <= k < SIDE
  }

  predicate Capturable(pits: seq<nat>, player: nat, k: int)
    requires |pits| == PITS
  {
    OpponentSide(player, k) && (pits[k] == 2 || pits[k] == 3)
  }

  /**
   * The first pit at or below `lp` that stops the capture walk: the captured
   * pits are exactly those above it up to `lp`.
   */
  function CaptureStop(pits: seq<nat>, player: nat, lp: int): (stop: int)
    requires |pits| == PITS && -1 <= lp < PITS
    ensures -1 <= stop <= lp
    ensures forall k :: stop < k <= lp ==> Capturable(pits, player, k)
    ensures stop >= 0 ==> !Capturable(pits, player, stop)
    decreases lp + 1
  {
    if lp >= 0 && Capturable(pits, player, lp) then CaptureStop(pits, player, lp - 1) else lp
  }

  /** The walk below `lp` reads only pits below `lp`. */
  lemma {:induction false} CaptureStopFrame(pits: seq<nat>, q: seq<nat>, player: nat, lp: int)
    requires |pits| == PITS && |q| == PITS && -1 <= lp < PITS
    requires forall k :: 0 <= k <= lp ==> pits[k] == q[k]
    ensures CaptureStop(pits, player, lp) == CaptureStop(q, player, lp)
    decreases lp + 1
  {
    if lp >= 0 {
      CaptureStopFrame(pits, q, player, lp - 1);
    }
  }

  /**
   * `seed_capture`: walking backwards from `lp`, each opponent pit holding 2 or
   * 3 seeds is emptied into the mover's store. Returns the board and the
   * number of seeds captured.
   */
  function Capture(pits: seq<nat>, player: nat, lp: int): (r: (seq<nat>, nat))
    requires |pits| == PITS && -1 <= lp < PITS
    ensures |r.0| == PITS
    ensures Sum(r.0) + r.1 == Sum(pits)
    ensures var stop := CaptureStop(pits, player, lp);
      forall k :: 0 <= k < PITS ==> r.0[k] == if stop < k <= lp then 0 else pits[k]
    decreases lp + 1
  {
    if lp >= 0 && Capturable(pits, player, lp) then
      var emptied := pits[lp := 0];
      SumUpdate(pits, lp, 0);
      CaptureStopFrame(pits, emptied, player, lp - 1);
      var (rest, gained) := Capture(emptied, player, lp - 1);
      (rest, gained + pits[lp])
    else (pits, 0)
  }

  /** Capture never touches the mover's own side. */
  lemma CaptureKeepsOwnSide(pits: seq<nat>, player: nat, lp: int, k: int)
    requires |pits| == PITS && -1 <= lp < PITS && player <= 1
    requires 0 <= k < PITS && !OpponentSide(player, k)
    ensures Capture(pits, player, lp).0[k] == pits[k]
  {
    assert !Capturable(pits, player, k);
  }

  /** Credits captured seeds to a player's store. */
  function Credit(s: State, player: nat, seeds: nat): (r: State)
    ensures r.pits == s.pits && r.player == s.player && r.turn == s.turn && r.over == s.over
    ensures player == 0 ==> r.score0 == s.score0 + seeds && r.score1 == s.score1
    ensures player != 0 ==> r.score1 == s.score1 + seeds && r.score0 == s.score0
    ensures Total(r) == Total(s) + seeds
  {
    if player == 0 then s.(score0 := s.score0 + seeds) else s.(score1 := s.score1 + seeds)
  }

  // ---------------------------------------------------------------- game over and turn switch

  /** Either player has more than half of the seeds, or they split them evenly. */
  predicate ScoreOver(score0: nat, score1: nat) {
    score0 >= WINNING_SCORE || score1 >= WINNING_SCORE || (score0 == 24 && score1 == 24)
  }

  predicate SideEmpty(pits: seq<nat>, player: nat)
    requires |pits| == PITS
  {
    forall k :: 0 <= k < PITS && OwnSide(player, k) ==> pits[k] == 0
  }

  /**
   * The test `verify_GO` applies when the mover's side is empty: no opponent
   * pit's seed count would carry its sowing onto the mover's side (read as the
   * source computes it, modulo 12).
   */
  predicate CannotBeFed(pits: seq<nat>, player: nat)
    requires |pits| == PITS
  {
    if player == 0 then forall i :: SIDE <= i < PITS ==> (i + pits[i]) % PITS > 5
    else forall i :: 0 <= i < SIDE ==> (i + pits[i]) % PITS < 5
  }

  /** The seeds on `player`'s side. */
  function SideSeeds(pits: seq<nat>, player: nat): (r: seq<nat>)
    requires |pits| == PITS
    ensures |r| == PITS
  {
    seq(PITS, k requires 0 <= k < PITS => if OwnSide(player, k) then pits[k] else 0)
  }

  /** The opponent of the mover takes every seed left on its own side. */
  function Sweep(s: State): (r: State)
    requires Valid(s)
    ensures Valid(r) && Total(r) == Total(s)
    ensures forall k :: 0 <= k < PITS ==> r.pits[k] == if OwnSide(1 - s.player, k) then 0 else s.pits[k]
    ensures r.player == s.player && r.turn == s.turn && r.over == s.over
  {
    var other := 1 - s.player;
    var taken := SideSeeds(s.pits, other);
    var left := seq(PITS, k requires 0 <= k < PITS => if OwnSide(other, k) then 0 else s.pits[k]);
    SumSplit(s.pits, left, taken);
    Credit(s.(pits := left), other, Sum(taken))
  }

  /** The turn limit: the game ends when the turn counter reaches 200. */
  function TurnLimit(s: State): (r: State)
    ensures r.over == (s.over || s.turn == TURN_LIMIT)
    ensures r.pits == s.pits && r.score0 == s.score0 && r.score1 == s.score1
    ensures r.player == s.player && r.turn == s.turn
  {
    if s.turn == TURN_LIMIT then s.(over := true) else s
  }

  /**
   * The result of a turn or of `verify_GO`. `Diverges` is a call that keeps
   * calling itself on the same state; `OutOfBounds` is the sowing loop writing
   * past the end of the board.
   */
  datatype Outcome = Settled(state: State) | Diverges | OutOfBounds

  /**
   * `verify_GO` after a move by `s.player`. A game over on score ends the
   * game. Otherwise, if the mover still has seeds on its side the other
   * player moves next and the turn counter grows; if not, the opponent either
   * is left to feed the mover (only hints are printed), or, when it cannot,
   * sweeps its own side and the check is repeated. Finally the turn limit
   * applies.
   */
  function VerifyGameOver(s: State): (r: Outcome)
    requires Valid(s)
    ensures r.Settled? ==> Valid(r.state) && Total(r.state) == Total(s)
    ensures r.Settled? ==> (r.state.over <==> ScoreOver(r.state.score0, r.state.score1) || r.state.turn == TURN_LIMIT)
    ensures ScoreOver(s.score0, s.score1) ==> r == Settled(TurnLimit(s.(over := true)))
    ensures !ScoreOver(s.score0, s.score1) && !SideEmpty(s.pits, s.player) ==>
      && r.Settled?
      && r.state.pits == s.pits && r.state.score0 == s.score0 && r.state.score1 == s.score1
      && r.state.player == 1 - s.player && r.state.turn == s.turn + 1
    ensures r.Diverges? ==> s.player == 0 && SideEmpty(s.pits, 0) && CannotBeFed(s.pits, 0)
  {
    if ScoreOver(s.score0, s.score1) then Settled(TurnLimit(s.(over := true)))
    else
      var s1 := s.(over := false);
      if !SideEmpty(s.pits, s.player) then
        Settled(TurnLimit(s1.(player := 1 - s.player, turn := s.turn + 1)))
      else if !CannotBeFed(s.pits, s.player) then
        Settled(TurnLimit(s1))
      else
        SweptBoardIsEmpty(s1);
        AfterSweep(Sweep(s1))
  }

  /**
   * The recursive `verify_GO` call after a sweep. Every pit is empty by then
   * (see `SweptBoardIsEmpty`), so unless the scores end the game, player 0's
   * call finds the same empty side, sweeps nothing and calls itself again on
   * the same state forever, while player 1's call lands in the hint branch
   * (see `SweepRecursion`).
   */
  function AfterSweep(s: State): (r: Outcome)
    requires Valid(s) && forall k :: 0 <= k < PITS ==> s.pits[k] == 0
    ensures r.Settled? ==> r.state.pits == s.pits && r.state.score0 == s.score0 && r.state.score1 == s.score1
    ensures r.Settled? ==> r.state.player == s.player && r.state.turn == s.turn
    ensures r.Settled? ==> (r.state.over <==> ScoreOver(s.score0, s.score1) || s.turn == TURN_LIMIT)
    ensures r.Diverges? <==> !ScoreOver(s.score0, s.score1) && s.player == 0
  {
    if ScoreOver(s.score0, s.score1) then Settled(TurnLimit(s.(over := true)))
    else if s.player == 0 then Diverges
    else Settled(TurnLimit(s.(over := false)))
  }

  /** A sweep happens only with the mover's side empty, so it leaves no seed on the board. */
  lemma SweptBoardIsEmpty(s: State)
    requires Valid(s) && SideEmpty(s.pits, s.player)
    ensures forall k :: 0 <= k < PITS ==> Sweep(s).pits[k] == 0
  {
  }

  /**
   * On an empty board the mover's side is empty, the sweep test holds exactly
   * for player 0, and a sweep changes nothing: what `AfterSweep` relies on.
   */
  lemma SweepRecursion(s: State)
    requires Valid(s) && forall k :: 0 <= k < PITS ==> s.pits[k] == 0
    ensures SideEmpty(s.pits, s.player)
    ensures CannotBeFed(s.pits, s.player) <==> s.player == 0
    ensures Sweep(s) == s
  {
    if s.player == 1 {
      assert (5 + s.pits[5]) % PITS == 5;
    }
    var r := Sweep(s);
    assert r.pits == s.pits;
    assert r.score0 == s.score0 && r.score1 == s.score1;
  }

  /** With all 48 seeds in play, a sweep always ends the game, so `verify_GO` never loops. */
  lemma NeverDiverges(s: State)
    requires Valid(s) && Total(s) == TOTAL_SEEDS
    ensures VerifyGameOver(s).Settled?
  {
    if !ScoreOver(s.score0, s.score1) && SideEmpty(s.pits, s.player) && CannotBeFed(s.pits, s.player) {
      var w := Sweep(s.(over := false));
      SweptBoardIsEmpty(s.(over := false));
      SumZero(w.pits);
      assert w.score0 + w.score1 == TOTAL_SEEDS;
    }
  }

  /** The branch of `verify_GO` that only prints which houses the opponent has to play to feed the mover. */
  predicate FeedBranch(s: State)
    requires Valid(s)
  {
    !ScoreOver(s.score0, s.score1) && SideEmpty(s.pits, s.player) && !CannotBeFed(s.pits, s.player)
  }

  /**
   * As written, the feed branch hands the turn to nobody: the mover, whose side
   * is empty, is asked for a place again, and the input loop of `oware()` can
   * accept none.
   */
  lemma FeedBranchStalls(s: State)
    requires Valid(s) && FeedBranch(s)
    ensures VerifyGameOver(s).Settled?
    ensures var r := VerifyGameOver(s).state;
      && r.player == s.player && r.pits == s.pits && r.turn == s.turn
      && (r.over <==> s.turn == TURN_LIMIT)
      && forall place :: !ValidChoice(r, place)
  {
  }

  /**
   * `verify_GO` as evidently intended: in the feed branch the opponent, whose
   * houses the hint lists, moves next and the turn counter grows, as in the
   * ordinary hand-over. Every other case is `VerifyGameOver`.
   */
  function VerifyGameOverFixed(s: State): (r: Outcome)
    requires Valid(s)
    ensures r.Settled? ==> Valid(r.state) && Total(r.state) == Total(s)
    ensures FeedBranch(s) ==>
      && r.Settled?
      && r.state.pits == s.pits && r.state.score0 == s.score0 && r.state.score1 == s.score1
      && r.state.player == 1 - s.player && r.state.turn == s.turn + 1
    ensures !FeedBranch(s) ==> r == VerifyGameOver(s)
  {
    if FeedBranch(s) then Settled(TurnLimit(s.(over := false, player := 1 - s.player, turn := s.turn + 1)))
    else VerifyGameOver(s)
  }

  /**
   * With the fix, the player asked to feed has a house it may choose: the
   * opponent pit that can feed holds seeds, or else the board is empty and the
   * scores, holding all 48 seeds, would have ended the game.
   */
  lemma FixedFeedBranchCanMove(s: State)
    requires Valid(s) && FeedBranch(s) && Total(s) == TOTAL_SEEDS
    ensures exists place :: 1 <= place <= SIDE && ValidChoice(VerifyGameOverFixed(s).state, place)
  {
    var r := VerifyGameOverFixed(s).state;
    if s.player == 0 {
      var i :| SIDE <= i < PITS && !((i + s.pits[i]) % PITS > 5);
      assert s.pits[i] > 0;
      assert ValidChoice(r, i - SIDE + 1);
    } else if exists i :: 0 <= i < SIDE && s.pits[i] > 0 {
      var i :| 0 <= i < SIDE && s.pits[i] > 0;
      assert ValidChoice(r, i + 1);
    } else {
      SumZero(s.pits);
      assert false;
    }
  }

  /** The fixed check never diverges when all 48 seeds are in play. */
  lemma FixedNeverDiverges(s: State)
    requires Valid(s) && Total(s) == TOTAL_SEEDS
    ensures VerifyGameOverFixed(s).Settled?
  {
    if !FeedBranch(s) {
      NeverDiverges(s);
    }
  }

  // ---------------------------------------------------------------- a whole turn

  /**
   * Sowing and capture of one turn with the corrections: the cursor is
   * `NextPit` and the capture walks back from the pit the last seed fell into.
   * The result is the state `verify_GO` is given.
   */
  function Moves(s: State, place: int): (r: State)
    requires Valid(s) && ValidChoice(s, place)
    ensures Valid(r) && Total(r) == Total(s)
    ensures r.player == s.player && r.turn == s.turn && r.over == s.over
  {
    var start := Origin(s.player, place);
    var (sown, last) := Sow(s.pits, start);
    var (captured, gained) := Capture(sown, s.player, last - 1);
    Credit(s.(pits := captured), s.player, gained)
  }

  /**
   * Sowing and capture of one turn as `play` writes them: the written loop,
   * then `seed_capture` from `last_place`. `None` is the overrun of the loop.
   */
  function MovesAsWritten(s: State, place: int): (r: Option<State>)
    requires Valid(s) && ValidChoice(s, place)
    ensures r.None? <==> Origin(s.player, place) == PITS && s.pits[PITS - 1] >= PITS
    ensures r.Some? ==> Valid(r.value) && Total(r.value) == Total(s)
    ensures r.Some? ==> r.value.player == s.player && r.value.turn == s.turn && r.value.over == s.over
  {
    var start := Origin(s.player, place);
    SowAsWrittenIsSow(s.pits, start);
    match SowAsWritten(s.pits, start)
    case None => None
    case Some(sown) =>
      var (captured, gained) := Capture(sown.0, s.player, LastPlaceAsWritten(start, s.pits[start - 1]));
      Some(Credit(s.(pits := captured), s.player, gained))
  }

  /** With at most 11 seeds sown the written turn and the corrected one move the same seeds. */
  lemma MovesAgree(s: State, place: int)
    requires Valid(s) && ValidChoice(s, place) && s.pits[ChosenPit(s.player, place)] < PITS
    ensures MovesAsWritten(s, place) == Some(Moves(s, place))
  {
    var start := Origin(s.player, place);
    SowAsWrittenIsSow(s.pits, start);
    LastPlaceAgrees(s.pits, start);
  }

  /**
   * The 17-seed board at turn level: the written turn leaves player 0's score
   * as it was, while the corrected turn credits the 2 seeds of pit 6.
   */
  lemma AsWrittenTurnMissesCapture(s: State)
    requires Valid(s) && s.player == 0 && s.pits[0] == 17
    requires forall k :: 0 < k < PITS ==> s.pits[k] == 0
    ensures PlayTurnAsWritten(s, 1).Settled? && PlayTurnAsWritten(s, 1).state.score0 == s.score0
    ensures PlayTurn(s, 1).Settled? && PlayTurn(s, 1).state.score0 == s.score0 + 2
  {
    AsWrittenMissesCapture(s.pits);
    MovesAgreeOnBoard(s);
    var sown := Sow(s.pits, 1).0;
    FirstSeedFillsPitOne(s.pits);
    CaptureKeepsOwnSide(sown, 0, 6, 1);
    CaptureKeepsOwnSide(sown, 0, 5, 1);
    CheckKeepsScores(Moves(s, 1));
    CheckKeepsScores(MovesAsWritten(s, 1).value);
  }

  /** The first seed sown from house 1 falls into pit 1. */
  lemma FirstSeedFillsPitOne(pits: seq<nat>)
    requires |pits| == PITS && pits[0] > 0
    ensures Sow(pits, 1).0[1] > 0
  {
    SowDistributes(pits, 1, 1);
    HitsStep(1, 1, 0, pits[0]);
    FirstRound(0);
  }

  /** While the mover still has seeds, both checks settle and leave the scores alone. */
  lemma CheckKeepsScores(t: State)
    requires Valid(t) && t.pits[1] > 0 && t.player == 0
    ensures VerifyGameOver(t).Settled? && VerifyGameOver(t).state.score0 == t.score0
    ensures VerifyGameOverFixed(t) == VerifyGameOver(t)
  {
    assert !SideEmpty(t.pits, 0);
  }

  /** The 17-seed turn before `verify_GO`: the written capture starts from pit 5, the corrected one from pit 6. */
  lemma MovesAgreeOnBoard(s: State)
    requires Valid(s) && s.player == 0 && s.pits[0] == 17
    requires forall k :: 0 < k < PITS ==> s.pits[k] == 0
    ensures MovesAsWritten(s, 1).Some?
    ensures MovesAsWritten(s, 1).value.pits == Capture(Sow(s.pits, 1).0, 0, 5).0
    ensures MovesAsWritten(s, 1).value.score0 == s.score0 + Capture(Sow(s.pits, 1).0, 0, 5).1
    ensures Moves(s, 1).pits == Capture(Sow(s.pits, 1).0, 0, 6).0
    ensures Moves(s, 1).score0 == s.score0 + Capture(Sow(s.pits, 1).0, 0, 6).1
  {
    SowAsWrittenIsSow(s.pits, 1);
    AsWrittenMissesCapture(s.pits);
  }

  /**
   * One turn of `oware()` with the three corrections: the chosen pit is sown
   * with `NextPit`, the mover captures from the pit the last seed fell into,
   * and `VerifyGameOverFixed` decides what follows.
   */
  function PlayTurn(s: State, place: int): (r: Outcome)
    requires Valid(s) && ValidChoice(s, place)
    ensures r.Settled? ==> Valid(r.state) && Total(r.state) == Total(s)
    ensures !r.OutOfBounds?
  {
    VerifyGameOverFixed(Moves(s, place))
  }

  /** One turn of `oware()` as written: `play`, `seed_capture` from `last_place`, and `verify_GO`. */
  function PlayTurnAsWritten(s: State, place: int): (r: Outcome)
    requires Valid(s) && ValidChoice(s, place)
    ensures r.Settled? ==> Valid(r.state) && Total(r.state) == Total(s)
    ensures r.OutOfBounds? <==> Origin(s.player, place) == PITS && s.pits[PITS - 1] >= PITS
  {
    match MovesAsWritten(s, place)
    case None => OutOfBounds
    case Some(t) => VerifyGameOver(t)
  }

  /** Seeds move between pits and stores but are never created or lost. */
  lemma PlayTurnConserves(s: State, place: int)
    requires Valid(s) && ValidChoice(s, place) && Total(s) == TOTAL_SEEDS
    ensures PlayTurn(s, place).Settled?
    ensures Total(PlayTurn(s, place).state) == TOTAL_SEEDS
  {
    FixedNeverDiverges(Moves(s, place));
  }

  /** The written turn keeps the 48 seeds too, unless its sowing loop overruns the board. */
  lemma PlayTurnAsWrittenConserves(s: State, place: int)
    requires Valid(s) && ValidChoice(s, place) && Total(s) == TOTAL_SEEDS
    ensures PlayTurnAsWritten(s, place).Settled? || PlayTurnAsWritten(s, place).OutOfBounds?
    ensures PlayTurnAsWritten(s, place).Settled? ==> Total(PlayTurnAsWritten(s, place).state) == TOTAL_SEEDS
  {
    var m := MovesAsWritten(s, place);
    if m.Some? {
      NeverDiverges(m.value);
    }
  }

  /**
   * The game loop of `main` with the corrected turn: turns are played until
   * the game is over; a place the input loop would refuse is skipped.
   */
  function Run(s: State, places: seq<int>): (r: Outcome)
    requires Valid(s)
    decreases |places|
  {
    if places == [] || s.over then Settled(s)
    else if !ValidChoice(s, places[0]) then Run(s, places[1..])
    else
      match PlayTurn(s, places[0])
      case Settled(next) => Run(next, places[1..])
      case Diverges => Diverges
      case OutOfBounds => OutOfBounds
  }

  /** Every game started by `reset` keeps all 48 seeds between board and stores. */
  lemma {:induction false} RunConserves(s: State, places: seq<int>)
    requires Valid(s) && Total(s) == TOTAL_SEEDS
    ensures Run(s, places).Settled?
    ensures Valid(Run(s, places).state) && Total(Run(s, places).state) == TOTAL_SEEDS
    decreases |places|
  {
    if places != [] && !s.over {
      if !ValidChoice(s, places[0]) {
        RunConserves(s, places[1..]);
      } else {
        PlayTurnConserves(s, places[0]);
        RunConserves(PlayTurn(s, places[0]).state, places[1..]);
      }
    }
  }

  /** From `reset`, any sequence of choices keeps the 48 seeds. */
  lemma GamesKeepAllSeeds(places: seq<int>)
    ensures Run(Reset(), places).Settled?
    ensures Total(Run(Reset(), places).state) == TOTAL_SEEDS
  {
    RunConserves(Reset(), places);
  }

  /** The game loop of `main` with the turn as written. */
  function RunAsWritten(s: State, places: seq<int>): (r: Outcome)
    requires Valid(s)
    decreases |places|
  {
    if places == [] || s.over then Settled(s)
    else if !ValidChoice(s, places[0]) then RunAsWritten(s, places[1..])
    else
      match PlayTurnAsWritten(s, places[0])
      case Settled(next) => RunAsWritten(next, places[1..])
      case Diverges => Diverges
      case OutOfBounds => OutOfBounds
  }

  /** A written game either overruns the board at some turn or keeps all 48 seeds; it never diverges. */
  lemma {:induction false} RunAsWrittenConserves(s: State, places: seq<int>)
    requires Valid(s) && Total(s) == TOTAL_SEEDS
    ensures !RunAsWritten(s, places).Diverges?
    ensures RunAsWritten(s, places).Settled? ==>
      Valid(RunAsWritten(s, places).state) && Total(RunAsWritten(s, places).state) == TOTAL_SEEDS
    decreases |places|
  {
    if places != [] && !s.over {
      if !ValidChoice(s, places[0]) {
        RunAsWrittenConserves(s, places[1..]);
      } else {
        PlayTurnAsWrittenConserves(s, places[0]);
        var r := PlayTurnAsWritten(s, places[0]);
        if r.Settled? {
          RunAsWrittenConserves(r.state, places[1..]);
        }
      }
    }
  }

  /** From `reset`, a written game keeps the 48 seeds unless its sowing loop overruns the board. */
  lemma GamesAsWrittenKeepAllSeeds(places: seq<int>)
    ensures !RunAsWritten(Reset(), places).Diverges?
    ensures RunAsWritten(Reset(), places).Settled? ==> Total(RunAsWritten(Reset(), places).state) == TOTAL_SEEDS
  {
    RunAsWrittenConserves(Reset(), places);
  }

  /**
   * Once the mover's side is empty and the game is not over, as after the
   * written feed branch, no later place is accepted: the game stays where it is.
   */
  lemma {:induction false} StalledRunStaysPut(s: State, places: seq<int>)
    requires Valid(s) && SideEmpty(s.pits, s.player)
    ensures RunAsWritten(s, places) == Settled(s)
    decreases |places|
  {
    if places != [] && !s.over {
      assert !ValidChoice(s, places[0]);
      StalledRunStaysPut(s, places[1..]);
    }
  }
}
