/** A player's rack of letters: `Hand`, and its exchanges with the `Pool`. */
module Hands {
  import opened Counting
  import opened Pools

  /** Number of slots in a hand. */
  const HAND_SIZE: nat := 7
  /** The character of an empty slot. */
  const EMPTY: char := '_'

  /** The slots of a hand, in their fixed scan order. */
  type Hand = seq<char>

  /** A hand and the pool after an operation that moves letters between them. */
  datatype Deal = Deal(hand: Hand, pool: Pool)

  /** The constructor: seven slots, all empty, so the hand holds no letter at all. */
  function NewHand(): (h: Hand)
    ensures |h| == HAND_SIZE
    ensures Count(h, EMPTY) == HAND_SIZE
    ensures forall c :: c != EMPTY ==> Count(h, c) == 0
  {
    var h := seq(HAND_SIZE, _ => EMPTY);
    forall c
      ensures Count(h, c) == if c == EMPTY then HAND_SIZE else 0
    {
      CountUniform(h, EMPTY, c);
    }
    h
  }

  /** In a sequence made only of `c`, every element counts for `c` and none for anything else. */
  lemma {:induction false} CountUniform(s: seq<char>, c: char, d: char)
    requires forall i :: 0 <= i < |s| ==> s[i] == c
    ensures Count(s, d) == if d == c then |s| else 0
  {
    if s != [] {
      CountUniform(s[1..], c, d);
    }
  }

  /** `isFull`: no slot is empty. */
  function IsFull(h: Hand): (r: bool)
    ensures r <==> forall i :: 0 <= i < |h| ==> h[i] != EMPTY
  {
    Find(h, EMPTY, 0) == |h|
  }

  /** `countLetter`. */
  function CountLetter(h: Hand, c: char): (n: nat)
    ensures n == multiset(h)[c]
  {
    CountIsMultiplicity(h, c);
    Count(h, c)
  }

  /** `hasLetter`: some slot holds `c`. */
  function HasLetter(h: Hand, c: char): (r: bool)
    ensures r <==> c in h
  {
    Find(h, c, 0) < |h|
  }

  /** A hand has a letter exactly when it counts at least one of it. */
  lemma HasLetterIffCounted(h: Hand, c: char)
    ensures HasLetter(h, c) <==> CountLetter(h, c) > 0
  {
  }

  /** The letters a sequence of slots holds, empty slots not counted. */
  function Letters(s: seq<char>): multiset<char>
  {
    multiset(s)[EMPTY := 0]
  }

  /** Number of empty slots before slot `i`. */
  function EmptiesBefore(h: Hand, i: nat): nat
    requires i <= |h|
  {
    Count(h[..i], EMPTY)
  }

  /** Every slot that held a letter still holds it in `out`. */
  predicate KeepsLetters(h: Hand, out: Hand) {
    |out| == |h| && forall i :: 0 <= i < |h| && h[i] != EMPTY ==> out[i] == h[i]
  }

  /**
   * Slot `i`, empty in `h`, received the letter `k` places from the back of
   * `pool`, where `k` counts the empty slots before it; or stayed empty when
   * the pool had run out by then.
   */
  predicate FilledFromBack(h: Hand, pool: Pool, out: Hand, i: nat)
    requires i < |h| && |out| == |h|
  {
    if EmptiesBefore(h, i) < |pool|
    then out[i] == pool[|pool| - 1 - EmptiesBefore(h, i)]
    else out[i] == EMPTY
  }

  predicate FillsInOrder(h: Hand, pool: Pool, out: Hand)
    requires |out| == |h|
  {
    forall i :: 0 <= i < |h| && h[i] == EMPTY ==> FilledFromBack(h, pool, out, i)
  }

  function Min(a: nat, b: nat): nat
  {
    if a < b then a else b
  }

  /**
   * `refill`: scans the slots in order, stops as soon as the pool is empty, and
   * puts the pool's last letter into each empty slot it meets. Letters already
   * in the hand stay; the k-th empty slot (counting from 0) receives the letter
   * k places from the pool's back; exactly min(empty slots, pool size) letters
   * are drawn off the back of the pool; no letter is created or lost.
   */
  function Refill(h: Hand, pool: Pool): (r: Deal)
    ensures KeepsLetters(h, r.hand)
    ensures FillsInOrder(h, pool, r.hand)
    ensures |r.pool| == |pool| - Min(Count(h, EMPTY), |pool|)
    ensures r.pool == pool[..|r.pool|]
    ensures Letters(r.hand) + Letters(r.pool) == Letters(h) + Letters(pool)
    decreases |h|
  {
    if h == [] || pool == [] then
      assert FillsInOrder(h, pool, h) by {
        forall i | 0 <= i < |h| && h[i] == EMPTY
          ensures FilledFromBack(h, pool, h, i)
        {
        }
      }
      Deal(h, pool)
    else if h[0] == EMPTY then
      var (letter, rest) := PopLetter(pool);
      var r := Refill(h[1..], rest);
      var hand := [letter] + r.hand;
      KeepStep(h, r.hand, hand);
      FillHeadStep(h, pool, r.hand, hand);
      DrawHeadStep(h, pool, r.hand, r.pool);
      Deal(hand, r.pool)
    else
      var r := Refill(h[1..], pool);
      var hand := [h[0]] + r.hand;
      KeepStep(h, r.hand, hand);
      FillKeepStep(h, pool, r.hand, hand);
      DrawKeepStep(h, pool, r.hand, r.pool);
      Deal(hand, r.pool)
  }

  /** Empty slots before `i` in `h`, split off the first slot. */
  lemma EmptiesBeforeStep(h: Hand, i: nat)
    requires 0 < i <= |h|
    ensures EmptiesBefore(h, i) == (if h[0] == EMPTY then 1 else 0) + EmptiesBefore(h[1..], i - 1)
  {
    assert h[..i] == [h[0]] + h[1..][..i - 1];
    CountAppend([h[0]], h[1..][..i - 1], EMPTY);
  }

  lemma KeepStep(h: Hand, tail: Hand, hand: Hand)
    requires h != [] && KeepsLetters(h[1..], tail)
    requires |hand| == |h| && hand[1..] == tail
    requires h[0] != EMPTY ==> hand[0] == h[0]
    ensures KeepsLetters(h, hand)
  {
    forall i | 0 < i < |h| && h[i] != EMPTY
      ensures hand[i] == h[i]
    {
      assert h[1..][i - 1] == h[i];
      assert hand[i] == tail[i - 1];
    }
  }

  lemma FillHeadStep(h: Hand, pool: Pool, tail: Hand, hand: Hand)
    requires h != [] && pool != [] && h[0] == EMPTY
    requires |tail| == |h| - 1
    requires FillsInOrder(h[1..], pool[..|pool| - 1], tail)
    requires hand == [pool[|pool| - 1]] + tail
    ensures FillsInOrder(h, pool, hand)
  {
    var rest := pool[..|pool| - 1];
    forall i | 0 <= i < |h| && h[i] == EMPTY
      ensures FilledFromBack(h, pool, hand, i)
    {
      if i == 0 {
        assert h[..0] == [];
      } else {
        EmptiesBeforeStep(h, i);
        assert h[1..][i - 1] == h[i];
        assert FilledFromBack(h[1..], rest, tail, i - 1);
      }
    }
  }

  /** Letters of a concatenation are the letters of both parts. */
  lemma LettersAppend(a: seq<char>, b: seq<char>)
    ensures Letters(a + b) == Letters(a) + Letters(b)
  {
    assert multiset(a + b) == multiset(a) + multiset(b);
    forall x
      ensures Letters(a + b)[x] == (Letters(a) + Letters(b))[x]
    {
    }
  }

  lemma DrawHeadStep(h: Hand, pool: Pool, tailHand: Hand, tailPool: Pool)
    requires h != [] && pool != [] && h[0] == EMPTY
    requires |tailPool| == |pool| - 1 - Min(Count(h[1..], EMPTY), |pool| - 1)
    requires tailPool == pool[..|pool| - 1][..|tailPool|]
    requires Letters(tailHand) + Letters(tailPool) == Letters(h[1..]) + Letters(pool[..|pool| - 1])
    ensures |tailPool| == |pool| - Min(Count(h, EMPTY), |pool|)
    ensures tailPool == pool[..|tailPool|]
    ensures Letters([pool[|pool| - 1]] + tailHand) + Letters(tailPool) == Letters(h) + Letters(pool)
  {
    var last := pool[|pool| - 1];
    var front := pool[..|pool| - 1];
    assert Count(h, EMPTY) == 1 + Count(h[1..], EMPTY);
    assert h == [h[0]] + h[1..];
    LettersAppend([h[0]], h[1..]);
    assert Letters([h[0]]) == multiset{};
    assert pool == front + [last];
    LettersAppend(front, [last]);
    LettersAppend([last], tailHand);
    MoveOne(Letters(tailHand), Letters(tailPool), Letters(h[1..]), Letters(front), Letters([last]));
  }

  /** Moving the same letters onto both sides of a balance keeps it balanced. */
  lemma MoveOne(a: multiset<char>, b: multiset<char>, c: multiset<char>, d: multiset<char>, x: multiset<char>)
    requires a + b == c + d
    ensures (x + a) + b == c + (d + x)
  {
    forall y
      ensures ((x + a) + b)[y] == (c + (d + x))[y]
    {
      assert (a + b)[y] == (c + d)[y];
    }
  }

  lemma DrawKeepStep(h: Hand, pool: Pool, tailHand: Hand, tailPool: Pool)
    requires h != [] && h[0] != EMPTY
    requires |tailPool| == |pool| - Min(Count(h[1..], EMPTY), |pool|)
    requires Letters(tailHand) + Letters(tailPool) == Letters(h[1..]) + Letters(pool)
    ensures |tailPool| == |pool| - Min(Count(h, EMPTY), |pool|)
    ensures Letters([h[0]] + tailHand) + Letters(tailPool) == Letters(h) + Letters(pool)
  {
    assert Count(h, EMPTY) == Count(h[1..], EMPTY);
    assert h == [h[0]] + h[1..];
    LettersAppend([h[0]], h[1..]);
    LettersAppend([h[0]], tailHand);
    var lhs := Letters([h[0]] + tailHand) + Letters(tailPool);
    var rhs := Letters(h) + Letters(pool);
    forall x
      ensures lhs[x] == rhs[x]
    {
      assert (Letters(tailHand) + Letters(tailPool))[x] == (Letters(h[1..]) + Letters(pool))[x];
    }
    assert lhs == rhs;
  }

  lemma FillKeepStep(h: Hand, pool: Pool, tail: Hand, hand: Hand)
    requires h != [] && h[0] != EMPTY
    requires |tail| == |h| - 1
    requires FillsInOrder(h[1..], pool, tail)
    requires hand == [h[0]] + tail
    ensures FillsInOrder(h, pool, hand)
  {
    forall i | 0 <= i < |h| && h[i] == EMPTY
      ensures FilledFromBack(h, pool, hand, i)
    {
      EmptiesBeforeStep(h, i);
      assert h[1..][i - 1] == h[i];
      assert FilledFromBack(h[1..], pool, tail, i - 1);
    }
  }

  /** After a refill from a pool of real letters, the hand is full or the pool is exhausted. */
  lemma RefillFullOrDrained(h: Hand, pool: Pool)
    requires EMPTY !in pool
    ensures IsFull(Refill(h, pool).hand) || Refill(h, pool).pool == []
  {
    var r := Refill(h, pool);
    if r.pool != [] {
      forall i | 0 <= i < |h| && h[i] == EMPTY
        ensures r.hand[i] != EMPTY
      {
        EmptiesBeforeBound(h, i);
        assert FilledFromBack(h, pool, r.hand, i);
      }
    }
  }

  /** The empty slots before slot `i` are fewer than all empty slots when slot `i` is empty. */
  lemma EmptiesBeforeBound(h: Hand, i: nat)
    requires i < |h| && h[i] == EMPTY
    ensures EmptiesBefore(h, i) < Count(h, EMPTY)
  {
    assert h == h[..i] + h[i..];
    CountAppend(h[..i], h[i..], EMPTY);
    assert h[i..] == [h[i]] + h[i + 1..];
  }

  /** `exchange(letter)` requires the letter in hand and a non-empty pool. */
  predicate CanExchangeOne(h: Hand, pool: Pool, letter: char) {
    letter in h && |pool| >= 1
  }

  /**
   * `exchange(letter)`: the first slot holding `letter` trades places with the
   * pool's front letter; nothing else moves and no letter is gained or lost.
   */
  function ExchangeOne(h: Hand, pool: Pool, letter: char): (r: Deal)
    requires CanExchangeOne(h, pool, letter)
    ensures var i := Find(h, letter, 0);
      && i < |h| && h[i] == letter
      && |r.hand| == |h| && |r.pool| == |pool|
      && r.hand[i] == pool[0] && r.pool[0] == letter
      && (forall j :: 0 <= j < |h| && j != i ==> r.hand[j] == h[j])
      && (forall k :: 1 <= k < |pool| ==> r.pool[k] == pool[k])
    ensures multiset(r.hand) + multiset(r.pool) == multiset(h) + multiset(pool)
  {
    var i := Find(h, letter, 0);
    var (p, out) := Pools.ExchangeOne(pool, h[i]);
    var hand := h[i := out];
    assert multiset(hand) == multiset(h) - multiset{h[i]} + multiset{out};
    Deal(hand, p)
  }

  /**
   * `exchange(letter1, letter2)` requires two of the letter when both are the
   * same, otherwise one of each, and at least two letters in the pool.
   */
  predicate CanExchangeTwo(h: Hand, pool: Pool, l1: char, l2: char) {
    && (l1 == l2 ==> Count(h, l1) >= 2)
    && (l1 != l2 ==> l1 in h && l2 in h)
    && |pool| >= 2
  }

  /**
   * The two slots `exchange(letter1, letter2)` trades: the first `letter1`, and
   * either the first `letter2` or, for a repeated letter, the next occurrence
   * after the first. The two slots are always distinct.
   */
  function ExchangeSlots(h: Hand, pool: Pool, l1: char, l2: char): (r: (nat, nat))
    requires CanExchangeTwo(h, pool, l1, l2)
    ensures r.0 < |h| && r.1 < |h| && r.0 != r.1
    ensures h[r.0] == l1 && h[r.1] == l2
    ensures forall j :: 0 <= j < r.0 ==> h[j] != l1
    ensures l1 == l2 ==> r.0 < r.1 && forall j :: r.0 < j < r.1 ==> h[j] != l2
    ensures l1 != l2 ==> forall j :: 0 <= j < r.1 ==> h[j] != l2
  {
    var i1 := Find(h, l1, 0);
    if l1 == l2 then
      SecondOccurrence(h, l1);
      (i1, Find(h, l2, i1 + 1))
    else
      (i1, Find(h, l2, 0))
  }

  /** A letter counted twice occurs again after its first occurrence. */
  lemma SecondOccurrence(h: Hand, c: char)
    requires Count(h, c) >= 2
    ensures Find(h, c, 0) < |h| && Find(h, c, Find(h, c, 0) + 1) < |h|
  {
    CountIsMultiplicity(h, c);
    var i := Find(h, c, 0);
    assert c in multiset(h);
    assert i < |h|;
    assert h == h[..i] + [h[i]] + h[i + 1..];
    assert c !in h[..i];
    assert multiset(h) == multiset(h[..i]) + multiset{h[i]} + multiset(h[i + 1..]);
    assert c in h[i + 1..];
    var k :| 0 <= k < |h[i + 1..]| && h[i + 1..][k] == c;
    assert h[i + 1 + k] == c;
  }

  /**
   * `exchange(letter1, letter2)`: the two slots chosen by `ExchangeSlots` trade
   * places with the pool's first and second letters; everything else stays and
   * no letter is gained or lost.
   */
  function ExchangeTwo(h: Hand, pool: Pool, l1: char, l2: char): (r: Deal)
    requires CanExchangeTwo(h, pool, l1, l2)
    ensures var (i1, i2) := ExchangeSlots(h, pool, l1, l2);
      && |r.hand| == |h| && |r.pool| == |pool|
      && r.hand[i1] == pool[0] && r.hand[i2] == pool[1]
      && r.pool[0] == l1 && r.pool[1] == l2
      && (forall j :: 0 <= j < |h| && j != i1 && j != i2 ==> r.hand[j] == h[j])
      && (forall k :: 2 <= k < |pool| ==> r.pool[k] == pool[k])
    ensures multiset(r.hand) + multiset(r.pool) == multiset(h) + multiset(pool)
  {
    var (i1, i2) := ExchangeSlots(h, pool, l1, l2);
    var (p, o1, o2) := Pools.ExchangeTwo(pool, h[i1], h[i2]);
    var hand := h[i1 := o1][i2 := o2];
    SwapTwoConserves(h, pool, i1, i2, hand, p);
    Deal(hand, p)
  }

  lemma SwapTwoConserves(h: Hand, pool: Pool, i1: nat, i2: nat, hand: Hand, p: Pool)
    requires i1 < |h| && i2 < |h| && i1 != i2 && |pool| >= 2
    requires hand == h[i1 := pool[0]][i2 := pool[1]]
    requires p == pool[0 := h[i1]][1 := h[i2]]
    ensures multiset(hand) + multiset(p) == multiset(h) + multiset(pool)
  {
    var h1 := h[i1 := pool[0]];
    var p1 := pool[0 := h[i1]];
    SwapConserves(h, pool, i1, 0);
    assert h1[i2] == h[i2] && p1[1] == pool[1];
    SwapConserves(h1, p1, i2, 1);
  }

  /** Trading element `i` of `s` with element `j` of `t` keeps the combined multiset. */
  lemma SwapConserves(s: seq<char>, t: seq<char>, i: nat, j: nat)
    requires i < |s| && j < |t|
    ensures multiset(s[i := t[j]]) + multiset(t[j := s[i]]) == multiset(s) + multiset(t)
  {
    var a := multiset(s[i := t[j]]);
    var b := multiset(t[j := s[i]]);
    assert a == multiset(s) - multiset{s[i]} + multiset{t[j]};
    assert b == multiset(t) - multiset{t[j]} + multiset{s[i]};
    forall x
      ensures (a + b)[x] == (multiset(s) + multiset(t))[x]
    {
      assert s[i] in multiset(s);
      assert t[j] in multiset(t);
    }
  }

  /**
   * `useLetter`: blanks the first slot holding `c`; the hand loses exactly one
   * `c` and nothing else. Without a `c` the hand is unchanged.
   */
  function UseLetter(h: Hand, c: char): (r: Hand)
    ensures |r| == |h|
    ensures c !in h ==> r == h
    ensures c in h ==> r[Find(h, c, 0)] == EMPTY
    ensures forall j :: 0 <= j < |h| && j != Find(h, c, 0) ==> r[j] == h[j]
    ensures c in h && c != EMPTY ==> Letters(r) == Letters(h) - multiset{c}
  {
    var i := Find(h, c, 0);
    if i < |h| then
      var r := h[i := EMPTY];
      assert multiset(r) == multiset(h) - multiset{c} + multiset{EMPTY};
      r
    else
      h
  }

  /** Using a letter the hand holds lowers its count by one and leaves every other letter's count. */
  lemma UseLetterCounts(h: Hand, c: char, d: char)
    requires c in h && c != EMPTY
    ensures CountLetter(UseLetter(h, c), c) == CountLetter(h, c) - 1
    ensures d != c && d != EMPTY ==> CountLetter(UseLetter(h, c), d) == CountLetter(h, d)
  {
    var r := UseLetter(h, c);
    assert Letters(r)[c] == Letters(h)[c] - 1;
    assert d != c && d != EMPTY ==> Letters(r)[d] == Letters(h)[d];
  }

  /** `operator<<`: every slot followed by a space; an empty slot shows as '_'. */
  function Format(h: Hand): (s: string)
    ensures |s| == 2 * |h|
    ensures forall i :: 0 <= i < |h| ==> s[2 * i] == h[i] && s[2 * i + 1] == ' '
  {
    if h == [] then []
    else
      var rest := Format(h[1..]);
      var s := [h[0], ' '] + rest;
      forall i | 1 <= i < |h|
        ensures s[2 * i] == h[i] && s[2 * i + 1] == ' '
      {
        var j := i - 1;
        assert 2 * i == 2 * j + 2;
        assert s[2 * j + 2] == rest[2 * j] && s[2 * j + 3] == rest[2 * j + 1];
      }
      s
  }
}
