/** One square of the Scrabble Junior board: `Cell`. */
module Cells {
  import opened Positions

  /** The character of a cell without a letter. */
  const EMPTY: char := ' '

  datatype Cell = Cell(
    letter: char,
    covered: bool,
    coverable: bool,
    propagatesHorizontally: bool,
    propagatesVertically: bool)

  /** The constructor: a cell holding `letter`, not covered, not yet coverable, propagating nowhere. */
  function NewCell(letter: char): (c: Cell)
    ensures c.letter == letter
    ensures !c.covered && !c.coverable
    ensures !c.propagatesHorizontally && !c.propagatesVertically
  {
    Cell(letter, false, false, false, false)
  }

  /** The flag recording that covering this cell may unlock a neighbour along `o`. */
  function Propagates(c: Cell, o: Orientation): bool
  {
    if o == Horizontal then c.propagatesHorizontally else c.propagatesVertically
  }

  /** `allowMove`: the cell becomes coverable as part of a word running along `o`. */
  function AllowMove(c: Cell, o: Orientation): (r: Cell)
    ensures r.coverable
    ensures Propagates(r, o)
    ensures forall o' :: o' != o ==> Propagates(r, o') == Propagates(c, o')
    ensures r.letter == c.letter && r.covered == c.covered
  {
    if o == Horizontal then c.(coverable := true, propagatesHorizontally := true)
    else c.(coverable := true, propagatesVertically := true)
  }

  /** `cover`: claimed by a player, so covered and no longer coverable. */
  function Cover(c: Cell): (r: Cell)
    ensures r.covered && !r.coverable
    ensures r.letter == c.letter
    ensures forall o :: Propagates(r, o) == Propagates(c, o)
  {
    c.(covered := true, coverable := false)
  }

  /** `setLetter`: only the letter changes. */
  function SetLetter(c: Cell, l: char): (r: Cell)
    ensures r.letter == l
    ensures r.covered == c.covered && r.coverable == c.coverable
    ensures forall o :: Propagates(r, o) == Propagates(c, o)
  {
    c.(letter := l)
  }

  /** `isEmpty`: the cell holds no letter. */
  predicate IsEmpty(c: Cell) {
    c.letter == EMPTY
  }

  /** Every mutation a cell supports. */
  datatype Op = AllowMoveOp(o: Orientation) | CoverOp | SetLetterOp(l: char)

  function Apply(c: Cell, op: Op): Cell
  {
    match op
    case AllowMoveOp(o) => AllowMove(c, o)
    case CoverOp => Cover(c)
    case SetLetterOp(l) => SetLetter(c, l)
  }

  function ApplyAll(c: Cell, ops: seq<Op>): Cell
    decreases |ops|
  {
    if ops == [] then c else ApplyAll(Apply(c, ops[0]), ops[1..])
  }

  /** Covering is permanent: no sequence of operations uncovers a covered cell. */
  lemma {:induction false} CoveredIsMonotone(c: Cell, ops: seq<Op>)
    requires c.covered
    ensures ApplyAll(c, ops).covered
    decreases |ops|
  {
    if ops != [] {
      CoveredIsMonotone(Apply(c, ops[0]), ops[1..]);
    }
  }

  /** The letter of a cell changes only through `setLetter`. */
  lemma {:induction false} LetterOnlyBySetLetter(c: Cell, ops: seq<Op>)
    requires forall i :: 0 <= i < |ops| ==> !ops[i].SetLetterOp?
    ensures ApplyAll(c, ops).letter == c.letter
    decreases |ops|
  {
    if ops != [] {
      LetterOnlyBySetLetter(Apply(c, ops[0]), ops[1..]);
    }
  }
}
