/** A word placed on the board: start position, orientation and its letters. */
module Words {
  import opened Text
  import opened Positions

  datatype Word = Word(start: Position, orientation: Orientation, letters: string)

  /** The position reached from `p` after `n` forward steps in orientation `o`. */
  function StepN(p: Position, o: Orientation, n: nat): (r: Position)
  {
    if n == 0 then p else StepForward(StepN(p, o, n - 1), o)
  }

  lemma {:induction false} StepNOffset(p: Position, o: Orientation, n: nat)
    ensures Along(o, StepN(p, o, n)) == Along(o, p) + n
    ensures Across(o, StepN(p, o, n)) == Across(o, p)
  {
    if n > 0 {
      StepNOffset(p, o, n - 1);
    }
  }

  /**
   * Iterating a word: each letter paired with the cell it occupies, the first at
   * the start and each next one a forward step further along the orientation.
   */
  function Placement(w: Word): (r: seq<(Position, char)>)
    ensures |r| == |w.letters|
    ensures forall i :: 0 <= i < |r| ==> r[i].1 == w.letters[i]
    ensures forall i :: 0 <= i < |r| ==>
              Along(w.orientation, r[i].0) == Along(w.orientation, w.start) + i
              && Across(w.orientation, r[i].0) == Across(w.orientation, w.start)
    ensures |r| > 0 ==> r[0].0 == w.start
    ensures forall i :: 0 < i < |r| ==> r[i].0 == StepForward(r[i - 1].0, w.orientation)
  {
    var r := seq(|w.letters|, i requires 0 <= i < |w.letters| => (StepN(w.start, w.orientation, i), w.letters[i]));
    forall i | 0 <= i < |r|
      ensures Along(w.orientation, r[i].0) == Along(w.orientation, w.start) + i
      ensures Across(w.orientation, r[i].0) == Across(w.orientation, w.start)
    {
      StepNOffset(w.start, w.orientation, i);
    }
    r
  }

  /** The orientation letter of a board file: 'H' for Horizontal, 'V' for Vertical. */
  function OrientationChar(o: Orientation): (c: char)
    ensures IsUpper(c)
    ensures c == 'H' <==> o == Horizontal
  {
    if o == Horizontal then 'H' else 'V'
  }

  /** `operator<<` for a word: the board-file record `<pos> <H|V> <LETTERS>`. */
  function Format(w: Word): string
  {
    Positions.Format(w.start) + " " + [OrientationChar(w.orientation)] + " " + w.letters
  }

  /** A word the board builder could have produced: nameable start, 2+ upper-case letters. */
  predicate WellFormed(w: Word) {
    Nameable(w.start) && |w.letters| >= 2 && AllUpper(w.letters)
  }
}
