/**
 * Grid coordinates of a Scrabble Junior board: the `Position` class, the two
 * word orientations and the 'Ab' textual form (upper-case row, lower-case column).
 */
module Positions {
  import opened Wrappers
  import opened Text

  /** A word runs either along a row (Horizontal) or along a column (Vertical). */
  datatype Orientation = Vertical | Horizontal

  /** Column `x` and row `y`, both 0-based; negative values occur only transiently. */
  datatype Position = Position(x: int, y: int)

  /** The `Position(char x, char y)` constructor: column letter 'a'.., row letter 'A'... */
  function FromChars(xc: char, yc: char): Position
  {
    Position(xc as int - 'a' as int, yc as int - 'A' as int)
  }

  /** The coordinate a step in orientation `o` changes. */
  function Along(o: Orientation, p: Position): int
  {
    if o == Horizontal then p.x else p.y
  }

  /** The coordinate a step in orientation `o` leaves alone. */
  function Across(o: Orientation, p: Position): int
  {
    if o == Horizontal then p.y else p.x
  }

  /** `stepForward`: one cell in the positive direction of `o`. */
  function StepForward(p: Position, o: Orientation): (r: Position)
    ensures Along(o, r) == Along(o, p) + 1
    ensures Across(o, r) == Across(o, p)
  {
    if o == Horizontal then Position(p.x + 1, p.y) else Position(p.x, p.y + 1)
  }

  /** `stepBackwards`: one cell in the negative direction of `o`. */
  function StepBackwards(p: Position, o: Orientation): (r: Position)
    ensures Along(o, r) == Along(o, p) - 1
    ensures Across(o, r) == Across(o, p)
  {
    if o == Horizontal then Position(p.x - 1, p.y) else Position(p.x, p.y - 1)
  }

  /** Stepping backwards undoes stepping forwards and vice versa. */
  lemma StepInverse(p: Position, o: Orientation)
    ensures StepBackwards(StepForward(p, o), o) == p
    ensures StepForward(StepBackwards(p, o), o) == p
  {
  }

  /**
   * `laterals`: the two neighbours beside `p` when front and back lie along `o`.
   * Both share `p`'s coordinate along `o` and sit one cell to either side across it.
   */
  function Laterals(p: Position, o: Orientation): (r: (Position, Position))
    ensures Along(o, r.0) == Along(o, p) && Across(o, r.0) == Across(o, p) + 1
    ensures Along(o, r.1) == Along(o, p) && Across(o, r.1) == Across(o, p) - 1
  {
    if o == Horizontal then (Position(p.x, p.y + 1), Position(p.x, p.y - 1))
    else (Position(p.x + 1, p.y), Position(p.x - 1, p.y))
  }

  /** `inLimits`: inside a board of the given width and height that starts at the origin. */
  predicate InLimits(p: Position, width: nat, height: nat) {
    p.x >= 0 && p.y >= 0 && p.x < width && p.y < height
  }

  /** A position that the two-letter form can express: both coordinates in 0..25. */
  predicate Nameable(p: Position) {
    0 <= p.x < 26 && 0 <= p.y < 26
  }

  /** `(char) v` written to a stream: the byte `v` modulo 256. */
  function ByteChar(v: int): (c: char)
    ensures 0 <= v < 256 ==> c as int == v
  {
    (v % 256) as char
  }

  /** `operator<<` for a position: the row as 'A'+y, then the column as 'a'+x. */
  function Format(p: Position): (s: string)
    ensures |s| == 2
    ensures Nameable(p) ==> IsUpper(s[0]) && IsLower(s[1])
  {
    [ByteChar('A' as int + p.y), ByteChar('a' as int + p.x)]
  }

  /**
   * The position token accepted by both `parsePosition`s: exactly two characters,
   * an upper-case row letter followed by a lower-case column letter.
   */
  function ParsePositionToken(t: string): (r: Option<Position>)
    ensures r.Some? <==> |t| == 2 && IsUpper(t[0]) && IsLower(t[1])
    ensures r.Some? ==> Nameable(r.value) && Format(r.value) == t
  {
    if |t| != 2 then None
    else if !IsLower(t[1]) || !IsUpper(t[0]) then None
    else Some(FromChars(t[1], t[0]))
  }

  /** Printing a nameable position and reading it back restores it. */
  lemma FormatRoundTrip(p: Position)
    requires Nameable(p)
    ensures ParsePositionToken(Format(p)) == Some(p)
    ensures FromChars(Format(p)[1], Format(p)[0]) == p
  {
  }
}
