/** A Scrabble Junior player: identifier, score and hand. */
module Players {
  import opened Counting
  import opened Hands

  datatype Player = Player(id: nat, score: nat, hand: Hand)

  /** The constructor: the given id, no points, and a hand holding no letters. */
  function NewPlayer(id: nat): (p: Player)
    ensures p.id == id && p.score == 0
    ensures |p.hand| == HAND_SIZE && Letters(p.hand) == multiset{}
  {
    var h := NewHand();
    forall c
      ensures Letters(h)[c] == 0
    {
      if c != EMPTY {
        CountIsMultiplicity(h, c);
      }
    }
    Player(id, 0, h)
  }

  /** `addScore`: the score grows by exactly `points`; id and hand are untouched. */
  function AddScore(p: Player, points: nat): (r: Player)
    ensures r.score == p.score + points
    ensures r.score >= p.score
    ensures r.id == p.id && r.hand == p.hand
  {
    p.(score := p.score + points)
  }
}
