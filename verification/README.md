# Scrabble Junior and Oware, modelled in Dafny

This project models two small C++ console games.

**Scrabble Junior.** The model covers the letter bookkeeping:

- `Hand`: a rack of seven slots, with `'_'` marking an empty slot.
- `Pool`: the bag of letters. Drawing takes from the back; exchanges swap the front one or two letters.
- `Cell`: the covered, coverable and propagation flags of a board square.
- `Player`: id, score and hand.

It also covers the turn logic of `Game`:

- the decision table that says what the current player must do;
- the move and exchange validators;
- the choice of winners;
- the bookkeeping of `move`, `exchange` and `nextTurn`.

From the board-authoring tool it covers:

- `Position` arithmetic and its two-letter form (`Ab`);
- the board-file record of a `Word` (`Ab H WORD`);
- the token parsers that read such a record back, the dictionary lookup and the player-count formula.

Input parsing goes through a model of `std::istream >> std::string`. It skips leading whitespace and reads the longest run of non-whitespace.

**Oware.** The model covers:

- sowing the seeds of a chosen pit, skipping the origin;
- capturing backwards on the opponent's side;
- the game-over and turn-switch logic of `verify_GO`;
- `reset`;
- the move-validity test of the input loop.

The global variables become a `State` record.

The Scrabble Junior board is an oracle. These are all parameters of the operations that need them:

- whether the current hand has a move;
- the cell found at a position;
- the result of the must-play-twice analysis;
- whether the game is over;
- the number of words a cover completes.

`std::shuffle` is modelled as a Fisher–Yates pass whose random choices are a parameter (`draws`). This covers every permutation the engine can produce.

Modules, one file each:

| module | file | models |
|---|---|---|
| `Wrappers` | wrappers.dfy | `Option` for accept/reject results |
| `Text` | text.dfy | C-locale character classes, `toupper`, the `>>` tokenizer |
| `Positions` | positions.dfy | `Position`, `Orientation` |
| `Words` | words.dfy | `Word` |
| `BoardBuilder` | boardbuilder.dfy | the board builder's parsers, `inDict`, `max_players` |
| `Cells` | cells.dfy | `Cell` |
| `Counting` | counting.dfy | `std::count` and `std::find` on character sequences |
| `Pools` | pools.dfy | `Pool` |
| `Hands` | hands.dfy | `Hand` |
| `Players` | players.dfy | `Player` |
| `Games` | games.dfy | `Game` |
| `Oware` | oware.dfy | Oware's `Source.cpp` |

## Model

| member | source | states |
|---|---|---|
| Text.ReadToken | Scrabble-junior/BoardBuilder/src/boardBuilder.cpp:24-29 | Reading a string from a stream: the token is empty exactly when the input is all whitespace. The token holds no whitespace. The rest of the input is empty or starts with whitespace. |
| Text.ToUpperStr | Scrabble-junior/BoardBuilder/src/boardBuilder.cpp:106-109 | Upper-casing keeps the length. Every lower-case letter becomes its capital and every other character is unchanged. |
| Positions.StepForward | Scrabble-junior/BoardBuilder/src/position.cpp:22-27 | The coordinate along the orientation grows by one; the other coordinate is unchanged. |
| Positions.StepBackwards | Scrabble-junior/BoardBuilder/src/position.cpp:29-34 | The coordinate along the orientation shrinks by one; the other coordinate is unchanged. |
| Positions.StepInverse | Scrabble-junior/BoardBuilder/src/position.cpp:22-34 | Stepping backwards undoes stepping forwards, and the other way round. |
| Positions.Laterals | Scrabble-junior/BoardBuilder/src/position.cpp:36-42 | Both neighbours keep the coordinate along the orientation and lie one cell to either side across it. |
| Positions.Format | Scrabble-junior/BoardBuilder/src/position.cpp:48-51 | A position prints as two characters. For coordinates in 0..25 these are an upper-case row letter followed by a lower-case column letter. |
| Positions.ParsePositionToken | Scrabble-junior/BoardBuilder/src/boardBuilder.cpp:31-46 | A token is accepted exactly when it is two characters, upper case then lower case. The position read is in 0..25 on both axes and prints back as the same token. |
| Positions.FormatRoundTrip | Scrabble-junior/BoardBuilder/src/position.cpp:9-12 | The char constructor, applied to the printed form of a position with coordinates in 0..25, gives back the same position. |
| Words.Placement | Scrabble-junior/BoardBuilder/src/word.cpp:19-25 | Iterating a word yields its letters in order. Letter `i` sits `i` forward steps from the start, and each cell is one forward step after the previous one. |
| Words.OrientationChar | Scrabble-junior/BoardBuilder/include/orientation.h:13-16 | An orientation prints as an upper-case letter, and that letter is 'H' exactly for Horizontal. |
| BoardBuilder.ParseOrientation | Scrabble-junior/BoardBuilder/src/boardBuilder.cpp:51-78 | Only the one-character tokens h/H (Horizontal) and v/V (Vertical) are accepted. The accepted token, upper-cased, is the printed orientation letter. |
| BoardBuilder.ParseWordStr | Scrabble-junior/BoardBuilder/src/boardBuilder.cpp:80-111 | A token is accepted exactly when it is all ASCII letters and at least two long. The result is the token upper-cased, with the same length. |
| BoardBuilder.ParseWordStrIdempotent | Scrabble-junior/BoardBuilder/src/boardBuilder.cpp:106-110 | Parsing a word that is already upper case returns it unchanged, so parsing twice equals parsing once. |
| BoardBuilder.ParseFields | Scrabble-junior/BoardBuilder/src/boardBuilder.cpp:144-154 | A record is accepted exactly when the position, orientation and word parsers all accept and no further token follows. |
| BoardBuilder.ParseRecordAccepts | Scrabble-junior/BoardBuilder/src/boardBuilder.cpp:139-154 | An input line is accepted exactly when it holds three whitespace-separated tokens and the three parsers accept them. A fourth token rejects the line. |
| BoardBuilder.RecordRoundTrip | Scrabble-junior/BoardBuilder/src/word.cpp:27-30 | A word with a start in 0..25 and two or more upper-case letters is written as a board-file record and parsed back to the same word. |
| BoardBuilder.InDict | Scrabble-junior/BoardBuilder/src/boardBuilder.cpp:209-220 | The word is found exactly when some whitespace-separated token of the dictionary, upper-cased, equals it. |
| BoardBuilder.MaxPlayers | Scrabble-junior/BoardBuilder/src/boardBuilder.cpp:121 | The result is the largest count of at most 4 players that can each get 7 letters. |
| Cells.NewCell | Scrabble-junior/ScrabbleJunior/src/cell.cpp:10-16 | A new cell holds the given letter and has every flag false. |
| Cells.AllowMove | Scrabble-junior/ScrabbleJunior/src/cell.cpp:18-25 | The cell becomes coverable and propagates along the given orientation. The other flag, the letter and `covered` are unchanged. |
| Cells.Cover | Scrabble-junior/ScrabbleJunior/src/cell.cpp:27-30 | The cell is covered and no longer coverable; the letter and propagation flags are unchanged. |
| Cells.SetLetter | Scrabble-junior/ScrabbleJunior/src/cell.cpp:36-39 | Only the letter changes. |
| Cells.CoveredIsMonotone | Scrabble-junior/ScrabbleJunior/src/cell.cpp:18-39 | No sequence of cell operations uncovers a covered cell. |
| Cells.LetterOnlyBySetLetter | Scrabble-junior/ScrabbleJunior/src/cell.cpp:18-39 | The letter of a cell changes only through `setLetter`. |
| Pools.IsEmpty | Scrabble-junior/ScrabbleJunior/src/pool.cpp:27-33 | The pool is empty exactly when its size is 0. |
| Pools.PopLetter | Scrabble-junior/ScrabbleJunior/src/pool.cpp:8-12 | Popping a non-empty pool returns its last letter and leaves the rest in order, one shorter, with no letter lost. |
| Pools.ExchangeOne | Scrabble-junior/ScrabbleJunior/src/pool.cpp:14-16 | The front letter is handed out and the given letter takes its place. The other positions and the size are unchanged. |
| Pools.ExchangeTwo | Scrabble-junior/ScrabbleJunior/src/pool.cpp:18-21 | The two front letters are handed out and the given letters take their places, in order. The rest is unchanged. |
| Pools.Shuffle | Scrabble-junior/ScrabbleJunior/src/pool.cpp:23-25 | Whatever the random choices, the shuffled pool has the same size and the same multiset of letters. |
| Hands.NewHand | Scrabble-junior/ScrabbleJunior/src/hand.cpp:10-12 | A new hand has seven slots, all holding the empty marker, and counts zero of every other letter. |
| Hands.IsFull | Scrabble-junior/ScrabbleJunior/src/hand.cpp:18-21 | A hand is full exactly when no slot holds the empty marker. |
| Hands.Refill | Scrabble-junior/ScrabbleJunior/src/hand.cpp:23-33 | Occupied slots keep their letters. Empty slots are filled in index order, each from the pool's current last letter, until the pool runs out. The pool loses min(empty slots, pool size) letters from its back. The letters of hand plus pool are unchanged. |
| Hands.RefillFullOrDrained | Scrabble-junior/ScrabbleJunior/src/hand.cpp:23-33 | After a refill from a pool without empty markers, the hand is full or the pool is empty. |
| Hands.ExchangeOne | Scrabble-junior/ScrabbleJunior/src/hand.cpp:35-39 | The first slot holding the letter trades with pool position 0. All other slots and pool positions are untouched, both sizes are kept, and so is the multiset of hand plus pool. |
| Hands.ExchangeSlots | Scrabble-junior/ScrabbleJunior/src/hand.cpp:41-54 | The two traded slots are distinct and hold the requested letters. The first is the first occurrence. The second is the first occurrence of the second letter, or, for a repeated letter, the next occurrence after the first. |
| Hands.ExchangeTwo | Scrabble-junior/ScrabbleJunior/src/hand.cpp:41-61 | The two slots trade with pool positions 0 and 1. Nothing else changes, and the multiset of hand plus pool is kept. |
| Hands.HasLetter | Scrabble-junior/ScrabbleJunior/src/hand.cpp:63-65 | The hand has the letter exactly when some slot holds it. |
| Hands.CountLetter | Scrabble-junior/ScrabbleJunior/src/hand.cpp:67-69 | The count is the letter's multiplicity in the hand. |
| Hands.HasLetterIffCounted | Scrabble-junior/ScrabbleJunior/src/hand.cpp:63-69 | `hasLetter` holds exactly when `countLetter` is positive. |
| Hands.UseLetter | Scrabble-junior/ScrabbleJunior/src/hand.cpp:71-74 | Exactly the first slot holding the letter becomes empty and all others are unchanged. An absent letter leaves the hand unchanged. A used letter leaves the hand's letters as one fewer of it. |
| Hands.UseLetterCounts | Scrabble-junior/ScrabbleJunior/src/hand.cpp:71-74 | Using a held letter lowers its count by one and leaves every other letter's count unchanged. |
| Hands.Format | Scrabble-junior/ScrabbleJunior/src/hand.cpp:76-82 | A hand prints as each slot followed by a space. |
| Players.NewPlayer | Scrabble-junior/ScrabbleJunior/src/player.cpp:3-6 | A new player has the given id, score 0 and a hand of seven slots holding no letters. |
| Players.AddScore | Scrabble-junior/ScrabbleJunior/src/player.cpp:24-26 | The score grows by exactly the points given and never decreases. The id and hand are unchanged. |
| Games.NewGame | Scrabble-junior/ScrabbleJunior/src/game.cpp:10-22 | The players get ids 1..n in order, no points and empty hands. The pool holds the given letters, the first player is current, and two moves are left. |
| Games.GetTurnState | Scrabble-junior/ScrabbleJunior/src/game.cpp:54-78 | Each state holds exactly when its row is the first one of the decision table to match. |
| Games.GetWinnersId | Scrabble-junior/ScrabbleJunior/src/game.cpp:37-52 | The result is the non-empty leading run of ids whose score equals the first player's. On players sorted by decreasing score, these are exactly the players with the top score. |
| Games.GetCheckLegalMove | Scrabble-junior/ScrabbleJunior/src/game.cpp:206-234 | Must-play-twice holds exactly on a turn's first move when the board reports the edge case. The check then accepts exactly the listed positions. Otherwise it accepts a coverable cell whose letter the hand holds. |
| Games.EdgeCaseOnlyOnFirstMove | Scrabble-junior/ScrabbleJunior/src/game.cpp:209-216 | On a turn's second move, the board's must-play-twice analysis has no influence on the check. |
| Games.ParsePosition | Scrabble-junior/ScrabbleJunior/src/game.cpp:236-273 | A line is accepted exactly when it holds one token, an upper-case letter followed by a lower-case one. The result is the position those letters name. |
| Games.ValidateMove | Scrabble-junior/ScrabbleJunior/src/game.cpp:275-315 | A move is accepted exactly when all of these hold: the position is in limits; the cell has a letter, is not covered and is coverable; the hand holds the letter; and, under must-play-twice, the check accepts the position. |
| Games.ValidatedMoveIsLegal | Scrabble-junior/ScrabbleJunior/src/game.cpp:300-312 | Every validated move also passes the legality check that the turn computed. |
| Games.Move | Scrabble-junior/ScrabbleJunior/src/game.cpp:317-336 | One move fewer is left. The current player uses the letter and scores one point per completed word. Everyone and everything else is unchanged. |
| Games.MoveSpendsLetter | Scrabble-junior/ScrabbleJunior/src/game.cpp:317-322 | A move takes exactly one copy of the played letter out of the letters held in all hands and the pool. |
| Games.ValidateExchangeOne | Scrabble-junior/ScrabbleJunior/src/game.cpp:360-374 | A letter is accepted exactly when it is in A-Z and in the current hand. |
| Games.ValidExchangeOneIsPossible | Scrabble-junior/ScrabbleJunior/src/game.cpp:192-197 | In the exchange-one state, a validated letter meets the hand's precondition for the exchange. |
| Games.ValidateExchangeTwo | Scrabble-junior/ScrabbleJunior/src/game.cpp:410-451 | Two letters are accepted exactly when both are in A-Z and the hand holds either two of a repeated letter or each of two different letters. |
| Games.ValidExchangeTwoIsPossible | Scrabble-junior/ScrabbleJunior/src/game.cpp:182-187 | In the exchange-two state, validated letters meet the hand's precondition for the exchange. |
| Games.ExchangeOne | Scrabble-junior/ScrabbleJunior/src/game.cpp:376-385 | The current hand becomes the exchanged hand, and the pool is a rearrangement of the exchanged pool. Nothing else changes, and the letters of all hands plus the pool are kept. |
| Games.ExchangeTwo | Scrabble-junior/ScrabbleJunior/src/game.cpp:453-462 | As for one letter, with two letters traded. The letters of all hands plus the pool are kept. |
| Games.RefillCurrent | Scrabble-junior/ScrabbleJunior/src/game.cpp:467-483 | The current hand is refilled exactly when it is not full, the game is not over and the pool is not empty. Otherwise the game is unchanged. The letters of all hands plus the pool are kept. |
| Games.NextTurn | Scrabble-junior/ScrabbleJunior/src/game.cpp:464-488 | The hands and the pool are exactly those the conditional refill of the current player leaves. Two moves are left, the next player (modulo the player count) is current, and no letter is gained or lost. |
| Games.Advance | Scrabble-junior/ScrabbleJunior/src/game.cpp:484-486 | Passing the turn keeps every hand and the pool, gives two moves, and makes the next player (modulo the player count) current. |
| Games.NextIndex | Scrabble-junior/ScrabbleJunior/src/game.cpp:485-486 | Incrementing the index and resetting it to 0 at the player count is the successor modulo the player count, so the index stays in range. |
| Oware.Reset | Oware/Project_oware/Source.cpp:72-83 | Every pit holds 4 seeds. Both scores are 0, player 0 moves and it is turn 1. The total of seeds is 48. |
| Oware.Origin | Oware/Project_oware/Source.cpp:408 | The house handed to `play` is the chosen place, shifted by six for player 1. |
| Oware.ValidChoiceIsOwnPit | Oware/Project_oware/Source.cpp:386-408 | An accepted place names a non-empty pit on the mover's own side. |
| Oware.VisitsAsWritten | Oware/Project_oware/Source.cpp:248-263 | The houses the sowing loop writes to, seed by seed: each one is the written cursor step applied to the previous one. |
| Oware.AsWrittenOverrunsBoard | Oware/Project_oware/Source.cpp:251-262 | From house 12 with 12 seeds, the written cursor reaches house 13, one past the end of the board. |
| Oware.NextPit | Oware/Project_oware/Source.cpp:251-260 | The corrected cursor always lands on a house in 1..12 other than the origin. |
| Oware.NextPitRepairsStep | Oware/Project_oware/Source.cpp:251-260 | The corrected cursor agrees with the written step whenever that step stays on the board. The written step leaves the board only from house 11 with origin 12, where the corrected one wraps to house 1. |
| Oware.StepAsWrittenAgrees | Oware/Project_oware/Source.cpp:251-260 | For every origin other than house 12, the written step and the corrected step coincide. |
| Oware.SowFrom | Oware/Project_oware/Source.cpp:248-263 | The origin receives no seed, and once a seed has been sown the last one lands on a house other than the origin. |
| Oware.SowFromAdds | Oware/Project_oware/Source.cpp:248-263 | Sowing n seeds adds exactly n seeds to the board. |
| Oware.SowFromCounts | Oware/Project_oware/Source.cpp:248-263 | Each pit gains exactly one seed per cursor step that lands on it. |
| Oware.SowFromEndsAt | Oware/Project_oware/Source.cpp:248-263 | The last seed falls into the house the cursor reaches after n steps. |
| Oware.CursorLands | Oware/Project_oware/Source.cpp:251-260 | n cursor steps from the house of seed j reach the house of seed j + n: the cursor cycles through the eleven houses other than the origin. |
| Oware.VisitsAreHits | Oware/Project_oware/Source.cpp:251-260 | Counting cursor steps that land on a pit is the same as counting the seeds of that cycle that land on it. |
| Oware.Sow | Oware/Project_oware/Source.cpp:240-263 | After sowing, the origin is empty, the board total is unchanged and no other pit lost seeds. |
| Oware.SowFromAsWrittenAgrees | Oware/Project_oware/Source.cpp:248-263 | While the written cursor stays on the board, the written loop drops every seed where the corrected loop does and ends on the same house. This holds from every origin but 12, and from origin 12 until the cursor must step past house 11. |
| Oware.SowFromAsWrittenOverruns | Oware/Project_oware/Source.cpp:248-263 | From origin 12, once the written cursor has to step past house 11, the loop writes off the board. |
| Oware.SowAsWrittenIsSow | Oware/Project_oware/Source.cpp:240-263 | `play`'s loop overruns the board exactly when 12 or more seeds are sown from house 12. In every other case it yields the board and last house of `Oware.Sow`. |
| Oware.SowLandsAt | Oware/Project_oware/Source.cpp:248-263 | The last of n seeds lands `(n - 1) % 11 + 1` houses past the origin: the seeds cycle through the eleven other houses. |
| Oware.SowDistributes | Oware/Project_oware/Source.cpp:248-263 | Each pit other than the origin gains exactly one seed per time that cycle reaches it. |
| Oware.LastPlaceAgrees | Oware/Project_oware/Source.cpp:245 | With at most 11 seeds, `last_place` is the pit the last seed fell into. |
| Oware.LastPlaceLags | Oware/Project_oware/Source.cpp:245 | With 12 to 22 seeds, `last_place` is the pit just before the one the last seed fell into. |
| Oware.AsWrittenMissesCapture | Oware/Project_oware/Source.cpp:245-268 | Player 0 sows 17 seeds from house 1 of an otherwise empty board. Capture from `last_place` takes nothing, while capture from the actual last pit takes 2 seeds. |
| Oware.CaptureStop | Oware/Project_oware/Source.cpp:205-224 | The capture walk goes backwards from the last pit over opponent pits holding 2 or 3 seeds. It stops at the first pit that is not one. |
| Oware.Capture | Oware/Project_oware/Source.cpp:201-224 | Exactly the pits the walk passes over are emptied and every other pit is unchanged. The seeds removed are the seeds gained. |
| Oware.CaptureKeepsOwnSide | Oware/Project_oware/Source.cpp:205-224 | Capture never changes a pit on the mover's own side. |
| Oware.Credit | Oware/Project_oware/Source.cpp:210-220 | Captured seeds go to the mover's score only, which keeps the total of seeds. |
| Oware.Sweep | Oware/Project_oware/Source.cpp:99-132 | In the sweep branch, the opponent's own pits are emptied into the opponent's score; the total is kept. |
| Oware.TurnLimit | Oware/Project_oware/Source.cpp:153-157 | The game is over once the turn counter reaches 200; nothing else changes. |
| Oware.VerifyGameOver | Oware/Project_oware/Source.cpp:86-157 | The game ends on a score of 25 or more, or 24 each, or on turn 200. Otherwise a mover with seeds left hands over the turn and the turn counter grows. The total is kept, and only player 0's sweep case can fail to return. |
| Oware.AfterSweep | Oware/Project_oware/Source.cpp:93-150 | Called only on the empty board a sweep leaves. The recursive check then fails to return exactly for player 0 when the scores do not end the game; otherwise it leaves the state unchanged apart from the over flag. |
| Oware.SweepRecursion | Oware/Project_oware/Source.cpp:93-150 | On an empty board, the sweep test holds exactly for player 0 and the sweep changes nothing. So that recursion repeats the same call. |
| Oware.NeverDiverges | Oware/Project_oware/Source.cpp:86-150 | With all 48 seeds in play, a sweep always ends the game on score, so `verify_GO` always returns. |
| Oware.FeedBranchStalls | Oware/Project_oware/Source.cpp:93-147 | As written, the feed branch keeps the mover, whose side is empty, as the player to move. The state is unchanged apart from the turn-limit flag, and no place passes the input loop's test (Source.cpp:386-406). |
| Oware.VerifyGameOverFixed | Oware/Project_oware/Source.cpp:93-147 | The corrected check: in the feed branch the opponent moves next and the turn counter grows, with board and scores kept. Every other case is the written check. |
| Oware.FixedFeedBranchCanMove | Oware/Project_oware/Source.cpp:93-147 | With all 48 seeds in play, the player the corrected feed branch hands the turn to has a place the input loop accepts. |
| Oware.FixedNeverDiverges | Oware/Project_oware/Source.cpp:86-150 | With all 48 seeds in play, the corrected check always returns. |
| Oware.Moves | Oware/Project_oware/Source.cpp:240-268 | Corrected sowing followed by capture from the pit the last seed fell into. The total of seeds is kept, and the player, turn and over flag are unchanged. |
| Oware.MovesAsWritten | Oware/Project_oware/Source.cpp:240-268 | `play` and `seed_capture` as written, capturing from `last_place`. The result is undefined exactly when the sowing loop overruns the board; otherwise the total of seeds is kept. |
| Oware.MovesAgree | Oware/Project_oware/Source.cpp:240-268 | With at most 11 seeds sown, the written and the corrected sowing and capture give the same state. |
| Oware.AsWrittenTurnMissesCapture | Oware/Project_oware/Source.cpp:245-268 | A whole turn from the 17-seed board: as written, player 0's score stays as it was, while the corrected turn credits 2 seeds. |
| Oware.PlayTurn | Oware/Project_oware/Source.cpp:240-269 | The corrected turn: sowing with `Oware.NextPit`, capture from the actual last pit, and `Oware.VerifyGameOverFixed`. It never overruns the board and keeps the total of seeds. |
| Oware.PlayTurnAsWritten | Oware/Project_oware/Source.cpp:240-269 | One turn of `oware()` as written. It overruns the board exactly when 12 or more seeds are sown from house 12; when it settles, it keeps the total of seeds. |
| Oware.PlayTurnConserves | Oware/Project_oware/Source.cpp:240-269 | From a board holding all 48 seeds, a corrected turn always completes and keeps 48 seeds. |
| Oware.PlayTurnAsWrittenConserves | Oware/Project_oware/Source.cpp:240-269 | From a board holding all 48 seeds, a written turn either overruns the board or completes with 48 seeds; it never diverges. |
| Oware.GamesKeepAllSeeds | Oware/Project_oware/Source.cpp:423-429 | In every corrected game started by `reset`, every sequence of choices leaves 48 seeds between board and scores. |
| Oware.RunAsWrittenConserves | Oware/Project_oware/Source.cpp:423-429 | A written game from any 48-seed state never diverges. If it does not overrun the board, it ends with 48 seeds. |
| Oware.GamesAsWrittenKeepAllSeeds | Oware/Project_oware/Source.cpp:423-429 | Every written game from `reset` either overruns the board at some turn or keeps all 48 seeds. |
| Oware.StalledRunStaysPut | Oware/Project_oware/Source.cpp:386-406 | Once the player to move has an empty side, as after the written feed branch, the game loop accepts no further place and the state never changes. |

## Left out

- The Scrabble Junior `Board` algorithms are not part of this model. These are `hasMove`, `cover`, `propagate`, `mustPlayTwiceEdgeCase`, `isFullyCovered`, `getNextUncoveredCell`, and the board builder's `addWord`, `isWordValid`, `loadWords` and `writeData`. Only their headers exist here. Their results enter as parameters: a has-move flag, a cell snapshot, the edge-case flag with its list of positions, an over flag and a completed-word count.
- Console input and output are not modelled: prompts, `getline`, colours, cursor moves, delays, the displayers, `draw_Board`, both `main` functions, `Game::playLoop`, the loop of `BoardBuilder::run` and `saveToFile`. Only the checks and state changes they call are modelled.
- `Game::parseLetter` and `Game::parseLetters` are not modelled. The validators take the letters as already read and upper-cased.
- `Game::play` is modelled only through its parts. Its initial shuffle and first refill of each hand are `Pools.Shuffle` and `Hands.Refill`. The final `stable_sort` by score is the `Games.SortedByScore` premise of `Games.GetWinnersId`.
- The `SwapLetterAnimator` callbacks and `Hand::indexOf` are not modelled; they only drive animations.
- The random engine is not modelled. Its choices are the `draws` parameter of `Pools.Shuffle`.
- Error messages are not modelled; only the accept/reject result is kept.
- Win, draw and turn-limit announcements in `verify_GO` are not modelled, and neither are the victory and draw counters. The hint output of the feed branch is also left out; that branch leaves the state unchanged.
- `Players.AddScore`: scores are unbounded naturals. The wrap-around of the `unsigned int` score is not modelled, because at most one point per word on the board is ever added.
- `BoardBuilder.ParseWordStr`: tests for ASCII letters. The source passes the `int` result of `isalpha` through a `(char)` cast, and whether a non-zero result survives that cast depends on the C library.
- Oware pit counts, scores and the turn counter are naturals. The source's `int`s never go negative or near their limits in a game of 48 seeds.
- ScrabbleJunior's `word.cpp` and BoardBuilder's `cell.cpp` are plain accessors; `Words.Word` and `Cells.Cell` subsume them. The getters of `Cell`, `Player`, `Position` and `Word` are datatype fields.

## Findings

| source | as written | input that shows it | evidently intended | confidence | as-written member | corrected member |
|---|---|---|---|---|---|---|
| Oware/Project_oware/Source.cpp:251-262 | After stepping onto the origin, the cursor is moved once more without wrapping. | Player 1 chooses place 6 (house 12) holding 12 or more seeds. The twelfth seed is written to `board[12]`, past the end of the array. | The skip wraps from house 12 to house 1, like the ordinary step. | high; not executed | Oware.AsWrittenOverrunsBoard | Oware.NextPit |
| Oware/Project_oware/Source.cpp:245 | `last_place` is `(starting_place - 1 + seeds) % 12`, as if no pit were skipped. | Player 0 sows 17 seeds from house 1 of an otherwise empty board. The last seed lands in pit 6, which then holds 2. Capture starts at pit 5 and takes nothing. | Capture starts at the pit the last seed actually fell into. | high; not executed | Oware.AsWrittenMissesCapture | Oware.SowLandsAt |
| Oware/Project_oware/Source.cpp:106-113 | When the mover's side is empty and the opponent can feed it, `verify_GO` only prints which houses the opponent has to play. `current_player` is left unchanged. | Player 0's move empties its own side while player 1 still has a feeding house. `oware()` then asks player 0 for a place, and the input loop accepts none of 1..6. | The opponent named by the hint moves next, as in the ordinary hand-over. | high; not executed | Oware.FeedBranchStalls | Oware.FixedFeedBranchCanMove |

The game is modelled twice. `Oware.PlayTurn`, `Oware.Run` and `Oware.GamesKeepAllSeeds` play the corrected game: sowing with `Oware.NextPit`, capture from the house `Oware.Sow` returns, and `Oware.VerifyGameOverFixed`. `Oware.PlayTurnAsWritten`, `Oware.RunAsWritten` and `Oware.GamesAsWrittenKeepAllSeeds` play the game as written, with the overrun as the `OutOfBounds` outcome.
