# Battleship: probability-targeting opponent and turn rules

A Dafny model of the core of a browser Battleship game: the opponent that
picks its shots from a probability-density map (ai.js, `ProbabilityAI` and
`shuffle`), and the turn rules of the `Game` class (game.js). Boards are
`array2<int>` values holding EMPTY (0), HIT (-1), MISS (-2) or a ship id
1..5. The opponent's status board holds UNVISITED (0), HIT (-1) or
MISS_SUNK (-2).

Modules, one per concern:

- `Config` (config.dfy): the constants, the ship catalogue and `SIZES`, and `NUM_SHIP_CELL` as the sum of the sizes.
- `Boards` (boards.dfy): snapshots of a board and its summary.
  - The summary stands for `getBoardState`, which is not shown. It is the multiset of the cell values: the game only reads `state[v].length`, the number of cells holding `v`.
  - Also here: writing one cell, and counting over values.
- `Targeting` (targeting.dfy): the opponent.
  - `CheckHorizontal` and `CheckVertical` are the two placement tests, with their loops.
  - `selectTarget`'s triple loop is split into one method per loop level: `DensityMap`, `AddRowPlacements` and `AddAnchorPlacements`. Each is specified by a function that sums placement weights in the same visiting order: `BoardWeight`, `RowWeight` and `AnchorWeight`.
  - Also here: `FindMaxCell`, `UpdateHit`, `UpdateSink` and `Shuffle`.
- `Knowledge` (knowledge.dfy): how the player's board, the placement of the player's ships and the opponent's knowledge agree with each other. It proves that one shot or one sink report keeps them consistent.
- `Sides` (sides.dfy): the per-side conditions a game keeps between turns, and their initial establishment.
- `Rules` (game.js → game.dfy): the `Game` class and its actions and refreshes.
  - `refreshPlayerView`'s loop is `ForwardSinks`, and one pass of it is `ForwardSink`.
  - The play loop's body is split at its natural points: the player's shot (`PlayerShot`), the opponent's reply (`Respond`), and the two refreshes (`Refresh`, `FinishTurn`).
- `Play` (play.dfy): one pass of `start`'s play loop (`Turn`).

The invariant kept between turns has several parts:
- The boards are well formed.
- HIT cells plus remaining ship cells add up to `NUM_SHIP_CELL` on each board.
- The summaries are up to date.
- The opponent counts a ship as alive exactly while the player's summary has cells of it.
- The sink announcements name exactly the sunk ships, once each.
- The opponent's status board agrees with the player's board and with the (ghost) placement of the player's ships.

From this agreement the model proves that a cell of maximal density is one the opponent has not visited, as long as the player still has a ship cell. So the "AI has chosen a previously selected cell" warning of `opponentAction` is never reached. It also proves that `shipCoords` only logs real hits.

Randomness is a nondeterministic choice (`:|`): the index of `findMaxCell`'s random pick, and `shuffle`'s `j`. Sink and winner announcements are recorded as ghost sequences (`playerSinks`, `enemySinks`, `winners`).

## Model

| member | source | states |
|---|---|---|
| Config.NumShipCell | game.js:29 | `NUM_SHIP_CELL`, the sum of the ship sizes, is 17 |
| Config.ShipsAreDistinct | game.js:7-12 | the catalogue lists each ship id once, and its members are exactly the ship ids |
| Boards.SummaryHas | game.js:130-131 | the board summary counts a value exactly when some cell of the board holds it |
| Boards.WriteCell | game.js:42 | writing one cell changes that cell only, and the summary trades one occurrence of the old value for one of the new |
| Targeting.ProbabilityAI.constructor | ai.js:35-53 | a fresh opponent: every ship alive in catalogue order, every status cell UNVISITED, every ship's hit log empty, invariant established |
| Targeting.ProbabilityAI.CheckHorizontal | ai.js:56-69 | the density board gains exactly the horizontal placement's weight in every cell: nothing if the span runs off the row or crosses MISS_SUNK, otherwise 1 + 8 per HIT cell in the span, added to each UNVISITED cell of the span, and 0 elsewhere |
| Targeting.ProbabilityAI.CheckVertical | ai.js:72-85 | the same for the vertical placement, with multiplier 8^(HIT cells in span) on each UNVISITED cell of column j0 in the span |
| Targeting.Density | ai.js:111-120 | every density value is at least 0, and a cell that is not UNVISITED has density 0 |
| Targeting.BoardWeight | ai.js:113-120 | the weight accumulated over the rows of anchors visited so far is non-negative and 0 on non-UNVISITED cells |
| Targeting.ProbabilityAI.AddAnchorPlacements | ai.js:115-118 | the density board gains, in every cell, the weights of both orientations of every listed ship anchored at (i, j) |
| Targeting.ProbabilityAI.AddRowPlacements | ai.js:114-119 | the density board gains, in every cell, the weights of all placements anchored in row i |
| Targeting.ProbabilityAI.DensityMap | ai.js:111-120 | the fresh density board holds the density of every cell for the current status board and alive ships |
| Targeting.DensityPositive | ai.js:110-120 | an UNVISITED cell covered by a fitting placement of an alive ship has positive density |
| Targeting.ProbabilityAI.FindMaxCell | ai.js:88-107 | the candidate list is exactly the cells holding the board's maximum, in row-major order, and the picked cell is one of them, with no cell larger |
| Targeting.ProbabilityAI.SelectTarget | ai.js:110-123 | the target is on the grid and of maximal density; if that density is positive, the target is UNVISITED |
| Targeting.ProbabilityAI.UpdateHit | ai.js:125-133 | a hit sets the cell to HIT and appends (i, j) to that ship's log; a miss sets it to MISS_SUNK; no other cell, log or alive ship changes |
| Targeting.IndexOf | ai.js:137 | `indexOf` of a present element is the position of its first occurrence |
| Targeting.RemoveFirst | ai.js:137 | `splice(indexOf(s), 1)` removes exactly one occurrence of s: one element fewer and the same multiset less s; without repetitions, s is gone and every other element stays |
| Targeting.ProbabilityAI.UpdateSink | ai.js:135-142 | the ship leaves the alive ships (one occurrence), every logged cell of it becomes MISS_SUNK, every other cell and the logs are unchanged |
| Targeting.Shuffle | ai.js:23-31 | the array afterwards is a permutation of the array before (same multiset, same length) |
| Knowledge.ShotKeepsCounts | game.js:38-58 | each shot either action makes (EMPTY or MISS to MISS, ship or HIT to HIT) keeps HIT cells plus ship cells equal to `NUM_SHIP_CELL`, so the HIT count never exceeds it; no ship's count grows; one more cell is resolved exactly when the old value was unresolved |
| Knowledge.AgreementAfterShot | game.js:50-58 | the opponent's shot at an unresolved cell, reported through `updateHit` with the hit flag and the old cell value, keeps the board, the placement and the opponent's knowledge in agreement |
| Knowledge.AgreementAfterSink | ai.js:135-142 | forwarding a sink of an alive ship (its logged hits become MISS_SUNK, it leaves the alive ships) keeps the agreement |
| Knowledge.InitialAgreement | ai.js:45-52 | a supplied board and a fresh opponent agree |
| Knowledge.PlacementOpen | game.js:53-55 | a cell still holding an alive ship's id is UNVISITED for the opponent, and no cell of that ship's placement is MISS_SUNK |
| Sides.InitialSides | game.js:109-115 | right after set-up, with a fresh opponent, every per-side condition of the invariant holds with empty announcement logs, and neither board has a HIT cell |
| Rules.ParseCellName | game.js:35-36 | the selection parses as row = letter − 'A', column = digit, and parsing is inverse to naming a cell |
| Rules.SunkShipsMembers | game.js:64-68 | a ship is reported sunk exactly when it is in the catalogue and its count goes from positive to zero |
| Rules.SunkShipsDistinct | game.js:64-68 | no ship is reported twice in one refresh |
| Rules.SinksAfterRefresh | game.js:84-89 | appending a refresh's sunk ships to the earlier announcements keeps them, once each, exactly the ships with no cell left |
| Rules.SinkMarks | ai.js:138-141 | the cells `updateSink` marks are exactly the ship's logged hits: those become MISS_SUNK and every other status cell keeps its value |
| Rules.Game.constructor | game.js:103-115 | a game over two supplied boards starts with a fresh opponent, up-to-date summaries, empty logs, the invariant and nobody having won |
| Rules.Game.PlayerAction | game.js:33-45 | a resolved target cell is rejected (false) and the board is untouched; otherwise the cell becomes MISS if it was EMPTY and HIT if it held a ship, true is returned, no other cell changes, conservation holds, and one more cell is resolved |
| Rules.Game.PlayerShot | game.js:120-126 | the selection is accepted exactly when its cell of the opponent's board is unresolved; that cell then becomes MISS if it was EMPTY and HIT if it held a ship, a rejected cell keeps its value, and every other cell stays; after a rejection the invariant holds and the player's board and the opponent are untouched; after an acceptance all of the invariant but the opponent's summary holds; one more cell is resolved exactly on acceptance |
| Rules.Game.ChooseTarget | game.js:50 | while the player has a ship cell left, the chosen target is of maximal density and UNVISITED for the opponent |
| Rules.Game.ProductiveTarget | game.js:53-55 | while the player has a ship cell left, some cell has positive density |
| Rules.Game.ShootAt | game.js:51-58 | the target was unresolved; the cell becomes MISS if it was EMPTY (or MISS) and HIT otherwise; the opponent's status cell and hit log change as `updateHit` with hit = (result is HIT) and ship = the old value; the agreement is kept and no ship's count grows |
| Rules.Game.OpponentAction | game.js:48-59 | the same for the shot selected by `selectTarget`, which is an unresolved cell of maximal density in the opponent's view before the shot |
| Rules.Game.RefreshOpponentView | game.js:62-79 | announces exactly the opponent ships that sank this turn, adopts the new summary, and returns true iff the HIT count equals `NUM_SHIP_CELL`, announcing the player as winner then |
| Rules.Game.ForwardSink | game.js:85-88 | one ship: if its count went from positive to zero, the opponent drops it from its alive ships (it was alive), its logged hits become MISS_SUNK and the sink is announced; otherwise the alive ships, the announcements and the status board stay; the hit logs never change |
| Rules.Game.ForwardSinks | game.js:84-89 | `updateSink` is applied exactly to the ships whose count went from positive to zero: the alive ships follow the new summary, the logged hits of exactly those ships become MISS_SUNK with no other status cell or log changed, and the announcements grow by those ships in catalogue order |
| Rules.Game.RecordPlayerState | game.js:91-99 | adopts the new summary and returns true iff its HIT count equals `NUM_SHIP_CELL`, announcing the opponent as winner then |
| Rules.Game.RefreshPlayerView | game.js:82-100 | forwards and announces exactly the player ships that sank (their logged hits become MISS_SUNK, nothing else on the status board or in the logs changes), keeps the opponent's knowledge in agreement, adopts the new summary and returns true iff the HIT count equals `NUM_SHIP_CELL`, announcing the opponent then |
| Rules.Game.Refresh | game.js:130-140 | after both shots: the opponent ships that sank are appended to the announcements, which stay exact; if the player has won, the opponent's summary is current with HIT count `NUM_SHIP_CELL`, the player is announced, and the player-side summary, its announcements, the opponent's status board and its alive ships are unchanged; otherwise the player ships that sank are appended and their logged hits become MISS_SUNK (no other status cell or log changes), the invariant is restored, and the opponent's win, if any, is announced |
| Rules.Game.FinishTurn | game.js:137-140 | the player-side refresh once the player has not won: the opponent side and its announcements are untouched; the player ships that sank are appended to the announcements and their logged hits become MISS_SUNK, with no other status cell or log changed; the invariant is restored; the outcome is Continue (nobody at `NUM_SHIP_CELL`) or AiWon (the opponent announced) |
| Rules.Game.Respond | game.js:127-140 | after an accepted player shot: the opponent fires at a target that was unresolved and of maximal density in its view, that cell of the player's board becomes MISS or HIT and no other changes, and one more cell of it is resolved; the hit logs end as the shot left them (the target appended to the log of the ship hit); the opponent's board is untouched; the opponent ships that sank are appended to the announcements, which stay exact; on PlayerWon the status board is the one the shot left, the opponent's alive ships are unchanged, the opponent's summary is current with HIT count `NUM_SHIP_CELL`, the player is announced, and the player-side summary and announcements are unchanged; otherwise the status board is the one the shot left with the logged hits of exactly the player ships that sank turned MISS_SUNK, those ships are appended to the announcements, and the invariant holds, ending in Continue (nobody has won) or AiWon (the opponent announced) |
| Rules.Game.OpponentShot | game.js:127 | the opponent's shot within a turn: the target was unresolved and of maximal density in the opponent's view before the shot; that cell of the player's board becomes MISS if it was EMPTY (or MISS) and HIT otherwise, and no other cell changes; the opponent's status cell becomes MISS_SUNK on an EMPTY cell and HIT on a ship cell, and on a ship cell the target is appended to that ship's hit log, with no other status cell or log changed; one more cell is resolved; the opponent's alive ships are unchanged; the per-side conditions hold with both summaries now lagging |
| Play.Turn | game.js:120-140 | one pass of the play loop: it is a Retry exactly when the selected cell was already resolved, and then neither board, the opponent nor any announcement changes; otherwise the selected cell becomes MISS or HIT and no other cell of the opponent's board changes, the opponent fires at a cell that was unresolved and of maximal density in its view, which becomes MISS or HIT with no other cell of the player's board changed, the opponent's status board and hit logs end as `Respond` states (the shot recorded, then the sunk player ships' logged hits turned MISS_SUNK unless the player has won, in which case the opponent's alive ships are unchanged too), the sunk ships of both sides are appended to the announcements (the player's only if the player has not won), and the pass ends in Continue (invariant kept, nobody has won), PlayerWon or AiWon, with the winner announced exactly in the last two |

## Left out

- main.js (the DOM, rendering, click handlers) is not part of this model. Also left out: `render`, `displaySink`, `displayWinner`, `toggleButtons`, `endGame` and the `settings` global. Sink and winner announcements are kept only as ghost logs.
- `randomBoard`, `emptyBoard` and `getBoardState` are not shown in the source.
  - Boards are supplied to the `Game` constructor. Both are well formed: every cell is EMPTY or a ship id, and each ship id occupies exactly its length in cells. Only the player's board also comes with a ghost placement, along which each ship covers exactly its length.
  - The density board starts all zero.
  - A summary is the multiset of cell values.
- The `ComputerLogic` factory and the `AI` base class are trivial and are not modelled. The game holds a `ProbabilityAI` directly.
- `start`'s `async` polling for a selection and its pacing delays have no effect on state. The play loop is modelled as one pass per call (`Play.Turn`) with the selection as a parameter, so `while (true)` itself is not a Dafny loop.
- `console.log` warnings are left out. The one in `opponentAction` is proved unreachable.
- The `Game` constructor also does `start`'s set-up (creating the opponent, taking both summaries). `progressState` is never used and is left out.
- The two boards and the opponent are assigned once, in that set-up, and never replaced, so they are `const` fields of `Game`; the opponent's `statusBoard`, created by its constructor, is a `const` field too. Their cells, and the opponent's other fields, change in place.
- In `start` the player-side summary is taken before `refreshOpponentView`. In the model it is taken after, which gives the same value: that refresh does not touch the player's board.
- JavaScript numbers are doubles. Every value here is a small integer (densities stay below 2^53), so unbounded `int` is used.
- MISS_SUNK and MISS are both -2, and the opponent's HIT is the game's HIT.
- Rules.ParseSelection: requires a row letter A–J and a column digit. In the source, any other string reaches the board with an out-of-range index. Selections come only from clicks on board cells, in main.js.
- Targeting.ProbabilityAI.UpdateHit: requires a ship id whenever `hit` is true. In the source, `opponentAction` passes the old cell value, and a repeated shot at a HIT cell would reach `shipCoords[HIT].push`, which throws. The model proves that the opponent only fires at unresolved cells, so the game never makes that call.
- Targeting.ProbabilityAI.UpdateSink: requires the ship to be alive. On an absent ship the source's `splice(-1, 1)` would drop the last alive ship. The model proves the game only forwards sinks of alive ships.
- Rules.Game.OpponentAction: requires the invariant and a player ship cell left. With those, the "AI has chosen a previously selected cell" branch of the source is never taken, so its re-resolution of a resolved cell in place is not modelled.
- Play.Turn: requires that nobody has won yet. The play loop stops after a win, so no further pass runs.
- Targeting.ProbabilityAI.FindMaxCell: the list of maximal cells is a ghost out-parameter. The cell is picked from it by a nondeterministic choice instead of `Math.random`.
