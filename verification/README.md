# Battleship rules engine

A model of the rules engine inside the `BattleshipGame` class of a two-player,
hot-seat Battleship game for the browser.

## The game

Each player owns a 10×10 board of integer cell codes:

| code | meaning |
|---|---|
| `0` | empty water |
| `1..5` | an intact segment of a ship of that size |
| `-1` | a miss |
| `-2` | a hit |
| `-3` | a segment of a sunk ship |

Each player also has:

- a count, per ship size, of the ships still to place, starting at one 5, one 4, two 3s, three 2s and four 1s;
- the list of placed ships, each with its size, its cells and its hits.

The game itself holds:

- the current player;
- the phase: placement, battle or ended;
- the selected ship size and the orientation used for placing;
- a log of events.

## How it is organised

- `board.dfy` (module `Board`) holds board geometry as values:
  - cell codes and grids;
  - the cells a ship covers;
  - the placement rule. A ship's cells must be on the board and empty, and no in-bounds neighbour of a cell may be occupied. Diagonal neighbours count. The ship's own cells are exempt from the neighbour test.
- `fleet.dfy` (module `Fleet`) holds the ship records:
  - the search for the ship covering a cell;
  - the strike of an intact segment;
  - the fleet invariant `FleetOk`. It ties a board to its ships: the ships are well formed and pairwise apart; every ship cell shows the ship's size or an attack mark; each ship's hit counter equals its damaged cells; every intact segment on the board belongs to a ship.
- `rules.dfy` (module `Rules`) defines the whole game state as a `GameState` value. Each command is a pure function on that state:
  - `Place`, `Finish`, `StartBattle`, `Attack`, `EndGame` and `Click`;
  - `SelectShip` and `Rotate`.
- `properties.dfy` (module `Properties`) holds lemmas about those functions:
  - the invariant survives every command;
  - the effect of each kind of shot and the turn-pass rule;
  - the only way a game ends;
  - the order of phases;
  - the totals of a complete fleet.
- `battleship.dfy` (module `Battleship`) holds the class `BattleshipGame`:
  - its boards are `array2<int>` fields written in place;
  - the remaining fields are the source's fields, with maps keyed by player;
  - each public command (the constructor, `PlaceShip`, `FinishPlacement`, `StartBattle`, `MakeAttack`, `HandleCellClick`, `SelectShip`, `Rotate` and `NewGame`) ensures `Model() == F(old(Model()))` for its function `F` in `Rules`, and keeps `Valid()`, the fleet invariant on both boards;
  - the internal steps of those commands (`AddShip`, `MissCell`, `StrikeCell`, `DamageShip` and `EndGame`) state their exact effect on `Model()` and keep the arrays' shape; the commands that call them restore `Valid()`. `AddToLog` and `MarkCells` state their effect on the log and on one board array.

Log messages are modelled as values of the `Event` datatype, one per message, in the same order as the source's messages.

Facts about the code that the model keeps as they are:

- The full fleet `{5: 1, 4: 1, 3: 2, 2: 3, 1: 4}` is 11 ships covering 25 cells (`Properties.PlacedTotals`).
- `placeShip` never checks the count of ships left to place, so `Place` lowers it even when it is already zero, and it can go negative.
- Finishing placement checks neither that placement is complete nor the phase. From an ended game, or in the middle of a battle, with player 2 to move it starts a new battle (`Properties.FinishPhase`).
- An attack does not check the phase. Only the click dispatch does.
- The "already attacked" guard tests only miss and hit. A shot at a sunk cell therefore falls into the miss branch: the cell becomes a miss and the turn passes (`Properties.SunkCellReshotIsMiss`).

## Model

| member | source | states |
|---|---|---|
| Battleship.BattleshipGame.constructor | script.js:2-19 | a new game is exactly `Initial()`: player 1 to place, the size-5 ship selected, horizontal, both boards empty and freshly allocated, both fleets full, nothing placed, an empty log; the invariant holds |
| Battleship.CreateEmptyBoard | script.js:24-26 | returns a fresh 10×10 array whose contents are the empty grid |
| Board.EmptyGrid | script.js:24-26 | the empty grid is 10×10 and every cell is empty |
| Battleship.BattleshipGame.GetShipCells | script.js:176-186 | returns exactly `max(size, 0)` cells; cell i is (row, col + i) when horizontal and (row + i, col) otherwise |
| Board.ShipCellsLine | script.js:176-186 | a ship's cells are pairwise different, and each touches the next |
| Battleship.BattleshipGame.CanPlaceShip | script.js:145-174 | the answer is true exactly when the placement rule `Placeable` holds: all cells on the board and empty, and every in-bounds neighbour that is not one of the cells is empty |
| Battleship.CheckNeighbours | script.js:159-170 | the scan of the nine cells around a cell answers true exactly when no in-bounds neighbour outside the ship is occupied |
| Battleship.PlaceableOnArray | script.js:148-171 | the placement rule read on a board array is the bounds check plus, for every cell, the emptiness test and the neighbour scan |
| Board.PlaceableApart | script.js:153-171 | a ship the rule accepts touches no occupied or attacked cell, diagonally included |
| Properties.PlaceOffBoardRefused | script.js:148-151 | a ship with any cell off the board is refused and the state is unchanged |
| Battleship.BattleshipGame.PlaceShip | script.js:122-143 | the new state is `Place(old)`: the ship is added when the rule allows it and otherwise nothing changes; the invariant is kept |
| Battleship.BattleshipGame.AddShip | script.js:126-138 | the current player's board gets the selected size at exactly the ship's cells, one record with no hits is appended, and the count for that size goes down by one |
| Battleship.MarkCells | script.js:127-129 | the board array afterwards is the old board with every listed cell set to the value and no other cell changed |
| Properties.PlaceEffect | script.js:122-143 | a successful placement changes the current player's board at exactly the ship's cells, setting them to its size. It appends one record with zero hits and takes exactly one off that size's count; every other count, the other player, the turn, the phase and the log are unchanged. A refused placement changes nothing |
| Properties.PlaceKeepsConsistent | script.js:122-143 | placing keeps the fleet invariant, even when the count for the size was already zero |
| Fleet.PlaceKeepsFleet | script.js:126-135 | writing an accepted ship onto the board and appending its record keeps ships apart, marked, tallied and covering every intact segment |
| Properties.PlaceKeepsBalance | script.js:131-138 | ships left to place plus ships placed stays the full fleet, size by size |
| Properties.PlacedTotals | script.js:11-13 | with the fleet balanced, the ships placed and the counts left total 11 ships and 25 segments; with every count zero, exactly 11 ships covering 25 cells are placed |
| Properties.CountsAddUp | script.js:11-13 | the per-size counts of a list of ships add up to its length, and weighted by size to its segments |
| Properties.InitialBalanced | script.js:11-18 | a new game is balanced for both players |
| Properties.InitialConsistent | script.js:7-18 | a new game satisfies the fleet invariant |
| Battleship.BattleshipGame.FinishPlacement | script.js:239-253 | the new state is `Finish(old)`: from player 1, player 2 gets the turn, a full fleet and the size-5 ship selected; from player 2, battle starts; no completeness or phase check |
| Battleship.BattleshipGame.StartBattle | script.js:254-263 | the phase becomes battle, player 1 moves next, one entry is logged; the invariant is kept |
| Properties.PhaseMovesForward | script.js:105-120 | no click moves the phase backwards |
| Properties.FinishPhase | script.js:239-253 | finishing from placement reaches at most battle; with player 2 to move it always gives battle, player 1 to move and one battle-start entry, so from an ended game the phase goes back to battle |
| Properties.FinishKeepsBalance | script.js:239-245 | finishing keeps both fleets balanced when player 2 has placed nothing before the hand-over, since player 2's counts are reset to the full fleet |
| Rules.HasShipsLeft | script.js:219 | with every size present, no ships left means no count of 1..5 is positive, and a positive count of 1..5 means ships are left |
| Battleship.BattleshipGame.HandleCellClick | script.js:105-120 | the new state is `Click(old)`: placement on the current player's own board while placing, an attack on the opponent's board in battle, nothing otherwise; the invariant is kept |
| Properties.ClickGating | script.js:110-119 | while placing, clicks on the other player's board are ignored; in battle, clicks on the shooter's own board are ignored; after the game ended, all clicks are ignored |
| Properties.ClickKeepsConsistent | script.js:105-120 | every click keeps the fleet invariant |
| Battleship.BattleshipGame.MakeAttack | script.js:264-322 | the new state is `Attack(old)` and the invariant is kept, with no phase check |
| Properties.RepeatShotIgnored | script.js:265-267 | a shot at a miss or a hit changes nothing: boards, ships, log and turn |
| Battleship.BattleshipGame.MissCell | script.js:303-311 | the cell becomes a miss, one entry is logged and the turn passes |
| Properties.MissEffect | script.js:303-311 | a shot at any other cell without an intact segment (water or a sunk cell) makes exactly that cell a miss, logs one entry and passes the turn; ships, counts, phase and the other board are unchanged |
| Properties.SunkCellReshotIsMiss | script.js:265-311 | a shot at a sunk cell overwrites it with a miss, logs an entry and passes the turn |
| Fleet.MissKeepsFleet | script.js:303-304 | marking a cell without an intact segment a miss keeps the fleet invariant |
| Battleship.BattleshipGame.StrikeCell | script.js:270-281 | the cell becomes a hit and the ship covering it, if any, is damaged: the new state is `Struck(old)` |
| Battleship.BattleshipGame.DamageShip | script.js:282-295 | the ship takes one more hit; when its hits reach its size every cell of it becomes sunk and a sinking is logged, otherwise a hit is logged |
| Fleet.FindShip | script.js:277-279 | returns the first ship in placement order covering the cell, and returns none exactly when no ship covers it |
| Fleet.OwnerFound | script.js:272-281 | under the invariant, an intact segment belongs to exactly one ship, the one the search finds; the cell shows that ship's size, and the ship has fewer hits than segments |
| Fleet.Disjoint | script.js:153-171 | under the invariant, two different ships share no cell |
| Fleet.StrikeOwner | script.js:277-282 | a strike adds exactly one hit to the owning ship and changes no other ship; sizes and cells stay the same |
| Fleet.StrikeReport | script.js:284-295 | a strike reports a hit or a sinking, and a sinking exactly when the owner's hits reach its size |
| Fleet.StrikeBoard | script.js:272-288 | after a sinking, exactly the owner's cells read sunk; after a hit, exactly the struck cell reads hit; nothing else changes |
| Fleet.StrikeKeepsFleet | script.js:269-296 | striking an intact segment keeps the fleet invariant |
| Fleet.HitKeepsFleet | script.js:274-282 | marking the cell hit and adding one hit to its owner keeps the fleet invariant |
| Fleet.SinkKeepsFleet | script.js:284-288 | marking every cell of a ship whose hits reached its size sunk keeps the fleet invariant |
| Fleet.HitsBounded | script.js:282 | under the invariant, every ship's hits lie between 0 and its size |
| Properties.HitsNeverExceedSize | script.js:282 | in any state satisfying the invariant, no ship of either player has more hits than segments |
| Properties.StruckFrame | script.js:269-296 | a shot at an intact segment leaves the target's board and ships as the strike makes them, and the other player's as they were |
| Properties.HitKeepsTurn | script.js:269-302 | a shot at an intact segment keeps the shooter's turn and leaves the other board unchanged. The log gains the strike's report, followed by a win entry exactly when the target's ships are then all sunk, which is also exactly when the phase becomes ended |
| Properties.TurnPassesOnlyOnMiss | script.js:269-311 | a shot that resolves passes the turn exactly when it is a miss |
| Properties.AttackKeepsConsistent | script.js:264-322 | every shot keeps the fleet invariant, in any phase, on either board |
| Properties.AttackFrame | script.js:264-322 | a shot leaves the counts of ships to place, the selected size, and the other player's board and ships unchanged; a shot without an intact segment changes no ship record |
| Properties.AttackKeepsBalance | script.js:264-322 | shots keep both fleets balanced: no ship is added, removed or resized |
| Properties.GameEndsOnlyByWin | script.js:297-302 | a shot that ends the game leaves all the target's ships sunk, keeps the shooter's turn and logs the shooter as the winner |
| Battleship.BattleshipGame.CheckWin | script.js:324-325 | the answer is whether every placed ship of the target has as many hits as segments; its partner `Fleet.AllSunkIffCleared` shows this is exactly a board with no intact segment |
| Fleet.AllSunkIffCleared | script.js:324-325 | under the invariant, every ship of a player is sunk exactly when their board holds no intact segment |
| Battleship.BattleshipGame.EndGame | script.js:326-329 | the phase becomes ended and the current player is logged as the winner |
| Battleship.BattleshipGame.AddToLog | script.js:473-476 | the log gains exactly the given entry at its end |
| Battleship.BattleshipGame.SelectShip | script.js:63-68 | only the selected size changes; the invariant is kept |
| Battleship.BattleshipGame.Rotate | script.js:72-74 | only the orientation changes, to the other one; the invariant is kept |
| Battleship.BattleshipGame.NewGame | script.js:341-358 | every state field is back to its value in a new game, with fresh boards, and the invariant holds |

## Left out

- DOM construction, event wiring, rendering, transition overlays and the winner announcement are browser output, not game state. This covers `createBoards`, `setupEventListeners`, `initializeGame`, `updateUI`, `updateBoard`, `updateShipStatus`, `getShipStatusHTML`, `getShipName`, `updateGameLog`, `showPlayerTransition`, `showBattleTransition` and `showBattlePlayerTransition`.
- The hover preview (`showShipPreview`, `clearShipPreview`) only colours cells. It reuses the placement rule and changes no state.
- `checkPlacementComplete` is left out. It enables buttons and auto-selects the next available size in DOM order, which the model cannot see. Its `hasShipsLeft` test is the predicate `Rules.HasShipsLeft`, used in `Properties.PlacedTotals`.
- Battleship.BattleshipGame.PlaceShip: does not change the selected size. In the source, a placement that uses up the last ship of the selected size runs `checkPlacementComplete`, which selects the first size still available. In the model the selected size stays as it was, and the player picks the next size with `SelectShip`.
- Properties.PhaseMovesForward: the phase order placement, battle, ended is proved for clicks only. `finishPlacement` has no phase check, so `Finish` follows it only while placing; `Properties.FinishPhase` shows the step back from ended to battle.
- The Portuguese log texts become `Event` values. Each message is one value, in the same order.
- Input parsing is left out. The click dispatch takes integer player, row and column.
- Battleship.BattleshipGame.HandleCellClick: requires the row and column to be on the board, because the page only produces clicks on its 10×10 cells; the same holds for `MakeAttack`.
- Battleship.BattleshipGame.SelectShip: requires a size of 1 to 5, because the only sizes the page offers are those of its five selector buttons.
- The size and orientation buttons are modelled by `SelectShip` and `Rotate`. The model leaves out that they enable and disable buttons.
- Ship records are values stored by index. The source increments `hits` on the record object that `find` returns; since no other reference to a record exists, replacing the record at its index has the same effect.
- The source's early returns in `makeAttack` and `canPlaceShip` are kept in `CanPlaceShip`. In `MakeAttack` they become a single exit. The branch bodies are split into `StrikeCell`, `DamageShip` and `MissCell`.
- The `shipSize` local in `makeAttack` is read but never used, so it is not modelled.
