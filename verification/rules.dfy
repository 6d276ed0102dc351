/** The state of a game and how each command of the engine changes it, as
    pure functions: the specification the `BattleshipGame` class is proved
    against. */
module Rules {
  import opened Board
  import opened Fleet

  datatype Phase = Placement | Battle | Ended

  /** A game log entry; the source writes each as a Portuguese sentence. */
  datatype Event =
    | BattleStarted
    | Missed(attacker: int)
    | HitShip(attacker: int, target: int)
    | SankShip(attacker: int, target: int)
    | Won(winner: int)

  /** Every field of the game object. `boards`, `ships` (ships still to
      place, by size) and `placedShips` are keyed by player 1 and 2. */
  datatype GameState = GameState(
    currentPlayer: int,
    phase: Phase,
    selectedShipSize: int,
    shipDirection: Direction,
    boards: map<int, Grid>,
    ships: map<int, map<int, int>>,
    placedShips: map<int, seq<Ship>>,
    gameLog: seq<Event>)

  predicate IsPlayer(p: int)
  {
    p == 1 || p == 2
  }

  /** The opponent of player 1 is 2, of anyone else 1. */
  function Other(p: int): int
  {
    if p == 1 then 2 else 1
  }

  /** The fleet each player places: one 5, one 4, two 3s, three 2s, four 1s. */
  function FullFleet(): map<int, int>
  {
    map[5 := 1, 4 := 1, 3 := 2, 2 := 3, 1 := 4]
  }

  predicate HasSizes(fleet: map<int, int>)
  {
    forall s :: 1 <= s <= 5 ==> s in fleet
  }

  /** Some size still has ships to place. With every size 1..5 present,
      none left means no count of 1..5 is positive, and any positive count
      of 1..5 means some are left. */
  predicate HasShipsLeft(fleet: map<int, int>): (r: bool)
    ensures HasSizes(fleet) && !r ==> forall s :: 1 <= s <= 5 ==> fleet[s] <= 0
    ensures HasSizes(fleet) && (exists s :: 1 <= s <= 5 && fleet[s] > 0) ==> r
  {
    exists s :: s in fleet && fleet[s] > 0
  }

  /** The shape every state has: both players present, boards 10×10, a
      ship size of 1..5 selected. */
  predicate WellFormed(g: GameState)
  {
    IsPlayer(g.currentPlayer) && 1 <= g.selectedShipSize <= 5 &&
    1 in g.boards && 2 in g.boards && IsGrid(g.boards[1]) && IsGrid(g.boards[2]) &&
    1 in g.ships && 2 in g.ships && HasSizes(g.ships[1]) && HasSizes(g.ships[2]) &&
    1 in g.placedShips && 2 in g.placedShips
  }

  /** A well-formed state whose boards agree with the placed ships. */
  ghost predicate Consistent(g: GameState)
  {
    WellFormed(g) &&
    FleetOk(g.boards[1], g.placedShips[1]) && FleetOk(g.boards[2], g.placedShips[2])
  }

  /** The state of a new game. */
  function Initial(): GameState
  {
    GameState(1, Placement, 5, Horizontal,
      map[1 := EmptyGrid(), 2 := EmptyGrid()],
      map[1 := FullFleet(), 2 := FullFleet()],
      map[1 := [], 2 := []],
      [])
  }

  /** Placing the selected ship for the current player at (row, col): when
      the placement rule allows it, its cells get its size, a record with no
      hits is appended and the count for that size goes down by one (with no
      check that it was positive); otherwise nothing changes. */
  ghost function Place(g: GameState, row: int, col: int): GameState
    requires WellFormed(g)
  {
    var p := g.currentPlayer;
    var size := g.selectedShipSize;
    var cells := ShipCells(row, col, size, g.shipDirection);
    if Placeable(g.boards[p], cells) then
      g.(boards := g.boards[p := Paint(g.boards[p], cells, size)],
         placedShips := g.placedShips[p := g.placedShips[p] + [Ship(size, cells, 0)]],
         ships := g.ships[p := g.ships[p][size := g.ships[p][size] - 1]])
    else g
  }

  /** Battle begins with player 1 to move. */
  function StartBattle(g: GameState): GameState
  {
    g.(phase := Battle, currentPlayer := 1, gameLog := g.gameLog + [BattleStarted])
  }

  /** Player 1 hands over to player 2, who gets a full fleet to place and
      the size-5 ship selected; player 2 starts the battle. Nothing checks
      that placement is complete or that the game is still placing ships. */
  function Finish(g: GameState): GameState
  {
    if g.currentPlayer == 1 then
      g.(currentPlayer := 2, ships := g.ships[2 := FullFleet()], selectedShipSize := 5)
    else StartBattle(g)
  }

  /** The game is over and the current player has won. */
  function EndGame(g: GameState): GameState
  {
    g.(phase := Ended, gameLog := g.gameLog + [Won(g.currentPlayer)])
  }

  /** The log entries a strike adds: none when no ship owns the cell. */
  function Reported(report: Report, attacker: int, target: int): seq<Event>
  {
    match report
    case Unowned => []
    case Damaged => [HitShip(attacker, target)]
    case Sank => [SankShip(attacker, target)]
  }

  /** `target`'s board and ships as a shot leaves them, with its report
      logged under the current player's name. */
  function Apply(g: GameState, target: int, shot: Shot): GameState
  {
    g.(boards := g.boards[target := shot.grid],
       placedShips := g.placedShips[target := shot.ships],
       gameLog := g.gameLog + Reported(shot.report, g.currentPlayer, target))
  }

  /** What a shot leaves on `target`'s board does not depend on what was
      there before. */
  lemma ApplyOverwrites(g: GameState, target: int, shot: Shot, h: Grid)
    ensures Apply(g.(boards := g.boards[target := h]), target, shot) == Apply(g, target, shot)
  {
    assert g.boards[target := h][target := shot.grid] == g.boards[target := shot.grid];
  }

  /** The current player's shot lands on a positive cell of `target`'s
      board: the cell and the owning ship are struck (see `StrikeSegment`)
      and the log reports the hit or the sinking. */
  function Struck(g: GameState, row: int, col: int, target: int): GameState
    requires WellFormed(g) && IsPlayer(target) && InBounds((row, col))
  {
    Apply(g, target, StrikeSegment(g.boards[target], g.placedShips[target], (row, col)))
  }

  /** The current player's shot lands on water, or on a sunk ship: the cell
      becomes a miss, the log says so and the turn passes. */
  function Miss(g: GameState, row: int, col: int, target: int): GameState
    requires WellFormed(g) && IsPlayer(target) && InBounds((row, col))
  {
    g.(boards := g.boards[target := Paint(g.boards[target], [(row, col)], MISS)],
       gameLog := g.gameLog + [Missed(g.currentPlayer)],
       currentPlayer := Other(g.currentPlayer))
  }

  /** The current player shoots at (row, col) on `target`'s board. A cell
      already marked miss or hit is ignored. A positive cell is struck, the
      shooter keeps the turn, and the game ends when every ship of `target`
      is sunk. Any other cell, a sunk one included, becomes a miss and the
      turn passes. Nothing checks the phase. */
  function Attack(g: GameState, row: int, col: int, target: int): GameState
    requires WellFormed(g) && IsPlayer(target) && InBounds((row, col))
  {
    var grid := g.boards[target];
    var v := At(grid, (row, col));
    if v == MISS || v == HIT then g
    else if v > 0 then
      var after := Struck(g, row, col, target);
      if AllSunk(after.placedShips[target]) then EndGame(after) else after
    else Miss(g, row, col, target)
  }

  /** A click on `player`'s board at (row, col): while placing, a click on
      the current player's own board places a ship; in battle, a click on
      the opponent's board attacks it; every other click is ignored. */
  ghost function Click(g: GameState, player: int, row: int, col: int): GameState
    requires WellFormed(g) && InBounds((row, col))
  {
    if g.phase == Placement then
      if player == g.currentPlayer then Place(g, row, col) else g
    else if g.phase == Battle then
      var target := Other(g.currentPlayer);
      if player == target then Attack(g, row, col, target) else g
    else g
  }

  /** Choosing a ship size on the selector. */
  function SelectShip(g: GameState, size: int): GameState
  {
    g.(selectedShipSize := size)
  }

  /** The rotate button swaps the orientation. */
  function Rotate(g: GameState): GameState
  {
    g.(shipDirection := if g.shipDirection == Horizontal then Vertical else Horizontal)
  }
}
