/** The game object. Its boards are 10×10 arrays written in place; every
    command is proved to change the fields exactly as the matching function
    of `Rules` says, and to keep the board/fleet invariant. */
module Battleship {
  import opened Board
  import opened Fleet
  import opened Rules
  import Properties

  /** The contents of a board array as a grid. */
  ghost function GridOf(b: array2<int>): (g: Grid)
    reads b
    requires b.Length0 == SIZE && b.Length1 == SIZE
    ensures IsGrid(g)
  {
    seq(SIZE, r requires 0 <= r < SIZE reads b => seq(SIZE, c requires 0 <= c < SIZE reads b => b[r, c]))
  }

  /** A new board with every cell empty. */
  method CreateEmptyBoard() returns (b: array2<int>)
    ensures fresh(b) && b.Length0 == SIZE && b.Length1 == SIZE
    ensures GridOf(b) == EmptyGrid()
  {
    b := new int[SIZE, SIZE]((_, _) => EMPTY);
    GridsEqual(GridOf(b), EmptyGrid());
  }

  /** Writes `v` into each listed cell of `b`, in order. */
  method MarkCells(b: array2<int>, cells: seq<Cell>, v: int)
    requires b.Length0 == SIZE && b.Length1 == SIZE && AllInBounds(cells)
    modifies b
    ensures GridOf(b) == Paint(old(GridOf(b)), cells, v)
  {
    ghost var before := GridOf(b);
    var k := 0;
    while k < |cells|
      invariant 0 <= k <= |cells|
      invariant forall x :: InBounds(x) ==> b[x.0, x.1] == if x in cells[..k] then v else At(before, x)
    {
      var (r, c) := cells[k];
      b[r, c] := v;
      assert cells[..k + 1] == cells[..k] + [cells[k]];
      k := k + 1;
    }
    assert cells[..k] == cells;
    GridsEqual(GridOf(b), Paint(before, cells, v));
  }

  /** No in-bounds neighbour of `x` on `b`, diagonals included, is
      occupied unless it is one of `cells`. */
  ghost predicate ClearAround(b: array2<int>, cells: seq<Cell>, x: Cell)
    reads b
    requires b.Length0 == SIZE && b.Length1 == SIZE
  {
    forall n :: InBounds(n) && Touching(x, n) && n !in cells ==> b[n.0, n.1] == EMPTY
  }

  /** The placement rule read directly off a board array. */
  lemma PlaceableOnArray(b: array2<int>, cells: seq<Cell>)
    requires b.Length0 == SIZE && b.Length1 == SIZE
    ensures Placeable(GridOf(b), cells) <==>
      AllInBounds(cells) &&
      forall x :: x in cells ==> b[x.0, x.1] == EMPTY && ClearAround(b, cells, x)
  {
  }

  /** Scans the nine cells around (r, c) for an occupied one outside `cells`. */
  method CheckNeighbours(b: array2<int>, cells: seq<Cell>, r: int, c: int) returns (clear: bool)
    requires b.Length0 == SIZE && b.Length1 == SIZE
    ensures clear == ClearAround(b, cells, (r, c))
  {
    var dr := -1;
    while dr <= 1
      invariant -1 <= dr <= 2
      invariant forall n :: InBounds(n) && r - 1 <= n.0 < r + dr && c - 1 <= n.1 <= c + 1 && n !in cells ==>
        b[n.0, n.1] == EMPTY
    {
      var dc := -1;
      while dc <= 1
        invariant -1 <= dc <= 2
        invariant forall n :: InBounds(n) && r - 1 <= n.0 < r + dr && c - 1 <= n.1 <= c + 1 && n !in cells ==>
          b[n.0, n.1] == EMPTY
        invariant forall n :: InBounds(n) && n.0 == r + dr && c - 1 <= n.1 < c + dc && n !in cells ==>
          b[n.0, n.1] == EMPTY
      {
        var nr, nc := r + dr, c + dc;
        if 0 <= nr < SIZE && 0 <= nc < SIZE {
          if b[nr, nc] != EMPTY && (nr, nc) !in cells {
            assert Touching((r, c), (nr, nc));
            return false;
          }
        }
        dc := dc + 1;
      }
      dr := dr + 1;
    }
    return true;
  }

  class BattleshipGame {
    var currentPlayer: int
    var gamePhase: Phase
    var selectedShipSize: int
    var shipDirection: Direction
    var board1: array2<int>
    var board2: array2<int>
    /** Ships still to place, per player and size. */
    var ships: map<int, map<int, int>>
    var placedShips: map<int, seq<Ship>>
    var gameLog: seq<Event>

    /** The board array of player `p`: player 1's, or else player 2's. */
    function BoardOf(p: int): array2<int>
      reads this
    {
      if p == 1 then board1 else board2
    }

    /** Two separate 10×10 board arrays. */
    ghost predicate Shaped()
      reads this
    {
      board1.Length0 == SIZE && board1.Length1 == SIZE &&
      board2.Length0 == SIZE && board2.Length1 == SIZE &&
      board1 != board2
    }

    /** The fields as a game state. */
    ghost function Model(): GameState
      reads this, board1, board2
      requires Shaped()
    {
      GameState(currentPlayer, gamePhase, selectedShipSize, shipDirection,
        map[1 := GridOf(board1), 2 := GridOf(board2)], ships, placedShips, gameLog)
    }

    ghost predicate Valid()
      reads this, board1, board2
    {
      Shaped() && Consistent(Model())
    }

    /** A new game: player 1 places ships, both boards empty, both fleets full. */
    constructor ()
      ensures Valid() && fresh(board1) && fresh(board2)
      ensures Model() == Initial()
    {
      currentPlayer := 1;
      gamePhase := Placement;
      selectedShipSize := 5;
      shipDirection := Horizontal;
      var b1 := CreateEmptyBoard();
      var b2 := CreateEmptyBoard();
      board1, board2 := b1, b2;
      ships := map[1 := FullFleet(), 2 := FullFleet()];
      placedShips := map[1 := [], 2 := []];
      gameLog := [];
      new;
      Properties.InitialConsistent();
    }

    /** The cells of a ship of `size` starting at (row, col): (row, col + i)
        for each i below `size` when horizontal, (row + i, col) otherwise. */
    method GetShipCells(row: int, col: int, size: int, direction: Direction) returns (cells: seq<Cell>)
      ensures |cells| == if size < 0 then 0 else size
      ensures forall i :: 0 <= i < |cells| ==>
        cells[i] == if direction == Horizontal then (row, col + i) else (row + i, col)
      ensures cells == ShipCells(row, col, size, direction)
    {
      cells := [];
      var i := 0;
      while i < size
        invariant 0 <= i <= if size < 0 then 0 else size
        invariant cells == ShipCells(row, col, i, direction)
      {
        if direction == Horizontal {
          cells := cells + [(row, col + i)];
        } else {
          cells := cells + [(row + i, col)];
        }
        i := i + 1;
      }
    }

    /** Whether a ship of `size` at (row, col) may go on `player`'s board:
        every cell on the board and empty, and no cell next to one of them,
        diagonals included, occupied unless it is one of the ship's own. */
    method CanPlaceShip(row: int, col: int, size: int, direction: Direction, player: int) returns (ok: bool)
      requires Shaped() && IsPlayer(player)
      ensures ok == Placeable(GridOf(BoardOf(player)), ShipCells(row, col, size, direction))
    {
      var shipCells := GetShipCells(row, col, size, direction);
      var b := BoardOf(player);
      if exists k :: 0 <= k < |shipCells| && !InBounds(shipCells[k]) {
        PlaceableOnArray(b, shipCells);
        return false;
      }
      var i := 0;
      while i < |shipCells|
        invariant 0 <= i <= |shipCells|
        invariant forall j :: 0 <= j < i ==>
          b[shipCells[j].0, shipCells[j].1] == EMPTY && ClearAround(b, shipCells, shipCells[j])
      {
        var (r, c) := shipCells[i];
        if b[r, c] != EMPTY {
          assert shipCells[i] in shipCells;
          PlaceableOnArray(b, shipCells);
          return false;
        }
        var clear := CheckNeighbours(b, shipCells, r, c);
        if !clear {
          assert shipCells[i] in shipCells;
          PlaceableOnArray(b, shipCells);
          return false;
        }
        i := i + 1;
      }
      PlaceableOnArray(b, shipCells);
      return true;
    }

    /** Places the selected ship for the current player at (row, col) when
        the placement rule allows it; the count for its size is not checked. */
    method PlaceShip(row: int, col: int)
      requires Valid()
      modifies this, board1, board2
      ensures Valid() && board1 == old(board1) && board2 == old(board2)
      ensures Model() == Place(old(Model()), row, col)
    {
      ghost var g := Model();
      var ok := CanPlaceShip(row, col, selectedShipSize, shipDirection, currentPlayer);
      if ok {
        var shipCells := GetShipCells(row, col, selectedShipSize, shipDirection);
        AddShip(shipCells);
      }
      assert Model() == Place(g, row, col);
      Properties.PlaceKeepsConsistent(g, row, col);
    }

    /** Writes the selected size into `cells` on the current player's board,
        records the ship with no hits and lowers the count for its size. */
    method AddShip(cells: seq<Cell>)
      requires Shaped() && WellFormed(Model()) && AllInBounds(cells)
      modifies this`placedShips, this`ships, board1, board2
      ensures Shaped() && board1 == old(board1) && board2 == old(board2)
      ensures var g, p, size := old(Model()), currentPlayer, selectedShipSize;
        Model() == g.(boards := g.boards[p := Paint(g.boards[p], cells, size)],
                      placedShips := g.placedShips[p := g.placedShips[p] + [Ship(size, cells, 0)]],
                      ships := g.ships[p := g.ships[p][size := g.ships[p][size] - 1]])
    {
      ghost var g := Model();
      ghost var p, size := currentPlayer, selectedShipSize;
      assert g.boards[p] == GridOf(BoardOf(p)) && g.boards[Other(p)] == GridOf(BoardOf(Other(p)));
      MarkCells(BoardOf(currentPlayer), cells, selectedShipSize);
      placedShips := placedShips[currentPlayer := placedShips[currentPlayer] + [Ship(selectedShipSize, cells, 0)]];
      ships := ships[currentPlayer := ships[currentPlayer][selectedShipSize := ships[currentPlayer][selectedShipSize] - 1]];
      assert GridOf(BoardOf(Other(p))) == g.boards[Other(p)];
      assert Model().boards == g.boards[p := Paint(g.boards[p], cells, size)];
    }

    /** Appends one entry to the game log. */
    method AddToLog(event: Event)
      modifies this`gameLog
      ensures gameLog == old(gameLog) + [event]
    {
      gameLog := gameLog + [event];
    }

    /** Ends placement for the current player: player 1 hands over to
        player 2 with a full fleet and the size-5 ship selected; player 2
        starts the battle. */
    method FinishPlacement()
      requires Valid()
      modifies this
      ensures Valid() && board1 == old(board1) && board2 == old(board2)
      ensures Model() == Finish(old(Model()))
    {
      if currentPlayer == 1 {
        currentPlayer := 2;
        ships := ships[2 := FullFleet()];
        selectedShipSize := 5;
      } else {
        StartBattle();
      }
    }

    /** Battle begins with player 1 to move; the log says so. */
    method StartBattle()
      requires Valid()
      modifies this`gamePhase, this`currentPlayer, this`gameLog
      ensures Valid()
      ensures Model() == Rules.StartBattle(old(Model()))
    {
      gamePhase := Battle;
      currentPlayer := 1;
      AddToLog(BattleStarted);
    }

    /** Whether every ship of `targetPlayer` has as many hits as segments. */
    function CheckWin(targetPlayer: int): (r: bool)
      reads this
      requires targetPlayer in placedShips
      ensures r == AllSunk(placedShips[targetPlayer])
    {
      AllSunk(placedShips[targetPlayer])
    }

    /** The game is over; the current player is logged as the winner. */
    method EndGame()
      requires Shaped()
      modifies this`gamePhase, this`gameLog
      ensures Model() == Rules.EndGame(old(Model()))
    {
      gamePhase := Ended;
      var winner := currentPlayer;
      AddToLog(Won(winner));
    }

    /** The current player shoots at (row, col) on `targetPlayer`'s board. */
    method MakeAttack(row: int, col: int, targetPlayer: int)
      requires Valid() && IsPlayer(targetPlayer) && InBounds((row, col))
      modifies this, board1, board2
      ensures Valid() && board1 == old(board1) && board2 == old(board2)
      ensures Model() == Attack(old(Model()), row, col, targetPlayer)
    {
      ghost var g := Model();
      var b := BoardOf(targetPlayer);
      assert At(g.boards[targetPlayer], (row, col)) == b[row, col];
      // A cell already marked miss or hit is ignored.
      if b[row, col] != MISS && b[row, col] != HIT {
        var isHit := b[row, col] > 0;
        if isHit {
          StrikeCell(row, col, targetPlayer);
          if CheckWin(targetPlayer) {
            EndGame();
          }
        } else {
          MissCell(row, col, targetPlayer);
        }
      }
      assert Model() == Attack(g, row, col, targetPlayer);
      Properties.AttackKeepsConsistent(g, row, col, targetPlayer);
    }

    /** The miss branch of an attack: the cell becomes a miss, the log says
        so and the turn passes to the other player. */
    method MissCell(row: int, col: int, targetPlayer: int)
      requires Shaped() && WellFormed(Model()) && IsPlayer(targetPlayer) && InBounds((row, col))
      modifies this`currentPlayer, this`gameLog, board1, board2
      ensures Shaped() && board1 == old(board1) && board2 == old(board2)
      ensures Model() == Miss(old(Model()), row, col, targetPlayer)
    {
      ghost var g := Model();
      ghost var missed := Paint(g.boards[targetPlayer], [(row, col)], MISS);
      var b := BoardOf(targetPlayer);
      assert g.boards[targetPlayer] == GridOf(b) && g.boards[Other(targetPlayer)] == GridOf(BoardOf(Other(targetPlayer)));
      MarkCells(b, [(row, col)], MISS);
      AddToLog(Missed(currentPlayer));
      var nextPlayer := if currentPlayer == 1 then 2 else 1;
      currentPlayer := nextPlayer;
      assert GridOf(BoardOf(Other(targetPlayer))) == g.boards[Other(targetPlayer)];
      assert Model().boards == g.boards[targetPlayer := missed];
    }

    /** The hit branch of an attack: the cell becomes a hit, and the ship
        covering it, if any, is damaged (see `DamageShip`). */
    method StrikeCell(row: int, col: int, targetPlayer: int)
      requires Shaped() && WellFormed(Model()) && IsPlayer(targetPlayer) && InBounds((row, col))
      requires forall i :: 0 <= i < |placedShips[targetPlayer]| ==> AllInBounds(placedShips[targetPlayer][i].cells)
      modifies this`placedShips, this`gameLog, board1, board2
      ensures Shaped() && board1 == old(board1) && board2 == old(board2)
      ensures Model() == Struck(old(Model()), row, col, targetPlayer)
    {
      ghost var g := Model();
      ghost var hit := Paint(g.boards[targetPlayer], [(row, col)], HIT);
      var b := BoardOf(targetPlayer);
      assert g.boards[targetPlayer] == GridOf(b) && g.boards[Other(targetPlayer)] == GridOf(BoardOf(Other(targetPlayer)));
      MarkCells(b, [(row, col)], HIT);
      assert GridOf(BoardOf(Other(targetPlayer))) == g.boards[Other(targetPlayer)];
      assert Model() == g.(boards := g.boards[targetPlayer := hit]);
      ghost var mid := Model();
      ghost var shot := StrikeSegment(g.boards[targetPlayer], g.placedShips[targetPlayer], (row, col));
      var found := FindShip(placedShips[targetPlayer], (row, col));
      if found.Some? {
        assert shot == HitOwner(hit, g.placedShips[targetPlayer], found.value);
        DamageShip(found.value, targetPlayer);
        ApplyOverwrites(g, targetPlayer, shot, hit);
      } else {
        assert shot == Shot(hit, g.placedShips[targetPlayer], Unowned);
        assert placedShips == g.placedShips[targetPlayer := placedShips[targetPlayer]];
      }
      assert Model() == Apply(g, targetPlayer, shot);
    }

    /** Ship `i` of `targetPlayer` takes one more hit; when its hits reach its
        size every one of its cells becomes sunk. The log reports which. */
    method DamageShip(i: nat, targetPlayer: int)
      requires Shaped() && WellFormed(Model()) && IsPlayer(targetPlayer)
      requires i < |placedShips[targetPlayer]| && AllInBounds(placedShips[targetPlayer][i].cells)
      modifies this`placedShips, this`gameLog, board1, board2
      ensures Shaped() && board1 == old(board1) && board2 == old(board2)
      ensures Model() == Apply(old(Model()), targetPlayer,
        HitOwner(old(Model()).boards[targetPlayer], old(placedShips[targetPlayer]), i))
    {
      ghost var g := Model();
      var b := BoardOf(targetPlayer);
      assert g.boards[targetPlayer] == GridOf(b) && g.boards[Other(targetPlayer)] == GridOf(BoardOf(Other(targetPlayer)));
      ghost var shot := HitOwner(g.boards[targetPlayer], g.placedShips[targetPlayer], i);
      var ship := placedShips[targetPlayer][i];
      ship := ship.(hits := ship.hits + 1);
      placedShips := placedShips[targetPlayer := placedShips[targetPlayer][i := ship]];
      if ship.hits == ship.size {
        MarkCells(b, ship.cells, SUNK);
        AddToLog(SankShip(currentPlayer, targetPlayer));
        assert shot.grid == GridOf(b) && shot.report == Sank;
      } else {
        AddToLog(HitShip(currentPlayer, targetPlayer));
        assert shot.grid == GridOf(b) && shot.report == Damaged;
      }
      assert GridOf(BoardOf(Other(targetPlayer))) == g.boards[Other(targetPlayer)];
      assert Model().boards == g.boards[targetPlayer := shot.grid];
      assert placedShips == g.placedShips[targetPlayer := shot.ships];
    }

    /** A click on `player`'s board at (row, col): placement on one's own
        board while placing, an attack on the opponent's board in battle,
        nothing otherwise. */
    method HandleCellClick(player: int, row: int, col: int)
      requires Valid() && InBounds((row, col))
      modifies this, board1, board2
      ensures Valid() && board1 == old(board1) && board2 == old(board2)
      ensures Model() == Click(old(Model()), player, row, col)
    {
      if gamePhase == Placement {
        if player == currentPlayer {
          PlaceShip(row, col);
        }
      } else if gamePhase == Battle {
        var targetPlayer := if currentPlayer == 1 then 2 else 1;
        if player == targetPlayer {
          MakeAttack(row, col, targetPlayer);
        }
      }
    }

    /** The ship selector picks a size. */
    method SelectShip(size: int)
      requires Valid() && 1 <= size <= 5
      modifies this`selectedShipSize
      ensures Valid()
      ensures Model() == Rules.SelectShip(old(Model()), size)
    {
      selectedShipSize := size;
    }

    /** The rotate button swaps the orientation. */
    method Rotate()
      requires Valid()
      modifies this`shipDirection
      ensures Valid()
      ensures Model() == Rules.Rotate(old(Model()))
    {
      shipDirection := if shipDirection == Horizontal then Vertical else Horizontal;
    }

    /** Back to the state of a new game, with fresh boards. */
    method NewGame()
      modifies this
      ensures Valid() && fresh(board1) && fresh(board2)
      ensures Model() == Initial()
    {
      currentPlayer := 1;
      gamePhase := Placement;
      selectedShipSize := 5;
      shipDirection := Horizontal;
      var b1 := CreateEmptyBoard();
      var b2 := CreateEmptyBoard();
      board1, board2 := b1, b2;
      ships := map[1 := FullFleet(), 2 := FullFleet()];
      placedShips := map[1 := [], 2 := []];
      gameLog := [];
      assert Model() == Initial();
      Properties.InitialConsistent();
    }
  }
}
