/** What the rules guarantee: the board/fleet invariant survives every
    command, the effect of each kind of shot, the turn-pass rule, the win
    condition, the order of phases and the size of a complete fleet. */
module Properties {
  import opened Board
  import opened Fleet
  import opened Rules

  /** A new game satisfies the invariant. */
  lemma InitialConsistent()
    ensures Consistent(Initial())
  {
  }

  /** Placing a ship keeps the invariant, whether or not the count for its
      size was still positive. */
  lemma PlaceKeepsConsistent(g: GameState, row: int, col: int)
    requires Consistent(g)
    ensures Consistent(Place(g, row, col))
  {
    var p := g.currentPlayer;
    var size := g.selectedShipSize;
    var cells := ShipCells(row, col, size, g.shipDirection);
    if Placeable(g.boards[p], cells) {
      ShipCellsLine(row, col, size, g.shipDirection);
      PlaceKeepsFleet(g.boards[p], g.placedShips[p], cells, size);
    }
  }

  /** Every shot keeps the invariant, in any phase and on either board. */
  lemma AttackKeepsConsistent(g: GameState, row: int, col: int, target: int)
    requires Consistent(g) && IsPlayer(target) && InBounds((row, col))
    ensures Consistent(Attack(g, row, col, target))
  {
    var grid := g.boards[target];
    var v := At(grid, (row, col));
    if v == MISS || v == HIT {
    } else if v > 0 {
      StrikeKeepsFleet(grid, g.placedShips[target], (row, col));
      StruckFrame(g, row, col, target);
    } else {
      MissKeepsFleet(grid, g.placedShips[target], (row, col));
    }
  }

  /** A click keeps the invariant. */
  lemma ClickKeepsConsistent(g: GameState, player: int, row: int, col: int)
    requires Consistent(g) && InBounds((row, col))
    ensures Consistent(Click(g, player, row, col))
  {
    if g.phase == Placement && player == g.currentPlayer {
      PlaceKeepsConsistent(g, row, col);
    } else if g.phase == Battle && player == Other(g.currentPlayer) {
      AttackKeepsConsistent(g, row, col, Other(g.currentPlayer));
    }
  }

  /** Under the invariant no ship, of either player, has more hits than
      segments. */
  lemma HitsNeverExceedSize(g: GameState)
    requires Consistent(g)
    ensures forall p, i :: IsPlayer(p) && 0 <= i < |g.placedShips[p]| ==>
      0 <= g.placedShips[p][i].hits <= g.placedShips[p][i].size
  {
    HitsBounded(g.boards[1], g.placedShips[1]);
    HitsBounded(g.boards[2], g.placedShips[2]);
  }

  /** A successful placement changes the current player's board at exactly
      the ship's cells, setting them to its size, appends one record with no
      hits and takes exactly one off the count for that size; a refused one
      changes nothing. */
  lemma PlaceEffect(g: GameState, row: int, col: int)
    requires WellFormed(g)
    ensures var p, size := g.currentPlayer, g.selectedShipSize;
      var cells := ShipCells(row, col, size, g.shipDirection);
      var r := Place(g, row, col);
      if Placeable(g.boards[p], cells) then
        WellFormed(r) &&
        (forall x :: InBounds(x) ==> At(r.boards[p], x) == if x in cells then size else At(g.boards[p], x)) &&
        r.boards[Other(p)] == g.boards[Other(p)] &&
        r.placedShips[p] == g.placedShips[p] + [Ship(size, cells, 0)] &&
        r.placedShips[Other(p)] == g.placedShips[Other(p)] &&
        r.ships[p][size] == g.ships[p][size] - 1 &&
        (forall s :: s in g.ships[p] && s != size ==> r.ships[p][s] == g.ships[p][s]) &&
        r.ships[Other(p)] == g.ships[Other(p)] &&
        r.currentPlayer == p && r.phase == g.phase && r.gameLog == g.gameLog
      else r == g
  {
  }

  /** The placement rule refuses a ship with a cell off the board. */
  lemma PlaceOffBoardRefused(g: GameState, row: int, col: int)
    requires WellFormed(g)
    requires exists x :: x in ShipCells(row, col, g.selectedShipSize, g.shipDirection) && !InBounds(x)
    ensures Place(g, row, col) == g
  {
  }

  /** A shot at a cell already marked miss or hit changes nothing: board,
      ships, log and turn stay as they were. */
  lemma RepeatShotIgnored(g: GameState, row: int, col: int, target: int)
    requires WellFormed(g) && IsPlayer(target) && InBounds((row, col))
    requires At(g.boards[target], (row, col)) in {MISS, HIT}
    ensures Attack(g, row, col, target) == g
  {
  }

  /** A shot at any other cell holding no intact segment (empty water, or a
      cell of a sunk ship) marks it a miss, logs one entry and passes the turn;
      nothing else changes. */
  lemma MissEffect(g: GameState, row: int, col: int, target: int)
    requires WellFormed(g) && IsPlayer(target) && InBounds((row, col))
    requires var v := At(g.boards[target], (row, col)); v <= 0 && v != MISS && v != HIT
    ensures var r := Attack(g, row, col, target);
      WellFormed(r) &&
      (forall x :: InBounds(x) ==> At(r.boards[target], x) == if x == (row, col) then MISS else At(g.boards[target], x)) &&
      r.boards[Other(target)] == g.boards[Other(target)] &&
      r.gameLog == g.gameLog + [Missed(g.currentPlayer)] &&
      r.currentPlayer == Other(g.currentPlayer) && r.currentPlayer != g.currentPlayer &&
      r.placedShips == g.placedShips && r.ships == g.ships && r.phase == g.phase
  {
  }

  /** Shooting again at a sunk ship's cell counts as a miss: the cell is
      overwritten with a miss and the turn passes. */
  lemma SunkCellReshotIsMiss(g: GameState, row: int, col: int, target: int)
    requires WellFormed(g) && IsPlayer(target) && InBounds((row, col))
    requires At(g.boards[target], (row, col)) == SUNK
    ensures var r := Attack(g, row, col, target);
      At(r.boards[target], (row, col)) == MISS && r.currentPlayer == Other(g.currentPlayer) &&
      |r.gameLog| == |g.gameLog| + 1
  {
    MissEffect(g, row, col, target);
  }

  /** A shot at a positive cell leaves the target's board and ships as the
      strike makes them and the other player's as they were. */
  lemma StruckFrame(g: GameState, row: int, col: int, target: int)
    requires WellFormed(g) && IsPlayer(target) && InBounds((row, col))
    requires At(g.boards[target], (row, col)) > 0
    ensures var shot := StrikeSegment(g.boards[target], g.placedShips[target], (row, col));
      var r := Attack(g, row, col, target);
      WellFormed(r) && r.boards == g.boards[target := shot.grid] &&
      r.placedShips == g.placedShips[target := shot.ships]
  {
  }

  /** A shot at a positive cell: the shooter keeps the turn, the other
      board is untouched, the log gains the strike's report, and the game
      ends, with the shooter logged as winner, exactly when every ship of
      the target is then sunk. */
  lemma HitKeepsTurn(g: GameState, row: int, col: int, target: int)
    requires WellFormed(g) && IsPlayer(target) && InBounds((row, col))
    requires At(g.boards[target], (row, col)) > 0
    ensures var shot := StrikeSegment(g.boards[target], g.placedShips[target], (row, col));
      var r := Attack(g, row, col, target);
      var won := AllSunk(shot.ships);
      r.currentPlayer == g.currentPlayer && r.boards[Other(target)] == g.boards[Other(target)] &&
      r.placedShips[target] == shot.ships && r.boards[target] == shot.grid &&
      r.phase == (if won then Ended else g.phase) &&
      r.gameLog == g.gameLog + Reported(shot.report, g.currentPlayer, target) + (if won then [Won(g.currentPlayer)] else [])
  {
  }

  /** The turn-pass rule: a shot that resolves (its cell is not already a
      miss or a hit) passes the turn exactly when it is a miss. */
  lemma TurnPassesOnlyOnMiss(g: GameState, row: int, col: int, target: int)
    requires WellFormed(g) && IsPlayer(target) && InBounds((row, col))
    requires At(g.boards[target], (row, col)) !in {MISS, HIT}
    ensures var r := Attack(g, row, col, target);
      r.currentPlayer != g.currentPlayer <==> At(g.boards[target], (row, col)) <= 0
  {
    if At(g.boards[target], (row, col)) > 0 {
      HitKeepsTurn(g, row, col, target);
    }
  }

  /** The only way into the ended phase is a shot that sinks the last ship:
      if a shot ends a game that had not ended, the target's ships are all
      sunk and the shooter is logged as the winner. */
  lemma GameEndsOnlyByWin(g: GameState, row: int, col: int, target: int)
    requires WellFormed(g) && IsPlayer(target) && InBounds((row, col))
    requires g.phase != Ended
    ensures var r := Attack(g, row, col, target);
      r.phase == Ended ==>
        AllSunk(r.placedShips[target]) && r.currentPlayer == g.currentPlayer &&
        r.gameLog[|r.gameLog| - 1] == Won(g.currentPlayer)
  {
  }

  function Rank(p: Phase): int
  {
    match p
    case Placement => 0
    case Battle => 1
    case Ended => 2
  }

  /** Clicks never move the phase backwards. */
  lemma PhaseMovesForward(g: GameState, player: int, row: int, col: int)
    requires WellFormed(g) && InBounds((row, col))
    ensures Rank(Click(g, player, row, col).phase) >= Rank(g.phase)
  {
  }

  /** Finishing placement from the placement phase moves it at most to
      battle. Since nothing checks the phase, finishing with player 2 to
      move starts a battle from any phase: from an ended game the phase
      goes back to battle, and in the middle of a battle the turn goes to
      player 1 and the log gains a second battle start. */
  lemma FinishPhase(g: GameState)
    ensures g.phase == Placement ==> Finish(g).phase in {Placement, Battle}
    ensures g.currentPlayer != 1 ==>
      Finish(g).phase == Battle && Finish(g).currentPlayer == 1 &&
      Finish(g).gameLog == g.gameLog + [BattleStarted]
    ensures g.currentPlayer != 1 && g.phase == Ended ==> Rank(Finish(g).phase) < Rank(g.phase)
  {
  }

  /** The click dispatch ignores the current player's own board in battle,
      the other board while placing, and every click once the game ended. */
  lemma ClickGating(g: GameState, player: int, row: int, col: int)
    requires WellFormed(g) && InBounds((row, col))
    ensures g.phase == Placement && player != g.currentPlayer ==> Click(g, player, row, col) == g
    ensures g.phase == Battle && player == g.currentPlayer ==> Click(g, player, row, col) == g
    ensures g.phase == Ended ==> Click(g, player, row, col) == g
  {
  }

  // ---- Fleet totals ----

  /** How many of `ships` have size `s`. */
  function CountSize(ships: seq<Ship>, s: int): nat
  {
    if ships == [] then 0
    else CountSize(ships[..|ships| - 1], s) + (if ships[|ships| - 1].size == s then 1 else 0)
  }

  /** The total number of segments of `ships`. */
  function Segments(ships: seq<Ship>): int
  {
    if ships == [] then 0 else Segments(ships[..|ships| - 1]) + ships[|ships| - 1].size
  }

  /** Every ship still to place plus every ship placed makes up the full fleet, size by size. */
  predicate Balanced(fleet: map<int, int>, placed: seq<Ship>)
    requires HasSizes(fleet)
  {
    forall s :: 1 <= s <= 5 ==> fleet[s] + CountSize(placed, s) == FullFleet()[s]
  }

  predicate SizesOk(ships: seq<Ship>)
  {
    forall i :: 0 <= i < |ships| ==> 1 <= ships[i].size <= 5
  }

  /** Ships of sizes 1..5 are counted once each by the per-size counts. */
  lemma {:induction false} CountsAddUp(ships: seq<Ship>)
    requires SizesOk(ships)
    ensures |ships| == CountSize(ships, 1) + CountSize(ships, 2) + CountSize(ships, 3) + CountSize(ships, 4) + CountSize(ships, 5)
    ensures Segments(ships) == CountSize(ships, 1) + 2 * CountSize(ships, 2) + 3 * CountSize(ships, 3) + 4 * CountSize(ships, 4) + 5 * CountSize(ships, 5)
  {
    if ships != [] {
      CountsAddUp(ships[..|ships| - 1]);
    }
  }

  /** With the fleet balanced, the ships placed and the counts left add up to
      the full fleet of 11 ships and 25 segments; so once every count is zero
      exactly 11 ships covering 25 cells are on the board, and once no count
      is positive at least that many. */
  lemma PlacedTotals(fleet: map<int, int>, placed: seq<Ship>)
    requires HasSizes(fleet) && Balanced(fleet, placed) && SizesOk(placed)
    ensures |placed| + fleet[1] + fleet[2] + fleet[3] + fleet[4] + fleet[5] == 11
    ensures Segments(placed) + fleet[1] + 2 * fleet[2] + 3 * fleet[3] + 4 * fleet[4] + 5 * fleet[5] == 25
    ensures !HasShipsLeft(fleet) ==> |placed| >= 11 && Segments(placed) >= 25
    ensures (forall s :: 1 <= s <= 5 ==> fleet[s] == 0) ==> |placed| == 11 && Segments(placed) == 25
  {
    CountsAddUp(placed);
    assert fleet[1] + CountSize(placed, 1) == 4;
    assert fleet[2] + CountSize(placed, 2) == 3;
    assert fleet[3] + CountSize(placed, 3) == 2;
    assert fleet[4] + CountSize(placed, 4) == 1;
    assert fleet[5] + CountSize(placed, 5) == 1;
    if !HasShipsLeft(fleet) {
      assert forall s :: 1 <= s <= 5 ==> fleet[s] <= 0;
    }
  }

  /** A new game is balanced for both players. */
  lemma InitialBalanced()
    ensures Balanced(Initial().ships[1], Initial().placedShips[1])
    ensures Balanced(Initial().ships[2], Initial().placedShips[2])
  {
  }

  /** Placing a ship keeps both players' fleets balanced. */
  lemma PlaceKeepsBalance(g: GameState, row: int, col: int)
    requires WellFormed(g)
    requires Balanced(g.ships[1], g.placedShips[1]) && Balanced(g.ships[2], g.placedShips[2])
    ensures var r := Place(g, row, col);
      WellFormed(r) && Balanced(r.ships[1], r.placedShips[1]) && Balanced(r.ships[2], r.placedShips[2])
  {
    var p := g.currentPlayer;
    var size := g.selectedShipSize;
    var cells := ShipCells(row, col, size, g.shipDirection);
    if Placeable(g.boards[p], cells) {
      var placed := g.placedShips[p] + [Ship(size, cells, 0)];
      assert placed[..|placed| - 1] == g.placedShips[p];
    }
  }

  /** Finishing placement keeps both fleets balanced, provided player 2
      has placed nothing while player 1 was placing: player 2's counts are
      reset to the full fleet, which balances an empty list of ships. */
  lemma FinishKeepsBalance(g: GameState)
    requires WellFormed(g)
    requires Balanced(g.ships[1], g.placedShips[1]) && Balanced(g.ships[2], g.placedShips[2])
    requires g.currentPlayer == 1 ==> g.placedShips[2] == []
    ensures var r := Finish(g);
      WellFormed(r) && Balanced(r.ships[1], r.placedShips[1]) && Balanced(r.ships[2], r.placedShips[2])
  {
  }

  /** Ships that keep their sizes keep their per-size counts. */
  lemma {:induction false} CountSameLayout(before: seq<Ship>, after: seq<Ship>, s: int)
    requires SameLayout(before, after)
    ensures CountSize(after, s) == CountSize(before, s)
  {
    if before != [] {
      CountSameLayout(before[..|before| - 1], after[..|after| - 1], s);
    }
  }

  /** A shot at `target` leaves the other player's board and ships, and both
      players' counts of ships to place, as they were; a shot at a cell
      without an intact segment leaves every ship record as it was. */
  lemma AttackFrame(g: GameState, row: int, col: int, target: int)
    requires WellFormed(g) && IsPlayer(target) && InBounds((row, col))
    ensures var r := Attack(g, row, col, target);
      WellFormed(r) && r.ships == g.ships && r.selectedShipSize == g.selectedShipSize &&
      r.boards[Other(target)] == g.boards[Other(target)] &&
      r.placedShips[Other(target)] == g.placedShips[Other(target)] &&
      (At(g.boards[target], (row, col)) <= 0 ==> r.placedShips == g.placedShips)
  {
    var v := At(g.boards[target], (row, col));
    if v != MISS && v != HIT && v > 0 {
      StruckFrame(g, row, col, target);
    }
  }

  /** Shots keep both players' fleets balanced: they never add, remove or
      resize a ship. */
  lemma AttackKeepsBalance(g: GameState, row: int, col: int, target: int)
    requires Consistent(g) && IsPlayer(target) && InBounds((row, col))
    requires Balanced(g.ships[1], g.placedShips[1]) && Balanced(g.ships[2], g.placedShips[2])
    ensures var r := Attack(g, row, col, target);
      WellFormed(r) && Balanced(r.ships[1], r.placedShips[1]) && Balanced(r.ships[2], r.placedShips[2])
  {
    var r := Attack(g, row, col, target);
    AttackKeepsConsistent(g, row, col, target);
    if At(g.boards[target], (row, col)) > 0 {
      StrikeOwner(g.boards[target], g.placedShips[target], (row, col));
      StruckFrame(g, row, col, target);
    }
    AttackFrame(g, row, col, target);
    LayoutKeepsBalance(g, r, target);
  }

  /** Replacing one player's ships by ones of the same sizes, and nothing
      else about the fleets, keeps both players balanced. */
  lemma LayoutKeepsBalance(g: GameState, r: GameState, target: int)
    requires WellFormed(g) && WellFormed(r) && IsPlayer(target)
    requires Balanced(g.ships[1], g.placedShips[1]) && Balanced(g.ships[2], g.placedShips[2])
    requires r.ships == g.ships && r.placedShips[Other(target)] == g.placedShips[Other(target)]
    requires SameLayout(g.placedShips[target], r.placedShips[target])
    ensures Balanced(r.ships[1], r.placedShips[1]) && Balanced(r.ships[2], r.placedShips[2])
  {
    forall s | 1 <= s <= 5
      ensures CountSize(r.placedShips[target], s) == CountSize(g.placedShips[target], s)
    {
      CountSameLayout(g.placedShips[target], r.placedShips[target], s);
    }
  }
}
