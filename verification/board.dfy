/** Board geometry of the battleship rules engine: cell codes, 10×10 grids,
    the cells a ship covers and the placement rule (in bounds, on empty water,
    touching no other ship, not even diagonally). */
module Board {

  /** A board coordinate (row, column). */
  type Cell = (int, int)

  /** A board as rows of cell codes; `IsGrid` says it is 10×10. */
  type Grid = seq<seq<int>>

  const SIZE: int := 10

  // Cell codes. A positive code 1..5 is an unsunk segment of a ship of that size.
  const EMPTY: int := 0
  const MISS: int := -1
  const HIT: int := -2
  const SUNK: int := -3

  datatype Direction = Horizontal | Vertical

  predicate IsGrid(g: Grid)
  {
    |g| == SIZE && forall r :: 0 <= r < SIZE ==> |g[r]| == SIZE
  }

  predicate InBounds(x: Cell)
  {
    0 <= x.0 < SIZE && 0 <= x.1 < SIZE
  }

  predicate AllInBounds(cells: seq<Cell>)
  {
    forall x :: x in cells ==> InBounds(x)
  }

  /** No cell is listed twice. */
  predicate Distinct(cells: seq<Cell>)
  {
    forall i, j :: 0 <= i < j < |cells| ==> cells[i] != cells[j]
  }

  function At(g: Grid, x: Cell): int
    requires IsGrid(g) && InBounds(x)
  {
    g[x.0][x.1]
  }

  /** `a` and `b` are the same cell or one of its eight neighbours. */
  predicate Touching(a: Cell, b: Cell)
  {
    -1 <= a.0 - b.0 <= 1 && -1 <= a.1 - b.1 <= 1
  }

  /** A board with every cell empty. */
  function EmptyGrid(): (g: Grid)
    ensures IsGrid(g)
    ensures forall x :: InBounds(x) ==> At(g, x) == EMPTY
  {
    seq(SIZE, _ => seq(SIZE, _ => EMPTY))
  }

  /** `g` with every listed in-bounds cell overwritten by `v`. */
  function Paint(g: Grid, cells: seq<Cell>, v: int): (h: Grid)
    requires IsGrid(g)
    ensures IsGrid(h)
    ensures forall x :: InBounds(x) ==> At(h, x) == if x in cells then v else At(g, x)
  {
    seq(SIZE, r requires 0 <= r < SIZE =>
      seq(SIZE, c requires 0 <= c < SIZE => if (r, c) in cells then v else g[r][c]))
  }

  /** Two grids that agree on every cell are equal. */
  lemma GridsEqual(g: Grid, h: Grid)
    requires IsGrid(g) && IsGrid(h)
    requires forall x :: InBounds(x) ==> At(g, x) == At(h, x)
    ensures g == h
  {
    forall r | 0 <= r < SIZE
      ensures g[r] == h[r]
    {
      forall c | 0 <= c < SIZE
        ensures g[r][c] == h[r][c]
      {
        assert At(g, (r, c)) == At(h, (r, c));
      }
    }
  }

  /** The `size` cells a ship starting at (row, col) covers: rightwards when
      horizontal, downwards otherwise. */
  function ShipCells(row: int, col: int, size: int, dir: Direction): seq<Cell>
  {
    seq(if size < 0 then 0 else size, i => if dir == Horizontal then (row, col + i) else (row + i, col))
  }

  /** A ship's cells are pairwise different and each touches the next one. */
  lemma ShipCellsLine(row: int, col: int, size: int, dir: Direction)
    ensures var cells := ShipCells(row, col, size, dir);
      Distinct(cells) && forall i :: 0 <= i < |cells| - 1 ==> Touching(cells[i], cells[i + 1])
  {
  }

  /** The placement rule: every cell on the board and empty, and every
      in-bounds neighbour of a cell that is not itself one of the cells
      empty as well. */
  ghost predicate Placeable(g: Grid, cells: seq<Cell>)
    requires IsGrid(g)
  {
    AllInBounds(cells) &&
    (forall x :: x in cells ==> At(g, x) == EMPTY) &&
    (forall x, n :: x in cells && InBounds(n) && Touching(x, n) && n !in cells ==> At(g, n) == EMPTY)
  }

  /** A placeable ship is apart from every non-empty cell: no occupied or
      attacked cell is one of its cells or touches one of them. */
  lemma PlaceableApart(g: Grid, cells: seq<Cell>, n: Cell)
    requires IsGrid(g) && Placeable(g, cells)
    requires InBounds(n) && At(g, n) != EMPTY
    ensures forall x :: x in cells ==> !Touching(x, n)
  {
  }
}
