/** Placed ships and how the board records damage to them: the ship record,
    the search for the ship covering a cell, the count of damaged segments,
    and the invariant that ties a player's board to their placed ships. */
module Fleet {
  import opened Board

  /** A placed ship: its size, the cells it covers and the hits it has taken. */
  datatype Ship = Ship(size: int, cells: seq<Cell>, hits: int)

  datatype Option<T> = None | Some(value: T)

  /** The first ship, in placement order, that covers `x`. */
  function FindShip(ships: seq<Ship>, x: Cell): (r: Option<nat>)
    ensures r.Some? ==> r.value < |ships| && x in ships[r.value].cells
    ensures r.Some? ==> forall j :: 0 <= j < r.value ==> x !in ships[j].cells
    ensures r.None? <==> forall j :: 0 <= j < |ships| ==> x !in ships[j].cells
  {
    if ships == [] then None
    else if x in ships[0].cells then Some(0)
    else match FindShip(ships[1..], x)
      case None => None
      case Some(i) => Some(i + 1)
  }

  /** Whether every ship has taken as many hits as it has segments. */
  predicate AllSunk(ships: seq<Ship>)
  {
    forall i :: 0 <= i < |ships| ==> ships[i].hits == ships[i].size
  }

  /** How many of `cells` no longer show the code `size` of an intact segment. */
  function Damage(g: Grid, cells: seq<Cell>, size: int): (n: nat)
    requires IsGrid(g) && AllInBounds(cells)
    ensures n <= |cells|
  {
    if cells == [] then 0
    else (if At(g, cells[0]) != size then 1 else 0) + Damage(g, cells[1..], size)
  }

  /** Damage depends only on which cells still show `size`. */
  lemma {:induction false} DamageFrame(g: Grid, h: Grid, cells: seq<Cell>, size: int)
    requires IsGrid(g) && IsGrid(h) && AllInBounds(cells)
    requires forall x :: x in cells ==> (At(g, x) == size <==> At(h, x) == size)
    ensures Damage(h, cells, size) == Damage(g, cells, size)
  {
    if cells != [] {
      DamageFrame(g, h, cells[1..], size);
    }
  }

  /** Knocking out one intact segment adds exactly one to the damage. */
  lemma {:induction false} DamageOneMore(g: Grid, h: Grid, cells: seq<Cell>, size: int, y: Cell)
    requires IsGrid(g) && IsGrid(h) && AllInBounds(cells) && Distinct(cells)
    requires y in cells && At(g, y) == size && At(h, y) != size
    requires forall x :: x in cells && x != y ==> At(h, x) == At(g, x)
    ensures Damage(h, cells, size) == Damage(g, cells, size) + 1
  {
    if cells[0] == y {
      assert forall k :: 1 <= k < |cells| ==> cells[k] != y;
      DamageFrame(g, h, cells[1..], size);
    } else {
      DamageOneMore(g, h, cells[1..], size, y);
    }
  }

  /** When no listed cell shows `size`, every one of them counts as damaged. */
  lemma {:induction false} DamageAll(g: Grid, cells: seq<Cell>, size: int)
    requires IsGrid(g) && AllInBounds(cells)
    requires forall x :: x in cells ==> At(g, x) != size
    ensures Damage(g, cells, size) == |cells|
  {
    if cells != [] {
      DamageAll(g, cells[1..], size);
    }
  }

  /** When every listed cell shows `size`, nothing is damaged. */
  lemma {:induction false} DamageNone(g: Grid, cells: seq<Cell>, size: int)
    requires IsGrid(g) && AllInBounds(cells)
    requires forall x :: x in cells ==> At(g, x) == size
    ensures Damage(g, cells, size) == 0
  {
    if cells != [] {
      DamageNone(g, cells[1..], size);
    }
  }

  /** A well-formed ship record: size 1..5, that many distinct cells, all on the board. */
  predicate ShipOk(s: Ship)
  {
    1 <= s.size <= 5 && |s.cells| == s.size && AllInBounds(s.cells) && Distinct(s.cells)
  }

  /** No cell of one ship is a cell of the other or touches one. */
  ghost predicate Apart(s: Ship, t: Ship)
  {
    forall x, y :: x in s.cells && y in t.cells ==> !Touching(x, y)
  }

  /** Every cell of `s` still shows its size, or has been attacked. */
  predicate Marked(g: Grid, s: Ship)
    requires IsGrid(g) && AllInBounds(s.cells)
  {
    forall x :: x in s.cells ==> At(g, x) in {s.size, MISS, HIT, SUNK}
  }

  /** The ships are well formed and pairwise apart. */
  ghost predicate Layout(ships: seq<Ship>)
  {
    (forall i :: 0 <= i < |ships| ==> ShipOk(ships[i])) &&
    (forall i, j :: 0 <= i < j < |ships| ==> Apart(ships[i], ships[j]))
  }

  /** Each ship's cells carry its size or an attack mark, and its hit
      counter equals its damaged cells. */
  ghost predicate Tallied(g: Grid, ships: seq<Ship>)
    requires IsGrid(g) && Layout(ships)
  {
    (forall i :: 0 <= i < |ships| ==> Marked(g, ships[i])) &&
    (forall i :: 0 <= i < |ships| ==> ships[i].hits == Damage(g, ships[i].cells, ships[i].size))
  }

  /** Every intact segment on the board belongs to some ship. */
  ghost predicate Covered(g: Grid, ships: seq<Ship>)
    requires IsGrid(g)
  {
    forall x :: InBounds(x) && At(g, x) > 0 ==> exists i :: 0 <= i < |ships| && x in ships[i].cells
  }

  /** The invariant linking a player's board to their placed ships: the ships
      are well formed and pairwise apart, their cells carry their size or an
      attack mark, each ship's hit counter equals its damaged cells, and every
      intact segment on the board belongs to some ship. */
  ghost predicate FleetOk(g: Grid, ships: seq<Ship>)
  {
    IsGrid(g) && Layout(ships) && Tallied(g, ships) && Covered(g, ships)
  }

  /** Under the invariant no ship has more hits than segments. */
  lemma HitsBounded(g: Grid, ships: seq<Ship>)
    requires FleetOk(g, ships)
    ensures forall i :: 0 <= i < |ships| ==> 0 <= ships[i].hits <= ships[i].size
  {
    forall i | 0 <= i < |ships|
      ensures 0 <= ships[i].hits <= ships[i].size
    {
      assert ShipOk(ships[i]);
    }
  }

  /** Different ships of a fleet share no cell. */
  lemma Disjoint(ships: seq<Ship>, i: nat, j: nat)
    requires Layout(ships) && i < |ships| && j < |ships| && i != j
    ensures forall y :: y in ships[j].cells ==> y !in ships[i].cells
  {
    forall y | y in ships[j].cells
      ensures y !in ships[i].cells
    {
      if y in ships[i].cells {
        if i < j {
          assert Apart(ships[i], ships[j]);
        } else {
          assert Apart(ships[j], ships[i]);
        }
        assert Touching(y, y);
      }
    }
  }

  /** Under the invariant an intact segment belongs to exactly one ship, the
      one `FindShip` returns, and shows that ship's size. */
  lemma {:induction false} OwnerFound(g: Grid, ships: seq<Ship>, x: Cell)
    requires FleetOk(g, ships) && InBounds(x) && At(g, x) > 0
    ensures FindShip(ships, x).Some?
    ensures var i := FindShip(ships, x).value;
      At(g, x) == ships[i].size && ships[i].hits < ships[i].size &&
      forall j :: 0 <= j < |ships| && j != i ==> x !in ships[j].cells
  {
    var k :| 0 <= k < |ships| && x in ships[k].cells;
    var i := FindShip(ships, x).value;
    assert Marked(g, ships[i]) && ShipOk(ships[i]);
    DamageBelow(g, ships[i].cells, ships[i].size, x);
    forall j | 0 <= j < |ships| && j != i
      ensures x !in ships[j].cells
    {
      Disjoint(ships, j, i);
    }
  }

  /** What a shot on an intact segment leaves behind and what the log reports. */
  datatype Report = Unowned | Damaged | Sank
  datatype Shot = Shot(grid: Grid, ships: seq<Ship>, report: Report)

  /** A shot on an intact segment at `x`: the cell becomes a hit and the first
      ship covering it takes one more hit; once its hits reach its size, all
      its cells become sunk. A segment no ship covers is only marked hit. */
  function StrikeSegment(g: Grid, ships: seq<Ship>, x: Cell): Shot
    requires IsGrid(g) && InBounds(x)
  {
    var hit := Paint(g, [x], HIT);
    match FindShip(ships, x)
    case None => Shot(hit, ships, Unowned)
    case Some(i) => HitOwner(hit, ships, i)
  }

  /** Ship `i` takes one more hit; when its hits reach its size, every one
      of its cells becomes sunk. */
  function HitOwner(g: Grid, ships: seq<Ship>, i: int): Shot
    requires IsGrid(g) && 0 <= i < |ships|
  {
    var s := ships[i].(hits := ships[i].hits + 1);
    if s.hits == s.size then Shot(Paint(g, s.cells, SUNK), ships[i := s], Sank)
    else Shot(g, ships[i := s], Damaged)
  }

  /** `after` lists the same ships as `before`, in the same places, with the
      same sizes and cells; only hit counters may differ. */
  predicate SameLayout(before: seq<Ship>, after: seq<Ship>)
  {
    |after| == |before| &&
    forall i :: 0 <= i < |before| ==> after[i].size == before[i].size && after[i].cells == before[i].cells
  }

  /** A shot on an intact segment, under the invariant, finds the owning ship
      and adds exactly one hit to it and to no other ship; the ships keep
      their sizes and cells. */
  lemma StrikeOwner(g: Grid, ships: seq<Ship>, x: Cell)
    requires FleetOk(g, ships) && InBounds(x) && At(g, x) > 0
    ensures FindShip(ships, x).Some?
    ensures var i, r := FindShip(ships, x).value, StrikeSegment(g, ships, x);
      SameLayout(ships, r.ships) &&
      r.ships[i].hits == ships[i].hits + 1 &&
      forall j :: 0 <= j < |ships| && j != i ==> r.ships[j] == ships[j]
  {
    OwnerFound(g, ships, x);
  }

  /** A shot on an intact segment, under the invariant, is reported as a hit
      or a sinking, and as a sinking exactly when the owning ship's hits
      reach its size. */
  lemma StrikeReport(g: Grid, ships: seq<Ship>, x: Cell)
    requires FleetOk(g, ships) && InBounds(x) && At(g, x) > 0
    ensures FindShip(ships, x).Some?
    ensures var i, r := FindShip(ships, x).value, StrikeSegment(g, ships, x);
      i < |r.ships| && r.report != Unowned &&
      (r.report == Sank <==> r.ships[i].hits == r.ships[i].size)
  {
    OwnerFound(g, ships, x);
  }

  /** A shot on an intact segment, under the invariant, reports a sinking
      exactly when the owning ship's hits reach its size, and then every
      cell of that ship reads sunk; otherwise it reports a hit and only the
      target cell changes, to a hit. */
  lemma StrikeBoard(g: Grid, ships: seq<Ship>, x: Cell)
    requires FleetOk(g, ships) && InBounds(x) && At(g, x) > 0
    ensures FindShip(ships, x).Some?
    ensures var i, r := FindShip(ships, x).value, StrikeSegment(g, ships, x);
      i < |r.ships| && r.ships[i].cells == ships[i].cells &&
      r.report != Unowned &&
      (r.report == Sank <==> r.ships[i].hits == r.ships[i].size) &&
      (r.report == Sank ==> forall y :: InBounds(y) ==>
         At(r.grid, y) == if y in ships[i].cells then SUNK else At(g, y)) &&
      (r.report == Damaged ==> forall y :: InBounds(y) ==>
         At(r.grid, y) == if y == x then HIT else At(g, y))
  {
    OwnerFound(g, ships, x);
    var i := FindShip(ships, x).value;
    assert x in ships[i].cells;
  }

  /** A shot on an intact segment keeps the fleet invariant. */
  lemma StrikeKeepsFleet(g: Grid, ships: seq<Ship>, x: Cell)
    requires FleetOk(g, ships) && InBounds(x) && At(g, x) > 0
    ensures var r := StrikeSegment(g, ships, x); FleetOk(r.grid, r.ships)
  {
    var i := FindShip(ships, x).value;
    var hit := Paint(g, [x], HIT);
    var after := ships[i := ships[i].(hits := ships[i].hits + 1)];
    var r := StrikeSegment(g, ships, x);
    if after[i].hits == after[i].size {
      assert r == Shot(Paint(hit, after[i].cells, SUNK), after, Sank);
      HitKeepsFleet(g, ships, x, i);
      SinkKeepsFleet(hit, after, i);
    } else {
      assert r == Shot(hit, after, Damaged);
      HitKeepsFleet(g, ships, x, i);
    }
  }

  /** Marking an intact segment hit and adding one hit to its owner keeps
      the fleet invariant. */
  lemma HitKeepsFleet(g: Grid, ships: seq<Ship>, x: Cell, i: nat)
    requires FleetOk(g, ships) && InBounds(x) && At(g, x) > 0
    requires FindShip(ships, x) == Some(i)
    ensures FleetOk(Paint(g, [x], HIT), ships[i := ships[i].(hits := ships[i].hits + 1)])
  {
    OwnerFound(g, ships, x);
    var hit := Paint(g, [x], HIT);
    var after := ships[i := ships[i].(hits := ships[i].hits + 1)];
    assert ShipOk(ships[i]) && Marked(g, ships[i]);
    DamageOneMore(g, hit, ships[i].cells, ships[i].size, x);
    forall j | 0 <= j < |ships| && j != i
      ensures Damage(hit, ships[j].cells, ships[j].size) == Damage(g, ships[j].cells, ships[j].size)
      ensures Marked(hit, ships[j])
    {
      assert ShipOk(ships[j]) && Marked(g, ships[j]);
      DamageFrame(g, hit, ships[j].cells, ships[j].size);
    }
    LayoutKept(ships, after);
    forall j | 0 <= j < |after|
      ensures Marked(hit, after[j])
      ensures after[j].hits == Damage(hit, after[j].cells, after[j].size)
    {
    }
    CoverKept(g, hit, ships, after);
  }

  /** Changing only hit counters keeps ships well formed and apart. */
  lemma LayoutKept(ships: seq<Ship>, after: seq<Ship>)
    requires Layout(ships) && SameLayout(ships, after)
    ensures Layout(after)
  {
    forall j | 0 <= j < |after|
      ensures ShipOk(after[j])
    {
      assert ShipOk(ships[j]);
    }
    forall a, b | 0 <= a < b < |after|
      ensures Apart(after[a], after[b])
    {
      assert Apart(ships[a], ships[b]);
    }
  }

  /** A board that gains no intact segment stays covered by ships of the
      same layout. */
  lemma CoverKept(g: Grid, h: Grid, ships: seq<Ship>, after: seq<Ship>)
    requires IsGrid(g) && IsGrid(h) && Covered(g, ships) && SameLayout(ships, after)
    requires forall y :: InBounds(y) && At(h, y) > 0 ==> At(g, y) > 0
    ensures Covered(h, after)
  {
    forall y | InBounds(y) && At(h, y) > 0
      ensures exists j :: 0 <= j < |after| && y in after[j].cells
    {
      var j :| 0 <= j < |ships| && y in ships[j].cells;
      assert y in after[j].cells;
    }
  }

  /** Marking every cell of a ship whose hits have reached its size sunk
      keeps the fleet invariant. */
  lemma SinkKeepsFleet(g: Grid, ships: seq<Ship>, i: int)
    requires FleetOk(g, ships) && 0 <= i < |ships| && ships[i].hits == ships[i].size
    ensures FleetOk(Paint(g, ships[i].cells, SUNK), ships)
  {
    var s := ships[i];
    var sunk := Paint(g, s.cells, SUNK);
    assert ShipOk(s);
    forall y | y in s.cells
      ensures At(g, y) != s.size
    {
      if At(g, y) == s.size {
        DamageBelow(g, s.cells, s.size, y);
      }
    }
    DamageAll(sunk, s.cells, s.size);
    forall j | 0 <= j < |ships| && j != i
      ensures Damage(sunk, ships[j].cells, ships[j].size) == Damage(g, ships[j].cells, ships[j].size)
      ensures Marked(sunk, ships[j])
    {
      assert ShipOk(ships[j]) && Marked(g, ships[j]);
      Disjoint(ships, i, j);
      DamageFrame(g, sunk, ships[j].cells, ships[j].size);
    }
    forall y | InBounds(y) && At(sunk, y) > 0
      ensures exists j :: 0 <= j < |ships| && y in ships[j].cells
    {
      assert At(g, y) > 0;
    }
  }

  /** A cell of `cells` that still shows `size` keeps the damage below the
      number of cells. */
  lemma {:induction false} DamageBelow(g: Grid, cells: seq<Cell>, size: int, y: Cell)
    requires IsGrid(g) && AllInBounds(cells) && y in cells && At(g, y) == size
    ensures Damage(g, cells, size) < |cells|
  {
    if cells[0] != y {
      DamageBelow(g, cells[1..], size, y);
    }
  }

  /** Under the invariant every ship is sunk exactly when no intact segment
      is left on the board. */
  lemma AllSunkIffCleared(g: Grid, ships: seq<Ship>)
    requires FleetOk(g, ships)
    ensures AllSunk(ships) <==> forall x :: InBounds(x) ==> At(g, x) <= 0
  {
    if AllSunk(ships) {
      forall x | InBounds(x)
        ensures At(g, x) <= 0
      {
        if At(g, x) > 0 {
          var j :| 0 <= j < |ships| && x in ships[j].cells;
          assert ShipOk(ships[j]) && Marked(g, ships[j]);
          DamageBelow(g, ships[j].cells, ships[j].size, x);
        }
      }
    } else {
      var j :| 0 <= j < |ships| && ships[j].hits != ships[j].size;
      assert ShipOk(ships[j]);
      if forall y :: y in ships[j].cells ==> At(g, y) != ships[j].size {
        DamageAll(g, ships[j].cells, ships[j].size);
      }
      var y :| y in ships[j].cells && At(g, y) == ships[j].size;
      assert InBounds(y) && At(g, y) > 0;
    }
  }

  /** A miss on a cell that holds no intact segment keeps the fleet invariant. */
  lemma MissKeepsFleet(g: Grid, ships: seq<Ship>, x: Cell)
    requires FleetOk(g, ships) && InBounds(x) && At(g, x) <= 0
    ensures FleetOk(Paint(g, [x], MISS), ships)
  {
    var h := Paint(g, [x], MISS);
    forall j | 0 <= j < |ships|
      ensures Marked(h, ships[j])
      ensures Damage(h, ships[j].cells, ships[j].size) == Damage(g, ships[j].cells, ships[j].size)
    {
      assert ShipOk(ships[j]);
      assert Marked(g, ships[j]);
      DamageFrame(g, h, ships[j].cells, ships[j].size);
    }
    forall y | InBounds(y) && At(h, y) > 0
      ensures exists j :: 0 <= j < |ships| && y in ships[j].cells
    {
      assert At(g, y) > 0;
    }
  }

  /** Placing a new, distinct-celled ship where the placement rule allows it
      keeps the fleet invariant, with the new ship undamaged. */
  lemma PlaceKeepsFleet(g: Grid, ships: seq<Ship>, cells: seq<Cell>, size: int)
    requires FleetOk(g, ships) && Placeable(g, cells)
    requires 1 <= size <= 5 && |cells| == size && Distinct(cells)
    ensures FleetOk(Paint(g, cells, size), ships + [Ship(size, cells, 0)])
  {
    var h := Paint(g, cells, size);
    var t := Ship(size, cells, 0);
    var ships' := ships + [t];
    forall j | 0 <= j < |ships|
      ensures Apart(ships[j], t)
      ensures Marked(h, ships[j])
      ensures Damage(h, ships[j].cells, ships[j].size) == Damage(g, ships[j].cells, ships[j].size)
    {
      assert ShipOk(ships[j]);
      assert Marked(g, ships[j]);
      forall y | y in ships[j].cells
        ensures forall z :: z in cells ==> !Touching(y, z)
        ensures y !in cells
      {
        PlaceableApart(g, cells, y);
      }
      DamageFrame(g, h, ships[j].cells, ships[j].size);
    }
    DamageNone(h, cells, size);
    forall i, j | 0 <= i < j < |ships'|
      ensures Apart(ships'[i], ships'[j])
    {
      if j == |ships| {
        assert ships'[j] == t;
      }
    }
    forall y | InBounds(y) && At(h, y) > 0
      ensures exists j :: 0 <= j < |ships'| && y in ships'[j].cells
    {
      if y in cells {
        assert y in ships'[|ships|].cells;
      } else {
        var j :| 0 <= j < |ships| && y in ships[j].cells;
        assert y in ships'[j].cells;
      }
    }
  }
}
