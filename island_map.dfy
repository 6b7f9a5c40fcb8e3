/**
 * The island generator of map/index.ts. Each cell of a csv grid is one of
 * `""` (air), `"walkway"`, `"grass"` or `"house"`; the generator walks the
 * grid row by row and, from a cell's orthogonal (and for houses diagonal)
 * neighbours, chooses the tiles to place and their quarter-turn rotation.
 * Walkway cells also edge the air next to them with a base and a rope tile.
 * Random tile variants come from `Math.random`, modelled by `RandomSource`.
 */
module IslandMap {
  import opened Wrappers
  import opened JsNumbers
  import opened Randomness
  import opened Components
  import opened World

  /** The parsed csv: `cells[row][column]` is the cell's string. */
  type Grid = seq<seq<string>>

  /** `getAtPosition(row, column)`: the cell's string, or `undefined` outside the grid. */
  function GetAtPosition(cells: Grid, row: int, column: int): (r: Option<string>)
    ensures r.Some? <==> 0 <= row < |cells| && 0 <= column < |cells[row]|
    ensures r.Some? ==> r.value == cells[row][column]
  {
    if row < 0 || row >= |cells| then None
    else if column < 0 || column >= |cells[row]| then None
    else Some(cells[row][column])
  }

  /** `is(cell, types)`: 1 when the cell is one of `types`, else 0 (also for `undefined`). */
  function Is(cell: Option<string>, types: seq<string>): (b: int)
    ensures b == 1 <==> cell.Some? && cell.value in types
    ensures b == 0 || b == 1
  {
    if cell.Some? && cell.value in types then 1 else 0
  }

  const UNEXPECTED: string := "Unexpected surrounding blocks"
  const WALKWAY: seq<string> := ["walkway"]
  const SOLID: seq<string> := ["grass", "house"]
  const HOUSE: seq<string> := ["house"]
  const BUILT: seq<string> := ["house", "walkway"]

  // ---------------------------------------------------------------------------
  // Neighbours and rotations
  // ---------------------------------------------------------------------------

  /**
   * Four neighbour flags, clockwise. For the orthogonal neighbours the sides
   * are above, right, below, left; for the diagonal ones of a house they are
   * up-right, down-right, down-left, up-left.
   */
  datatype Around = Around(above: int, right: int, below: int, left: int)

  function Total(n: Around): int
  {
    n.above + n.right + n.below + n.left
  }

  /** Side `d` of the four, clockwise from the first. */
  function Side(n: Around, d: int): int
    requires 0 <= d < 4
  {
    if d == 0 then n.above else if d == 1 then n.right else if d == 2 then n.below else n.left
  }

  /** Every flag is 0 or 1. */
  predicate Flags(n: Around)
  {
    && (n.above == 0 || n.above == 1) && (n.right == 0 || n.right == 1)
    && (n.below == 0 || n.below == 1) && (n.left == 0 || n.left == 1)
  }

  /** `is` of the four orthogonal neighbours. */
  function Neighbours(cells: Grid, row: int, column: int, types: seq<string>): (n: Around)
    ensures Flags(n)
  {
    Around(Is(GetAtPosition(cells, row - 1, column), types), Is(GetAtPosition(cells, row, column + 1), types),
      Is(GetAtPosition(cells, row + 1, column), types), Is(GetAtPosition(cells, row, column - 1), types))
  }

  /** `is` of the four diagonal neighbours: up-right, down-right, down-left, up-left. */
  function Diagonals(cells: Grid, row: int, column: int, types: seq<string>): (n: Around)
    ensures Flags(n)
  {
    Around(Is(GetAtPosition(cells, row - 1, column + 1), types), Is(GetAtPosition(cells, row + 1, column + 1), types),
      Is(GetAtPosition(cells, row + 1, column - 1), types), Is(GetAtPosition(cells, row - 1, column - 1), types))
  }

  /** `pathTotal == 1`: the rotation of the straight walkway edge, from the side its walkway is on. */
  function StraightEdgeRotation(n: Around): int
  {
    if n.above == 1 then 1 else if n.right == 1 then 0 else if n.below == 1 then 3 else if n.left == 1 then 2 else 0
  }

  /** `pathTotal == 2`: the rotation of the inner walkway corner, from the two sides without walkway. */
  function InnerEdgeRotation(n: Around): int
  {
    if n.above == 0 && n.right == 0 then 2
    else if n.right == 0 && n.below == 0 then 1
    else if n.below == 0 && n.left == 0 then 0
    else if n.left == 0 && n.above == 0 then 3
    else 0
  }

  /** `grassTotal == 2`: the rotation of the outer grass corner. */
  function GrassCornerRotation(n: Around): int
  {
    if n.above == 0 && n.right == 0 then 0
    else if n.right == 0 && n.below == 0 then 3
    else if n.below == 0 && n.left == 0 then 2
    else if n.left == 0 && n.above == 0 then 1
    else 0
  }

  /** `houseTotal == 2`: the rotation of the outer wall corner. */
  function HouseCornerRotation(n: Around): int
  {
    if n.above == 0 && n.right == 0 then 1
    else if n.right == 0 && n.below == 0 then 0
    else if n.below == 0 && n.left == 0 then 3
    else if n.left == 0 && n.above == 0 then 2
    else 0
  }

  /** Three of four (grass, house) or a missing diagonal (house): the rotation from the first side that is missing. */
  function MissingSideRotation(n: Around): int
  {
    if n.above == 0 then 1 else if n.right == 0 then 0 else if n.below == 0 then 3 else if n.left == 0 then 2 else 0
  }

  /** A quarter turn for each side clockwise: the rotation of a tile facing side `d` when facing side 0 needs `base`. */
  function Facing(base: int, d: int): (r: int)
    requires 0 <= base < 4 && 0 <= d < 4
  {
    (base + 4 - d) % 4
  }

  /** The side after side `d`, clockwise. */
  function Next(d: int): int
  {
    if d == 3 then 0 else d + 1
  }

  /** The single walkway side decides the straight edge: facing it turns by one quarter per side clockwise. */
  lemma StraightEdgeFacesWalkway(n: Around, d: int)
    requires Flags(n) && 0 <= d < 4 && Side(n, d) == 1 && Total(n) == 1
    ensures StraightEdgeRotation(n) == Facing(1, d)
  {
  }

  /** One missing side decides a three-of-four tile: facing it turns by one quarter per side clockwise. */
  lemma MissingSideFacesGap(n: Around, d: int)
    requires Flags(n) && 0 <= d < 4 && Side(n, d) == 0 && Total(n) == 3
    ensures MissingSideRotation(n) == Facing(1, d)
  {
  }

  /**
   * Two missing sides next to each other (`d` and the side after it) decide
   * a corner: each corner rule turns by one quarter per side clockwise. Two
   * missing sides opposite each other match no case and keep rotation 0.
   */
  lemma CornerFacesGap(n: Around, d: int)
    requires Flags(n) && 0 <= d < 4 && Total(n) == 2
    requires Side(n, d) == 0 && Side(n, Next(d)) == 0
    ensures InnerEdgeRotation(n) == Facing(2, d)
    ensures GrassCornerRotation(n) == Facing(0, d)
    ensures HouseCornerRotation(n) == Facing(1, d)
  {
    if d == 0 {
    } else if d == 1 {
    } else if d == 2 {
    } else {
    }
  }

  lemma OppositeGapsKeepZero(n: Around)
    requires Flags(n) && Total(n) == 2 && (n.above == n.below)
    ensures InnerEdgeRotation(n) == 0 && GrassCornerRotation(n) == 0 && HouseCornerRotation(n) == 0
  {
  }

  // ---------------------------------------------------------------------------
  // What one cell writes
  // ---------------------------------------------------------------------------

  /** The `setAtPosition` calls a step makes, in order, and the error it throws after them, if any. */
  datatype Plan = Plan(writes: seq<Entry>, error: Option<string>)

  /** Run `p`, then, unless it threw, `q`. */
  function Then(p: Plan, q: Plan): Plan
  {
    if p.error.Some? then p else Plan(p.writes + q.writes, q.error)
  }

  /** `doPathEdge(row, column)`. */
  function PathEdgePlan(cells: Grid, row: int, column: int): (p: Plan)
    ensures |p.writes| <= 2 && (p.error.Some? ==> p.writes == [])
    ensures forall i :: 0 <= i < |p.writes| ==> p.writes[i].x == column && p.writes[i].z == row
  {
    if GetAtPosition(cells, row, column) != Some("") then Plan([], None) else
    var n := Neighbours(cells, row, column, WALKWAY);
    if Total(n) == 1 then
      var r := StraightEdgeRotation(n);
      Plan([Entry(column, 0, row, r, "walkway_base_straight"), Entry(column, 1, row, r, "walkway_rope_straight")], None)
    else if Total(n) == 2 then
      var r := InnerEdgeRotation(n);
      Plan([Entry(column, 0, row, r, "walkway_base_in"), Entry(column, 1, row, r, "walkway_rope_in")], None)
    else Plan([], Some(UNEXPECTED))
  }

  /** The walkway variant: the first for a draw of at least 0.2, the second otherwise. */
  function WalkwayTile(r: Unit): string
  {
    if r >= 0.2 then "walkway_1" else "walkway_2"
  }

  /** The `"walkway"` case, drawing `r1` for the tile and `r2` for its rotation. */
  function WalkwayPlan(cells: Grid, row: int, column: int, r1: Unit, r2: Unit): Plan
  {
    var tile := Plan([Entry(column, 0, row, Scaled(r2, 4), WalkwayTile(r1))], None);
    Then(Then(Then(Then(tile, PathEdgePlan(cells, row - 1, column)), PathEdgePlan(cells, row, column + 1)),
      PathEdgePlan(cells, row + 1, column)), PathEdgePlan(cells, row, column - 1))
  }

  /** `isIsolated` after its loops: no house or walkway in the 5 x 5 square around the cell. */
  predicate Isolated(cells: Grid, row: int, column: int)
  {
    forall x, y :: row - 2 <= x <= row + 2 && column - 2 <= y <= column + 2 ==> Is(GetAtPosition(cells, x, y), BUILT) == 0
  }

  /** A sprite name: the prefix followed by a random variant number from 1 to `n`. */
  function Variant(prefix: string, r: Unit, n: nat): string
    requires n > 0
  {
    prefix + NumberToString(Scaled(r, n) + 1)
  }

  /**
   * The tiles of a grass edge with rotation `rotation`: when isolated, the
   * `edge2` variant with a fence above it, otherwise the `edge1` variant.
   */
  function EdgeTiles(row: int, column: int, rotation: int, isolated: bool, edge1: string, edge2: string, edgeCount: nat,
    fence: string, fenceCount: nat, r1: Unit, r2: Unit): seq<Entry>
    requires edgeCount > 0 && fenceCount > 0
  {
    if isolated then [Entry(column, 0, row, rotation, Variant(edge2, r1, edgeCount)), Entry(column, 1, row, rotation, Variant(fence, r2, fenceCount))]
    else [Entry(column, 0, row, rotation, Variant(edge1, r1, edgeCount))]
  }

  /** The `"grass"` case, with `isolated` the value of `isIsolated` and `r1`, `r2` the draws it makes. */
  function GrassPlan(cells: Grid, row: int, column: int, isolated: bool, r1: Unit, r2: Unit): Plan
  {
    var n := Neighbours(cells, row, column, SOLID);
    if Total(n) < 2 then Plan([], Some(UNEXPECTED))
    else if Total(n) == 2 then
      Plan(EdgeTiles(row, column, GrassCornerRotation(n), isolated, "edge1_corner_out_", "edge2_corner_out_", 6, "fence1_out_", 4, r1, r2), None)
    else if Total(n) == 3 then
      Plan(EdgeTiles(row, column, MissingSideRotation(n), isolated, "edge1_straight_", "edge2_straight_", 4, "fence1_straight_", 3, r1, r2), None)
    else Plan([Entry(column, 0, row, 0, "grass")], None)
  }

  /** How many numbers the `"grass"` case draws. */
  function GrassDraws(cells: Grid, row: int, column: int, isolated: bool): nat
  {
    var total := Total(Neighbours(cells, row, column, SOLID));
    if total == 2 || total == 3 then (if isolated then 2 else 1) else 0
  }

  /** The `"house"` case. */
  function HousePlan(cells: Grid, row: int, column: int): (p: Plan)
    ensures |p.writes| <= 3 && (p.error.Some? ==> p.writes == [])
    ensures forall i :: 0 <= i < |p.writes| ==> p.writes[i].x == column && p.writes[i].z == row
  {
    var n := Neighbours(cells, row, column, HOUSE);
    if Total(n) < 2 then Plan([], Some(UNEXPECTED))
    else if Total(n) == 2 then
      var r := HouseCornerRotation(n);
      Plan([Entry(column, 0, row, 0, "grass"), Entry(column, 1, row, r, "wall_out"), Entry(column, 2, row, r, "wall_out")], None)
    else if Total(n) == 3 then
      var r := MissingSideRotation(n);
      Plan([Entry(column, 0, row, 0, "grass"), Entry(column, 1, row, r, "wall_straight"), Entry(column, 2, row, r, "wall_straight")], None)
    else
      var d := Diagonals(cells, row, column, HOUSE);
      if Total(d) == 4 then Plan([Entry(column, 0, row, 0, "carpet_1")], None)
      else
        var r := MissingSideRotation(d);
        Plan([Entry(column, 0, row, 0, "grass"), Entry(column, 1, row, r, "wall_in"), Entry(column, 2, row, r, "wall_in")], None)
  }

  /** The `switch (cell)` of one cell, given the next two numbers `Math.random` would return. */
  function CellPlan(cells: Grid, row: int, column: int, r1: Unit, r2: Unit): Plan
    requires 0 <= row < |cells| && 0 <= column < |cells[row]|
  {
    var cell := cells[row][column];
    if cell == "walkway" then WalkwayPlan(cells, row, column, r1, r2)
    else if cell == "grass" then GrassPlan(cells, row, column, Isolated(cells, row, column), r1, r2)
    else if cell == "house" then HousePlan(cells, row, column)
    else Plan([], None)
  }

  /** How many numbers the cell draws from `Math.random`. */
  function CellDraws(cells: Grid, row: int, column: int): nat
    requires 0 <= row < |cells| && 0 <= column < |cells[row]|
  {
    var cell := cells[row][column];
    if cell == "walkway" then 2
    else if cell == "grass" then GrassDraws(cells, row, column, Isolated(cells, row, column))
    else 0
  }

  // ---------------------------------------------------------------------------
  // Properties of the rules
  // ---------------------------------------------------------------------------

  /** `doPathEdge` does nothing unless its cell is air. */
  lemma PathEdgeOnlyOnAir(cells: Grid, row: int, column: int)
    requires GetAtPosition(cells, row, column) != Some("")
    ensures PathEdgePlan(cells, row, column) == Plan([], None)
  {
  }

  /**
   * On air, `doPathEdge` throws exactly when 0, 3 or 4 neighbours are
   * walkway; otherwise it writes the base at height 0 and the rope at height
   * 1 over the air cell, both with the same rotation.
   */
  lemma PathEdgeOnAir(cells: Grid, row: int, column: int)
    requires GetAtPosition(cells, row, column) == Some("")
    ensures var plan := PathEdgePlan(cells, row, column);
      var total := Total(Neighbours(cells, row, column, WALKWAY));
      && (plan.error.Some? <==> total == 0 || total == 3 || total == 4)
      && (plan.error.Some? ==> plan.error.value == UNEXPECTED && plan.writes == [])
      && (plan.error.None? ==>
        && |plan.writes| == 2
        && CellOf(plan.writes[0]) == (column, 0, row) && CellOf(plan.writes[1]) == (column, 1, row)
        && plan.writes[0].rotation == plan.writes[1].rotation)
  {
    var n := Neighbours(cells, row, column, WALKWAY);
    var plan := PathEdgePlan(cells, row, column);
    if Total(n) == 1 {
      var r := StraightEdgeRotation(n);
      assert plan.writes == [Entry(column, 0, row, r, "walkway_base_straight"), Entry(column, 1, row, r, "walkway_rope_straight")];
    } else if Total(n) == 2 {
      var r := InnerEdgeRotation(n);
      assert plan.writes == [Entry(column, 0, row, r, "walkway_base_in"), Entry(column, 1, row, r, "walkway_rope_in")];
    } else {
      assert plan == Plan([], Some(UNEXPECTED));
      assert Total(n) == 0 || Total(n) == 3 || Total(n) == 4;
    }
  }

  /** Grass with fewer than two grass or house neighbours throws before placing or drawing anything. */
  lemma GrassNeedsTwoNeighbours(cells: Grid, row: int, column: int, isolated: bool, r1: Unit, r2: Unit)
    requires Total(Neighbours(cells, row, column, SOLID)) < 2
    ensures GrassPlan(cells, row, column, isolated, r1, r2) == Plan([], Some(UNEXPECTED))
  {
  }

  /** Grass draws two numbers when it places an isolated edge and a fence, one for a plain edge, none otherwise. */
  lemma GrassDrawsPerVariant(cells: Grid, row: int, column: int, isolated: bool, r1: Unit, r2: Unit)
    ensures var plan := GrassPlan(cells, row, column, isolated, r1, r2);
      GrassDraws(cells, row, column, isolated) ==
        if plan.error.Some? || plan.writes[0].name == "grass" then 0 else |plan.writes|
  {
  }

  /** A house with fewer than two house neighbours throws before placing anything. */
  lemma HouseNeedsTwoNeighbours(cells: Grid, row: int, column: int)
    requires Total(Neighbours(cells, row, column, HOUSE)) < 2
    ensures HousePlan(cells, row, column) == Plan([], Some(UNEXPECTED))
  {
  }

  /** A house surrounded by house on all eight sides is floor: only `carpet_1` at height 0. */
  lemma HouseInteriorIsCarpet(cells: Grid, row: int, column: int)
    requires Total(Neighbours(cells, row, column, HOUSE)) == 4 && Total(Diagonals(cells, row, column, HOUSE)) == 4
    ensures HousePlan(cells, row, column) == Plan([Entry(column, 0, row, 0, "carpet_1")], None)
  {
  }

  /** Every house that does not throw puts grass or carpet at height 0 and one wall tile on each of heights 1 and 2. */
  lemma HouseStacksWalls(cells: Grid, row: int, column: int)
    requires Total(Neighbours(cells, row, column, HOUSE)) >= 2
    requires Total(Neighbours(cells, row, column, HOUSE)) < 4 || Total(Diagonals(cells, row, column, HOUSE)) < 4
    ensures var plan := HousePlan(cells, row, column);
      && plan.error.None? && |plan.writes| == 3
      && plan.writes[0] == Entry(column, 0, row, 0, "grass")
      && CellOf(plan.writes[1]) == (column, 1, row) && CellOf(plan.writes[2]) == (column, 2, row)
      && plan.writes[1].rotation == plan.writes[2].rotation && plan.writes[1].name == plan.writes[2].name
  {
    assert Total(Neighbours(cells, row, column, HOUSE)) <= 4;
  }

  /** A grass cell's tiles all sit over the cell, the ground one first; a fence goes above only when it is isolated. */
  lemma GrassTilesOverCell(cells: Grid, row: int, column: int, isolated: bool, r1: Unit, r2: Unit)
    requires Total(Neighbours(cells, row, column, SOLID)) >= 2
    ensures var plan := GrassPlan(cells, row, column, isolated, r1, r2);
      var total := Total(Neighbours(cells, row, column, SOLID));
      && plan.error.None?
      && |plan.writes| == (if isolated && total < 4 then 2 else 1)
      && CellOf(plan.writes[0]) == (column, 0, row)
      && (|plan.writes| == 2 ==> CellOf(plan.writes[1]) == (column, 1, row) && plan.writes[1].rotation == plan.writes[0].rotation)
  {
    assert Total(Neighbours(cells, row, column, SOLID)) <= 4;
  }

  // ---------------------------------------------------------------------------
  // The generator as it runs: `setAtPosition` on a world builder
  // ---------------------------------------------------------------------------

  /** A step that was planned as `plan`, run from world `before`, left `after` and threw `err`. */
  predicate Performed(plan: Plan, before: seq<Entry>, after: seq<Entry>, err: Option<string>)
  {
    err == plan.error && after == ApplyWrites(before, plan.writes)
  }

  /** A step that did not throw, followed by another, performs their sequence. */
  lemma PerformedThen(p: Plan, q: Plan, w0: seq<Entry>, w1: seq<Entry>, w2: seq<Entry>, err: Option<string>)
    requires Performed(p, w0, w1, None) && Performed(q, w1, w2, err)
    ensures Performed(Then(p, q), w0, w2, err)
  {
    ApplyWritesConcat(w0, p.writes, q.writes);
  }

  lemma PlacedOne(w: seq<Entry>, a: Entry)
    ensures ApplyWrites(w, [a]) == Placed(w, a)
  {
    assert [a][..0] == [];
  }

  lemma PlacedThree(w: seq<Entry>, a: Entry, b: Entry, c: Entry)
    ensures ApplyWrites(w, [a, b, c]) == Placed(Placed(Placed(w, a), b), c)
  {
    PlacedTwo(w, a, b);
    assert [a, b, c][..2] == [a, b];
    assert ApplyWrites(w, [a, b, c]) == Placed(ApplyWrites(w, [a, b]), c);
  }

  lemma PlacedTwo(w: seq<Entry>, a: Entry, b: Entry)
    ensures ApplyWrites(w, [a, b]) == Placed(Placed(w, a), b)
  {
    assert [a, b][..1] == [a];
    assert [a][..0] == [];
    assert ApplyWrites(w, [a]) == Placed(ApplyWrites(w, []), a);
    assert ApplyWrites(w, [a, b]) == Placed(ApplyWrites(w, [a]), b);
  }

  /** `isIsolated`: the nested loops over the 5 x 5 square that clear the flag on any house or walkway. */
  method IsIsolated(cells: Grid, row: int, column: int) returns (isolated: bool)
    ensures isolated == Isolated(cells, row, column)
  {
    isolated := true;
    var x := row - 2;
    while x <= row + 2
      invariant row - 2 <= x <= row + 3
      invariant isolated <==> forall a, b :: row - 2 <= a < x && column - 2 <= b <= column + 2 ==>
        Is(GetAtPosition(cells, a, b), BUILT) == 0
    {
      var y := column - 2;
      while y <= column + 2
        invariant column - 2 <= y <= column + 3
        invariant isolated <==>
          && (forall a, b :: row - 2 <= a < x && column - 2 <= b <= column + 2 ==> Is(GetAtPosition(cells, a, b), BUILT) == 0)
          && (forall b :: column - 2 <= b < y ==> Is(GetAtPosition(cells, x, b), BUILT) == 0)
      {
        if Is(GetAtPosition(cells, x, y), BUILT) == 1 {
          isolated := false;
        }
        y := y + 1;
      }
      x := x + 1;
    }
  }

  /** `doPathEdge(row, column)`. */
  method DoPathEdge(builder: WorldBuilder, cells: Grid, row: int, column: int) returns (err: Option<string>)
    modifies builder
    ensures Performed(PathEdgePlan(cells, row, column), old(builder.world), builder.world, err)
  {
    var maybeAir := GetAtPosition(cells, row, column);
    if maybeAir != Some("") {
      return None;
    }
    var n := Neighbours(cells, row, column, WALKWAY);
    var tileBase, tileAbove, rotation;
    if Total(n) == 1 {
      tileBase, tileAbove, rotation := "walkway_base_straight", "walkway_rope_straight", StraightEdgeRotation(n);
    } else if Total(n) == 2 {
      tileBase, tileAbove, rotation := "walkway_base_in", "walkway_rope_in", InnerEdgeRotation(n);
    } else {
      return Some(UNEXPECTED);
    }
    ghost var w0 := builder.world;
    ghost var base, above := Entry(column, 0, row, rotation, tileBase), Entry(column, 1, row, rotation, tileAbove);
    assert PathEdgePlan(cells, row, column) == Plan([base, above], None);
    builder.SetAtPosition(column, 0, row, rotation, tileBase);
    builder.SetAtPosition(column, 1, row, rotation, tileAbove);
    PlacedTwo(w0, base, above);
    err := None;
  }

  /** The `"walkway"` case: a random tile and rotation, then the edges on the four sides. */
  method WalkwayCell(builder: WorldBuilder, rng: RandomSource, cells: Grid, row: int, column: int) returns (err: Option<string>)
    modifies builder, rng
    ensures rng.drawn == old(rng.drawn) + 2
    ensures Performed(WalkwayPlan(cells, row, column, rng.values(old(rng.drawn)), rng.values(old(rng.drawn) + 1)),
      old(builder.world), builder.world, err)
  {
    ghost var w0 := builder.world;
    var r1 := rng.Random();
    var tile := WalkwayTile(r1);
    var r2 := rng.Random();
    var rotation := Scaled(r2, 4);
    builder.SetAtPosition(column, 0, row, rotation, tile);
    ghost var plan := Plan([Entry(column, 0, row, rotation, tile)], None);
    assert Performed(plan, w0, builder.world, None);
    ghost var w1 := builder.world;
    err := DoPathEdge(builder, cells, row - 1, column);
    PerformedThen(plan, PathEdgePlan(cells, row - 1, column), w0, w1, builder.world, err);
    plan := Then(plan, PathEdgePlan(cells, row - 1, column));
    if err.Some? {
      return;
    }
    w1 := builder.world;
    err := DoPathEdge(builder, cells, row, column + 1);
    PerformedThen(plan, PathEdgePlan(cells, row, column + 1), w0, w1, builder.world, err);
    plan := Then(plan, PathEdgePlan(cells, row, column + 1));
    if err.Some? {
      return;
    }
    w1 := builder.world;
    err := DoPathEdge(builder, cells, row + 1, column);
    PerformedThen(plan, PathEdgePlan(cells, row + 1, column), w0, w1, builder.world, err);
    plan := Then(plan, PathEdgePlan(cells, row + 1, column));
    if err.Some? {
      return;
    }
    w1 := builder.world;
    err := DoPathEdge(builder, cells, row, column - 1);
    PerformedThen(plan, PathEdgePlan(cells, row, column - 1), w0, w1, builder.world, err);
  }

  /** A grass edge: the random edge variant and, when isolated, the random fence variant above it. */
  method GrassEdge(builder: WorldBuilder, rng: RandomSource, row: int, column: int, rotation: int, isolated: bool,
    edge1: string, edge2: string, edgeCount: nat, fence: string, fenceCount: nat)
    requires edgeCount > 0 && fenceCount > 0
    modifies builder, rng
    ensures rng.drawn == old(rng.drawn) + (if isolated then 2 else 1)
    ensures builder.world == ApplyWrites(old(builder.world), EdgeTiles(row, column, rotation, isolated, edge1, edge2, edgeCount,
      fence, fenceCount, rng.values(old(rng.drawn)), rng.values(old(rng.drawn) + 1)))
  {
    ghost var w0 := builder.world;
    if isolated {
      var r1 := rng.Random();
      var tile := Variant(edge2, r1, edgeCount);
      builder.SetAtPosition(column, 0, row, rotation, tile);
      var r2 := rng.Random();
      var above := Variant(fence, r2, fenceCount);
      builder.SetAtPosition(column, 1, row, rotation, above);
      PlacedTwo(w0, Entry(column, 0, row, rotation, tile), Entry(column, 1, row, rotation, above));
    } else {
      var r1 := rng.Random();
      var tile := Variant(edge1, r1, edgeCount);
      builder.SetAtPosition(column, 0, row, rotation, tile);
      PlacedOne(w0, Entry(column, 0, row, rotation, tile));
    }
  }

  /** The `"grass"` case: corner, straight edge or plain grass, from the grass and house neighbours. */
  method GrassCell(builder: WorldBuilder, rng: RandomSource, cells: Grid, row: int, column: int) returns (err: Option<string>)
    modifies builder, rng
    ensures rng.drawn == old(rng.drawn) + GrassDraws(cells, row, column, Isolated(cells, row, column))
    ensures Performed(GrassPlan(cells, row, column, Isolated(cells, row, column), rng.values(old(rng.drawn)), rng.values(old(rng.drawn) + 1)),
      old(builder.world), builder.world, err)
  {
    ghost var w0, d0 := builder.world, rng.drawn;
    var isolated := IsIsolated(cells, row, column);
    assert builder.world == w0 && rng.drawn == d0;
    err := GrassTiles(builder, rng, cells, row, column, isolated);
  }

  /** The `"grass"` case once `isolated` is known: the tiles for the count of solid neighbours. */
  method GrassTiles(builder: WorldBuilder, rng: RandomSource, cells: Grid, row: int, column: int, isolated: bool) returns (err: Option<string>)
    modifies builder, rng
    ensures rng.drawn == old(rng.drawn) + GrassDraws(cells, row, column, isolated)
    ensures Performed(GrassPlan(cells, row, column, isolated, rng.values(old(rng.drawn)), rng.values(old(rng.drawn) + 1)),
      old(builder.world), builder.world, err)
  {
    var n := Neighbours(cells, row, column, SOLID);
    if Total(n) < 2 {
      return Some(UNEXPECTED);
    } else if Total(n) <= 3 {
      GrassEdgeCase(builder, rng, cells, row, column, isolated);
    } else {
      ghost var w0 := builder.world;
      builder.SetAtPosition(column, 0, row, 0, "grass");
      PlacedOne(w0, Entry(column, 0, row, 0, "grass"));
    }
    err := None;
  }

  /** The two edge cases of `"grass"`: an outer corner for two solid neighbours, a straight edge for three. */
  method GrassEdgeCase(builder: WorldBuilder, rng: RandomSource, cells: Grid, row: int, column: int, isolated: bool)
    requires 2 <= Total(Neighbours(cells, row, column, SOLID)) <= 3
    modifies builder, rng
    ensures rng.drawn == old(rng.drawn) + GrassDraws(cells, row, column, isolated)
    ensures Performed(GrassPlan(cells, row, column, isolated, rng.values(old(rng.drawn)), rng.values(old(rng.drawn) + 1)),
      old(builder.world), builder.world, None)
  {
    var n := Neighbours(cells, row, column, SOLID);
    if Total(n) == 2 {
      GrassEdge(builder, rng, row, column, GrassCornerRotation(n), isolated, "edge1_corner_out_", "edge2_corner_out_", 6, "fence1_out_", 4);
    } else {
      GrassEdge(builder, rng, row, column, MissingSideRotation(n), isolated, "edge1_straight_", "edge2_straight_", 4, "fence1_straight_", 3);
    }
  }

  /** The `"house"` case: grass under a wall corner, straight wall or inner wall, or carpet inside. */
  method HouseCell(builder: WorldBuilder, cells: Grid, row: int, column: int) returns (err: Option<string>)
    modifies builder
    ensures Performed(HousePlan(cells, row, column), old(builder.world), builder.world, err)
  {
    ghost var w0 := builder.world;
    var n := Neighbours(cells, row, column, HOUSE);
    if Total(n) < 2 {
      return Some(UNEXPECTED);
    }
    var rotation, wall;
    if Total(n) == 2 {
      rotation, wall := HouseCornerRotation(n), "wall_out";
    } else if Total(n) == 3 {
      rotation, wall := MissingSideRotation(n), "wall_straight";
    } else {
      var d := Diagonals(cells, row, column, HOUSE);
      if Total(d) == 4 {
        builder.SetAtPosition(column, 0, row, 0, "carpet_1");
        PlacedOne(w0, Entry(column, 0, row, 0, "carpet_1"));
        return None;
      }
      rotation, wall := MissingSideRotation(d), "wall_in";
    }
    ghost var ground, lower, upper := Entry(column, 0, row, 0, "grass"), Entry(column, 1, row, rotation, wall), Entry(column, 2, row, rotation, wall);
    assert HousePlan(cells, row, column) == Plan([ground, lower, upper], None);
    builder.SetAtPosition(column, 0, row, 0, "grass");
    builder.SetAtPosition(column, 1, row, rotation, wall);
    builder.SetAtPosition(column, 2, row, rotation, wall);
    PlacedThree(w0, ground, lower, upper);
    err := None;
  }

  /** The `switch (cell)`: air places nothing. */
  method ProcessCell(builder: WorldBuilder, rng: RandomSource, cells: Grid, row: int, column: int) returns (err: Option<string>)
    requires 0 <= row < |cells| && 0 <= column < |cells[row]|
    modifies builder, rng
    ensures rng.drawn == old(rng.drawn) + CellDraws(cells, row, column)
    ensures Performed(CellPlan(cells, row, column, rng.values(old(rng.drawn)), rng.values(old(rng.drawn) + 1)),
      old(builder.world), builder.world, err)
  {
    var cell := cells[row][column];
    if cell == "walkway" {
      err := WalkwayCell(builder, rng, cells, row, column);
    } else if cell == "grass" {
      err := GrassCell(builder, rng, cells, row, column);
    } else if cell == "house" {
      err := HouseCell(builder, cells, row, column);
    } else {
      err := None;
    }
  }

  // ---------------------------------------------------------------------------
  // The whole grid
  // ---------------------------------------------------------------------------

  /** The generator between cells: the world so far, how many numbers were drawn and the error thrown, if any. */
  datatype MapState = MapState(world: seq<Entry>, drawn: nat, error: Option<string>)

  /** One cell of the `forEach`, unless an earlier cell threw. */
  function CellStep(cells: Grid, values: nat -> Unit, st: MapState, row: int, column: int): MapState
    requires 0 <= row < |cells| && 0 <= column < |cells[row]|
  {
    if st.error.Some? then st else
    Step(st, CellPlan(cells, row, column, values(st.drawn), values(st.drawn + 1)), CellDraws(cells, row, column))
  }

  /** A step that writes `plan` and draws `draws` numbers, from a state without error. */
  function Step(st: MapState, plan: Plan, draws: nat): MapState
  {
    MapState(ApplyWrites(st.world, plan.writes), st.drawn + draws, plan.error)
  }

  /** The first `n` cells of row `row`, in column order. */
  function RowRun(cells: Grid, values: nat -> Unit, st: MapState, row: int, n: nat): MapState
    requires 0 <= row < |cells| && n <= |cells[row]|
  {
    if n == 0 then st else CellStep(cells, values, RowRun(cells, values, st, row, n - 1), row, n - 1)
  }

  /** The first `m` rows of the grid, in row order. */
  function GridRun(cells: Grid, values: nat -> Unit, st: MapState, m: nat): MapState
    requires m <= |cells|
  {
    if m == 0 then st else RowRun(cells, values, GridRun(cells, values, st, m - 1), m - 1, |cells[m - 1]|)
  }

  /** Once a cell has thrown, the rest of the row changes nothing. */
  lemma {:induction false} RowRunStops(cells: Grid, values: nat -> Unit, st: MapState, row: int, k: nat, n: nat)
    requires 0 <= row < |cells| && k <= n <= |cells[row]|
    requires RowRun(cells, values, st, row, k).error.Some?
    ensures RowRun(cells, values, st, row, n) == RowRun(cells, values, st, row, k)
    decreases n
  {
    if n > k {
      RowRunStops(cells, values, st, row, k, n - 1);
    }
  }

  /** Once a cell has thrown, the remaining rows change nothing. */
  lemma {:induction false} GridRunStops(cells: Grid, values: nat -> Unit, st: MapState, k: nat, m: nat)
    requires k <= m <= |cells|
    requires GridRun(cells, values, st, k).error.Some?
    ensures GridRun(cells, values, st, m) == GridRun(cells, values, st, k)
    decreases m
  {
    if m > k {
      GridRunStops(cells, values, st, k, m - 1);
      RowRunStops(cells, values, GridRun(cells, values, st, m - 1), m - 1, 0, |cells[m - 1]|);
    }
  }

  /** A cell performed as planned from a state without error is one step of the run. */
  lemma CellStepPerformed(cells: Grid, values: nat -> Unit, st: MapState, row: int, column: int, plan: Plan,
    world: seq<Entry>, drawn: nat, err: Option<string>)
    requires 0 <= row < |cells| && 0 <= column < |cells[row]| && st.error.None?
    requires plan == CellPlan(cells, row, column, values(st.drawn), values(st.drawn + 1))
    requires Performed(plan, st.world, world, err)
    requires drawn == st.drawn + CellDraws(cells, row, column)
    ensures CellStep(cells, values, st, row, column) == MapState(world, drawn, err)
  {
    assert CellStep(cells, values, st, row, column) == Step(st, plan, CellDraws(cells, row, column));
  }

  /** Cell `column` of the row, as the next step of the row's run from `start`. */
  method ProcessCellOfRow(builder: WorldBuilder, rng: RandomSource, cells: Grid, row: int, column: int, ghost start: MapState)
    returns (err: Option<string>)
    requires 0 <= row < |cells| && 0 <= column < |cells[row]|
    requires RowRun(cells, rng.values, start, row, column) == MapState(builder.world, rng.drawn, None)
    modifies builder, rng
    ensures RowRun(cells, rng.values, start, row, column + 1) == MapState(builder.world, rng.drawn, err)
  {
    ghost var before := MapState(builder.world, rng.drawn, None);
    ghost var r1, r2 := rng.values(rng.drawn), rng.values(rng.drawn + 1);
    ghost var plan := CellPlan(cells, row, column, r1, r2);
    err := ProcessCell(builder, rng, cells, row, column);
    assert Performed(plan, before.world, builder.world, err);
    CellStepPerformed(cells, rng.values, before, row, column, plan, builder.world, rng.drawn, err);
  }

  /** The writes of one row, run on the builder, stopping at the first cell that throws. */
  method ProcessRow(builder: WorldBuilder, rng: RandomSource, cells: Grid, row: int) returns (err: Option<string>)
    requires 0 <= row < |cells|
    modifies builder, rng
    ensures var st := RowRun(cells, rng.values, MapState(old(builder.world), old(rng.drawn), None), row, |cells[row]|);
      builder.world == st.world && rng.drawn == st.drawn && err == st.error
  {
    ghost var start := MapState(builder.world, rng.drawn, None);
    err := None;
    for column := 0 to |cells[row]|
      invariant err == None
      invariant RowRun(cells, rng.values, start, row, column) == MapState(builder.world, rng.drawn, None)
    {
      err := ProcessCellOfRow(builder, rng, cells, row, column, start);
      if err.Some? {
        RowRunStops(cells, rng.values, start, row, column + 1, |cells[row]|);
        return;
      }
    }
  }

  /** The generator's nested walk over the grid: every cell in row-major order, stopping at the first that throws. */
  method ProcessCells(builder: WorldBuilder, rng: RandomSource, cells: Grid) returns (err: Option<string>)
    modifies builder, rng
    ensures var st := GridRun(cells, rng.values, MapState(old(builder.world), old(rng.drawn), None), |cells|);
      builder.world == st.world && rng.drawn == st.drawn && err == st.error
  {
    ghost var start := MapState(builder.world, rng.drawn, None);
    err := None;
    for row := 0 to |cells|
      invariant err == None
      invariant GridRun(cells, rng.values, start, row) == MapState(builder.world, rng.drawn, None)
    {
      err := ProcessRow(builder, rng, cells, row);
      if err.Some? {
        GridRunStops(cells, rng.values, start, row + 1, |cells|);
        return;
      }
    }
  }

  /** From `a` to `b`, at most one entry per position stays so, and no position that had an entry loses it. */
  predicate Keeps(a: seq<Entry>, b: seq<Entry>)
  {
    (Unique(a) ==> Unique(b)) && Occupied(a) <= Occupied(b)
  }

  lemma CellStepKeeps(cells: Grid, values: nat -> Unit, st: MapState, row: int, column: int)
    requires 0 <= row < |cells| && 0 <= column < |cells[row]|
    ensures Keeps(st.world, CellStep(cells, values, st, row, column).world)
  {
    if st.error.None? {
      var plan := CellPlan(cells, row, column, values(st.drawn), values(st.drawn + 1));
      assert CellStep(cells, values, st, row, column) == Step(st, plan, CellDraws(cells, row, column));
      StepKeeps(st, plan, CellDraws(cells, row, column));
    }
  }

  lemma StepKeeps(st: MapState, plan: Plan, draws: nat)
    ensures Keeps(st.world, Step(st, plan, draws).world)
  {
    ApplyWritesEffect(st.world, plan.writes);
  }

  lemma {:induction false} RowRunKeeps(cells: Grid, values: nat -> Unit, st: MapState, row: int, n: nat)
    requires 0 <= row < |cells| && n <= |cells[row]|
    ensures Keeps(st.world, RowRun(cells, values, st, row, n).world)
  {
    if n > 0 {
      var mid := RowRun(cells, values, st, row, n - 1);
      RowRunKeeps(cells, values, st, row, n - 1);
      CellStepKeeps(cells, values, mid, row, n - 1);
      assert RowRun(cells, values, st, row, n) == CellStep(cells, values, mid, row, n - 1);
      KeepsTransitive(st.world, mid.world, CellStep(cells, values, mid, row, n - 1).world);
    }
  }

  /** The generated world has at most one entry per position, and no position that had an entry loses it. */
  lemma {:induction false} GridRunKeeps(cells: Grid, values: nat -> Unit, st: MapState, m: nat)
    requires m <= |cells|
    ensures Keeps(st.world, GridRun(cells, values, st, m).world)
  {
    if m > 0 {
      var mid := GridRun(cells, values, st, m - 1);
      GridRunKeeps(cells, values, st, m - 1);
      RowRunKeeps(cells, values, mid, m - 1, |cells[m - 1]|);
      assert GridRun(cells, values, st, m) == RowRun(cells, values, mid, m - 1, |cells[m - 1]|);
      KeepsTransitive(st.world, mid.world, RowRun(cells, values, mid, m - 1, |cells[m - 1]|).world);
    }
  }

  lemma KeepsTransitive(a: seq<Entry>, b: seq<Entry>, c: seq<Entry>)
    requires Keeps(a, b) && Keeps(b, c)
    ensures Keeps(a, c)
  {
  }

  /** `walkableTiles`. */
  const WALKABLE: seq<string> := ["edge1_corner_out_1", "edge1_corner_out_2", "edge1_corner_out_3", "edge1_corner_out_4",
    "edge1_corner_out_5", "edge1_corner_out_6", "edge1_corner_in_1", "edge1_corner_in_2", "edge1_straight_1",
    "edge1_straight_2", "edge1_straight_3", "edge1_straight_4", "grass", "walkway_1", "walkway_2", "carpet_1",
    "carpet_2", "carpet_3", "carpet_4", "carpet_5", "carpet_6"]

  /** Where the knight starts. */
  const KNIGHT_AT: Cell := (6, 1, 26)

  /**
   * The whole script: build the world from the grid, then number it with
   * `withIds` and push the knight. `files` are the `islands-` sprite names.
   */
  method GenerateIsland(rng: RandomSource, cells: Grid, files: seq<string>) returns (r: Result<seq<Entity>>)
    modifies rng
    ensures var st := GridRun(cells, rng.values, MapState([], old(rng.drawn), None), |cells|);
      && (st.error.Some? ==> r == Failure(st.error.value))
      && (st.error.None? ==> Exported(st.world, files, WALKABLE, KNIGHT_AT, r) && Unique(st.world))
  {
    var builder := new WorldBuilder();
    var err := ProcessCells(builder, rng, cells);
    GridRunKeeps(cells, rng.values, MapState([], old(rng.drawn), None), |cells|);
    if err.Some? {
      return Failure(err.value);
    }
    r := Export(builder.world, files, WALKABLE, KNIGHT_AT);
  }
}
