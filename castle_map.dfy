/**
 * The castle generator of gen_map.js: a fixed script of `setAtPosition`
 * calls on a 10 x 10 plot — floor loops, cliff, stream and lake tiles, a
 * castle of five-storey sections, its interior and a path — followed by the
 * same `withIds` numbering and knight as the island generator.
 */
module CastleMap {
  import opened Wrappers
  import opened Components
  import opened World

  // ---------------------------------------------------------------------------
  // Floor loops
  // ---------------------------------------------------------------------------

  /** The writes of consecutive loop iterations, one after the other. */
  function Concat(parts: seq<seq<Entry>>): seq<Entry>
    decreases |parts|
  {
    if parts == [] then [] else Concat(parts[..|parts| - 1]) + parts[|parts| - 1]
  }

  lemma ConcatSnoc(parts: seq<seq<Entry>>, last: seq<Entry>)
    ensures Concat(parts + [last]) == Concat(parts) + last
  {
    assert (parts + [last])[..|parts|] == parts;
  }

  lemma {:induction false} ConcatMembers(parts: seq<seq<Entry>>, e: Entry)
    ensures e in Concat(parts) <==> exists i :: 0 <= i < |parts| && e in parts[i]
    decreases |parts|
  {
    if parts != [] {
      ConcatMembers(parts[..|parts| - 1], e);
      assert forall i :: 0 <= i < |parts| - 1 ==> parts[..|parts| - 1][i] == parts[i];
    }
  }

  /** The inner `for z` loop of a floor: one tile at each `z` in `z0 .. z1-1`. */
  function ColumnWrites(x: int, y: int, z0: int, z1: int, name: string): seq<Entry>
  {
    if z1 <= z0 then [] else seq(z1 - z0, k => Entry(x, y, z0 + k, 0, name))
  }

  /** Both `for` loops of a floor: columns `x0 .. x1-1`, each from `z0` to `z1-1`. */
  function RectWrites(x0: int, x1: int, y: int, z0: int, z1: int, name: string): seq<Entry>
  {
    if x1 <= x0 then [] else Concat(seq(x1 - x0, i => ColumnWrites(x0 + i, y, z0, z1, name)))
  }

  lemma ColumnStep(x: int, y: int, z0: int, z: int, name: string)
    requires z0 <= z
    ensures ColumnWrites(x, y, z0, z + 1, name) == ColumnWrites(x, y, z0, z, name) + [Entry(x, y, z, 0, name)]
  {
  }

  lemma RectStep(x0: int, x: int, y: int, z0: int, z1: int, name: string)
    requires x0 <= x
    ensures RectWrites(x0, x + 1, y, z0, z1, name) == RectWrites(x0, x, y, z0, z1, name) + ColumnWrites(x, y, z0, z1, name)
  {
    var columns := seq(x + 1 - x0, i => ColumnWrites(x0 + i, y, z0, z1, name));
    assert columns == seq(x - x0, i => ColumnWrites(x0 + i, y, z0, z1, name)) + [ColumnWrites(x, y, z0, z1, name)];
    ConcatSnoc(seq(x - x0, i => ColumnWrites(x0 + i, y, z0, z1, name)), ColumnWrites(x, y, z0, z1, name));
  }

  lemma ColumnTargets(x: int, y: int, z0: int, z1: int, name: string)
    ensures forall c :: c in Targets(ColumnWrites(x, y, z0, z1, name)) <==> c.0 == x && c.1 == y && z0 <= c.2 < z1
  {
    forall c: Cell | c.0 == x && c.1 == y && z0 <= c.2 < z1 ensures c in Targets(ColumnWrites(x, y, z0, z1, name)) {
      var e := Entry(x, y, c.2, 0, name);
      assert ColumnWrites(x, y, z0, z1, name)[c.2 - z0] == e;
      assert e in ColumnWrites(x, y, z0, z1, name) && CellOf(e) == c;
    }
  }

  /** A floor's loops target exactly the cells of its rectangle at height `y`. */
  lemma RectTargets(x0: int, x1: int, y: int, z0: int, z1: int, name: string)
    ensures forall c :: c in Targets(RectWrites(x0, x1, y, z0, z1, name)) <==> x0 <= c.0 < x1 && c.1 == y && z0 <= c.2 < z1
  {
    if x1 > x0 {
      var columns := seq(x1 - x0, i => ColumnWrites(x0 + i, y, z0, z1, name));
      forall c: Cell ensures c in Targets(RectWrites(x0, x1, y, z0, z1, name)) <==> x0 <= c.0 < x1 && c.1 == y && z0 <= c.2 < z1 {
        if c in Targets(RectWrites(x0, x1, y, z0, z1, name)) {
          var e :| e in Concat(columns) && CellOf(e) == c;
          ConcatMembers(columns, e);
          var i :| 0 <= i < |columns| && e in columns[i];
          ColumnTargets(x0 + i, y, z0, z1, name);
        }
        if x0 <= c.0 < x1 && c.1 == y && z0 <= c.2 < z1 {
          ColumnTargets(c.0, y, z0, z1, name);
          var e :| e in columns[c.0 - x0] && CellOf(e) == c;
          ConcatMembers(columns, e);
        }
      }
    }
  }

  lemma TargetsOne(e: Entry)
    ensures Targets([e]) == {CellOf(e)}
  {
    assert e in [e];
  }

  lemma AppendAssoc(a: seq<Entry>, b: seq<Entry>, c: seq<Entry>)
    ensures a + b + c == a + (b + c)
  {
  }

  lemma TargetsConcat(a: seq<Entry>, b: seq<Entry>)
    ensures Targets(a + b) == Targets(a) + Targets(b)
  {
    assert forall e :: e in a + b <==> e in a || e in b;
  }

  /** A floor: the two nested loops of the castle builder place `name`, unrotated, on every `(x, z)` of the rectangle at height `y`. */
  method FillRect(builder: WorldBuilder, x0: int, x1: int, y: int, z0: int, z1: int, name: string)
    requires x0 <= x1 && z0 <= z1 && builder.Valid()
    modifies builder
    ensures builder.Valid() && builder.writes == old(builder.writes) + RectWrites(x0, x1, y, z0, z1, name)
    ensures forall x, z :: x0 <= x < x1 && z0 <= z < z1 ==> (x, y, z) in Occupied(builder.world)
  {
    ghost var w0 := builder.writes;
    for x := x0 to x1
      invariant builder.Valid() && builder.writes == w0 + RectWrites(x0, x, y, z0, z1, name)
    {
      FillColumn(builder, x, y, z0, z1, name);
      RectStep(x0, x, y, z0, z1, name);
      AppendAssoc(w0, RectWrites(x0, x, y, z0, z1, name), ColumnWrites(x, y, z0, z1, name));
    }
    RectCovered(w0, x0, x1, y, z0, z1, name);
  }

  /** The inner loop of a floor: `name` at every `z` from `z0` to `z1 - 1` of the column `x`. */
  method FillColumn(builder: WorldBuilder, x: int, y: int, z0: int, z1: int, name: string)
    requires z0 <= z1 && builder.Valid()
    modifies builder
    ensures builder.Valid() && builder.writes == old(builder.writes) + ColumnWrites(x, y, z0, z1, name)
  {
    ghost var w0 := builder.writes;
    for z := z0 to z1
      invariant builder.Valid() && builder.writes == w0 + ColumnWrites(x, y, z0, z, name)
    {
      builder.SetAtPosition(x, y, z, 0, name);
      ColumnStep(x, y, z0, z, name);
    }
  }

  lemma RectCovered(w: seq<Entry>, x0: int, x1: int, y: int, z0: int, z1: int, name: string)
    ensures forall x, z :: x0 <= x < x1 && z0 <= z < z1 ==> (x, y, z) in Occupied(ApplyWrites([], w + RectWrites(x0, x1, y, z0, z1, name)))
  {
    var rect := RectWrites(x0, x1, y, z0, z1, name);
    var after := ApplyWrites([], w + rect);
    ApplyWritesEffect([], w + rect);
    TargetsConcat(w, rect);
    RectTargets(x0, x1, y, z0, z1, name);
    LayerCovered(Occupied(after), Targets(rect), x0, x1, y, z0, z1);
  }

  /** A set holding every target of a rectangle on layer `y` holds each of its positions. */
  lemma LayerCovered(occupied: set<Cell>, targets: set<Cell>, x0: int, x1: int, y: int, z0: int, z1: int)
    requires targets <= occupied
    requires forall c :: c in targets <==> x0 <= c.0 < x1 && c.1 == y && z0 <= c.2 < z1
    ensures forall x, z :: x0 <= x < x1 && z0 <= z < z1 ==> (x, y, z) in occupied
  {
    forall x, z | x0 <= x < x1 && z0 <= z < z1
      ensures (x, y, z) in occupied
    {
      assert (x, y, z) in targets;
    }
  }

  // ---------------------------------------------------------------------------
  // Castle sections
  // ---------------------------------------------------------------------------

  /** A section: tile `names[i]` at height `i`, all at `(x, z)` with one rotation. */
  function Section(x: int, z: int, rotation: int, names: seq<string>): (s: seq<Entry>)
    ensures |s| == |names|
    ensures forall i :: 0 <= i < |s| ==> s[i] == Entry(x, i, z, rotation, names[i])
  {
    seq(|names|, i requires 0 <= i < |names| => Entry(x, i, z, rotation, names[i]))
  }

  /**
   * After a section, heights `0 .. |names|-1` at `(x, z)` hold its tiles and
   * every other position holds what it held before.
   */
  lemma {:induction false} SectionPlaces(w: seq<Entry>, x: int, z: int, rotation: int, names: seq<string>)
    ensures var after := ApplyWrites(w, Section(x, z, rotation, names));
      forall c :: At(after, c) ==
        if c.0 == x && c.2 == z && 0 <= c.1 < |names| then Some(Entry(x, c.1, z, rotation, names[c.1])) else At(w, c)
    decreases |names|
  {
    if names != [] {
      var p := names[..|names| - 1];
      var e := Entry(x, |names| - 1, z, rotation, names[|names| - 1]);
      SectionPlaces(w, x, z, rotation, p);
      assert Section(x, z, rotation, names) == Section(x, z, rotation, p) + [e];
      ApplyWritesSnoc(w, Section(x, z, rotation, p), e);
      var before := ApplyWrites(w, Section(x, z, rotation, p));
      var after := ApplyWrites(w, Section(x, z, rotation, names));
      assert after == Placed(before, e);
      forall c
        ensures At(after, c) ==
          if c.0 == x && c.2 == z && 0 <= c.1 < |names| then Some(Entry(x, c.1, z, rotation, names[c.1])) else At(w, c)
      {
        PlacedAt(before, e, c);
      }
    }
  }

  /** `createCastleSection(x, z, rotation, base, bottom, mid, top, crenellations)`: heights 0 to 4. */
  method CreateCastleSection(builder: WorldBuilder, x: int, z: int, rotation: int,
    base: string, bottom: string, mid: string, top: string, crenellations: string)
    requires builder.Valid()
    modifies builder
    ensures builder.Valid() && builder.writes == old(builder.writes) + Section(x, z, rotation, [base, bottom, mid, top, crenellations])
  {
    ghost var w0 := builder.writes;
    builder.SetAtPosition(x, 0, z, rotation, base);
    builder.SetAtPosition(x, 1, z, rotation, bottom);
    builder.SetAtPosition(x, 2, z, rotation, mid);
    builder.SetAtPosition(x, 3, z, rotation, top);
    builder.SetAtPosition(x, 4, z, rotation, crenellations);
    SectionOfFive(x, z, rotation, base, bottom, mid, top, crenellations);
    Append5(w0, Entry(x, 0, z, rotation, base), Entry(x, 1, z, rotation, bottom), Entry(x, 2, z, rotation, mid),
      Entry(x, 3, z, rotation, top), Entry(x, 4, z, rotation, crenellations));
  }

  lemma SectionOfFive(x: int, z: int, rotation: int, base: string, bottom: string, mid: string, top: string, crenellations: string)
    ensures Section(x, z, rotation, [base, bottom, mid, top, crenellations]) == [Entry(x, 0, z, rotation, base),
      Entry(x, 1, z, rotation, bottom), Entry(x, 2, z, rotation, mid), Entry(x, 3, z, rotation, top), Entry(x, 4, z, rotation, crenellations)]
  {
  }

  lemma Append5<T>(s: seq<T>, a: T, b: T, c: T, d: T, e: T)
    ensures s + [a] + [b] + [c] + [d] + [e] == s + [a, b, c, d, e]
  {
  }

  const CORNER: seq<string> := ["castle_outer_base", "castle_outer_wall_bottom", "castle_outer_wall_mid",
    "castle_outer_wall_top", "castle_outer_crenellation"]
  const WALL: seq<string> := ["castle_straight_base", "castle_straight_wall_bottom", "castle_straight_wall_mid",
    "castle_straight_wall_top", "castle_straight_crenellation"]
  const WINDOW: seq<string> := ["castle_straight_base", "castle_window_bottom", "castle_window_top",
    "castle_straight_wall_top", "castle_straight_crenellation"]
  const DOOR: seq<string> := ["castle_arch_base", "castle_arch_bottom", "castle_arch_top",
    "castle_straight_wall_top", "castle_straight_crenellation"]

  /** `createCastleCorner`. */
  method CreateCastleCorner(builder: WorldBuilder, x: int, z: int, rotation: int)
    requires builder.Valid()
    modifies builder
    ensures builder.Valid() && builder.writes == old(builder.writes) + Section(x, z, rotation, CORNER)
  {
    CreateCastleSection(builder, x, z, rotation, "castle_outer_base", "castle_outer_wall_bottom", "castle_outer_wall_mid",
      "castle_outer_wall_top", "castle_outer_crenellation");
  }

  /** `createCastleWall`. */
  method CreateCastleWall(builder: WorldBuilder, x: int, z: int, rotation: int)
    requires builder.Valid()
    modifies builder
    ensures builder.Valid() && builder.writes == old(builder.writes) + Section(x, z, rotation, WALL)
  {
    CreateCastleSection(builder, x, z, rotation, "castle_straight_base", "castle_straight_wall_bottom", "castle_straight_wall_mid",
      "castle_straight_wall_top", "castle_straight_crenellation");
  }

  /** `createCastleWindow`. */
  method CreateCastleWindow(builder: WorldBuilder, x: int, z: int, rotation: int)
    requires builder.Valid()
    modifies builder
    ensures builder.Valid() && builder.writes == old(builder.writes) + Section(x, z, rotation, WINDOW)
  {
    CreateCastleSection(builder, x, z, rotation, "castle_straight_base", "castle_window_bottom", "castle_window_top",
      "castle_straight_wall_top", "castle_straight_crenellation");
  }

  /** `createCastleDoor`. */
  method CreateCastleDoor(builder: WorldBuilder, x: int, z: int, rotation: int)
    requires builder.Valid()
    modifies builder
    ensures builder.Valid() && builder.writes == old(builder.writes) + Section(x, z, rotation, DOOR)
  {
    CreateCastleSection(builder, x, z, rotation, "castle_arch_base", "castle_arch_bottom", "castle_arch_top",
      "castle_straight_wall_top", "castle_straight_crenellation");
  }
  // ---------------------------------------------------------------------------
  // Single tiles
  // ---------------------------------------------------------------------------

  /** Cliff edges: the `setAtPosition` calls in order. */
  const CLIFF_EDGES: seq<Entry> := [
    Entry(4, 1, 0, 2, "cliff_corner_outer"),
    Entry(5, 1, 0, 3, "cliff_straight"),
    Entry(6, 1, 0, 2, "cliff_corner_inner"),
    Entry(6, 1, 1, 2, "cliff_straight"),
    Entry(6, 1, 2, 2, "cliff_corner_outer"),
    Entry(8, 1, 2, 3, "cliff_straight"),
    Entry(9, 1, 2, 3, "cliff_straight")]

  method CliffEdges(builder: WorldBuilder)
    requires builder.Valid()
    modifies builder
    ensures builder.Valid() && builder.writes == old(builder.writes) + CLIFF_EDGES
  {
    ghost var w0 := builder.writes;
    builder.SetAtPosition(4, 1, 0, 2, "cliff_corner_outer");
    builder.SetAtPosition(5, 1, 0, 3, "cliff_straight");
    builder.SetAtPosition(6, 1, 0, 2, "cliff_corner_inner");
    builder.SetAtPosition(6, 1, 1, 2, "cliff_straight");
    builder.SetAtPosition(6, 1, 2, 2, "cliff_corner_outer");
    builder.SetAtPosition(8, 1, 2, 3, "cliff_straight");
    builder.SetAtPosition(9, 1, 2, 3, "cliff_straight");
    Append7(w0, Entry(4, 1, 0, 2, "cliff_corner_outer"), Entry(5, 1, 0, 3, "cliff_straight"), Entry(6, 1, 0, 2, "cliff_corner_inner"), Entry(6, 1, 1, 2, "cliff_straight"), Entry(6, 1, 2, 2, "cliff_corner_outer"), Entry(8, 1, 2, 3, "cliff_straight"), Entry(9, 1, 2, 3, "cliff_straight"));
  }

  /** Stream: the `setAtPosition` calls in order. */
  const STREAM: seq<Entry> := [
    Entry(7, 0, 2, 3, "waterfall_base"),
    Entry(7, 0, 3, 3, "stream_straight"),
    Entry(7, 0, 4, 3, "stream_stone_bridge"),
    Entry(7, 0, 5, 3, "stream_straight"),
    Entry(7, 0, 6, 3, "lake_entry"),
    Entry(7, 1, 0, 3, "stream_straight"),
    Entry(7, 1, 1, 3, "stream_stepping_stones"),
    Entry(7, 1, 2, 3, "waterfall_top")]

  method Stream(builder: WorldBuilder)
    requires builder.Valid()
    modifies builder
    ensures builder.Valid() && builder.writes == old(builder.writes) + STREAM
  {
    ghost var w0 := builder.writes;
    builder.SetAtPosition(7, 0, 2, 3, "waterfall_base");
    builder.SetAtPosition(7, 0, 3, 3, "stream_straight");
    builder.SetAtPosition(7, 0, 4, 3, "stream_stone_bridge");
    builder.SetAtPosition(7, 0, 5, 3, "stream_straight");
    builder.SetAtPosition(7, 0, 6, 3, "lake_entry");
    builder.SetAtPosition(7, 1, 0, 3, "stream_straight");
    builder.SetAtPosition(7, 1, 1, 3, "stream_stepping_stones");
    builder.SetAtPosition(7, 1, 2, 3, "waterfall_top");
    Append8(w0, Entry(7, 0, 2, 3, "waterfall_base"), Entry(7, 0, 3, 3, "stream_straight"), Entry(7, 0, 4, 3, "stream_stone_bridge"), Entry(7, 0, 5, 3, "stream_straight"), Entry(7, 0, 6, 3, "lake_entry"), Entry(7, 1, 0, 3, "stream_straight"), Entry(7, 1, 1, 3, "stream_stepping_stones"), Entry(7, 1, 2, 3, "waterfall_top"));
  }

  /** Lake edge, boat and lily: the `setAtPosition` calls in order. */
  const LAKE_EDGE: seq<Entry> := [
    Entry(4, 0, 9, 0, "lake_edge_straight"),
    Entry(4, 0, 8, 3, "lake_edge_inner"),
    Entry(5, 0, 8, 3, "lake_edge_straight"),
    Entry(6, 0, 8, 3, "lake_edge_outer"),
    Entry(6, 0, 7, 0, "lake_edge_pier"),
    Entry(6, 0, 6, 3, "lake_edge_inner"),
    Entry(8, 0, 6, 3, "lake_edge_straight"),
    Entry(9, 0, 6, 3, "lake_edge_straight"),
    Entry(8, 0, 8, 1, "lake_boat"),
    Entry(6, 0, 9, 0, "lake_lilly")]

  method LakeEdge(builder: WorldBuilder)
    requires builder.Valid()
    modifies builder
    ensures builder.Valid() && builder.writes == old(builder.writes) + LAKE_EDGE
  {
    ghost var w0 := builder.writes;
    builder.SetAtPosition(4, 0, 9, 0, "lake_edge_straight");
    builder.SetAtPosition(4, 0, 8, 3, "lake_edge_inner");
    builder.SetAtPosition(5, 0, 8, 3, "lake_edge_straight");
    builder.SetAtPosition(6, 0, 8, 3, "lake_edge_outer");
    builder.SetAtPosition(6, 0, 7, 0, "lake_edge_pier");
    builder.SetAtPosition(6, 0, 6, 3, "lake_edge_inner");
    builder.SetAtPosition(8, 0, 6, 3, "lake_edge_straight");
    builder.SetAtPosition(9, 0, 6, 3, "lake_edge_straight");
    builder.SetAtPosition(8, 0, 8, 1, "lake_boat");
    builder.SetAtPosition(6, 0, 9, 0, "lake_lilly");
    Append10(w0, Entry(4, 0, 9, 0, "lake_edge_straight"), Entry(4, 0, 8, 3, "lake_edge_inner"), Entry(5, 0, 8, 3, "lake_edge_straight"), Entry(6, 0, 8, 3, "lake_edge_outer"), Entry(6, 0, 7, 0, "lake_edge_pier"), Entry(6, 0, 6, 3, "lake_edge_inner"), Entry(8, 0, 6, 3, "lake_edge_straight"), Entry(9, 0, 6, 3, "lake_edge_straight"), Entry(8, 0, 8, 1, "lake_boat"), Entry(6, 0, 9, 0, "lake_lilly"));
  }

  /** Path: the `setAtPosition` calls in order. */
  const PATH: seq<Entry> := [
    Entry(5, 0, 4, 0, "stone_path_straight"),
    Entry(6, 0, 4, 0, "stone_path_straight"),
    Entry(8, 0, 4, 0, "stone_path_straight"),
    Entry(9, 0, 4, 0, "stone_path_straight")]

  method Path(builder: WorldBuilder)
    requires builder.Valid()
    modifies builder
    ensures builder.Valid() && builder.writes == old(builder.writes) + PATH
  {
    ghost var w0 := builder.writes;
    builder.SetAtPosition(5, 0, 4, 0, "stone_path_straight");
    builder.SetAtPosition(6, 0, 4, 0, "stone_path_straight");
    builder.SetAtPosition(8, 0, 4, 0, "stone_path_straight");
    builder.SetAtPosition(9, 0, 4, 0, "stone_path_straight");
    Append4(w0, Entry(5, 0, 4, 0, "stone_path_straight"), Entry(6, 0, 4, 0, "stone_path_straight"), Entry(8, 0, 4, 0, "stone_path_straight"), Entry(9, 0, 4, 0, "stone_path_straight"));
  }

  lemma Append4<T>(s: seq<T>, a: T, b: T, c: T, d: T)
    ensures s + [a] + [b] + [c] + [d] == s + [a, b, c, d]
  {
  }

  lemma Append7<T>(s: seq<T>, a: T, b: T, c: T, d: T, e: T, f: T, g: T)
    ensures s + [a] + [b] + [c] + [d] + [e] + [f] + [g] == s + [a, b, c, d, e, f, g]
  {
  }

  lemma Append8<T>(s: seq<T>, a: T, b: T, c: T, d: T, e: T, f: T, g: T, h: T)
    ensures s + [a] + [b] + [c] + [d] + [e] + [f] + [g] + [h] == s + [a, b, c, d, e, f, g, h]
  {
  }

  lemma Append10<T>(s: seq<T>, a: T, b: T, c: T, d: T, e: T, f: T, g: T, h: T, i: T, j: T)
    ensures s + [a] + [b] + [c] + [d] + [e] + [f] + [g] + [h] + [i] + [j] == s + [a, b, c, d, e, f, g, h, i, j]
  {
  }
  // ---------------------------------------------------------------------------
  // The castle
  // ---------------------------------------------------------------------------

  /** The four corners. */
  const CORNERS: seq<Entry> := Section(0, 2, 1, CORNER) + Section(4, 2, 0, CORNER) + Section(4, 6, 3, CORNER) + Section(0, 6, 2, CORNER)

  method CastleCorners(builder: WorldBuilder)
    requires builder.Valid()
    modifies builder
    ensures builder.Valid() && builder.writes == old(builder.writes) + CORNERS
  {
    ghost var w0 := builder.writes;
    CreateCastleCorner(builder, 0, 2, 1);
    CreateCastleCorner(builder, 4, 2, 0);
    CreateCastleCorner(builder, 4, 6, 3);
    CreateCastleCorner(builder, 0, 6, 2);
    Regroup4(w0, Section(0, 2, 1, CORNER), Section(4, 2, 0, CORNER), Section(4, 6, 3, CORNER), Section(0, 6, 2, CORNER));
  }

  /** The wall along `z = 2`. */
  const NORTH_WALL: seq<Entry> := Section(1, 2, 1, WALL) + Section(2, 2, 1, WINDOW) + Section(3, 2, 1, WALL)

  method NorthWall(builder: WorldBuilder)
    requires builder.Valid()
    modifies builder
    ensures builder.Valid() && builder.writes == old(builder.writes) + NORTH_WALL
  {
    ghost var w0 := builder.writes;
    CreateCastleWall(builder, 1, 2, 1);
    CreateCastleWindow(builder, 2, 2, 1);
    CreateCastleWall(builder, 3, 2, 1);
    Regroup3(w0, Section(1, 2, 1, WALL), Section(2, 2, 1, WINDOW), Section(3, 2, 1, WALL));
  }

  /** The wall along `x = 4`, with the door. */
  const EAST_WALL: seq<Entry> := Section(4, 3, 0, WALL) + Section(4, 4, 0, DOOR) + Section(4, 5, 0, WALL)

  method EastWall(builder: WorldBuilder)
    requires builder.Valid()
    modifies builder
    ensures builder.Valid() && builder.writes == old(builder.writes) + EAST_WALL
  {
    ghost var w0 := builder.writes;
    CreateCastleWall(builder, 4, 3, 0);
    CreateCastleDoor(builder, 4, 4, 0);
    CreateCastleWall(builder, 4, 5, 0);
    Regroup3(w0, Section(4, 3, 0, WALL), Section(4, 4, 0, DOOR), Section(4, 5, 0, WALL));
  }

  /** The wall along `z = 6`. */
  const SOUTH_WALL: seq<Entry> := Section(3, 6, 3, WALL) + Section(2, 6, 3, WINDOW) + Section(1, 6, 3, WALL)

  method SouthWall(builder: WorldBuilder)
    requires builder.Valid()
    modifies builder
    ensures builder.Valid() && builder.writes == old(builder.writes) + SOUTH_WALL
  {
    ghost var w0 := builder.writes;
    CreateCastleWall(builder, 3, 6, 3);
    CreateCastleWindow(builder, 2, 6, 3);
    CreateCastleWall(builder, 1, 6, 3);
    Regroup3(w0, Section(3, 6, 3, WALL), Section(2, 6, 3, WINDOW), Section(1, 6, 3, WALL));
  }

  /** The wall along `x = 0`. */
  const WEST_WALL: seq<Entry> := Section(0, 5, 2, WALL) + Section(0, 4, 2, WINDOW) + Section(0, 3, 2, WALL)

  method WestWall(builder: WorldBuilder)
    requires builder.Valid()
    modifies builder
    ensures builder.Valid() && builder.writes == old(builder.writes) + WEST_WALL
  {
    ghost var w0 := builder.writes;
    CreateCastleWall(builder, 0, 5, 2);
    CreateCastleWindow(builder, 0, 4, 2);
    CreateCastleWall(builder, 0, 3, 2);
    Regroup3(w0, Section(0, 5, 2, WALL), Section(0, 4, 2, WINDOW), Section(0, 3, 2, WALL));
  }

  lemma Regroup3<T>(s: seq<T>, a: seq<T>, b: seq<T>, c: seq<T>)
    ensures s + a + b + c == s + (a + b + c)
  {
  }

  lemma Regroup4<T>(s: seq<T>, a: seq<T>, b: seq<T>, c: seq<T>, d: seq<T>)
    ensures s + a + b + c + d == s + (a + b + c + d)
  {
  }

  /** The interior of one column: `castle_base` on the ground and `castle_roof` at height 3 for each `z`. */
  function InteriorColumn(x: int, z0: int, z1: int): seq<Entry>
    decreases z1 - z0
  {
    if z1 <= z0 then [] else InteriorColumn(x, z0, z1 - 1) + [Entry(x, 0, z1 - 1, 0, "castle_base"), Entry(x, 3, z1 - 1, 0, "castle_roof")]
  }

  /** The interior loops over columns `x0 .. x1-1`, each from `z0` to `z1-1`. */
  function InteriorWrites(x0: int, x1: int, z0: int, z1: int): seq<Entry>
    decreases x1 - x0
  {
    if x1 <= x0 then [] else InteriorWrites(x0, x1 - 1, z0, z1) + InteriorColumn(x1 - 1, z0, z1)
  }

  /** The nested interior loops: floor and roof on every column inside the walls. */
  method CastleInterior(builder: WorldBuilder, x0: int, x1: int, z0: int, z1: int)
    requires x0 <= x1 && z0 <= z1 && builder.Valid()
    modifies builder
    ensures builder.Valid() && builder.writes == old(builder.writes) + InteriorWrites(x0, x1, z0, z1)
  {
    ghost var w0 := builder.writes;
    for x := x0 to x1
      invariant builder.Valid() && builder.writes == w0 + InteriorWrites(x0, x, z0, z1)
    {
      InteriorRow(builder, x, z0, z1);
    }
  }

  /** The inner loop of the interior. */
  method InteriorRow(builder: WorldBuilder, x: int, z0: int, z1: int)
    requires z0 <= z1 && builder.Valid()
    modifies builder
    ensures builder.Valid() && builder.writes == old(builder.writes) + InteriorColumn(x, z0, z1)
  {
    ghost var w0 := builder.writes;
    for z := z0 to z1
      invariant builder.Valid() && builder.writes == w0 + InteriorColumn(x, z0, z)
    {
      builder.SetAtPosition(x, 0, z, 0, "castle_base");
      builder.SetAtPosition(x, 3, z, 0, "castle_roof");
      AppendPair(w0, InteriorColumn(x, z0, z), Entry(x, 0, z, 0, "castle_base"), Entry(x, 3, z, 0, "castle_roof"));
    }
  }

  lemma AppendPair<T>(s: seq<T>, t: seq<T>, a: T, b: T)
    ensures s + t + [a] + [b] == s + (t + [a, b])
  {
  }

  // ---------------------------------------------------------------------------
  // The whole script
  // ---------------------------------------------------------------------------

  /** The plot is `PLOT` x `PLOT` cells. */
  const PLOT: int := 10
  /** The castle's walls along `x = CASTLE_EAST` and `z = CASTLE_SOUTH` bound its interior. */
  const CASTLE_EAST: int := 4
  const CASTLE_SOUTH: int := 6

  function RaisedFloorWrites(): seq<Entry>
  {
    RectWrites(6, PLOT, 1, 0, 3, "grass") + RectWrites(4, PLOT, 1, 0, 1, "grass")
  }

  function LakeFloorWrites(): seq<Entry>
  {
    RectWrites(6, PLOT, 0, 6, PLOT, "lake") + RectWrites(4, PLOT, 0, 8, PLOT, "lake")
  }

  /** The walls, corners first, then the interior. */
  function CastleBuildingWrites(): seq<Entry>
  {
    CORNERS + NORTH_WALL + EAST_WALL + SOUTH_WALL + WEST_WALL + InteriorWrites(1, CASTLE_EAST, 3, CASTLE_SOUTH)
  }

  /** Every `setAtPosition` call of the script, in order. */
  function CastleWrites(): seq<Entry>
  {
    RectWrites(0, PLOT, 0, 0, PLOT, "grass") + RaisedFloorWrites() + LakeFloorWrites()
    + CLIFF_EDGES + STREAM + LAKE_EDGE + CastleBuildingWrites() + PATH
  }

  /** `// Raised floor`: the two loops at height 1. */
  method RaisedFloor(builder: WorldBuilder)
    requires builder.Valid()
    modifies builder
    ensures builder.Valid() && builder.writes == old(builder.writes) + RaisedFloorWrites()
  {
    ghost var w0 := builder.writes;
    FillRect(builder, 6, PLOT, 1, 0, 3, "grass");
    FillRect(builder, 4, PLOT, 1, 0, 1, "grass");
  }

  /** `// Lake floor`: the two loops of lake tiles. */
  method LakeFloor(builder: WorldBuilder)
    requires builder.Valid()
    modifies builder
    ensures builder.Valid() && builder.writes == old(builder.writes) + LakeFloorWrites()
  {
    ghost var w0 := builder.writes;
    FillRect(builder, 6, PLOT, 0, 6, PLOT, "lake");
    FillRect(builder, 4, PLOT, 0, 8, PLOT, "lake");
  }

  /** The castle: corner and wall sections, then the interior. */
  method CastleBuilding(builder: WorldBuilder)
    requires builder.Valid()
    modifies builder
    ensures builder.Valid() && builder.writes == old(builder.writes) + CastleBuildingWrites()
  {
    ghost var w0 := builder.writes;
    CastleCorners(builder);
    NorthWall(builder);
    EastWall(builder);
    SouthWall(builder);
    WestWall(builder);
    CastleInterior(builder, 1, CASTLE_EAST, 3, CASTLE_SOUTH);
    Regroup6(w0, CORNERS, NORTH_WALL, EAST_WALL, SOUTH_WALL, WEST_WALL, InteriorWrites(1, CASTLE_EAST, 3, CASTLE_SOUTH));
  }

  /** The script up to `withIds`: the world it builds. */
  method BuildCastle() returns (builder: WorldBuilder)
    ensures builder.Valid() && builder.writes == CastleWrites()
  {
    builder := new WorldBuilder();
    // World floor
    FillRect(builder, 0, PLOT, 0, 0, PLOT, "grass");
    RaisedFloor(builder);
    LakeFloor(builder);
    CliffEdges(builder);
    Stream(builder);
    LakeEdge(builder);
    CastleBuilding(builder);
    Path(builder);
    assert [] + RectWrites(0, PLOT, 0, 0, PLOT, "grass") == RectWrites(0, PLOT, 0, 0, PLOT, "grass");
  }

  lemma Regroup6<T>(s: seq<T>, a: seq<T>, b: seq<T>, c: seq<T>, d: seq<T>, e: seq<T>, f: seq<T>)
    ensures s + a + b + c + d + e + f == s + (a + b + c + d + e + f)
  {
  }

  /** `walkableTiles`. */
  const CASTLE_WALKABLE: seq<string> := ["castle_base", "castle_roof", "castle_arch_base", "lake_edge_pier",
    "cliff_corner_inner", "cliff_corner_outer", "cliff_straight", "stone_path_end", "stream_stone_bridge",
    "stone_path_corner", "stone_path_straight", "dirt_path_end", "dirt_path_corner", "dirt_path_straight",
    "stream_wood_bridge", "stream_stepping_stones", "grass"]

  /** Where the knight starts. */
  const CASTLE_KNIGHT_AT: Cell := (3, 1, 0)

  /** The whole script, given the `terrain-` sprite file names. */
  method GenerateCastle(files: seq<string>) returns (r: Result<seq<Entity>>)
    ensures Exported(ApplyWrites([], CastleWrites()), files, CASTLE_WALKABLE, CASTLE_KNIGHT_AT, r)
  {
    var builder := BuildCastle();
    r := Export(builder.world, files, CASTLE_WALKABLE, CASTLE_KNIGHT_AT);
  }

  /** The castle world keeps one entry per position, and the whole floor is still covered at the end. */
  lemma CastleWorld()
    ensures Unique(ApplyWrites([], CastleWrites()))
    ensures forall x, z :: 0 <= x < PLOT && 0 <= z < PLOT ==> (x, 0, z) in Occupied(ApplyWrites([], CastleWrites()))
  {
    var floor := RectWrites(0, PLOT, 0, 0, PLOT, "grass");
    var rest := RaisedFloorWrites() + LakeFloorWrites() + CLIFF_EDGES + STREAM + LAKE_EDGE + CastleBuildingWrites() + PATH;
    Regroup7(floor, RaisedFloorWrites(), LakeFloorWrites(), CLIFF_EDGES, STREAM, LAKE_EDGE, CastleBuildingWrites(), PATH);
    RectTargets(0, PLOT, 0, 0, PLOT, "grass");
    FloorStaysCovered(floor, rest);
  }

  /** Writes that start by covering the `PLOT x PLOT` floor leave a unique world whose floor is still covered. */
  lemma FloorStaysCovered(floor: seq<Entry>, rest: seq<Entry>)
    requires forall x, z :: 0 <= x < PLOT && 0 <= z < PLOT ==> (x, 0, z) in Targets(floor)
    ensures Unique(ApplyWrites([], floor + rest))
    ensures forall x, z :: 0 <= x < PLOT && 0 <= z < PLOT ==> (x, 0, z) in Occupied(ApplyWrites([], floor + rest))
  {
    ApplyWritesEffect([], floor + rest);
    TargetsOfPrefix(floor, rest);
  }

  lemma Regroup7<T>(s: seq<T>, a: seq<T>, b: seq<T>, c: seq<T>, d: seq<T>, e: seq<T>, f: seq<T>, g: seq<T>)
    ensures s + a + b + c + d + e + f + g == s + (a + b + c + d + e + f + g)
  {
  }

  lemma TargetsOfPrefix(a: seq<Entry>, b: seq<Entry>)
    ensures Targets(a) <= Targets(a + b)
  {
    forall c | c in Targets(a) ensures c in Targets(a + b) {
      var e :| e in a && CellOf(e) == c;
      assert e in a + b;
    }
  }
}
