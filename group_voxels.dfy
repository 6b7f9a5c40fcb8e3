/**
 * `groupVoxels` and `invert` of models/voxel/groupVoxels.ts. Terrain pieces,
 * each a `GRID_SIZE`³ volume at a tile position with a quarter turn about the
 * vertical axis, are copied into one cubic volume whose corner is the
 * component-wise minimum of their positions. The min/max scan is shared with
 * `getGroupPosition` of src/load.ts, which repeats it line for line.
 */
module VoxelGroup {
  import opened Wrappers
  import opened JsNumbers
  import opened VoxelVolume
  import opened Components

  /** `PositionedVoxel`: a volume placed at a tile position. */
  datatype PositionedVoxels = PositionedVoxels(position: Placement, voxels: Voxels)

  // ---------------------------------------------------------------------------
  // invert and the quarter turns
  // ---------------------------------------------------------------------------

  /** `invert(v)`: the mirror image of a coordinate inside one tile. */
  function Invert(v: int): int
  {
    (GRID_SIZE - 1) - v
  }

  /** `invert` is an involution that maps the tile range onto itself. */
  lemma InvertInvolution(v: int)
    ensures Invert(Invert(v)) == v
    ensures 0 <= v < GRID_SIZE <==> 0 <= Invert(v) < GRID_SIZE
  {
  }

  /** `(x, z)` is a column of one tile's `16 × 16` footprint. */
  predicate InFootprint(x: int, z: int)
  {
    0 <= x < GRID_SIZE && 0 <= z < GRID_SIZE
  }

  /** Where the rotation `r` puts the source column `(x, z)` inside the tile (the `switch` cases). */
  function Turn(r: int, x: int, z: int): (t: (int, int))
    requires 0 <= r <= 3
    ensures InFootprint(x, z) ==> InFootprint(t.0, t.1)
  {
    if r == 0 then (x, z)
    else if r == 1 then (z, Invert(x))
    else if r == 2 then (Invert(x), Invert(z))
    else (Invert(z), x)
  }

  /** `TURN_1` applied twice is `TURN_2`, three times `TURN_3`, four times the identity. */
  lemma TurnsCompose(x: int, z: int)
    ensures var p1 := Turn(1, x, z); Turn(1, p1.0, p1.1) == Turn(2, x, z)
    ensures var p2 := Turn(2, x, z); Turn(1, p2.0, p2.1) == Turn(3, x, z)
    ensures var p3 := Turn(3, x, z); Turn(1, p3.0, p3.1) == (x, z)
  {
  }

  /** The rotation that undoes `r`. */
  function Unturn(r: int, x: int, z: int): (int, int)
    requires 0 <= r <= 3
  {
    Turn((4 - r) % 4, x, z)
  }

  /** Each rotation maps the tile's `16 × 16` footprint bijectively onto itself. */
  lemma TurnIsBijection(r: int, x: int, z: int)
    requires 0 <= r <= 3
    ensures 0 <= x < GRID_SIZE && 0 <= z < GRID_SIZE ==>
      0 <= Turn(r, x, z).0 < GRID_SIZE && 0 <= Turn(r, x, z).1 < GRID_SIZE
    ensures Unturn(r, Turn(r, x, z).0, Turn(r, x, z).1) == (x, z)
    ensures Turn(r, Unturn(r, x, z).0, Unturn(r, x, z).1) == (x, z)
  {
  }

  // ---------------------------------------------------------------------------
  // The min/max scan
  // ---------------------------------------------------------------------------

  datatype Axis = X | Y | Z

  function Coord(p: Placement, a: Axis): int
  {
    match a
    case X => p.x
    case Y => p.y
    case Z => p.z
  }

  function Min(a: int, b: int): int { if a < b then a else b }

  function Max(a: int, b: int): int { if a < b then b else a }

  /** The smallest coordinate on axis `a`, folded left to right as `Math.min` does. */
  function Least(ps: seq<Placement>, a: Axis): int
    requires |ps| > 0
  {
    if |ps| == 1 then Coord(ps[0], a) else Min(Least(ps[..|ps| - 1], a), Coord(ps[|ps| - 1], a))
  }

  /** The greatest coordinate on axis `a`, folded as `Math.max` does. */
  function Greatest(ps: seq<Placement>, a: Axis): int
    requires |ps| > 0
  {
    if |ps| == 1 then Coord(ps[0], a) else Max(Greatest(ps[..|ps| - 1], a), Coord(ps[|ps| - 1], a))
  }

  /** `Least` is the minimum: attained by some position and below every position. */
  lemma {:induction false} LeastIsMinimum(ps: seq<Placement>, a: Axis)
    requires |ps| > 0
    ensures exists i :: 0 <= i < |ps| && Least(ps, a) == Coord(ps[i], a)
    ensures forall i :: 0 <= i < |ps| ==> Least(ps, a) <= Coord(ps[i], a)
  {
    if |ps| > 1 {
      var init := ps[..|ps| - 1];
      LeastIsMinimum(init, a);
      var i :| 0 <= i < |init| && Least(init, a) == Coord(init[i], a);
      var w := if Least(init, a) < Coord(ps[|ps| - 1], a) then i else |ps| - 1;
      assert ps[i] == init[i];
      assert 0 <= w < |ps| && Least(ps, a) == Coord(ps[w], a);
      forall j | 0 <= j < |ps|
        ensures Least(ps, a) <= Coord(ps[j], a)
      {
        if j < |ps| - 1 {
          assert ps[j] == init[j];
        }
      }
    } else {
      assert Least(ps, a) == Coord(ps[0], a);
    }
  }

  /** `Greatest` is the maximum: attained by some position and above every position. */
  lemma {:induction false} GreatestIsMaximum(ps: seq<Placement>, a: Axis)
    requires |ps| > 0
    ensures exists i :: 0 <= i < |ps| && Greatest(ps, a) == Coord(ps[i], a)
    ensures forall i :: 0 <= i < |ps| ==> Coord(ps[i], a) <= Greatest(ps, a)
  {
    if |ps| > 1 {
      var init := ps[..|ps| - 1];
      GreatestIsMaximum(init, a);
      var i :| 0 <= i < |init| && Greatest(init, a) == Coord(init[i], a);
      var w := if Greatest(init, a) > Coord(ps[|ps| - 1], a) then i else |ps| - 1;
      assert ps[i] == init[i];
      assert 0 <= w < |ps| && Greatest(ps, a) == Coord(ps[w], a);
      forall j | 0 <= j < |ps|
        ensures Coord(ps[j], a) <= Greatest(ps, a)
      {
        if j < |ps| - 1 {
          assert ps[j] == init[j];
        }
      }
    } else {
      assert Greatest(ps, a) == Coord(ps[0], a);
    }
  }

  /**
   * The `forEach` that updates `minX` .. `maxZ`, starting from the first
   * position (which the source requires to exist).
   */
  method Bounds(positions: seq<Placement>) returns (minX: int, maxX: int, minY: int, maxY: int, minZ: int, maxZ: int)
    requires |positions| > 0
    ensures minX == Least(positions, X) && maxX == Greatest(positions, X)
    ensures minY == Least(positions, Y) && maxY == Greatest(positions, Y)
    ensures minZ == Least(positions, Z) && maxZ == Greatest(positions, Z)
  {
    minX, maxX := positions[0].x, positions[0].x;
    minY, maxY := positions[0].y, positions[0].y;
    minZ, maxZ := positions[0].z, positions[0].z;
    for i := 0 to |positions|
      invariant var seen := positions[..if i == 0 then 1 else i];
        && minX == Least(seen, X) && maxX == Greatest(seen, X)
        && minY == Least(seen, Y) && maxY == Greatest(seen, Y)
        && minZ == Least(seen, Z) && maxZ == Greatest(seen, Z)
    {
      var position := positions[i];
      if i > 0 {
        assert positions[..i + 1][..i] == positions[..i];
      }
      minX := Min(position.x, minX);
      maxX := Max(position.x, maxX);
      minY := Min(position.y, minY);
      maxY := Max(position.y, maxY);
      minZ := Min(position.z, minZ);
      maxZ := Max(position.z, maxZ);
    }
    assert positions[..|positions|] == positions;
  }

  /** The group's corner: the three minima, unrotated. */
  function Corner(ps: seq<Placement>): (c: Placement)
    requires |ps| > 0
  {
    Placement(Least(ps, X), Least(ps, Y), Least(ps, Z), Some(0))
  }

  /** `groupSize`: the largest extent, in tiles, over the three axes. */
  function GroupSize(ps: seq<Placement>): int
    requires |ps| > 0
  {
    Max(Max(Greatest(ps, X) - Least(ps, X), Greatest(ps, Y) - Least(ps, Y)), Greatest(ps, Z) - Least(ps, Z)) + 1
  }

  /** Every position lies within `groupSize` tiles of the corner on every axis. */
  predicate InGroup(p: Placement, corner: Placement, groupSize: int)
  {
    forall a: Axis :: 0 <= Coord(p, a) - Coord(corner, a) < groupSize
  }

  /** The corner is the minimum, and the group is at least one tile wide and spans every position. */
  lemma GroupSpansPositions(ps: seq<Placement>)
    requires |ps| > 0
    ensures GroupSize(ps) >= 1
    ensures forall i :: 0 <= i < |ps| ==> InGroup(ps[i], Corner(ps), GroupSize(ps))
    ensures forall a: Axis :: exists i :: 0 <= i < |ps| && Coord(ps[i], a) == Coord(Corner(ps), a)
  {
    LeastIsMinimum(ps, X);
    LeastIsMinimum(ps, Y);
    LeastIsMinimum(ps, Z);
    GreatestIsMaximum(ps, X);
    GreatestIsMaximum(ps, Y);
    GreatestIsMaximum(ps, Z);
    assert forall a: Axis :: Coord(Corner(ps), a) == Least(ps, a);
  }

  // ---------------------------------------------------------------------------
  // Where each source cell goes
  // ---------------------------------------------------------------------------

  /** A piece's volume as values: where it sits, its side and its bytes. */
  datatype Piece = Piece(position: Placement, size: int, cells: seq<byte>)

  ghost function SnapshotOf(v: PositionedVoxels): Piece
    reads v.voxels.data
  {
    Piece(v.position, v.voxels.size, v.voxels.data[..])
  }

  ghost function Snapshots(pieces: seq<PositionedVoxels>): (snapshot: seq<Piece>)
    reads set i | 0 <= i < |pieces| :: pieces[i].voxels.data
    ensures |snapshot| == |pieces| && forall i :: 0 <= i < |pieces| ==> snapshot[i] == SnapshotOf(pieces[i])
  {
    seq(|pieces|, i requires 0 <= i < |pieces| reads set j | 0 <= j < |pieces| :: pieces[j].voxels.data => SnapshotOf(pieces[i]))
  }

  /** `xOffset`, `yOffset`, `zOffset`: the piece's corner inside the group. */
  function Origin(p: Placement, corner: Placement): Position
  {
    Position((p.x - corner.x) * GRID_SIZE, (p.y - corner.y) * GRID_SIZE, (p.z - corner.z) * GRID_SIZE)
  }

  /** The group cell that the source cell `s` is copied to. */
  function TargetOf(pc: Piece, corner: Placement, s: Position): Position
    requires IsRotation(pc.position.rotation)
  {
    var o := Origin(pc.position, corner);
    var column := Turn(pc.position.rotation.value, s.x, s.z);
    Position(o.x + column.0, o.y + s.y, o.z + column.1)
  }

  /** The source cell that would be copied to group cell `t`, if any. */
  function SourceOf(pc: Piece, corner: Placement, t: Position): (s: Option<Position>)
    ensures s.Some? ==> InCube(GRID_SIZE, s.value)
  {
    if !IsRotation(pc.position.rotation) then None
    else
      var o := Origin(pc.position, corner);
      var column := Unturn(pc.position.rotation.value, t.x - o.x, t.z - o.z);
      var s := Position(column.0, t.y - o.y, column.1);
      if InCube(GRID_SIZE, s) then Some(s) else None
  }

  /** `TargetOf` and `SourceOf` are inverse: each group cell has at most one source cell per piece. */
  lemma SourceTargetInverse(pc: Piece, corner: Placement, s: Position, t: Position)
    requires IsRotation(pc.position.rotation) && InCube(GRID_SIZE, s)
    ensures SourceOf(pc, corner, t) == Some(s) <==> t == TargetOf(pc, corner, s)
  {
    var r := pc.position.rotation.value;
    var o := Origin(pc.position, corner);
    TurnIsBijection(r, s.x, s.z);
    TurnIsBijection(r, t.x - o.x, t.z - o.z);
  }

  /** Every copy lands inside the group volume, so `populate` never throws. */
  lemma TargetInGroup(pc: Piece, corner: Placement, groupSize: int, s: Position)
    requires IsRotation(pc.position.rotation) && InCube(GRID_SIZE, s)
    requires InGroup(pc.position, corner, groupSize)
    ensures InCube(groupSize * GRID_SIZE, TargetOf(pc, corner, s))
  {
    TurnIsBijection(pc.position.rotation.value, s.x, s.z);
    assert 0 <= Coord(pc.position, X) - Coord(corner, X) < groupSize;
    assert 0 <= Coord(pc.position, Y) - Coord(corner, Y) < groupSize;
    assert 0 <= Coord(pc.position, Z) - Coord(corner, Z) < groupSize;
  }

  /** The source cell `s` exists and the switch has a case for the piece's rotation. */
  predicate Copied(pc: Piece, s: Position)
  {
    IsRotation(pc.position.rotation) && CellExists(pc.cells, pc.size, s)
  }

  /** Group cell `t` receives a copy from the piece. */
  predicate Covers(pc: Piece, corner: Placement, t: Position)
  {
    SourceOf(pc, corner, t).Some? && Copied(pc, SourceOf(pc, corner, t).value)
  }

  /** A rotation outside `0..3` matches no `case`, so the piece covers nothing. */
  lemma BadRotationCopiesNothing(pc: Piece, corner: Placement, t: Position)
    requires !IsRotation(pc.position.rotation)
    ensures !Covers(pc, corner, t)
  {
  }

  /** The byte at `i`, or 0 where `getByPos` returns `undefined` (stored into a `Uint8Array` as 0). */
  function ByteOr0(cells: seq<byte>, i: int): int
  {
    if 0 <= i < |cells| then cells[i] as int else 0
  }

  /** The first four fields `populate` writes for the copy of source cell `s`. */
  function CopiedField(pc: Piece, s: Position, l: VoxelLookup): byte
    requires l.Index() < 4
  {
    var o := CellIndex(pc.size, s) * VOXEL_LOOKUP_LENGTH;
    match l
    case Exists => 1
    case R => ToUint8(ByteOr0(pc.cells, o + 1))
    case G => ToUint8(ByteOr0(pc.cells, o + 2))
    case B => ToUint8(ByteOr0(pc.cells, o + 3))
  }

  /** The copied colour is the source cell's own `r`, `g` and `b`. */
  lemma CopiedColorIsSource(pc: Piece, s: Position, l: VoxelLookup)
    requires |pc.cells| == pc.size * pc.size * pc.size * VOXEL_LOOKUP_LENGTH
    requires CellExists(pc.cells, pc.size, s) && 1 <= l.Index() < 4
    ensures CopiedField(pc, s, l) == CellField(pc.cells, pc.size, s, l)
  {
    CellIndexRoundTrip(pc.size, s);
  }

  // ---------------------------------------------------------------------------
  // The group volume
  // ---------------------------------------------------------------------------

  /** The visit number of a source cell: `x` outermost, then `y`, then `z`. */
  function Visit(s: Position): int
  {
    256 * s.x + 16 * s.y + s.z
  }

  lemma VisitInjective(u: Position, v: Position)
    requires InCube(GRID_SIZE, u) && InCube(GRID_SIZE, v) && Visit(u) == Visit(v)
    ensures u == v
  {
  }

  /** The source cell visited at step `j`. */
  function VisitedAt(j: int): Position
  {
    Position(j / 256, (j / 16) % 16, j % 16)
  }

  lemma VisitedAtVisit(j: int)
    requires 0 <= j < 4096
    ensures InCube(GRID_SIZE, VisitedAt(j)) && Visit(VisitedAt(j)) == j
  {
    var x, m := j / 256, j % 256;
    var y, z := m / 16, m % 16;
    assert j == 16 * (16 * x + y) + z;
    DivModUnique(j, 16, 16 * x + y, z);
    DivModUnique(16 * x + y, 16, x, y);
  }

  /** Field `l` of group cell `t` once the copy loop of piece `pc` has made `j` steps over `base`. */
  function PieceField(base: seq<byte>, size: int, pc: Piece, corner: Placement, j: int, t: Position, l: VoxelLookup): byte
    requires InCube(size, t) && |base| == size * size * size * VOXEL_LOOKUP_LENGTH
  {
    if l.Index() < 4 && Covers(pc, corner, t) && Visit(SourceOf(pc, corner, t).value) < j
    then CopiedField(pc, SourceOf(pc, corner, t).value, l)
    else CellField(base, size, t, l)
  }

  /** Every cell of `s` is as `PieceField` describes after `j` steps. */
  ghost predicate CopiedUpTo(s: seq<byte>, base: seq<byte>, size: int, pc: Piece, corner: Placement, j: int)
  {
    && |base| == size * size * size * VOXEL_LOOKUP_LENGTH
    && |s| == |base|
    && forall t, l: VoxelLookup :: InCube(size, t) ==> CellField(s, size, t, l) == PieceField(base, size, pc, corner, j, t, l)
  }

  /** The offsets `populate` appends during the first `j` steps of piece `pc`'s copy loop. */
  function PieceOffsets(pc: Piece, corner: Placement, size: int, j: nat): seq<int>
  {
    if j == 0 then []
    else
      var s := VisitedAt(j - 1);
      PieceOffsets(pc, corner, size, j - 1)
      + (if Copied(pc, s) then [CellIndex(size, TargetOf(pc, corner, s)) * VOXEL_LOOKUP_LENGTH] else [])
  }

  /** A piece with no valid rotation appends no offsets. */
  lemma {:induction false} BadRotationAppendsNothing(pc: Piece, corner: Placement, size: int, j: nat)
    requires !IsRotation(pc.position.rotation)
    ensures PieceOffsets(pc, corner, size, j) == []
  {
    if j > 0 {
      BadRotationAppendsNothing(pc, corner, size, j - 1);
    }
  }

  /** Field `l` of group cell `t` once the first `k` pieces are copied over a zeroed volume. */
  function GroupField(snapshot: seq<Piece>, corner: Placement, size: int, k: nat, t: Position, l: VoxelLookup): byte
    requires k <= |snapshot|
  {
    if k == 0 then 0
    else if l.Index() < 4 && Covers(snapshot[k - 1], corner, t)
    then CopiedField(snapshot[k - 1], SourceOf(snapshot[k - 1], corner, t).value, l)
    else GroupField(snapshot, corner, size, k - 1, t, l)
  }

  /** The offsets appended while copying the first `k` pieces. */
  function GroupOffsets(snapshot: seq<Piece>, corner: Placement, size: int, k: nat): seq<int>
    requires k <= |snapshot|
  {
    if k == 0 then [] else GroupOffsets(snapshot, corner, size, k - 1) + PieceOffsets(snapshot[k - 1], corner, size, 4096)
  }

  /** The index of the last of the first `k` pieces that covers group cell `t`, or -1. */
  function LastCover(snapshot: seq<Piece>, corner: Placement, k: nat, t: Position): (i: int)
    requires k <= |snapshot|
    ensures -1 <= i < k
    ensures i >= 0 ==> Covers(snapshot[i], corner, t)
  {
    if k == 0 then -1
    else if Covers(snapshot[k - 1], corner, t) then k - 1
    else LastCover(snapshot, corner, k - 1, t)
  }

  /** No piece after `LastCover` covers the cell (so it is -1 exactly when no piece does). */
  lemma {:induction false} LastCoverIsLast(snapshot: seq<Piece>, corner: Placement, k: nat, t: Position)
    requires k <= |snapshot|
    ensures forall j :: LastCover(snapshot, corner, k, t) < j < k ==> !Covers(snapshot[j], corner, t)
  {
    if k > 0 {
      LastCoverIsLast(snapshot, corner, k - 1, t);
    }
  }

  /**
   * The last write wins: a group cell exists exactly when some piece covers
   * it, and then its colour is the one copied by the last piece that covers
   * it; the visibility flags stay 0.
   */
  lemma {:induction false} LastCopyWins(snapshot: seq<Piece>, corner: Placement, size: int, k: nat, t: Position, l: VoxelLookup)
    requires k <= |snapshot|
    ensures var i := LastCover(snapshot, corner, k, t);
      GroupField(snapshot, corner, size, k, t, l)
      == if i < 0 || l.Index() >= 4 then 0 else CopiedField(snapshot[i], SourceOf(snapshot[i], corner, t).value, l)
  {
    if k > 0 {
      LastCopyWins(snapshot, corner, size, k - 1, t, l);
    }
  }

  // ---------------------------------------------------------------------------
  // One step of the copy loop
  // ---------------------------------------------------------------------------

  /** A source cell that is copied turns `j` steps into `j + 1`. */
  lemma CopyStep(s: seq<byte>, base: seq<byte>, size: int, pc: Piece, corner: Placement, src: Position, r: int, g: int, b: int)
    requires InCube(GRID_SIZE, src) && Copied(pc, src)
    requires InCube(size, TargetOf(pc, corner, src))
    requires CopiedUpTo(s, base, size, pc, corner, Visit(src))
    requires var o := CellIndex(pc.size, src) * VOXEL_LOOKUP_LENGTH;
      r == ByteOr0(pc.cells, o + 1) && g == ByteOr0(pc.cells, o + 2) && b == ByteOr0(pc.cells, o + 3)
    ensures CopiedUpTo(PopulateBytes(s, CellIndex(size, TargetOf(pc, corner, src)) * VOXEL_LOOKUP_LENGTH, r, g, b),
      base, size, pc, corner, Visit(src) + 1)
  {
    var t0 := TargetOf(pc, corner, src);
    var s' := PopulateBytes(s, CellIndex(size, t0) * VOXEL_LOOKUP_LENGTH, r, g, b);
    forall t, l: VoxelLookup | InCube(size, t)
      ensures CellField(s', size, t, l) == PieceField(base, size, pc, corner, Visit(src) + 1, t, l)
    {
      assert CellField(s, size, t, l) == PieceField(base, size, pc, corner, Visit(src), t, l);
      if t == t0 {
        CopyStepAtTarget(s, base, size, pc, corner, src, r, g, b, l);
      } else {
        CopyStepElsewhere(s, base, size, pc, corner, src, r, g, b, t, l);
      }
    }
  }

  lemma CopyStepAtTarget(s: seq<byte>, base: seq<byte>, size: int, pc: Piece, corner: Placement, src: Position,
                         r: int, g: int, b: int, l: VoxelLookup)
    requires InCube(GRID_SIZE, src) && Copied(pc, src)
    requires InCube(size, TargetOf(pc, corner, src))
    requires |base| == size * size * size * VOXEL_LOOKUP_LENGTH && |s| == |base|
    requires var t0 := TargetOf(pc, corner, src);
      CellField(s, size, t0, l) == PieceField(base, size, pc, corner, Visit(src), t0, l)
    requires var o := CellIndex(pc.size, src) * VOXEL_LOOKUP_LENGTH;
      r == ByteOr0(pc.cells, o + 1) && g == ByteOr0(pc.cells, o + 2) && b == ByteOr0(pc.cells, o + 3)
    ensures var t0 := TargetOf(pc, corner, src);
      var s' := PopulateBytes(s, CellIndex(size, t0) * VOXEL_LOOKUP_LENGTH, r, g, b);
      CellField(s', size, t0, l) == PieceField(base, size, pc, corner, Visit(src) + 1, t0, l)
  {
    var t0 := TargetOf(pc, corner, src);
    PopulateEffect(s, size, t0, r, g, b);
    SourceTargetInverse(pc, corner, src, t0);
  }

  lemma CopyStepElsewhere(s: seq<byte>, base: seq<byte>, size: int, pc: Piece, corner: Placement, src: Position,
                          r: int, g: int, b: int, t: Position, l: VoxelLookup)
    requires InCube(GRID_SIZE, src) && IsRotation(pc.position.rotation)
    requires InCube(size, TargetOf(pc, corner, src)) && InCube(size, t) && t != TargetOf(pc, corner, src)
    requires |base| == size * size * size * VOXEL_LOOKUP_LENGTH && |s| == |base|
    requires CellField(s, size, t, l) == PieceField(base, size, pc, corner, Visit(src), t, l)
    ensures var s' := PopulateBytes(s, CellIndex(size, TargetOf(pc, corner, src)) * VOXEL_LOOKUP_LENGTH, r, g, b);
      CellField(s', size, t, l) == PieceField(base, size, pc, corner, Visit(src) + 1, t, l)
  {
    PopulateEffect(s, size, TargetOf(pc, corner, src), r, g, b);
    SourceTargetInverse(pc, corner, src, t);
    if Covers(pc, corner, t) && Visit(SourceOf(pc, corner, t).value) == Visit(src) {
      VisitInjective(SourceOf(pc, corner, t).value, src);
    }
  }

  /** A source cell that is not copied turns `j` steps into `j + 1` without a write. */
  lemma SkipStep(s: seq<byte>, base: seq<byte>, size: int, pc: Piece, corner: Placement, src: Position)
    requires InCube(GRID_SIZE, src) && !Copied(pc, src)
    requires CopiedUpTo(s, base, size, pc, corner, Visit(src))
    ensures CopiedUpTo(s, base, size, pc, corner, Visit(src) + 1)
  {
    forall t, l: VoxelLookup | InCube(size, t)
      ensures CellField(s, size, t, l) == PieceField(base, size, pc, corner, Visit(src) + 1, t, l)
    {
      if Covers(pc, corner, t) && Visit(SourceOf(pc, corner, t).value) == Visit(src) {
        VisitInjective(SourceOf(pc, corner, t).value, src);
      }
    }
  }

  /** A finished copy loop of piece `k` over the first `k` pieces gives the first `k + 1`. */
  lemma GroupStep(s: seq<byte>, base: seq<byte>, snapshot: seq<Piece>, corner: Placement, size: int, k: nat)
    requires k < |snapshot| && |base| == size * size * size * VOXEL_LOOKUP_LENGTH
    requires forall t, l: VoxelLookup :: InCube(size, t) ==> CellField(base, size, t, l) == GroupField(snapshot, corner, size, k, t, l)
    requires CopiedUpTo(s, base, size, snapshot[k], corner, 4096)
    ensures forall t, l: VoxelLookup :: InCube(size, t) ==> CellField(s, size, t, l) == GroupField(snapshot, corner, size, k + 1, t, l)
  {
    forall t, l: VoxelLookup | InCube(size, t)
      ensures CellField(s, size, t, l) == GroupField(snapshot, corner, size, k + 1, t, l)
    {
      if Covers(snapshot[k], corner, t) {
        assert Visit(SourceOf(snapshot[k], corner, t).value) < 4096;
      }
    }
  }

  /** Every field of a zeroed volume is the field of the empty group. */
  lemma ZeroGroup(s: seq<byte>, snapshot: seq<Piece>, corner: Placement, size: int)
    requires size >= 0 && s == seq(size * size * size * VOXEL_LOOKUP_LENGTH, _ => 0)
    ensures forall t, l: VoxelLookup :: InCube(size, t) ==> CellField(s, size, t, l) == GroupField(snapshot, corner, size, 0, t, l)
  {
    forall t, l: VoxelLookup | InCube(size, t)
      ensures CellField(s, size, t, l) == 0
    {
      CellIndexRoundTrip(size, t);
    }
  }

  // ---------------------------------------------------------------------------
  // groupVoxels
  // ---------------------------------------------------------------------------

  function Positions(pieces: seq<PositionedVoxels>): (ps: seq<Placement>)
    ensures |ps| == |pieces| && forall i :: 0 <= i < |pieces| ==> ps[i] == pieces[i].position
  {
    seq(|pieces|, i requires 0 <= i < |pieces| => pieces[i].position)
  }

  /** `undefined` passed on to a `Uint8Array` store becomes 0. */
  function OrZero(v: Option<byte>): int
  {
    if v.Some? then v.value as int else 0
  }

  /**
   * `groupVoxels(positionedVoxels)` on a non-empty list. The result sits at
   * the minimum corner with rotation 0; its volume is `groupSize * GRID_SIZE`
   * wide; each of its cells holds the copy of the last piece covering it (all
   * zero when none does); and its offset list records every copy in order.
   */
  method GroupVoxels(pieces: seq<PositionedVoxels>) returns (group: PositionedVoxels, ghost snapshot: seq<Piece>)
    requires |pieces| > 0
    requires forall i :: 0 <= i < |pieces| ==> pieces[i].voxels.Valid()
    ensures |snapshot| == |pieces| && forall i :: 0 <= i < |pieces| ==> snapshot[i] == SnapshotOf(pieces[i])
    ensures group.position == Corner(Positions(pieces))
    ensures fresh(group.voxels) && fresh(group.voxels.data) && group.voxels.Valid()
    ensures group.voxels.size == GroupSize(Positions(pieces)) * GRID_SIZE
    ensures forall t, l: VoxelLookup :: InCube(group.voxels.size, t) ==>
      CellField(group.voxels.data[..], group.voxels.size, t, l) == GroupField(snapshot, group.position, group.voxels.size, |pieces|, t, l)
    ensures group.voxels.populatedOffsets == GroupOffsets(snapshot, group.position, group.voxels.size, |pieces|)
  {
    var positions := Positions(pieces);
    var minX, maxX, minY, maxY, minZ, maxZ := Bounds(positions);
    var groupSize := Max(Max(maxX - minX, maxY - minY), maxZ - minZ) + 1;
    var corner := Placement(minX, minY, minZ, Some(0));
    GroupSpansPositions(positions);
    var volume := new Voxels(groupSize * GRID_SIZE);
    snapshot := Snapshots(pieces);
    CopyPieces(volume, pieces, corner, groupSize, snapshot);
    group := PositionedVoxels(corner, volume);
  }

  /** The outer `forEach`: copy every piece, in order, into the zeroed group volume. */
  method CopyPieces(volume: Voxels, pieces: seq<PositionedVoxels>, corner: Placement, groupSize: int, ghost snapshot: seq<Piece>)
    requires volume.Valid() && volume.size == groupSize * GRID_SIZE
    requires volume.data[..] == seq(volume.size * volume.size * volume.size * VOXEL_LOOKUP_LENGTH, _ => 0)
    requires volume.populatedOffsets == []
    requires forall i :: 0 <= i < |pieces| ==>
      && pieces[i].voxels.Valid() && pieces[i].voxels != volume && pieces[i].voxels.data != volume.data
      && InGroup(pieces[i].position, corner, groupSize)
    requires snapshot == Snapshots(pieces)
    modifies volume, volume.data
    ensures volume.Valid()
    ensures forall t, l: VoxelLookup :: InCube(volume.size, t) ==>
      CellField(volume.data[..], volume.size, t, l) == GroupField(snapshot, corner, volume.size, |pieces|, t, l)
    ensures volume.populatedOffsets == GroupOffsets(snapshot, corner, volume.size, |pieces|)
  {
    var size := volume.size;
    ZeroGroup(volume.data[..], snapshot, corner, size);
    var i := 0;
    while i < |pieces|
      invariant 0 <= i <= |pieces|
      invariant volume.Valid() && volume.size == size
      invariant forall t, l: VoxelLookup :: InCube(size, t) ==>
        CellField(volume.data[..], size, t, l) == GroupField(snapshot, corner, size, i, t, l)
      invariant volume.populatedOffsets == GroupOffsets(snapshot, corner, size, i)
      invariant forall j :: 0 <= j < |pieces| ==> snapshot[j] == SnapshotOf(pieces[j])
    {
      ghost var base := volume.data[..];
      CopyPiece(volume, pieces[i], corner, groupSize, snapshot[i]);
      GroupStep(volume.data[..], base, snapshot, corner, size, i);
      i := i + 1;
    }
  }

  /** One piece's `for x` loop: every source cell of the tile, in visit order. */
  method CopyPiece(volume: Voxels, piece: PositionedVoxels, corner: Placement, groupSize: int, ghost pc: Piece)
    requires volume.Valid() && volume.size == groupSize * GRID_SIZE && piece.voxels.Valid()
    requires piece.voxels.data != volume.data && pc == SnapshotOf(piece)
    requires InGroup(piece.position, corner, groupSize)
    modifies volume, volume.data
    ensures volume.Valid()
    ensures CopiedUpTo(volume.data[..], old(volume.data[..]), volume.size, pc, corner, 4096)
    ensures volume.populatedOffsets == old(volume.populatedOffsets) + PieceOffsets(pc, corner, volume.size, 4096)
  {
    ghost var base := volume.data[..];
    ghost var baseOffsets := volume.populatedOffsets;
    var x := 0;
    while x < GRID_SIZE
      invariant 0 <= x <= GRID_SIZE && volume.Valid()
      invariant CopiedUpTo(volume.data[..], base, volume.size, pc, corner, 256 * x)
      invariant volume.populatedOffsets == baseOffsets + PieceOffsets(pc, corner, volume.size, 256 * x)
    {
      CopyPlane(volume, piece, corner, groupSize, x, pc, base, baseOffsets);
      x := x + 1;
    }
  }

  /** The `for y` loop at one `x`. */
  method CopyPlane(volume: Voxels, piece: PositionedVoxels, corner: Placement, groupSize: int, x: int,
                   ghost pc: Piece, ghost base: seq<byte>, ghost baseOffsets: seq<int>)
    requires volume.Valid() && volume.size == groupSize * GRID_SIZE && piece.voxels.Valid()
    requires piece.voxels.data != volume.data && pc == SnapshotOf(piece)
    requires InGroup(piece.position, corner, groupSize) && 0 <= x < GRID_SIZE
    requires CopiedUpTo(volume.data[..], base, volume.size, pc, corner, 256 * x)
    requires volume.populatedOffsets == baseOffsets + PieceOffsets(pc, corner, volume.size, 256 * x)
    modifies volume, volume.data
    ensures volume.Valid()
    ensures CopiedUpTo(volume.data[..], base, volume.size, pc, corner, 256 * (x + 1))
    ensures volume.populatedOffsets == baseOffsets + PieceOffsets(pc, corner, volume.size, 256 * (x + 1))
  {
    var y := 0;
    while y < GRID_SIZE
      invariant 0 <= y <= GRID_SIZE && volume.Valid()
      invariant CopiedUpTo(volume.data[..], base, volume.size, pc, corner, 256 * x + 16 * y)
      invariant volume.populatedOffsets == baseOffsets + PieceOffsets(pc, corner, volume.size, 256 * x + 16 * y)
    {
      CopyRow(volume, piece, corner, groupSize, x, y, pc, base, baseOffsets);
      y := y + 1;
    }
  }

  /** The `for z` loop at one `(x, y)`. */
  method CopyRow(volume: Voxels, piece: PositionedVoxels, corner: Placement, groupSize: int, x: int, y: int,
                 ghost pc: Piece, ghost base: seq<byte>, ghost baseOffsets: seq<int>)
    requires volume.Valid() && volume.size == groupSize * GRID_SIZE && piece.voxels.Valid()
    requires piece.voxels.data != volume.data && pc == SnapshotOf(piece)
    requires InGroup(piece.position, corner, groupSize) && 0 <= x < GRID_SIZE && 0 <= y < GRID_SIZE
    requires CopiedUpTo(volume.data[..], base, volume.size, pc, corner, 256 * x + 16 * y)
    requires volume.populatedOffsets == baseOffsets + PieceOffsets(pc, corner, volume.size, 256 * x + 16 * y)
    modifies volume, volume.data
    ensures volume.Valid()
    ensures CopiedUpTo(volume.data[..], base, volume.size, pc, corner, 256 * x + 16 * (y + 1))
    ensures volume.populatedOffsets == baseOffsets + PieceOffsets(pc, corner, volume.size, 256 * x + 16 * (y + 1))
  {
    ghost var start := 256 * x + 16 * y;
    for z := 0 to GRID_SIZE
      invariant volume.Valid()
      invariant CopiedUpTo(volume.data[..], base, volume.size, pc, corner, start + z)
      invariant volume.populatedOffsets == baseOffsets + PieceOffsets(pc, corner, volume.size, start + z)
    {
      assert Visit(Position(x, y, z)) == start + z;
      CopyCell(volume, piece, corner, groupSize, Position(x, y, z), pc, base, baseOffsets);
    }
  }

  /** The loop body: copy one source cell if it exists, turned by the piece's rotation. */
  method CopyCell(volume: Voxels, piece: PositionedVoxels, corner: Placement, groupSize: int, p: Position,
                  ghost pc: Piece, ghost base: seq<byte>, ghost baseOffsets: seq<int>)
    requires volume.Valid() && volume.size == groupSize * GRID_SIZE && piece.voxels.Valid()
    requires piece.voxels.data != volume.data && pc == SnapshotOf(piece)
    requires InGroup(piece.position, corner, groupSize) && InCube(GRID_SIZE, p)
    requires CopiedUpTo(volume.data[..], base, volume.size, pc, corner, Visit(p))
    requires volume.populatedOffsets == baseOffsets + PieceOffsets(pc, corner, volume.size, Visit(p))
    modifies volume, volume.data
    ensures volume.Valid()
    ensures CopiedUpTo(volume.data[..], base, volume.size, pc, corner, Visit(p) + 1)
    ensures volume.populatedOffsets == baseOffsets + PieceOffsets(pc, corner, volume.size, Visit(p) + 1)
  {
    PieceOffsetsStep(pc, corner, volume.size, p);
    ExistsAtIff(piece.voxels, p);
    ghost var before := volume.data[..];
    if !piece.voxels.ExistsAt(p) || !IsRotation(piece.position.rotation) {
      SkipStep(before, base, volume.size, pc, corner, p);
      return;
    }
    CopyExisting(volume, piece, corner, groupSize, p, pc, base, before);
  }

  /** The `switch` and the `populate` call for an existing source cell and a valid rotation. */
  method CopyExisting(volume: Voxels, piece: PositionedVoxels, corner: Placement, groupSize: int, p: Position,
                      ghost pc: Piece, ghost base: seq<byte>, ghost before: seq<byte>)
    requires volume.Valid() && volume.size == groupSize * GRID_SIZE && piece.voxels.Valid()
    requires piece.voxels.data != volume.data && pc == SnapshotOf(piece)
    requires InGroup(piece.position, corner, groupSize) && InCube(GRID_SIZE, p)
    requires Copied(pc, p) && before == volume.data[..]
    requires CopiedUpTo(before, base, volume.size, pc, corner, Visit(p))
    modifies volume, volume.data
    ensures volume.Valid()
    ensures CopiedUpTo(volume.data[..], base, volume.size, pc, corner, Visit(p) + 1)
    ensures volume.populatedOffsets == old(volume.populatedOffsets) + [CellIndex(volume.size, TargetOf(pc, corner, p)) * VOXEL_LOOKUP_LENGTH]
  {
    var x, y, z, r, g, b := SourceCell(piece, corner, p, pc);
    TargetInGroup(pc, corner, groupSize, p);
    OffsetIsCellIndex(volume, TargetOf(pc, corner, p));
    var _ := volume.Populate(x, y, z, r, g, b);
    CopyEffect(before, volume.data[..], base, volume.size, pc, corner, p, CellIndex(volume.size, TargetOf(pc, corner, p)) * VOXEL_LOOKUP_LENGTH, r, g, b);
  }

  /** The three `getByPos` reads and the `switch`: the colour of an existing source cell and where it lands in the group. */
  method SourceCell(piece: PositionedVoxels, corner: Placement, p: Position, ghost pc: Piece)
      returns (x: int, y: int, z: int, r: int, g: int, b: int)
    requires piece.voxels.Valid() && pc == SnapshotOf(piece)
    requires IsRotation(piece.position.rotation) && InCube(GRID_SIZE, p) && Copied(pc, p)
    ensures Position(x, y, z) == TargetOf(pc, corner, p)
    ensures var o := CellIndex(pc.size, p) * VOXEL_LOOKUP_LENGTH;
      r == ByteOr0(pc.cells, o + 1) && g == ByteOr0(pc.cells, o + 2) && b == ByteOr0(pc.cells, o + 3)
  {
    var red := piece.voxels.GetByPos(p.x, p.y, p.z, R);
    var green := piece.voxels.GetByPos(p.x, p.y, p.z, G);
    var blue := piece.voxels.GetByPos(p.x, p.y, p.z, B);
    SourceBytes(piece.voxels, p, pc);
    r, g, b := OrZero(red), OrZero(green), OrZero(blue);
    var xOffset := (piece.position.x - corner.x) * GRID_SIZE;
    var yOffset := (piece.position.y - corner.y) * GRID_SIZE;
    var zOffset := (piece.position.z - corner.z) * GRID_SIZE;
    var rotation := piece.position.rotation.value;
    var column: (int, int);
    if rotation == 0 {
      column := (p.x, p.z);
    } else if rotation == 1 {
      column := (p.z, Invert(p.x));
    } else if rotation == 2 {
      column := (Invert(p.x), Invert(p.z));
    } else {
      column := (Invert(p.z), p.x);
    }
    assert column == Turn(rotation, p.x, p.z);
    x, y, z := xOffset + column.0, yOffset + p.y, zOffset + column.1;
  }

  /** What the `populate` call of `CopyExisting` does to the group bytes. */
  lemma CopyEffect(before: seq<byte>, after: seq<byte>, base: seq<byte>, size: int, pc: Piece, corner: Placement, p: Position,
                   offset: int, r: int, g: int, b: int)
    requires InCube(GRID_SIZE, p) && Copied(pc, p) && InCube(size, TargetOf(pc, corner, p))
    requires offset == CellIndex(size, TargetOf(pc, corner, p)) * VOXEL_LOOKUP_LENGTH
    requires CopiedUpTo(before, base, size, pc, corner, Visit(p))
    requires var o := CellIndex(pc.size, p) * VOXEL_LOOKUP_LENGTH;
      r == ByteOr0(pc.cells, o + 1) && g == ByteOr0(pc.cells, o + 2) && b == ByteOr0(pc.cells, o + 3)
    requires after == PopulateBytes(before, offset, r, g, b)
    ensures CopiedUpTo(after, base, size, pc, corner, Visit(p) + 1)
  {
    CopyStep(before, base, size, pc, corner, p, r, g, b);
  }

  /** The colour fields `getByPos` reads from an existing source cell. */
  lemma SourceBytes(v: Voxels, p: Position, pc: Piece)
    requires v.Valid() && pc.size == v.size && pc.cells == v.data[..] && CellExists(pc.cells, pc.size, p)
    ensures var o := CellIndex(pc.size, p) * VOXEL_LOOKUP_LENGTH;
      && OrZero(v.GetByPos(p.x, p.y, p.z, R)) == ByteOr0(pc.cells, o + 1)
      && OrZero(v.GetByPos(p.x, p.y, p.z, G)) == ByteOr0(pc.cells, o + 2)
      && OrZero(v.GetByPos(p.x, p.y, p.z, B)) == ByteOr0(pc.cells, o + 3)
  {
    GetByPosIff(v, p, R);
    GetByPosIff(v, p, G);
    GetByPosIff(v, p, B);
    CellIndexRoundTrip(pc.size, p);
  }

  /** One more step of the copy loop appends the offset of the copied cell, if any. */
  lemma PieceOffsetsStep(pc: Piece, corner: Placement, size: int, p: Position)
    requires InCube(GRID_SIZE, p)
    ensures PieceOffsets(pc, corner, size, Visit(p) + 1) == PieceOffsets(pc, corner, size, Visit(p))
      + (if Copied(pc, p) then [CellIndex(size, TargetOf(pc, corner, p)) * VOXEL_LOOKUP_LENGTH] else [])
  {
    VisitedAtVisit(Visit(p));
    VisitInjective(VisitedAt(Visit(p)), p);
  }
}
