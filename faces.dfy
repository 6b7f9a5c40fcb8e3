/**
 * `voxelsToFaces` of src/voxel/voxelsToFaces.ts: the visibility pass that marks
 * every side of a populated cell whose neighbour does not exist, then, per
 * slice and direction, a mask of the packed colours of the visible sides,
 * merged greedily into rectangles and pushed as eight-byte face records.
 */
module FaceMesh {
  import opened Wrappers
  import opened JsNumbers
  import opened ColorCodec
  import opened VoxelVolume
  import opened GreedyMesh
  import Utils

  /** The six sides of a cell, in the order the visibility pass checks them. */
  datatype Direction = Left | Right | Bottom | Top | Back | Front

  /** The visibility flag of a side. */
  function Flag(d: Direction): (l: VoxelLookup)
    ensures l.Index() >= 4
  {
    match d
    case Left => IsLeftVisible
    case Right => IsRightVisible
    case Bottom => IsBottomVisible
    case Top => IsTopVisible
    case Back => IsBackVisible
    case Front => IsFrontVisible
  }

  /** The side a field flags, if it is a visibility flag. */
  function FlagDirection(l: VoxelLookup): (d: Option<Direction>)
    ensures d.Some? <==> l.Index() >= 4
    ensures d.Some? ==> Flag(d.value) == l
    ensures forall e :: Flag(e) == l ==> d == Some(e)
  {
    match l
    case IsLeftVisible => Some(Left)
    case IsRightVisible => Some(Right)
    case IsBottomVisible => Some(Bottom)
    case IsTopVisible => Some(Top)
    case IsBackVisible => Some(Back)
    case IsFrontVisible => Some(Front)
    case _ => None
  }

  /** The neighbour checked for a side: `x∓1`, `y∓1` or `z∓1`. */
  function Neighbour(d: Direction, p: Position): Position
  {
    match d
    case Left => Position(p.x - 1, p.y, p.z)
    case Right => Position(p.x + 1, p.y, p.z)
    case Bottom => Position(p.x, p.y - 1, p.z)
    case Top => Position(p.x, p.y + 1, p.z)
    case Back => Position(p.x, p.y, p.z - 1)
    case Front => Position(p.x, p.y, p.z + 1)
  }

  // ---------------------------------------------------------------------------
  // The visibility pass
  // ---------------------------------------------------------------------------

  /** One side of the visibility pass: the side's flag byte is set when the neighbour on that side does not exist. */
  function MarkSide(s: seq<byte>, size: int, offset: int, p: Position, d: Direction): (s': seq<byte>)
    ensures |s'| == |s|
  {
    if !CellExists(s, size, Neighbour(d, p)) then StoreByte(s, offset + Flag(d).Index(), 1) else s
  }

  /** The six checks for the cell at `offset`, whose position is `p`, in source order. */
  function MarkCell(s: seq<byte>, size: int, offset: int, p: Position): (s': seq<byte>)
    ensures |s'| == |s|
  {
    var s1 := MarkSide(s, size, offset, p, Left);
    var s2 := MarkSide(s1, size, offset, p, Right);
    var s3 := MarkSide(s2, size, offset, p, Bottom);
    var s4 := MarkSide(s3, size, offset, p, Top);
    var s5 := MarkSide(s4, size, offset, p, Back);
    MarkSide(s5, size, offset, p, Front)
  }

  /** One populated offset: an offset outside the buffer stores nothing. */
  function MarkOffset(s: seq<byte>, size: int, offset: int): (s': seq<byte>)
    ensures |s'| == |s|
  {
    if size > 0 && 0 <= offset < |s| then MarkCell(s, size, offset, CellPosition(size, offset / VOXEL_LOOKUP_LENGTH)) else s
  }

  /** The `populatedOffsets.forEach` of the visibility pass. */
  function VisibilityPass(s: seq<byte>, size: int, offsets: seq<int>): (s': seq<byte>)
    ensures |s'| == |s|
    decreases |offsets|
  {
    if |offsets| == 0 then s
    else MarkOffset(VisibilityPass(s, size, offsets[..|offsets| - 1]), size, offsets[|offsets| - 1])
  }

  /**
   * What the pass leaves in a field: a side's flag becomes 1 when the cell's
   * offset was populated and the neighbour on that side does not exist; every
   * other field keeps its value.
   */
  ghost function VisibleField(s: seq<byte>, size: int, offsets: seq<int>, p: Position, l: VoxelLookup): byte
    requires InCube(size, p) && |s| == size * size * size * VOXEL_LOOKUP_LENGTH
  {
    match FlagDirection(l)
    case Some(d) =>
      if CellIndex(size, p) * VOXEL_LOOKUP_LENGTH in offsets && !CellExists(s, size, Neighbour(d, p)) then 1
      else CellField(s, size, p, l)
    case None => CellField(s, size, p, l)
  }

  /** The `exists` byte is what `CellExists` checks. */
  lemma CellExistsField(s: seq<byte>, size: int, p: Position)
    requires InCube(size, p) && |s| == size * size * size * VOXEL_LOOKUP_LENGTH
    ensures CellExists(s, size, p) <==> CellField(s, size, p, Exists) != 0
  {
    CellIndexRoundTrip(size, p);
  }

  /** One side check updates at most that side's flag of that cell, and no `exists` byte. */
  lemma MarkSideEffect(s: seq<byte>, size: int, p: Position, d: Direction)
    requires InCube(size, p) && |s| == size * size * size * VOXEL_LOOKUP_LENGTH
    ensures var s' := MarkSide(s, size, CellIndex(size, p) * VOXEL_LOOKUP_LENGTH, p, d);
      && |s'| == |s|
      && (forall q, l :: InCube(size, q) ==>
            CellField(s', size, q, l) ==
              (if q == p && l == Flag(d) && !CellExists(s, size, Neighbour(d, p)) then 1 else CellField(s, size, q, l)))
  {
    var o := CellIndex(size, p) * VOXEL_LOOKUP_LENGTH;
    CellIndexRoundTrip(size, p);
    var s' := MarkSide(s, size, o, p, d);
    forall q, l | InCube(size, q)
      ensures CellField(s', size, q, l) ==
        (if q == p && l == Flag(d) && !CellExists(s, size, Neighbour(d, p)) then 1 else CellField(s, size, q, l))
    {
      CellIndexRoundTrip(size, q);
      if q != p {
        FieldIndexDistinct(size, q, p, l.Index(), Flag(d).Index());
      }
    }
  }

  /** The field a cell's six side checks leave behind. */
  ghost function MarkedField(s: seq<byte>, size: int, p: Position, q: Position, l: VoxelLookup): byte
    requires InCube(size, q) && |s| == size * size * size * VOXEL_LOOKUP_LENGTH
  {
    match FlagDirection(l)
    case Some(d) => if q == p && !CellExists(s, size, Neighbour(d, p)) then 1 else CellField(s, size, q, l)
    case None => CellField(s, size, q, l)
  }

  /** The six side checks of a cell set exactly the flags of its sides whose neighbour is missing. */
  lemma MarkCellEffect(s: seq<byte>, size: int, p: Position)
    requires InCube(size, p) && |s| == size * size * size * VOXEL_LOOKUP_LENGTH
    ensures var s' := MarkCell(s, size, CellIndex(size, p) * VOXEL_LOOKUP_LENGTH, p);
      && |s'| == |s|
      && forall q, l :: InCube(size, q) ==> CellField(s', size, q, l) == MarkedField(s, size, p, q, l)
  {
    var o := CellIndex(size, p) * VOXEL_LOOKUP_LENGTH;
    var s1 := MarkSide(s, size, o, p, Left);
    var s2 := MarkSide(s1, size, o, p, Right);
    var s3 := MarkSide(s2, size, o, p, Bottom);
    var s4 := MarkSide(s3, size, o, p, Top);
    var s5 := MarkSide(s4, size, o, p, Back);
    var s6 := MarkSide(s5, size, o, p, Front);
    MarkSideEffect(s, size, p, Left);
    MarkSideEffect(s1, size, p, Right);
    MarkSideEffect(s2, size, p, Bottom);
    MarkSideEffect(s3, size, p, Top);
    MarkSideEffect(s4, size, p, Back);
    MarkSideEffect(s5, size, p, Front);
    forall d | true
      ensures CellExists(s1, size, Neighbour(d, p)) == CellExists(s, size, Neighbour(d, p))
      ensures CellExists(s2, size, Neighbour(d, p)) == CellExists(s, size, Neighbour(d, p))
      ensures CellExists(s3, size, Neighbour(d, p)) == CellExists(s, size, Neighbour(d, p))
      ensures CellExists(s4, size, Neighbour(d, p)) == CellExists(s, size, Neighbour(d, p))
      ensures CellExists(s5, size, Neighbour(d, p)) == CellExists(s, size, Neighbour(d, p))
    {
      var q := Neighbour(d, p);
      MarkSideKeepsExistence(s, size, p, Left, q);
      MarkSideKeepsExistence(s1, size, p, Right, q);
      MarkSideKeepsExistence(s2, size, p, Bottom, q);
      MarkSideKeepsExistence(s3, size, p, Top, q);
      MarkSideKeepsExistence(s4, size, p, Back, q);
    }
  }

  /** An offset in the buffer and a multiple of ten is the offset of the cell it names. */
  lemma OffsetCell(size: int, offset: int, n: int)
    requires size > 0 && n == size * size * size * VOXEL_LOOKUP_LENGTH && 0 <= offset < n
    requires offset % VOXEL_LOOKUP_LENGTH == 0
    ensures InCube(size, CellPosition(size, offset / VOXEL_LOOKUP_LENGTH))
    ensures CellIndex(size, CellPosition(size, offset / VOXEL_LOOKUP_LENGTH)) * VOXEL_LOOKUP_LENGTH == offset
  {
    CellPositionRoundTrip(size, offset / VOXEL_LOOKUP_LENGTH);
  }

  /** The cell of an in-cube position is named by its offset. */
  lemma CellOffset(size: int, p: Position)
    requires InCube(size, p)
    ensures var o := CellIndex(size, p) * VOXEL_LOOKUP_LENGTH;
      && 0 <= o < size * size * size * VOXEL_LOOKUP_LENGTH && o % VOXEL_LOOKUP_LENGTH == 0
      && CellPosition(size, o / VOXEL_LOOKUP_LENGTH) == p
  {
    CellIndexRoundTrip(size, p);
    MultipleOfLookupLength(CellIndex(size, p));
  }

  /** The field left by the side checks of the cell at `offset`, whatever the offset. */
  ghost function OffsetField(s: seq<byte>, size: int, offset: int, q: Position, l: VoxelLookup): byte
    requires InCube(size, q) && |s| == size * size * size * VOXEL_LOOKUP_LENGTH
  {
    match FlagDirection(l)
    case Some(d) =>
      if CellIndex(size, q) * VOXEL_LOOKUP_LENGTH == offset && !CellExists(s, size, Neighbour(d, q)) then 1
      else CellField(s, size, q, l)
    case None => CellField(s, size, q, l)
  }

  /** One populated offset marks the missing-neighbour sides of its own cell, and nothing else. */
  lemma MarkOffsetEffect(s: seq<byte>, size: int, offset: int)
    requires |s| == size * size * size * VOXEL_LOOKUP_LENGTH && offset % VOXEL_LOOKUP_LENGTH == 0
    ensures |MarkOffset(s, size, offset)| == |s|
    ensures forall q, l :: InCube(size, q) ==> CellField(MarkOffset(s, size, offset), size, q, l) == OffsetField(s, size, offset, q, l)
  {
    if size > 0 && 0 <= offset < |s| {
      var p := CellPosition(size, offset / VOXEL_LOOKUP_LENGTH);
      OffsetCell(size, offset, |s|);
      MarkCellEffect(s, size, p);
      forall q | InCube(size, q) && CellIndex(size, q) * VOXEL_LOOKUP_LENGTH == offset
        ensures q == p
      {
        CellIndexInjective(size, p, q);
      }
    } else {
      forall q | InCube(size, q)
        ensures CellIndex(size, q) * VOXEL_LOOKUP_LENGTH != offset
      {
        CellOffset(size, q);
      }
    }
  }

  /** Two buffers whose `exists` bytes agree agree on which cells exist. */
  lemma SameExistence(s: seq<byte>, t: seq<byte>, size: int, q: Position)
    requires |s| == size * size * size * VOXEL_LOOKUP_LENGTH && |t| == |s|
    requires InCube(size, q) ==> CellField(s, size, q, Exists) == CellField(t, size, q, Exists)
    ensures CellExists(s, size, q) == CellExists(t, size, q)
  {
    if InCube(size, q) {
      CellExistsField(s, size, q);
      CellExistsField(t, size, q);
    }
  }

  /** One more offset of the pass, on top of the fields the earlier offsets left. */
  lemma VisibilityPassStep(s: seq<byte>, t: seq<byte>, size: int, offsets: seq<int>, offset: int)
    requires |s| == size * size * size * VOXEL_LOOKUP_LENGTH && |t| == |s| && offset % VOXEL_LOOKUP_LENGTH == 0
    requires forall q, l :: InCube(size, q) ==> CellField(t, size, q, l) == VisibleField(s, size, offsets, q, l)
    ensures |MarkOffset(t, size, offset)| == |s|
    ensures forall q, l :: InCube(size, q) ==> CellField(MarkOffset(t, size, offset), size, q, l) == VisibleField(s, size, offsets + [offset], q, l)
  {
    MarkOffsetEffect(t, size, offset);
    forall q, d | InCube(size, q)
      ensures CellExists(t, size, Neighbour(d, q)) == CellExists(s, size, Neighbour(d, q))
    {
      var n := Neighbour(d, q);
      if InCube(size, n) {
        assert CellField(t, size, n, Exists) == VisibleField(s, size, offsets, n, Exists);
      }
      SameExistence(s, t, size, n);
    }
  }

  /** The visibility pass sets exactly the flags `VisibleField` describes. */
  lemma {:induction false} VisibilityPassFields(s: seq<byte>, size: int, offsets: seq<int>)
    requires |s| == size * size * size * VOXEL_LOOKUP_LENGTH
    requires forall o <- offsets :: o % VOXEL_LOOKUP_LENGTH == 0
    ensures |VisibilityPass(s, size, offsets)| == |s|
    ensures forall q, l :: InCube(size, q) ==> CellField(VisibilityPass(s, size, offsets), size, q, l) == VisibleField(s, size, offsets, q, l)
    decreases |offsets|
  {
    if |offsets| > 0 {
      var prefix := offsets[..|offsets| - 1];
      assert forall o <- prefix :: o in offsets;
      assert offsets[|offsets| - 1] in offsets;
      VisibilityPassFields(s, size, prefix);
      VisibilityPassStep(s, VisibilityPass(s, size, prefix), size, prefix, offsets[|offsets| - 1]);
      assert prefix + [offsets[|offsets| - 1]] == offsets;
    }
  }

  /** The side checks of an offset outside the buffer store nothing. */
  lemma MarkCellOutside(s: seq<byte>, size: int, offset: int, p: Position)
    requires offset % VOXEL_LOOKUP_LENGTH == 0 && !(0 <= offset < |s|)
    ensures MarkCell(s, size, offset, p) == s
  {
    assert offset < 0 ==> offset <= -VOXEL_LOOKUP_LENGTH;
  }

  /** The pass reads its positions with `getPosition`, which names the same cell as `MarkOffset`. */
  lemma MarkCellIsMarkOffset(v: Voxels, s: seq<byte>, offset: int)
    requires v.Valid() && v.size > 0 && offset % VOXEL_LOOKUP_LENGTH == 0 && |s| == v.data.Length
    ensures MarkCell(s, v.size, offset, v.GetPosition(offset)) == MarkOffset(s, v.size, offset)
  {
    if 0 <= offset < |s| {
      GetPositionInBuffer(v, offset);
      CellOffset(v.size, v.GetPosition(offset));
    } else {
      MarkCellOutside(s, v.size, offset, v.GetPosition(offset));
    }
  }

  /**
   * The `populatedOffsets.forEach` of `voxelsToFaces`: the buffer ends as the
   * side checks of every populated offset, in order, leave it.
   */
  method ComputeVisibility(voxels: Voxels)
    requires voxels.Valid()
    modifies voxels.data
    ensures voxels.data[..] == VisibilityPass(old(voxels.data[..]), voxels.size, voxels.populatedOffsets)
  {
    var offsets := voxels.populatedOffsets;
    var i := 0;
    while i < |offsets|
      invariant 0 <= i <= |offsets|
      invariant voxels.data[..] == VisibilityPass(old(voxels.data[..]), voxels.size, offsets[..i])
    {
      assert offsets[i] in voxels.populatedOffsets;
      MarkVisibleSides(voxels, offsets[i]);
      assert offsets[..i + 1][..i] == offsets[..i];
      i := i + 1;
    }
    assert offsets[..|offsets|] == offsets;
  }

  /** The six `existsByPos` checks and `setByOffset` stores for one populated offset. */
  method MarkVisibleSides(voxels: Voxels, offset: int)
    requires voxels.Valid() && voxels.size > 0 && offset % VOXEL_LOOKUP_LENGTH == 0
    modifies voxels.data
    ensures voxels.data[..] == MarkOffset(old(voxels.data[..]), voxels.size, offset)
  {
    ghost var s := voxels.data[..];
    var p := voxels.GetPosition(offset);
    MarkTest(voxels, offset, p, Left);
    MarkTest(voxels, offset, p, Right);
    MarkTest(voxels, offset, p, Bottom);
    MarkTest(voxels, offset, p, Top);
    MarkTest(voxels, offset, p, Back);
    MarkTest(voxels, offset, p, Front);
    MarkCellIsMarkOffset(voxels, s, offset);
  }

  /** One side: its flag byte is set when the neighbour on that side does not exist. */
  method MarkTest(voxels: Voxels, offset: int, p: Position, d: Direction)
    requires voxels.Valid()
    modifies voxels.data
    ensures voxels.data[..] == MarkSide(old(voxels.data[..]), voxels.size, offset, p, d)
  {
    var q := Neighbour(d, p);
    ExistsAtIff(voxels, q);
    if !voxels.ExistsAt(q) {
      voxels.SetByOffset(offset, Flag(d), 1);
    }
  }

  /** Populating an offset twice, or a flag set before the pass: the pass only ever sets flags, and a repeated offset changes nothing. */
  lemma VisibilityPassRepeat(s: seq<byte>, size: int, offsets: seq<int>, offset: int)
    requires |s| == size * size * size * VOXEL_LOOKUP_LENGTH
    requires forall o <- offsets :: o % VOXEL_LOOKUP_LENGTH == 0
    requires offset in offsets
    ensures forall q, l :: InCube(size, q) ==>
      CellField(VisibilityPass(s, size, offsets + [offset]), size, q, l) == CellField(VisibilityPass(s, size, offsets), size, q, l)
    ensures forall q, l :: InCube(size, q) && CellField(s, size, q, l) != 0 ==>
      CellField(VisibilityPass(s, size, offsets), size, q, l) != 0
  {
    VisibilityPassFields(s, size, offsets);
    VisibilityPassFields(s, size, offsets + [offset]);
    forall q | InCube(size, q)
      ensures CellIndex(size, q) * VOXEL_LOOKUP_LENGTH in offsets + [offset] <==> CellIndex(size, q) * VOXEL_LOOKUP_LENGTH in offsets
    {
    }
  }

  // ---------------------------------------------------------------------------
  // Masks: one slice of one direction
  // ---------------------------------------------------------------------------

  /** The cell at mask index `[u][v]` of slice `slice`: `[x][z]` of slice `y`, `[y][z]` of slice `x`, `[x][y]` of slice `z`. */
  function SlicePosition(d: Direction, slice: int, u: int, v: int): Position
  {
    match d
    case Top | Bottom => Position(u, slice, v)
    case Left | Right => Position(slice, u, v)
    case Back | Front => Position(u, v, slice)
  }

  /** A mask cell: the packed colour of the cell when its flag for the side is set, `undefined` otherwise. */
  function MaskCell(s: seq<byte>, size: int, d: Direction, slice: int, u: int, v: int): (m: Option<int>)
    requires InCube(size, SlicePosition(d, slice, u, v)) && |s| == size * size * size * VOXEL_LOOKUP_LENGTH
    ensures m.Some? ==> BIAS <= m.value < 2 * BIAS
  {
    var p := SlicePosition(d, slice, u, v);
    if CellField(s, size, p, Flag(d)) != 0 then Some(ToHexTriplet(CellColor(s, size, p))) else None
  }

  /** The whole mask of a slice, as values. */
  function MaskGrid(s: seq<byte>, size: int, d: Direction, slice: int): (m: Grid)
    requires 0 <= slice < size && |s| == size * size * size * VOXEL_LOOKUP_LENGTH
    ensures IsGrid(m, size)
    ensures forall u, v :: 0 <= u < size && 0 <= v < size ==> m[u][v] == MaskCell(s, size, d, slice, u, v)
  {
    seq(size, u requires 0 <= u < size =>
      seq(size, v requires 0 <= v < size => MaskCell(s, size, d, slice, u, v)))
  }

  /** The two sides that share the slices of one axis, as the source pairs them. */
  predicate SameAxis(first: Direction, second: Direction)
  {
    (first, second) in {(Top, Bottom), (Left, Right), (Front, Back)}
  }

  /** The filling loops of one slice: `firstMask` and `secondMask` of the two sides of an axis. */
  method FillMasks(voxels: Voxels, first: Direction, second: Direction, slice: int)
    returns (firstMask: array2<Option<int>>, secondMask: array2<Option<int>>)
    requires voxels.Valid() && SameAxis(first, second) && 0 <= slice < voxels.size
    ensures fresh(firstMask) && fresh(secondMask) && firstMask != secondMask
    ensures firstMask.Length0 == firstMask.Length1 == voxels.size
    ensures secondMask.Length0 == secondMask.Length1 == voxels.size
    ensures forall u, v :: 0 <= u < voxels.size && 0 <= v < voxels.size ==>
      firstMask[u, v] == MaskCell(voxels.data[..], voxels.size, first, slice, u, v)
    ensures forall u, v :: 0 <= u < voxels.size && 0 <= v < voxels.size ==>
      secondMask[u, v] == MaskCell(voxels.data[..], voxels.size, second, slice, u, v)
  {
    firstMask := Utils.CreateMask2d(voxels.size);
    secondMask := Utils.CreateMask2d(voxels.size);
    var a := 0;
    while a < voxels.size
      invariant 0 <= a <= voxels.size
      invariant forall u, v :: 0 <= u < voxels.size && 0 <= v < voxels.size ==>
        firstMask[u, v] == (if u < a then MaskCell(voxels.data[..], voxels.size, first, slice, u, v) else None)
      invariant forall u, v :: 0 <= u < voxels.size && 0 <= v < voxels.size ==>
        secondMask[u, v] == (if u < a then MaskCell(voxels.data[..], voxels.size, second, slice, u, v) else None)
    {
      FillMaskRow(voxels, firstMask, first, slice, a);
      FillMaskRow(voxels, secondMask, second, slice, a);
      a := a + 1;
    }
  }

  /** The inner loop over `b` for the row `a` of one mask. */
  method FillMaskRow(voxels: Voxels, mask: array2<Option<int>>, d: Direction, slice: int, a: int)
    requires voxels.Valid() && 0 <= slice < voxels.size && 0 <= a < voxels.size
    requires mask.Length0 == mask.Length1 == voxels.size
    requires forall v :: 0 <= v < voxels.size ==> mask[a, v] == None
    modifies mask
    ensures forall u, v :: 0 <= u < voxels.size && 0 <= v < voxels.size ==>
      mask[u, v] == (if u == a then MaskCell(voxels.data[..], voxels.size, d, slice, u, v) else old(mask[u, v]))
  {
    ghost var s := voxels.data[..];
    var n := voxels.size;
    for b := 0 to n
      invariant voxels.data[..] == s
      invariant forall u, v :: 0 <= u < n && 0 <= v < n && u != a ==> mask[u, v] == old(mask[u, v])
      invariant forall v :: 0 <= v < b ==> mask[a, v] == MaskCell(s, n, d, slice, a, v)
      invariant forall v :: b <= v < n ==> mask[a, v] == None
    {
      SetMaskCell(voxels, mask, d, slice, a, b);
    }
  }

  /** One step of the inner loop: `mask[a][b]` gets the packed colour when the side is visible. */
  method SetMaskCell(voxels: Voxels, mask: array2<Option<int>>, d: Direction, slice: int, a: int, b: int)
    requires voxels.Valid() && 0 <= slice < voxels.size && 0 <= a < voxels.size && 0 <= b < voxels.size
    requires mask.Length0 == mask.Length1 == voxels.size && mask[a, b] == None
    modifies mask
    ensures mask[a, b] == MaskCell(voxels.data[..], voxels.size, d, slice, a, b)
    ensures forall u, v :: 0 <= u < mask.Length0 && 0 <= v < mask.Length1 && (u != a || v != b) ==> mask[u, v] == old(mask[u, v])
  {
    var visible, packed := ReadSide(voxels, d, SlicePosition(d, slice, a, b));
    if visible {
      mask[a, b] := Some(packed);
    }
  }

  /** The `getByPos` reads for one mask cell: the side's flag is truthy, and the packed colour. */
  method ReadSide(voxels: Voxels, d: Direction, p: Position) returns (visible: bool, packed: int)
    requires voxels.Valid() && InCube(voxels.size, p)
    ensures visible <==> CellField(voxels.data[..], voxels.size, p, Flag(d)) != 0
    ensures visible ==> packed == ToHexTriplet(CellColor(voxels.data[..], voxels.size, p))
  {
    GetByPosIff(voxels, p, Flag(d));
    visible := Truthy(voxels.GetByPos(p.x, p.y, p.z, Flag(d)));
    packed := 0;
    if visible {
      GetByPosIff(voxels, p, R);
      GetByPosIff(voxels, p, G);
      GetByPosIff(voxels, p, B);
      CellColorFields(voxels.data[..], voxels.size, p);
      var r := voxels.GetByPos(p.x, p.y, p.z, R);
      var g := voxels.GetByPos(p.x, p.y, p.z, G);
      var b := voxels.GetByPos(p.x, p.y, p.z, B);
      packed := ToHexTriplet(Color(r.value as int, g.value as int, b.value as int));
    }
  }

  /** A side check never changes whether a cell exists. */
  lemma MarkSideKeepsExistence(s: seq<byte>, size: int, p: Position, d: Direction, q: Position)
    requires InCube(size, p) && |s| == size * size * size * VOXEL_LOOKUP_LENGTH
    ensures CellExists(MarkSide(s, size, CellIndex(size, p) * VOXEL_LOOKUP_LENGTH, p, d), size, q) == CellExists(s, size, q)
  {
    if InCube(size, q) {
      MarkSideEffect(s, size, p, d);
      CellExistsField(s, size, q);
      CellExistsField(MarkSide(s, size, CellIndex(size, p) * VOXEL_LOOKUP_LENGTH, p, d), size, q);
    }
  }

  // ---------------------------------------------------------------------------
  // What the faces say about the volume
  // ---------------------------------------------------------------------------

  /** The slice number and mask indices of a cell for a side: the inverse of `SlicePosition`. */
  function SliceCoordinates(d: Direction, p: Position): (c: (int, int, int))
    ensures SlicePosition(d, c.0, c.1, c.2) == p
    ensures forall k, u, v :: SlicePosition(d, k, u, v) == p ==> (k, u, v) == c
  {
    match d
    case Top | Bottom => (p.y, p.x, p.z)
    case Left | Right => (p.x, p.y, p.z)
    case Back | Front => (p.z, p.x, p.y)
  }

  /**
   * For a volume of side at most 255 every field of a record is exact: the
   * first three bytes are the rectangle's first cell, the next two its extents
   * in the layout of that side, the last three the colour that was packed.
   */
  lemma FaceRecordExact(d: Direction, slice: int, r: Rect, size: int, c: Color)
    requires size <= 255 && 0 <= slice < size
    requires 0 <= r.u && 1 <= r.du && r.u + r.du <= size && 0 <= r.v && 1 <= r.dv && r.v + r.dv <= size
    requires IsByteColor(c) && r.color == ToHexTriplet(c)
    ensures var f := FaceRecord(d, slice, r); var p := SlicePosition(d, slice, r.u, r.v);
      && f[0] as int == p.x && f[1] as int == p.y && f[2] as int == p.z
      && (d in {Top, Bottom} ==> f[3] as int == r.du && f[4] as int == r.dv)
      && (d in {Left, Right} ==> f[3] as int == r.dv && f[4] as int == r.du)
      && (d in {Back, Front} ==> f[3] as int == r.du && f[4] as int == r.dv)
      && Color(f[5] as int, f[6] as int, f[7] as int) == c
  {
    RoundTripThroughBytes(c);
  }

  /**
   * Every cell of every merged rectangle is a visible side: its flag is set
   * and its packed colour is the rectangle's colour.
   */
  lemma MergedCellsVisible(s: seq<byte>, size: int, d: Direction, merges: seq<seq<Rect>>, k: int, i: int, u: int, v: int)
    requires Merged(s, size, d, merges) && 0 <= k < size && 0 <= i < |merges[k]| && Covers(merges[k][i], u, v)
    ensures 0 <= u < size && 0 <= v < size
    ensures CellField(s, size, SlicePosition(d, k, u, v), Flag(d)) != 0
    ensures merges[k][i].color == ToHexTriplet(CellColor(s, size, SlicePosition(d, k, u, v)))
  {
    var m0 := MaskGrid(s, size, d, k);
    var rects := merges[k];
    assert GreedyCover(m0, size, rects);
    GreedyPrefixBounds(m0, size, rects);
    assert 0 <= u < size && 0 <= v < size;
    GreedyPrefixExact(m0, size, rects);
    assert Cell(m0, u, v) == Some(rects[i].color);
    assert m0[u][v] == MaskCell(s, size, d, k, u, v);
  }

  /** A side of a cell is in a slice's mask exactly when the pass marked it. */
  lemma MaskCellAfterPass(s: seq<byte>, size: int, offsets: seq<int>, d: Direction, p: Position)
    requires InCube(size, p) && |s| == size * size * size * VOXEL_LOOKUP_LENGTH
    requires forall o <- offsets :: o % VOXEL_LOOKUP_LENGTH == 0
    requires CellField(s, size, p, Flag(d)) == 0
    ensures var c := SliceCoordinates(d, p);
      MaskCell(VisibilityPass(s, size, offsets), size, d, c.0, c.1, c.2) ==
        if CellIndex(size, p) * VOXEL_LOOKUP_LENGTH in offsets && !CellExists(s, size, Neighbour(d, p))
        then Some(ToHexTriplet(CellColor(s, size, p))) else None
  {
    var t := VisibilityPass(s, size, offsets);
    VisibilityPassFields(s, size, offsets);
    CellColorFields(s, size, p);
    CellColorFields(t, size, p);
    assert CellField(t, size, p, R) == CellField(s, size, p, R);
    assert CellField(t, size, p, G) == CellField(s, size, p, G);
    assert CellField(t, size, p, B) == CellField(s, size, p, B);
  }

  /** The volume holds the single cell `p` and no flag is set yet, as right after decoding one opaque pixel. */
  ghost predicate SingleVoxel(s: seq<byte>, size: int, p: Position)
  {
    && InCube(size, p) && |s| == size * size * size * VOXEL_LOOKUP_LENGTH
    && (forall q :: InCube(size, q) ==> (CellField(s, size, q, Exists) != 0 <==> q == p))
    && (forall q, e :: InCube(size, q) ==> CellField(s, size, q, Flag(e)) == 0)
  }

  /** In a single-cell volume each side's masks hold exactly that cell's side. */
  lemma SingleVoxelMask(s: seq<byte>, size: int, p: Position, d: Direction, k: int, u: int, v: int)
    requires SingleVoxel(s, size, p) && 0 <= k < size && 0 <= u < size && 0 <= v < size
    ensures var o := CellIndex(size, p) * VOXEL_LOOKUP_LENGTH;
      MaskCell(VisibilityPass(s, size, [o]), size, d, k, u, v) ==
        if (k, u, v) == SliceCoordinates(d, p) then Some(ToHexTriplet(CellColor(s, size, p))) else None
  {
    var o := CellIndex(size, p) * VOXEL_LOOKUP_LENGTH;
    var q := SlicePosition(d, k, u, v);
    assert InCube(size, q);
    assert CellField(s, size, q, Flag(d)) == 0;
    CellOffset(size, p);
    MaskCellAfterPass(s, size, [o], d, q);
    var marked := CellIndex(size, q) * VOXEL_LOOKUP_LENGTH in [o] && !CellExists(s, size, Neighbour(d, q));
    if q == p {
      var n := Neighbour(d, q);
      if InCube(size, n) {
        CellExistsField(s, size, n);
      }
      assert marked;
    } else {
      if CellIndex(size, q) * VOXEL_LOOKUP_LENGTH == o {
        CellIndexInjective(size, p, q);
      }
      assert !marked;
    }
  }

  /** The merges of a single-cell volume: one 1×1 rectangle in the cell's slice, nothing elsewhere. */
  lemma SingleVoxelMerges(s: seq<byte>, size: int, p: Position, d: Direction, merges: seq<seq<Rect>>)
    requires SingleVoxel(s, size, p)
    requires Merged(VisibilityPass(s, size, [CellIndex(size, p) * VOXEL_LOOKUP_LENGTH]), size, d, merges)
    ensures var c := SliceCoordinates(d, p);
      forall k :: 0 <= k < size ==>
        merges[k] == if k == c.0 then [Rect(c.1, c.2, 1, 1, ToHexTriplet(CellColor(s, size, p)))] else []
  {
    var t := VisibilityPass(s, size, [CellIndex(size, p) * VOXEL_LOOKUP_LENGTH]);
    var c := SliceCoordinates(d, p);
    var color := ToHexTriplet(CellColor(s, size, p));
    forall k | 0 <= k < size
      ensures merges[k] == if k == c.0 then [Rect(c.1, c.2, 1, 1, color)] else []
    {
      var m0 := MaskGrid(t, size, d, k);
      forall u, v | 0 <= u < size && 0 <= v < size
        ensures m0[u][v] == if (k, u, v) == c then Some(color) else None
      {
        SingleVoxelMask(s, size, p, d, k, u, v);
      }
      assert GreedyCover(m0, size, merges[k]);
      if k == c.0 {
        SingleCellMerge(m0, size, c.1, c.2, color, merges[k]);
      } else {
        EmptyMaskMerge(m0, size, merges[k]);
      }
    }
  }

  /** Slices that merge to nothing add no record; the one slice with a rectangle adds its record. */
  lemma {:induction false} EmitOne(d: Direction, merges: seq<seq<Rect>>, k0: int, r: Rect)
    requires forall k :: 0 <= k < |merges| ==> merges[k] == if k == k0 then [r] else []
    ensures Emit(d, merges) == if 0 <= k0 < |merges| then [FaceRecord(d, k0, r)] else []
    decreases |merges|
  {
    if |merges| > 0 {
      EmitOne(d, merges[..|merges| - 1], k0, r);
    }
  }

  /** A single isolated voxel yields exactly one 1×1 record in each of the six face lists. */
  lemma SingleVoxelFaces(s: seq<byte>, size: int, p: Position, d: Direction, merges: seq<seq<Rect>>)
    requires SingleVoxel(s, size, p)
    requires Merged(VisibilityPass(s, size, [CellIndex(size, p) * VOXEL_LOOKUP_LENGTH]), size, d, merges)
    ensures var c := SliceCoordinates(d, p);
      Emit(d, merges) == [FaceRecord(d, c.0, Rect(c.1, c.2, 1, 1, ToHexTriplet(CellColor(s, size, p))))]
  {
    var c := SliceCoordinates(d, p);
    SingleVoxelMerges(s, size, p, d, merges);
    EmitOne(d, merges, c.0, Rect(c.1, c.2, 1, 1, ToHexTriplet(CellColor(s, size, p))));
  }

  // ---------------------------------------------------------------------------
  // Face records
  // ---------------------------------------------------------------------------

  /**
   * The record pushed for a rectangle of slice `slice`: `[x, y, z, width,
   * depth, r, g, b]` for tops and bottoms, `[x, y, z, depth, height, …]` for
   * lefts and rights, `[x, y, z, width, height, …]` for fronts and backs.
   */
  function FaceRecord(d: Direction, slice: int, r: Rect): (f: seq<byte>)
    ensures |f| == 8
  {
    var c := FromHexTriplet(r.color);
    match d
    case Top | Bottom => Uint8Array([r.u, slice, r.v, r.du, r.dv, c.r, c.g, c.b])
    case Left | Right => Uint8Array([slice, r.u, r.v, r.dv, r.du, c.r, c.g, c.b])
    case Back | Front => Uint8Array([r.u, r.v, slice, r.du, r.dv, c.r, c.g, c.b])
  }

  /** The records of one `combineFaces` call, in push order. */
  function Records(d: Direction, slice: int, rects: seq<Rect>): (fs: seq<seq<byte>>)
    ensures |fs| == |rects|
    ensures forall i :: 0 <= i < |rects| ==> fs[i] == FaceRecord(d, slice, rects[i])
  {
    seq(|rects|, i requires 0 <= i < |rects| => FaceRecord(d, slice, rects[i]))
  }

  /** A face list: the records of the slices `0 .. |merges| - 1`, one slice after another. */
  function Emit(d: Direction, merges: seq<seq<Rect>>): (fs: seq<seq<byte>>)
    ensures forall i :: 0 <= i < |fs| ==> |fs[i]| == 8
    decreases |merges|
  {
    if |merges| == 0 then []
    else Emit(d, merges[..|merges| - 1]) + Records(d, |merges| - 1, merges[|merges| - 1])
  }

  /** `merges[k]` is the greedy merge of the mask of slice `k`, for the first `|merges|` slices. */
  ghost predicate MergedUpTo(s: seq<byte>, size: int, d: Direction, merges: seq<seq<Rect>>)
  {
    && |s| == size * size * size * VOXEL_LOOKUP_LENGTH
    && |merges| <= size
    && forall k :: 0 <= k < |merges| ==> GreedyCover(MaskGrid(s, size, d, k), size, merges[k])
  }

  /** Every slice of the volume is merged. */
  ghost predicate Merged(s: seq<byte>, size: int, d: Direction, merges: seq<seq<Rect>>)
  {
    MergedUpTo(s, size, d, merges) && |merges| == size
  }

  /** The merge of the next slice extends the merged prefix. */
  lemma MergedUpToAppend(s: seq<byte>, size: int, d: Direction, merges: seq<seq<Rect>>, rects: seq<Rect>)
    requires MergedUpTo(s, size, d, merges) && |merges| < size
    requires GreedyCover(MaskGrid(s, size, d, |merges|), size, rects)
    ensures MergedUpTo(s, size, d, merges + [rects])
  {
  }

  /** The list a prefix of slices emits, with one more slice. */
  lemma EmitAppend(d: Direction, merges: seq<seq<Rect>>, rects: seq<Rect>)
    ensures Emit(d, merges + [rects]) == Emit(d, merges) + Records(d, |merges|, rects)
  {
    assert (merges + [rects])[..|merges|] == merges;
  }

  /** The six face lists of `voxelsToFaces`. */
  datatype Faces = Faces(
    topFaces: seq<seq<byte>>, bottomFaces: seq<seq<byte>>,
    leftFaces: seq<seq<byte>>, rightFaces: seq<seq<byte>>,
    backFaces: seq<seq<byte>>, frontFaces: seq<seq<byte>>)
  {
    function Get(d: Direction): seq<seq<byte>>
    {
      match d
      case Top => topFaces
      case Bottom => bottomFaces
      case Left => leftFaces
      case Right => rightFaces
      case Back => backFaces
      case Front => frontFaces
    }
  }

  /**
   * `voxelsToFaces(voxels)`: the buffer ends as the visibility pass leaves it,
   * and each face list holds, slice by slice, the records of the greedy merge
   * of that slice's mask.
   */
  method VoxelsToFaces(voxels: Voxels)
    returns (faces: Faces, ghost top: seq<seq<Rect>>, ghost bottom: seq<seq<Rect>>, ghost left: seq<seq<Rect>>,
             ghost right: seq<seq<Rect>>, ghost back: seq<seq<Rect>>, ghost front: seq<seq<Rect>>)
    requires voxels.Valid()
    modifies voxels.data
    ensures voxels.data[..] == VisibilityPass(old(voxels.data[..]), voxels.size, voxels.populatedOffsets)
    ensures Merged(voxels.data[..], voxels.size, Top, top) && faces.topFaces == Emit(Top, top)
    ensures Merged(voxels.data[..], voxels.size, Bottom, bottom) && faces.bottomFaces == Emit(Bottom, bottom)
    ensures Merged(voxels.data[..], voxels.size, Left, left) && faces.leftFaces == Emit(Left, left)
    ensures Merged(voxels.data[..], voxels.size, Right, right) && faces.rightFaces == Emit(Right, right)
    ensures Merged(voxels.data[..], voxels.size, Back, back) && faces.backFaces == Emit(Back, back)
    ensures Merged(voxels.data[..], voxels.size, Front, front) && faces.frontFaces == Emit(Front, front)
  {
    ComputeVisibility(voxels);
    var topFaces, bottomFaces;
    topFaces, bottomFaces, top, bottom := MeshAxis(voxels, Top, Bottom);
    var leftFaces, rightFaces;
    leftFaces, rightFaces, left, right := MeshAxis(voxels, Left, Right);
    var frontFaces, backFaces;
    frontFaces, backFaces, front, back := MeshAxis(voxels, Front, Back);
    faces := Faces(topFaces, bottomFaces, leftFaces, rightFaces, backFaces, frontFaces);
  }

  /** The slice loop of one axis: fill both masks, then `combineFaces` each into its own list. */
  method MeshAxis(voxels: Voxels, first: Direction, second: Direction)
    returns (firstFaces: seq<seq<byte>>, secondFaces: seq<seq<byte>>,
             ghost firstMerges: seq<seq<Rect>>, ghost secondMerges: seq<seq<Rect>>)
    requires voxels.Valid() && SameAxis(first, second)
    ensures Merged(voxels.data[..], voxels.size, first, firstMerges) && firstFaces == Emit(first, firstMerges)
    ensures Merged(voxels.data[..], voxels.size, second, secondMerges) && secondFaces == Emit(second, secondMerges)
  {
    firstFaces, secondFaces := [], [];
    firstMerges, secondMerges := [], [];
    var slice := 0;
    while slice < voxels.size
      invariant 0 <= slice <= voxels.size
      invariant |firstMerges| == slice && |secondMerges| == slice
      invariant MergedUpTo(voxels.data[..], voxels.size, first, firstMerges)
      invariant MergedUpTo(voxels.data[..], voxels.size, second, secondMerges)
      invariant firstFaces == Emit(first, firstMerges) && secondFaces == Emit(second, secondMerges)
    {
      var firstRects, secondRects := MeshSlice(voxels, first, second, slice);
      MergedUpToAppend(voxels.data[..], voxels.size, first, firstMerges, firstRects);
      MergedUpToAppend(voxels.data[..], voxels.size, second, secondMerges, secondRects);
      EmitAppend(first, firstMerges, firstRects);
      EmitAppend(second, secondMerges, secondRects);
      firstFaces := firstFaces + Records(first, slice, firstRects);
      secondFaces := secondFaces + Records(second, slice, secondRects);
      firstMerges := firstMerges + [firstRects];
      secondMerges := secondMerges + [secondRects];
      slice := slice + 1;
    }
  }

  /** One slice: fill the two masks and merge each; the rectangles are the greedy merges of the masks. */
  method MeshSlice(voxels: Voxels, first: Direction, second: Direction, slice: int)
    returns (firstRects: seq<Rect>, secondRects: seq<Rect>)
    requires voxels.Valid() && SameAxis(first, second) && 0 <= slice < voxels.size
    ensures GreedyCover(MaskGrid(voxels.data[..], voxels.size, first, slice), voxels.size, firstRects)
    ensures GreedyCover(MaskGrid(voxels.data[..], voxels.size, second, slice), voxels.size, secondRects)
  {
    var firstMask, secondMask := FillMasks(voxels, first, second, slice);
    firstRects := MergeMask(voxels, first, slice, firstMask);
    secondRects := MergeMask(voxels, second, slice, secondMask);
  }

  /** `combineFaces(mask, target)` on a filled mask: the greedy merge of the slice's mask. */
  method MergeMask(voxels: Voxels, d: Direction, slice: int, mask: array2<Option<int>>) returns (rects: seq<Rect>)
    requires voxels.Valid() && 0 <= slice < voxels.size
    requires mask.Length0 == mask.Length1 == voxels.size
    requires forall u, v :: 0 <= u < voxels.size && 0 <= v < voxels.size ==>
      mask[u, v] == MaskCell(voxels.data[..], voxels.size, d, slice, u, v)
    modifies mask
    ensures GreedyCover(MaskGrid(voxels.data[..], voxels.size, d, slice), voxels.size, rects)
  {
    ContentsIs(mask, MaskGrid(voxels.data[..], voxels.size, d, slice));
    rects := CombineFaces(mask, voxels.size);
  }
}
