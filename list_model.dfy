/**
 * The list-based model loader of src/model.ts. Decoded voxels are kept as a
 * list of records instead of a byte buffer; the visibility pass builds one
 * list of visible voxels per side, and the masks look voxels up in those
 * lists. The greedy merge and the records are those of the buffer pipeline.
 * For any sprite this loader and the one of `RenderModel` produce the same
 * masks, hence the same faces (`ListMaskIsSpriteMask`).
 */
module ListModel {
  import opened Wrappers
  import opened JsNumbers
  import opened ColorCodec
  import opened VoxelVolume
  import opened SpriteDecoder
  import opened GreedyMesh
  import opened FaceMesh
  import opened RenderModel
  import Utils

  /** A decoded voxel: its position, colour, and the bytes `[x, y, z, r, g, b]` with `y` the image row. */
  datatype Voxel = Voxel(x: int, y: int, z: int, r: int, g: int, b: int, data: seq<byte>)
  {
    function Pos(): Position
    {
      Position(x, y, z)
    }

    function Rgb(): Color
    {
      Color(r, g, b)
    }
  }

  // ---------------------------------------------------------------------------
  // getVoxels
  // ---------------------------------------------------------------------------

  /**
   * The record pushed for the opaque voxel `p`: the voxel's position and its
   * pixel's colour; `data` keeps the image row `size - 1 - p.y`, not `p.y`.
   */
  function ListVoxel(sprite: Sprite, p: Position): (v: Voxel)
    requires WellFormed(sprite) && InCube(sprite.size, p)
    ensures v.Pos() == p && v.Rgb() == PixelColor(sprite, p) && |v.data| == 6
    ensures sprite.size <= 256 ==>
      v.data[0] as int == p.x && v.data[1] as int == sprite.size - 1 - p.y && v.data[2] as int == p.z
    ensures v.data[3] as int == v.r && v.data[4] as int == v.g && v.data[5] as int == v.b
  {
    var c := PixelColor(sprite, p);
    Voxel(p.x, p.y, p.z, c.r, c.g, c.b, Uint8Array([p.x, sprite.size - 1 - p.y, p.z, c.r, c.g, c.b]))
  }

  /** The records pushed during the first `k` visits, in visit order. */
  function DecodedList(sprite: Sprite, k: nat): seq<Voxel>
    requires WellFormed(sprite) && k <= sprite.size * sprite.size * sprite.size
  {
    if k == 0 then []
    else
      EdgeIsPositive(sprite.size, k);
      var p := VisitedAt(sprite.size, k - 1);
      VisitedAtInCube(sprite.size, k - 1);
      DecodedList(sprite, k - 1) + (if Opaque(sprite, p) then [ListVoxel(sprite, p)] else [])
  }

  /** The list holds one record per decoded voxel of `DecodedVoxels`, in the same order. */
  lemma {:induction false} DecodedListIs(sprite: Sprite, k: nat)
    requires WellFormed(sprite) && k <= sprite.size * sprite.size * sprite.size
    ensures |DecodedList(sprite, k)| == |DecodedVoxels(sprite, k)|
    ensures forall i :: 0 <= i < |DecodedList(sprite, k)| ==>
      InCube(sprite.size, DecodedVoxels(sprite, k)[i])
      && DecodedList(sprite, k)[i] == ListVoxel(sprite, DecodedVoxels(sprite, k)[i])
  {
    if k > 0 {
      DecodedListIs(sprite, k - 1);
      EdgeIsPositive(sprite.size, k);
      VisitedAtInCube(sprite.size, k - 1);
    }
  }

  /**
   * The whole list: every record is the record of an opaque voxel, no two
   * records share a position, and every opaque voxel has a record.
   */
  lemma DecodedListExact(sprite: Sprite)
    requires WellFormed(sprite)
    ensures var list := DecodedList(sprite, sprite.size * sprite.size * sprite.size);
      && (forall i :: 0 <= i < |list| ==>
            InCube(sprite.size, list[i].Pos()) && Opaque(sprite, list[i].Pos())
            && list[i] == ListVoxel(sprite, list[i].Pos()))
      && (forall i, j :: 0 <= i < j < |list| ==> list[i].Pos() != list[j].Pos())
      && (forall p :: InCube(sprite.size, p) ==>
            (Opaque(sprite, p) <==> exists i :: 0 <= i < |list| && list[i].Pos() == p))
  {
    var n := sprite.size;
    var list := DecodedList(sprite, n * n * n);
    var voxels := DecodedVoxels(sprite, n * n * n);
    DecodedListIs(sprite, n * n * n);
    DecodedVoxelsInVisitOrder(sprite, n * n * n);
    forall i | 0 <= i < |list|
      ensures list[i].Pos() == voxels[i]
    {
    }
    forall i, j | 0 <= i < j < |list|
      ensures list[i].Pos() != list[j].Pos()
    {
      assert VisitNumber(n, voxels[i]) < VisitNumber(n, voxels[j]);
    }
    forall p | InCube(n, p)
      ensures Opaque(sprite, p) <==> exists i :: 0 <= i < |list| && list[i].Pos() == p
    {
      VisitNumberInjective(n, p, p);
      if Opaque(sprite, p) {
        assert p in voxels;
        var i :| 0 <= i < |voxels| && voxels[i] == p;
        assert list[i].Pos() == p;
      }
    }
  }

  /**
   * `getVoxels({ size, data })`: one record per opaque pixel, in the order of
   * the `x`, `z`, image-`y` loops.
   */
  method GetVoxels(sprite: Sprite) returns (result: seq<Voxel>)
    requires WellFormed(sprite)
    ensures result == DecodedList(sprite, sprite.size * sprite.size * sprite.size)
  {
    var size := sprite.size;
    result := [];
    ghost var visited := 0;
    SliceArithmetic(size, 0);
    var x := 0;
    while x < size
      invariant 0 <= x <= size
      invariant visited == VisitNumber(size, Position(x, size - 1, 0)) && 0 <= visited <= size * size * size
      invariant result == DecodedList(sprite, visited)
    {
      var z := 0;
      ColumnArithmetic(size, x, 0);
      while z < size
        invariant 0 <= z <= size
        invariant visited == VisitNumber(size, Position(x, size - 1, z)) && 0 <= visited <= size * size * size
        invariant result == DecodedList(sprite, visited)
      {
        ColumnArithmetic(size, x, z);
        result := GetColumn(sprite, x, z, visited, result);
        visited := visited + size;
        z := z + 1;
      }
      ColumnArithmetic(size, x, 0);
      SliceArithmetic(size, x + 1);
      x := x + 1;
    }
    SliceArithmetic(size, size);
  }

  /** The innermost loop of `getVoxels`: the column of image rows at one `(x, z)`. */
  method GetColumn(sprite: Sprite, x: int, z: int, ghost start: int, prefix: seq<Voxel>) returns (result: seq<Voxel>)
    requires WellFormed(sprite) && 0 <= x < sprite.size && 0 <= z < sprite.size
    requires 0 <= start == VisitNumber(sprite.size, Position(x, sprite.size - 1, z))
    requires start + sprite.size <= sprite.size * sprite.size * sprite.size
    requires prefix == DecodedList(sprite, start)
    ensures result == DecodedList(sprite, start + sprite.size)
  {
    var size := sprite.size;
    ghost var n3 := size * size * size;
    result := prefix;
    var y := 0;
    ghost var k: nat := start;
    while y < size
      invariant 0 <= y <= size && k == start + y && k <= n3
      invariant result == DecodedList(sprite, k)
    {
      ColumnVisit(size, x, y, z, start);
      result := GetPixel(sprite, x, y, z, k, result);
      y := y + 1;
      k := k + 1;
    }
  }

  /** The visit number of the voxel at image row `y` of a column. */
  lemma ColumnVisit(size: int, x: int, y: int, z: int, start: int)
    requires 0 <= y < size && start == VisitNumber(size, Position(x, size - 1, z))
    ensures start + y == VisitNumber(size, Position(x, size - (y + 1), z))
  {
    VisitArithmetic(size, Position(x, size - (y + 1), z), y);
  }

  /** The body of the innermost loop: an opaque pixel at image row `y` pushes the voxel `(x, size - (y + 1), z)`. */
  method GetPixel(sprite: Sprite, x: int, y: int, z: int, ghost k: nat, prefix: seq<Voxel>) returns (result: seq<Voxel>)
    requires WellFormed(sprite) && 0 <= x < sprite.size && 0 <= y < sprite.size && 0 <= z < sprite.size
    requires k == VisitNumber(sprite.size, Position(x, sprite.size - (y + 1), z)) && k < sprite.size * sprite.size * sprite.size
    requires prefix == DecodedList(sprite, k)
    ensures result == DecodedList(sprite, k + 1)
  {
    var size := sprite.size;
    var p := Position(x, size - (y + 1), z);
    var pixelIndex := x + z * size + y * size * size;
    var imageDataIndex := pixelIndex * PARTS_PER_PIXEL;
    VisitArithmetic(size, p, y);
    VisitedAtVisitNumber(size, p);
    assert imageDataIndex == PixelStart(sprite, p);
    var r, g, b, a := sprite.data[imageDataIndex], sprite.data[imageDataIndex + 1],
                      sprite.data[imageDataIndex + 2], sprite.data[imageDataIndex + 3];
    var voxelData := Uint8Array([x, y, z, r as int, g as int, b as int]);
    result := prefix;
    if a != 0 {
      result := result + [Voxel(x, size - (y + 1), z, r as int, g as int, b as int, voxelData)];
    }
  }

  // ---------------------------------------------------------------------------
  // isVoxel, getVoxel and the visible lists
  // ---------------------------------------------------------------------------

  /** `isVoxel`: some record of the list sits at `p`. */
  predicate IsVoxel(voxels: seq<Voxel>, p: Position)
    decreases |voxels|
  {
    |voxels| > 0 && (voxels[0].Pos() == p || IsVoxel(voxels[1..], p))
  }

  /** `some` holds exactly when a record sits at the position. */
  lemma {:induction false} IsVoxelIff(voxels: seq<Voxel>, p: Position)
    ensures IsVoxel(voxels, p) <==> exists i :: 0 <= i < |voxels| && voxels[i].Pos() == p
    decreases |voxels|
  {
    if |voxels| > 0 {
      IsVoxelIff(voxels[1..], p);
      if IsVoxel(voxels[1..], p) {
        var i :| 0 <= i < |voxels[1..]| && voxels[1..][i].Pos() == p;
        assert voxels[i + 1].Pos() == p;
      }
      if exists i :: 0 <= i < |voxels| && voxels[i].Pos() == p {
        var i :| 0 <= i < |voxels| && voxels[i].Pos() == p;
        if i > 0 {
          assert voxels[1..][i - 1].Pos() == p;
        }
      }
    }
  }

  /** The records at `p`, in list order. */
  function Matches(voxels: seq<Voxel>, p: Position): (ms: seq<Voxel>)
    ensures forall i :: 0 <= i < |ms| ==> ms[i] in voxels && ms[i].Pos() == p
    decreases |voxels|
  {
    if |voxels| == 0 then []
    else (if voxels[0].Pos() == p then [voxels[0]] else []) + Matches(voxels[1..], p)
  }

  /** `getVoxel`: the first match, or `undefined`. */
  function GetVoxel(voxels: seq<Voxel>, p: Position): (r: Option<Voxel>)
    ensures r.Some? ==> r.value in voxels && r.value.Pos() == p
  {
    var matches := Matches(voxels, p);
    if |matches| > 0 then Some(matches[0]) else None
  }

  /** `getVoxel` finds nothing exactly when `isVoxel` fails; otherwise it finds the first record at `p`. */
  lemma {:induction false} GetVoxelFirst(voxels: seq<Voxel>, p: Position)
    ensures GetVoxel(voxels, p).None? <==> !IsVoxel(voxels, p)
    ensures GetVoxel(voxels, p).Some? ==>
      exists i :: 0 <= i < |voxels| && voxels[i] == GetVoxel(voxels, p).value && voxels[i].Pos() == p
        && forall j :: 0 <= j < i ==> voxels[j].Pos() != p
    decreases |voxels|
  {
    if |voxels| > 0 && voxels[0].Pos() != p {
      GetVoxelFirst(voxels[1..], p);
      assert Matches(voxels, p) == Matches(voxels[1..], p);
      if GetVoxel(voxels, p).Some? {
        var i :| 0 <= i < |voxels[1..]| && voxels[1..][i] == GetVoxel(voxels, p).value && voxels[1..][i].Pos() == p
          && forall j :: 0 <= j < i ==> voxels[1..][j].Pos() != p;
        assert voxels[i + 1] == GetVoxel(voxels, p).value;
        forall j | 0 <= j < i + 1
          ensures voxels[j].Pos() != p
        {
          if j > 0 {
            assert voxels[j] == voxels[1..][j - 1];
          }
        }
      }
    }
  }

  /** The voxels of `voxels` whose neighbour on side `d` is not in `all`, in list order. */
  function VisibleList(voxels: seq<Voxel>, all: seq<Voxel>, d: Direction): (vs: seq<Voxel>)
    ensures |vs| <= |voxels|
    ensures forall i :: 0 <= i < |vs| ==> !IsVoxel(all, Neighbour(d, vs[i].Pos()))
    decreases |voxels|
  {
    if |voxels| == 0 then []
    else
      var v := voxels[|voxels| - 1];
      VisibleList(voxels[..|voxels| - 1], all, d) + (if !IsVoxel(all, Neighbour(d, v.Pos())) then [v] else [])
  }

  /** A voxel is in the visible list of a side exactly when it is a voxel whose neighbour on that side is not. */
  lemma {:induction false} VisibleListMembers(voxels: seq<Voxel>, all: seq<Voxel>, d: Direction)
    ensures forall v :: v in VisibleList(voxels, all, d) <==> v in voxels && !IsVoxel(all, Neighbour(d, v.Pos()))
    decreases |voxels|
  {
    if |voxels| > 0 {
      var init := voxels[..|voxels| - 1];
      VisibleListMembers(init, all, d);
      assert voxels == init + [voxels[|voxels| - 1]];
    }
  }

  /** The visible lists of one more voxel. */
  lemma VisibleListStep(voxels: seq<Voxel>, i: int, d: Direction)
    requires 0 <= i < |voxels|
    ensures VisibleList(voxels[..i + 1], voxels, d) ==
      VisibleList(voxels[..i], voxels, d) + (if !IsVoxel(voxels, Neighbour(d, voxels[i].Pos())) then [voxels[i]] else [])
  {
    assert voxels[..i + 1][..i] == voxels[..i];
  }

  /**
   * The `forEach` over `model.voxels`: each voxel is pushed onto the list of
   * every side whose neighbour is not a voxel.
   */
  method VisibleLists(voxels: seq<Voxel>)
    returns (top: seq<Voxel>, bottom: seq<Voxel>, left: seq<Voxel>,
             right: seq<Voxel>, back: seq<Voxel>, front: seq<Voxel>)
    ensures top == VisibleList(voxels, voxels, Top) && bottom == VisibleList(voxels, voxels, Bottom)
    ensures left == VisibleList(voxels, voxels, Left) && right == VisibleList(voxels, voxels, Right)
    ensures back == VisibleList(voxels, voxels, Back) && front == VisibleList(voxels, voxels, Front)
  {
    top, bottom, left, right, back, front := [], [], [], [], [], [];
    var i := 0;
    while i < |voxels|
      invariant 0 <= i <= |voxels|
      invariant top == VisibleList(voxels[..i], voxels, Top) && bottom == VisibleList(voxels[..i], voxels, Bottom)
      invariant left == VisibleList(voxels[..i], voxels, Left) && right == VisibleList(voxels[..i], voxels, Right)
      invariant back == VisibleList(voxels[..i], voxels, Back) && front == VisibleList(voxels[..i], voxels, Front)
    {
      left := PushIfExposed(left, voxels, i, Left);
      right := PushIfExposed(right, voxels, i, Right);
      bottom := PushIfExposed(bottom, voxels, i, Bottom);
      top := PushIfExposed(top, voxels, i, Top);
      back := PushIfExposed(back, voxels, i, Back);
      front := PushIfExposed(front, voxels, i, Front);
      i := i + 1;
    }
    assert voxels[..|voxels|] == voxels;
  }

  /** One side of the `forEach` body: the voxel is pushed when its neighbour on side `d` is not a voxel. */
  method PushIfExposed(list: seq<Voxel>, voxels: seq<Voxel>, i: int, d: Direction) returns (pushed: seq<Voxel>)
    requires 0 <= i < |voxels| && list == VisibleList(voxels[..i], voxels, d)
    ensures pushed == VisibleList(voxels[..i + 1], voxels, d)
  {
    VisibleListStep(voxels, i, d);
    var voxel := voxels[i];
    if !IsVoxel(voxels, Neighbour(d, voxel.Pos())) {
      pushed := list + [voxel];
    } else {
      pushed := list;
    }
  }

  // ---------------------------------------------------------------------------
  // Masks
  // ---------------------------------------------------------------------------

  /** A mask cell: the packed colour of the first visible voxel at the cell, `undefined` when there is none. */
  function ListMaskCell(visible: seq<Voxel>, d: Direction, slice: int, u: int, v: int): Option<int>
  {
    match GetVoxel(visible, SlicePosition(d, slice, u, v))
    case Some(voxel) => Some(ToHexTriplet(voxel.Rgb()))
    case None => None
  }

  /** The whole mask of a slice, over `[0, size)²`. */
  function ListMaskGrid(visible: seq<Voxel>, d: Direction, slice: int, size: int): (m: Grid)
    requires size >= 0
    ensures IsGrid(m, size)
    ensures forall u, v :: 0 <= u < size && 0 <= v < size ==> m[u][v] == ListMaskCell(visible, d, slice, u, v)
  {
    seq(size, u requires 0 <= u < size => seq(size, v requires 0 <= v < size => ListMaskCell(visible, d, slice, u, v)))
  }

  /** The filling loops of one slice, for the two sides of an axis. */
  method FillListMasks(firstVisible: seq<Voxel>, secondVisible: seq<Voxel>, first: Direction, second: Direction,
                       slice: int, size: int)
    returns (firstMask: array2<Option<int>>, secondMask: array2<Option<int>>)
    requires size >= 0
    ensures fresh(firstMask) && fresh(secondMask) && firstMask != secondMask
    ensures firstMask.Length0 == firstMask.Length1 == size && secondMask.Length0 == secondMask.Length1 == size
    ensures forall u, v :: 0 <= u < size && 0 <= v < size ==>
      firstMask[u, v] == ListMaskCell(firstVisible, first, slice, u, v)
    ensures forall u, v :: 0 <= u < size && 0 <= v < size ==>
      secondMask[u, v] == ListMaskCell(secondVisible, second, slice, u, v)
  {
    firstMask := Utils.CreateMask2d(size);
    secondMask := Utils.CreateMask2d(size);
    var a := 0;
    while a < size
      invariant 0 <= a <= size
      invariant forall u, v :: 0 <= u < size && 0 <= v < size ==>
        firstMask[u, v] == (if u < a then ListMaskCell(firstVisible, first, slice, u, v) else None)
      invariant forall u, v :: 0 <= u < size && 0 <= v < size ==>
        secondMask[u, v] == (if u < a then ListMaskCell(secondVisible, second, slice, u, v) else None)
    {
      FillListMaskRow(firstVisible, firstMask, first, slice, a, size);
      FillListMaskRow(secondVisible, secondMask, second, slice, a, size);
      a := a + 1;
    }
  }

  /** The inner loop over `b` for row `a` of one mask. */
  method FillListMaskRow(visible: seq<Voxel>, mask: array2<Option<int>>, d: Direction, slice: int, a: int, size: int)
    requires 0 <= a < size && mask.Length0 == mask.Length1 == size
    requires forall v :: 0 <= v < size ==> mask[a, v] == None
    modifies mask
    ensures forall u, v :: 0 <= u < size && 0 <= v < size ==>
      mask[u, v] == (if u == a then ListMaskCell(visible, d, slice, u, v) else old(mask[u, v]))
  {
    for b := 0 to size
      invariant forall u, v :: 0 <= u < size && 0 <= v < size && u != a ==> mask[u, v] == old(mask[u, v])
      invariant forall v :: 0 <= v < b ==> mask[a, v] == ListMaskCell(visible, d, slice, a, v)
      invariant forall v :: b <= v < size ==> mask[a, v] == None
    {
      SetListMaskCell(visible, mask, d, slice, a, b);
    }
  }

  /** One step of the inner loop: `mask[a][b]` gets the packed colour of the visible record there, if any. */
  method SetListMaskCell(visible: seq<Voxel>, mask: array2<Option<int>>, d: Direction, slice: int, a: int, b: int)
    requires 0 <= a < mask.Length0 && 0 <= b < mask.Length1 && mask[a, b] == None
    modifies mask
    ensures mask[a, b] == ListMaskCell(visible, d, slice, a, b)
    ensures forall u, v :: 0 <= u < mask.Length0 && 0 <= v < mask.Length1 && (u != a || v != b) ==> mask[u, v] == old(mask[u, v])
  {
    var voxel := GetVoxel(visible, SlicePosition(d, slice, a, b));
    if voxel.Some? {
      mask[a, b] := Some(ToHexTriplet(voxel.value.Rgb()));
    }
  }

  // ---------------------------------------------------------------------------
  // optimizeModel
  // ---------------------------------------------------------------------------

  /** `merges[k]` is the greedy merge of the list mask of slice `k`, for the first `|merges|` slices. */
  ghost predicate ListMergedUpTo(visible: seq<Voxel>, d: Direction, size: int, merges: seq<seq<Rect>>)
  {
    && |merges| <= (if size < 0 then 0 else size)
    && forall k :: 0 <= k < |merges| ==> GreedyCover(ListMaskGrid(visible, d, k, size), size, merges[k])
  }

  /** Every slice `0 .. size - 1` is merged. */
  ghost predicate ListMerged(visible: seq<Voxel>, d: Direction, size: int, merges: seq<seq<Rect>>)
  {
    ListMergedUpTo(visible, d, size, merges) && |merges| == (if size < 0 then 0 else size)
  }

  /** A list model: name, path, size, the voxel records and the six face lists. */
  class Model {
    const name: string
    const path: string
    const size: int
    const voxels: seq<Voxel>
    var topFaces: seq<seq<byte>>
    var bottomFaces: seq<seq<byte>>
    var leftFaces: seq<seq<byte>>
    var rightFaces: seq<seq<byte>>
    var backFaces: seq<seq<byte>>
    var frontFaces: seq<seq<byte>>

    /** The model literal of `loadModel`: every face list starts empty. */
    constructor (name: string, path: string, size: int, voxels: seq<Voxel>)
      ensures this.name == name && this.path == path && this.size == size && this.voxels == voxels
      ensures topFaces == [] && bottomFaces == [] && leftFaces == [] && rightFaces == []
      ensures backFaces == [] && frontFaces == []
    {
      this.name := name;
      this.path := path;
      this.size := size;
      this.voxels := voxels;
      topFaces, bottomFaces, leftFaces, rightFaces, backFaces, frontFaces := [], [], [], [], [], [];
    }
  }

  /**
   * `optimizeModel(model, size)`: build the six visible lists, then append to
   * each face list, slice by slice, the records of the greedy merge of the
   * slice's mask.
   */
  method OptimizeModel(model: Model, size: int)
    returns (ghost top: seq<seq<Rect>>, ghost bottom: seq<seq<Rect>>, ghost left: seq<seq<Rect>>,
             ghost right: seq<seq<Rect>>, ghost back: seq<seq<Rect>>, ghost front: seq<seq<Rect>>)
    modifies model
    ensures ListMerged(VisibleList(model.voxels, model.voxels, Top), Top, size, top)
    ensures model.topFaces == old(model.topFaces) + Emit(Top, top)
    ensures ListMerged(VisibleList(model.voxels, model.voxels, Bottom), Bottom, size, bottom)
    ensures model.bottomFaces == old(model.bottomFaces) + Emit(Bottom, bottom)
    ensures ListMerged(VisibleList(model.voxels, model.voxels, Left), Left, size, left)
    ensures model.leftFaces == old(model.leftFaces) + Emit(Left, left)
    ensures ListMerged(VisibleList(model.voxels, model.voxels, Right), Right, size, right)
    ensures model.rightFaces == old(model.rightFaces) + Emit(Right, right)
    ensures ListMerged(VisibleList(model.voxels, model.voxels, Back), Back, size, back)
    ensures model.backFaces == old(model.backFaces) + Emit(Back, back)
    ensures ListMerged(VisibleList(model.voxels, model.voxels, Front), Front, size, front)
    ensures model.frontFaces == old(model.frontFaces) + Emit(Front, front)
  {
    var topVisible, bottomVisible, leftVisible, rightVisible, backVisible, frontVisible := VisibleLists(model.voxels);
    var topFaces, bottomFaces, leftFaces, rightFaces, frontFaces, backFaces;
    topFaces, bottomFaces, top, bottom := ListMeshAxis(topVisible, bottomVisible, Top, Bottom, size);
    leftFaces, rightFaces, left, right := ListMeshAxis(leftVisible, rightVisible, Left, Right, size);
    frontFaces, backFaces, front, back := ListMeshAxis(frontVisible, backVisible, Front, Back, size);
    model.topFaces, model.bottomFaces := model.topFaces + topFaces, model.bottomFaces + bottomFaces;
    model.leftFaces, model.rightFaces := model.leftFaces + leftFaces, model.rightFaces + rightFaces;
    model.frontFaces, model.backFaces := model.frontFaces + frontFaces, model.backFaces + backFaces;
  }

  /** The slice loop of one axis: fill both masks from the visible lists, then merge each into its list. */
  method ListMeshAxis(firstVisible: seq<Voxel>, secondVisible: seq<Voxel>, first: Direction, second: Direction, size: int)
    returns (firstFaces: seq<seq<byte>>, secondFaces: seq<seq<byte>>,
             ghost firstMerges: seq<seq<Rect>>, ghost secondMerges: seq<seq<Rect>>)
    ensures ListMerged(firstVisible, first, size, firstMerges) && firstFaces == Emit(first, firstMerges)
    ensures ListMerged(secondVisible, second, size, secondMerges) && secondFaces == Emit(second, secondMerges)
  {
    firstFaces, secondFaces := [], [];
    firstMerges, secondMerges := [], [];
    var slice := 0;
    while slice < size
      invariant 0 <= slice && (size >= 0 ==> slice <= size)
      invariant |firstMerges| == slice && |secondMerges| == slice
      invariant ListMergedUpTo(firstVisible, first, size, firstMerges)
      invariant ListMergedUpTo(secondVisible, second, size, secondMerges)
      invariant firstFaces == Emit(first, firstMerges) && secondFaces == Emit(second, secondMerges)
    {
      var firstRects, secondRects := ListMeshSlice(firstVisible, secondVisible, first, second, slice, size);
      ListMergedUpToAppend(firstVisible, first, size, firstMerges, firstRects);
      ListMergedUpToAppend(secondVisible, second, size, secondMerges, secondRects);
      EmitAppend(first, firstMerges, firstRects);
      EmitAppend(second, secondMerges, secondRects);
      firstFaces := firstFaces + Records(first, slice, firstRects);
      secondFaces := secondFaces + Records(second, slice, secondRects);
      firstMerges := firstMerges + [firstRects];
      secondMerges := secondMerges + [secondRects];
      slice := slice + 1;
    }
  }

  /** One slice: fill the two masks and merge each. */
  method ListMeshSlice(firstVisible: seq<Voxel>, secondVisible: seq<Voxel>, first: Direction, second: Direction,
                       slice: int, size: int)
    returns (firstRects: seq<Rect>, secondRects: seq<Rect>)
    requires size >= 0
    ensures GreedyCover(ListMaskGrid(firstVisible, first, slice, size), size, firstRects)
    ensures GreedyCover(ListMaskGrid(secondVisible, second, slice, size), size, secondRects)
  {
    var firstMask, secondMask := FillListMasks(firstVisible, secondVisible, first, second, slice, size);
    ContentsIs(firstMask, ListMaskGrid(firstVisible, first, slice, size));
    ContentsIs(secondMask, ListMaskGrid(secondVisible, second, slice, size));
    firstRects := CombineFaces(firstMask, size);
    secondRects := CombineFaces(secondMask, size);
  }

  /** One more merged slice. */
  lemma ListMergedUpToAppend(visible: seq<Voxel>, d: Direction, size: int, merges: seq<seq<Rect>>, rects: seq<Rect>)
    requires ListMergedUpTo(visible, d, size, merges) && |merges| < size
    requires GreedyCover(ListMaskGrid(visible, d, |merges|, size), size, rects)
    ensures ListMergedUpTo(visible, d, size, merges + [rects])
  {
  }

  // ---------------------------------------------------------------------------
  // The list masks are the sprite's masks
  // ---------------------------------------------------------------------------

  /** In the decoded list a position holds a record exactly when it is solid. */
  lemma DecodedIsVoxel(sprite: Sprite, q: Position)
    requires WellFormed(sprite)
    ensures IsVoxel(DecodedList(sprite, sprite.size * sprite.size * sprite.size), q) <==> Solid(sprite, q)
  {
    var list := DecodedList(sprite, sprite.size * sprite.size * sprite.size);
    DecodedListExact(sprite);
    IsVoxelIff(list, q);
  }

  /** The visible list of a side holds the decoded records whose neighbour on that side is not solid. */
  lemma DecodedVisible(sprite: Sprite, d: Direction, v: Voxel)
    requires WellFormed(sprite)
    ensures var list := DecodedList(sprite, sprite.size * sprite.size * sprite.size);
      v in VisibleList(list, list, d) <==> v in list && !Solid(sprite, Neighbour(d, v.Pos()))
  {
    var list := DecodedList(sprite, sprite.size * sprite.size * sprite.size);
    VisibleListMembers(list, list, d);
    DecodedIsVoxel(sprite, Neighbour(d, v.Pos()));
  }

  /** A record of a visible list of a decoded sprite is the record of a solid voxel whose neighbour is not solid. */
  lemma DecodedVisibleRecord(sprite: Sprite, d: Direction, voxel: Voxel)
    requires WellFormed(sprite)
    requires var list := DecodedList(sprite, sprite.size * sprite.size * sprite.size);
      voxel in VisibleList(list, list, d)
    ensures InCube(sprite.size, voxel.Pos()) && Opaque(sprite, voxel.Pos())
    ensures voxel == ListVoxel(sprite, voxel.Pos()) && !Solid(sprite, Neighbour(d, voxel.Pos()))
  {
    var list := DecodedList(sprite, sprite.size * sprite.size * sprite.size);
    DecodedVisible(sprite, d, voxel);
    DecodedListExact(sprite);
    var j :| 0 <= j < |list| && list[j] == voxel;
  }

  /** A solid voxel whose neighbour is not solid has its record in the visible list of that side. */
  lemma DecodedVisibleHas(sprite: Sprite, d: Direction, p: Position)
    requires WellFormed(sprite) && InCube(sprite.size, p) && Opaque(sprite, p) && !Solid(sprite, Neighbour(d, p))
    ensures var list := DecodedList(sprite, sprite.size * sprite.size * sprite.size);
      IsVoxel(VisibleList(list, list, d), p)
  {
    var list := DecodedList(sprite, sprite.size * sprite.size * sprite.size);
    var visible := VisibleList(list, list, d);
    DecodedListExact(sprite);
    var j :| 0 <= j < |list| && list[j].Pos() == p;
    DecodedVisible(sprite, d, list[j]);
    var i :| 0 <= i < |visible| && visible[i] == list[j];
    IsVoxelIff(visible, p);
  }

  /**
   * For a decoded sprite, a list mask cell holds the pixel's packed colour
   * exactly when the pixel is opaque and its neighbour on that side is not
   * solid: the same cell the buffer pipeline computes.
   */
  lemma ListMaskCellIsSpriteMask(sprite: Sprite, d: Direction, slice: int, u: int, v: int)
    requires WellFormed(sprite) && InCube(sprite.size, SlicePosition(d, slice, u, v))
    ensures var list := DecodedList(sprite, sprite.size * sprite.size * sprite.size);
      ListMaskCell(VisibleList(list, list, d), d, slice, u, v) == SpriteMaskCell(sprite, d, slice, u, v)
  {
    var list := DecodedList(sprite, sprite.size * sprite.size * sprite.size);
    var visible := VisibleList(list, list, d);
    var p := SlicePosition(d, slice, u, v);
    GetVoxelFirst(visible, p);
    match GetVoxel(visible, p)
    case Some(voxel) =>
      var i :| 0 <= i < |visible| && visible[i] == voxel && voxel.Pos() == p;
      DecodedVisibleRecord(sprite, d, voxel);
    case None =>
      if Opaque(sprite, p) && !Solid(sprite, Neighbour(d, p)) {
        DecodedVisibleHas(sprite, d, p);
        assert false;
      }
  }

  /** The whole list mask of every slice is the sprite's mask. */
  lemma ListMaskIsSpriteMask(sprite: Sprite, d: Direction, slice: int)
    requires WellFormed(sprite) && 0 <= slice < sprite.size
    ensures var list := DecodedList(sprite, sprite.size * sprite.size * sprite.size);
      ListMaskGrid(VisibleList(list, list, d), d, slice, sprite.size) == SpriteMaskGrid(sprite, d, slice)
  {
    var list := DecodedList(sprite, sprite.size * sprite.size * sprite.size);
    var m1, m2 := ListMaskGrid(VisibleList(list, list, d), d, slice, sprite.size), SpriteMaskGrid(sprite, d, slice);
    forall u | 0 <= u < sprite.size
      ensures m1[u] == m2[u]
    {
      forall v | 0 <= v < sprite.size
        ensures m1[u][v] == m2[u][v]
      {
        ListMaskCellIsSpriteMask(sprite, d, slice, u, v);
      }
    }
  }

  /** The list pipeline's merges of a decoded sprite are merges of the sprite's own masks. */
  lemma ListMergedIsSpriteMerged(sprite: Sprite, d: Direction, merges: seq<seq<Rect>>)
    requires WellFormed(sprite)
    requires var list := DecodedList(sprite, sprite.size * sprite.size * sprite.size);
      ListMerged(VisibleList(list, list, d), d, sprite.size, merges)
    ensures SpriteMerged(sprite, d, merges)
  {
    forall k | 0 <= k < |merges|
      ensures GreedyCover(SpriteMaskGrid(sprite, d, k), sprite.size, merges[k])
    {
      ListMaskIsSpriteMask(sprite, d, k);
    }
  }

  /**
   * The part of `loadModel` after the image is read. Each face list holds the
   * records of the greedy merges of the sprite's own masks, so by
   * `SpriteFacesUnique` it equals the list `RenderModel.LoadModel` builds.
   */
  method LoadModel(name: string, sprite: Sprite)
    returns (model: Model, ghost top: seq<seq<Rect>>, ghost bottom: seq<seq<Rect>>, ghost left: seq<seq<Rect>>,
             ghost right: seq<seq<Rect>>, ghost back: seq<seq<Rect>>, ghost front: seq<seq<Rect>>)
    requires WellFormed(sprite)
    ensures fresh(model) && model.name == name && model.path == ModelPath(name) && model.size == sprite.size
    ensures model.voxels == DecodedList(sprite, sprite.size * sprite.size * sprite.size)
    ensures SpriteMerged(sprite, Top, top) && model.topFaces == Emit(Top, top)
    ensures SpriteMerged(sprite, Bottom, bottom) && model.bottomFaces == Emit(Bottom, bottom)
    ensures SpriteMerged(sprite, Left, left) && model.leftFaces == Emit(Left, left)
    ensures SpriteMerged(sprite, Right, right) && model.rightFaces == Emit(Right, right)
    ensures SpriteMerged(sprite, Back, back) && model.backFaces == Emit(Back, back)
    ensures SpriteMerged(sprite, Front, front) && model.frontFaces == Emit(Front, front)
  {
    var voxels := GetVoxels(sprite);
    model := new Model(name, ModelPath(name), sprite.size, voxels);
    top, bottom, left, right, back, front := OptimizeModel(model, sprite.size);
    ListMergedIsSpriteMerged(sprite, Top, top);
    ListMergedIsSpriteMerged(sprite, Bottom, bottom);
    ListMergedIsSpriteMerged(sprite, Left, left);
    ListMergedIsSpriteMerged(sprite, Right, right);
    ListMergedIsSpriteMerged(sprite, Back, back);
    ListMergedIsSpriteMerged(sprite, Front, front);
  }
}
