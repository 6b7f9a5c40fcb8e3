/**
 * `spriteToVoxels` of src/voxel/spriteToVoxels.ts: a sprite is a stack of
 * `size` RGBA images of `size × size` pixels, read as the cube of pixels
 * `x + z*size + y*size²`. Every pixel whose alpha is non-zero populates the
 * voxel `(x, size - 1 - y, z)` with the pixel's colour: the image stack is
 * flipped upside down.
 */
module SpriteDecoder {
  import opened JsNumbers
  import opened ColorCodec
  import opened VoxelVolume

  /** The RGBA bytes of a sprite and its edge length. */
  datatype Sprite = Sprite(data: seq<byte>, size: int)

  const PARTS_PER_PIXEL: int := 4

  /** A well-formed sprite holds four bytes for each of its `size³` pixels. */
  predicate WellFormed(sprite: Sprite)
  {
    sprite.size >= 0 && |sprite.data| == PARTS_PER_PIXEL * (sprite.size * sprite.size * sprite.size)
  }

  /** The sprite pixel a voxel is decoded from, laid out as a cell `(x, z, size - 1 - y)`. */
  function SourcePixel(size: int, p: Position): Position
  {
    Position(p.x, p.z, size - 1 - p.y)
  }

  /**
   * The order in which the decoder visits a voxel: loops over `x`, then `z`,
   * then the image `y`, so the visit number is the cell number of `(y, z, x)`.
   */
  function VisitNumber(size: int, p: Position): int
  {
    CellIndex(size, Position(size - 1 - p.y, p.z, p.x))
  }

  /** The first of the four bytes of the pixel a voxel comes from. */
  function PixelStart(sprite: Sprite, p: Position): (i: int)
    requires WellFormed(sprite) && InCube(sprite.size, p)
    ensures 0 <= i && i + 3 < |sprite.data|
  {
    CellIndexBounds(sprite.size, SourcePixel(sprite.size, p));
    PARTS_PER_PIXEL * CellIndex(sprite.size, SourcePixel(sprite.size, p))
  }

  /** The voxel is opaque: its source pixel has a non-zero alpha. */
  predicate Opaque(sprite: Sprite, p: Position)
    requires WellFormed(sprite) && InCube(sprite.size, p)
  {
    sprite.data[PixelStart(sprite, p) + 3] != 0
  }

  /** The colour of the pixel a voxel is decoded from. */
  function PixelColor(sprite: Sprite, p: Position): (c: Color)
    requires WellFormed(sprite) && InCube(sprite.size, p)
    ensures IsByteColor(c)
  {
    var i := PixelStart(sprite, p);
    Color(sprite.data[i] as int, sprite.data[i + 1] as int, sprite.data[i + 2] as int)
  }

  /** A voxel is solid when it is in the cube and its pixel is opaque. */
  predicate Solid(sprite: Sprite, p: Position)
    requires WellFormed(sprite)
  {
    InCube(sprite.size, p) && Opaque(sprite, p)
  }

  /**
   * What a decoded voxel holds in field `l`: nothing for a transparent pixel;
   * otherwise `exists = 1`, the pixel's red, green and blue, and no visibility
   * flag set yet.
   */
  function DecodedField(sprite: Sprite, p: Position, l: VoxelLookup): byte
    requires WellFormed(sprite) && InCube(sprite.size, p)
  {
    var i := PixelStart(sprite, p);
    if !Opaque(sprite, p) then 0
    else match l
      case Exists => 1
      case R => sprite.data[i]
      case G => sprite.data[i + 1]
      case B => sprite.data[i + 2]
      case _ => 0
  }

  /** The source pixel of a voxel is in the cube, and distinct voxels read distinct pixels. */
  lemma SourcePixelInjective(size: int, p: Position, q: Position)
    requires InCube(size, p) && InCube(size, q)
    ensures InCube(size, SourcePixel(size, p))
    ensures CellIndex(size, SourcePixel(size, p)) == CellIndex(size, SourcePixel(size, q)) ==> p == q
  {
    if CellIndex(size, SourcePixel(size, p)) == CellIndex(size, SourcePixel(size, q)) {
      CellIndexInjective(size, SourcePixel(size, p), SourcePixel(size, q));
    }
  }

  /** Visit numbers are in `[0, size³)` and distinct voxels are visited at distinct steps. */
  lemma VisitNumberInjective(size: int, p: Position, q: Position)
    requires InCube(size, p) && InCube(size, q)
    ensures 0 <= VisitNumber(size, p) < size * size * size
    ensures VisitNumber(size, p) == VisitNumber(size, q) ==> p == q
  {
    var p', q' := Position(size - 1 - p.y, p.z, p.x), Position(size - 1 - q.y, q.z, q.x);
    CellIndexBounds(size, p');
    if VisitNumber(size, p) == VisitNumber(size, q) {
      CellIndexInjective(size, p', q');
    }
  }

  /**
   * The decoder's progress after `k` visits: voxels visited before step `k`
   * hold their decoded fields and the others are still zero.
   */
  ghost predicate DecodedUpTo(s: seq<byte>, sprite: Sprite, k: int)
    requires WellFormed(sprite)
  {
    && |s| == sprite.size * sprite.size * sprite.size * VOXEL_LOOKUP_LENGTH
    && forall p, l: VoxelLookup {:trigger CellField(s, sprite.size, p, l)} :: InCube(sprite.size, p) ==>
         CellField(s, sprite.size, p, l) == (if VisitNumber(sprite.size, p) < k then DecodedField(sprite, p, l) else 0)
  }

  /** The voxel the decoder visits at step `k`: the inverse of `VisitNumber`. */
  function VisitedAt(size: int, k: nat): Position
    requires size > 0
  {
    var c := CellPosition(size, k);
    Position(c.z, size - 1 - c.x, c.y)
  }

  /** The opaque voxels among the first `k` visits, in visit order. */
  function DecodedVoxels(sprite: Sprite, k: nat): seq<Position>
    requires WellFormed(sprite) && k <= sprite.size * sprite.size * sprite.size
  {
    if k == 0 then []
    else
      EdgeIsPositive(sprite.size, k);
      var p := VisitedAt(sprite.size, k - 1);
      VisitedAtInCube(sprite.size, k - 1);
      DecodedVoxels(sprite, k - 1) + (if Opaque(sprite, p) then [p] else [])
  }

  /** The offsets of a list of cells. */
  function OffsetsOf(size: int, voxels: seq<Position>): seq<int>
  {
    seq(|voxels|, i requires 0 <= i < |voxels| => CellIndex(size, voxels[i]) * VOXEL_LOOKUP_LENGTH)
  }

  /** The offsets `populate` records during the first `k` visits: one per opaque voxel, in visit order. */
  function DecodedOffsets(sprite: Sprite, k: nat): seq<int>
    requires WellFormed(sprite) && k <= sprite.size * sprite.size * sprite.size
  {
    OffsetsOf(sprite.size, DecodedVoxels(sprite, k))
  }

  /** The offsets of a list extended by one cell. */
  lemma OffsetsOfAppend(size: int, voxels: seq<Position>, extra: seq<Position>)
    requires |extra| <= 1
    ensures OffsetsOf(size, voxels + extra) == OffsetsOf(size, voxels) + OffsetsOf(size, extra)
  {
    assert forall i :: 0 <= i < |voxels| ==> (voxels + extra)[i] == voxels[i];
  }

  /** A cube with at least one cell has a positive edge. */
  lemma EdgeIsPositive(size: int, k: int)
    requires size >= 0 && 0 < k <= size * size * size
    ensures size > 0
  {
    if size == 0 {
      assert false;
    }
  }

  /** Visiting step `VisitNumber(p)` visits `p`, and every step in `[0, size³)` visits an in-cube voxel. */
  lemma VisitedAtInCube(size: int, k: nat)
    requires size > 0 && k < size * size * size
    ensures InCube(size, VisitedAt(size, k)) && VisitNumber(size, VisitedAt(size, k)) == k
  {
    CellPositionRoundTrip(size, k);
  }

  lemma VisitedAtVisitNumber(size: int, p: Position)
    requires size > 0 && InCube(size, p)
    ensures VisitNumber(size, p) >= 0 && VisitedAt(size, VisitNumber(size, p)) == p
  {
    CellIndexRoundTrip(size, Position(size - 1 - p.y, p.z, p.x));
  }

  /** The visit number and pixel of the voxel the decoder populates at image row `y`. */
  lemma VisitArithmetic(size: int, p: Position, y: int)
    requires p.y == size - (y + 1)
    ensures VisitNumber(size, p) == VisitNumber(size, Position(p.x, size - 1, p.z)) + y
    ensures CellIndex(size, SourcePixel(size, p)) == p.x + p.z * size + y * size * size
  {
    assert size - 1 - p.y == y;
    assert size * size * p.x == p.x * size * size;
    assert size * p.z == p.z * size;
    assert size * size * y == y * size * size;
  }

  /**
   * `voxels` are exactly the opaque voxels with a visit number below `k`, in
   * strictly increasing visit order (so none is listed twice).
   */
  ghost predicate ListsVisitsBelow(sprite: Sprite, voxels: seq<Position>, k: int)
    requires WellFormed(sprite)
  {
    && (forall i :: 0 <= i < |voxels| ==>
          InCube(sprite.size, voxels[i]) && Opaque(sprite, voxels[i]) && VisitNumber(sprite.size, voxels[i]) < k)
    && (forall i, j :: 0 <= i < j < |voxels| ==> VisitNumber(sprite.size, voxels[i]) < VisitNumber(sprite.size, voxels[j]))
    && (forall p :: InCube(sprite.size, p) && Opaque(sprite, p) && VisitNumber(sprite.size, p) < k ==> p in voxels)
  }

  /** Visiting the voxel with visit number `k - 1` appends it to the list when it is opaque. */
  lemma ListsVisitStep(sprite: Sprite, k: nat)
    requires WellFormed(sprite) && 0 < k <= sprite.size * sprite.size * sprite.size
    requires ListsVisitsBelow(sprite, DecodedVoxels(sprite, k - 1), k - 1)
    ensures |DecodedVoxels(sprite, k)| <= |DecodedVoxels(sprite, k - 1)| + 1
    ensures ListsVisitsBelow(sprite, DecodedVoxels(sprite, k), k)
  {
    var n := sprite.size;
    EdgeIsPositive(n, k);
    var p := VisitedAt(n, k - 1);
    VisitedAtInCube(n, k - 1);
    var voxels := DecodedVoxels(sprite, k - 1);
    var voxels' := DecodedVoxels(sprite, k);
    assert voxels' == voxels + (if Opaque(sprite, p) then [p] else []);
    forall q | InCube(n, q) && Opaque(sprite, q) && VisitNumber(n, q) < k
      ensures q in voxels'
    {
      VisitNumberInjective(n, q, p);
    }
  }

  /** Before the first visit the list is empty, as no voxel has a negative visit number. */
  lemma ListsNoVisits(sprite: Sprite)
    requires WellFormed(sprite)
    ensures ListsVisitsBelow(sprite, [], 0)
  {
    forall p | InCube(sprite.size, p)
      ensures VisitNumber(sprite.size, p) >= 0
    {
      VisitNumberInjective(sprite.size, p, p);
    }
  }

  /** After `k` visits the decoded voxels are exactly the opaque voxels visited so far, in visit order. */
  lemma {:induction false} DecodedVoxelsInVisitOrder(sprite: Sprite, k: nat)
    requires WellFormed(sprite) && k <= sprite.size * sprite.size * sprite.size
    ensures |DecodedVoxels(sprite, k)| <= k
    ensures ListsVisitsBelow(sprite, DecodedVoxels(sprite, k), k)
  {
    if k == 0 {
      ListsNoVisits(sprite);
    } else {
      DecodedVoxelsInVisitOrder(sprite, k - 1);
      ListsVisitStep(sprite, k);
    }
  }

  /**
   * The offsets of the finished decoding: the offset of an in-cube voxel is
   * recorded if and only if the voxel is opaque; each recorded offset is that
   * of an opaque in-cube voxel; and no offset is recorded twice.
   */
  lemma DecodedOffsetsExact(sprite: Sprite)
    requires WellFormed(sprite)
    ensures var voxels := DecodedVoxels(sprite, sprite.size * sprite.size * sprite.size);
      var offsets := DecodedOffsets(sprite, sprite.size * sprite.size * sprite.size);
      && |offsets| == |voxels|
      && (forall p :: InCube(sprite.size, p) ==>
            (CellIndex(sprite.size, p) * VOXEL_LOOKUP_LENGTH in offsets <==> Opaque(sprite, p)))
      && (forall i :: 0 <= i < |offsets| ==>
            InCube(sprite.size, voxels[i]) && Opaque(sprite, voxels[i])
            && offsets[i] == CellIndex(sprite.size, voxels[i]) * VOXEL_LOOKUP_LENGTH)
      && (forall i, j :: 0 <= i < j < |offsets| ==> offsets[i] != offsets[j])
  {
    var n := sprite.size;
    var voxels := DecodedVoxels(sprite, n * n * n);
    DecodedVoxelsInVisitOrder(sprite, n * n * n);
    assert ListsVisitsBelow(sprite, voxels, n * n * n);
    forall p | InCube(n, p)
      ensures p in voxels <==> Opaque(sprite, p)
    {
      VisitNumberInjective(n, p, p);
    }
    forall i, j | 0 <= i < j < |voxels|
      ensures voxels[i] != voxels[j]
    {
      assert VisitNumber(n, voxels[i]) < VisitNumber(n, voxels[j]);
    }
    OffsetsOfCells(n, voxels);
  }

  /**
   * The offsets of a list of in-cube cells: the offset of an in-cube cell is
   * listed exactly when the cell is, and distinct cells give distinct offsets.
   */
  lemma OffsetsOfCells(size: int, voxels: seq<Position>)
    requires forall i :: 0 <= i < |voxels| ==> InCube(size, voxels[i])
    ensures forall p :: InCube(size, p) ==> (CellIndex(size, p) * VOXEL_LOOKUP_LENGTH in OffsetsOf(size, voxels) <==> p in voxels)
    ensures (forall i, j :: 0 <= i < j < |voxels| ==> voxels[i] != voxels[j]) ==>
      forall i, j :: 0 <= i < j < |voxels| ==> OffsetsOf(size, voxels)[i] != OffsetsOf(size, voxels)[j]
  {
    var offsets := OffsetsOf(size, voxels);
    forall p | InCube(size, p)
      ensures CellIndex(size, p) * VOXEL_LOOKUP_LENGTH in offsets <==> p in voxels
    {
      if CellIndex(size, p) * VOXEL_LOOKUP_LENGTH in offsets {
        var i :| 0 <= i < |offsets| && offsets[i] == CellIndex(size, p) * VOXEL_LOOKUP_LENGTH;
        CellIndexInjective(size, p, voxels[i]);
      }
      if p in voxels {
        var i :| 0 <= i < |voxels| && voxels[i] == p;
        assert offsets[i] == CellIndex(size, p) * VOXEL_LOOKUP_LENGTH;
      }
    }
    forall i, j | 0 <= i < j < |voxels| && offsets[i] == offsets[j]
      ensures voxels[i] == voxels[j]
    {
      CellIndexInjective(size, voxels[i], voxels[j]);
    }
  }

  /** One visit of the voxel `p` (visit number `k`): either it is transparent and nothing changes, or `populate` decodes it. */
  lemma DecodeStep(s: seq<byte>, sprite: Sprite, p: Position, k: int)
    requires WellFormed(sprite) && InCube(sprite.size, p) && VisitNumber(sprite.size, p) == k
    requires DecodedUpTo(s, sprite, k)
    ensures !Opaque(sprite, p) ==> DecodedUpTo(s, sprite, k + 1)
    ensures Opaque(sprite, p) ==>
      var i := PixelStart(sprite, p);
      DecodedUpTo(PopulateBytes(s, CellIndex(sprite.size, p) * VOXEL_LOOKUP_LENGTH,
                                sprite.data[i] as int, sprite.data[i + 1] as int, sprite.data[i + 2] as int),
                  sprite, k + 1)
  {
    var n := sprite.size;
    var i := PixelStart(sprite, p);
    var s' := if Opaque(sprite, p) then
      PopulateBytes(s, CellIndex(n, p) * VOXEL_LOOKUP_LENGTH, sprite.data[i] as int, sprite.data[i + 1] as int, sprite.data[i + 2] as int)
    else s;
    if Opaque(sprite, p) {
      PopulateEffect(s, n, p, sprite.data[i] as int, sprite.data[i + 1] as int, sprite.data[i + 2] as int);
    }
    forall q, l: VoxelLookup | InCube(n, q)
      ensures CellField(s', n, q, l) == (if VisitNumber(n, q) < k + 1 then DecodedField(sprite, q, l) else 0)
    {
      VisitNumberInjective(n, q, p);
      if q != p {
        assert CellField(s', n, q, l) == CellField(s, n, q, l);
      } else {
        assert CellField(s, n, q, l) == 0;
      }
    }
  }

  /** Where the columns of the decoder start: `size` visits apart, `size²` visits per value of `x`. */
  lemma ColumnArithmetic(size: int, x: int, z: int)
    requires 0 <= x < size && 0 <= z < size
    ensures VisitNumber(size, Position(x, size - 1, 0)) == x * (size * size)
    ensures VisitNumber(size, Position(x, size - 1, z)) + size == VisitNumber(size, Position(x, size - 1, z + 1))
    ensures VisitNumber(size, Position(x, size - 1, size)) == (x + 1) * (size * size)
    ensures 0 <= VisitNumber(size, Position(x, size - 1, z))
    ensures VisitNumber(size, Position(x, size - 1, z)) + size <= size * size * size
  {
    VisitNumberInjective(size, Position(x, size - 1, z), Position(x, size - 1, z));
    assert size * size * x == x * (size * size);
    assert (x + 1) * (size * size) == x * (size * size) + size * size;
    assert size * (z + 1) == size * z + size;
    VisitArithmetic(size, Position(x, 0, z), size - 1);
    VisitNumberInjective(size, Position(x, 0, z), Position(x, 0, z));
  }

  /** Before the first visit the zeroed buffer of a new volume matches the progress predicate. */
  lemma DecodedNothing(s: seq<byte>, sprite: Sprite)
    requires WellFormed(sprite)
    requires s == seq(sprite.size * sprite.size * sprite.size * VOXEL_LOOKUP_LENGTH, _ => 0)
    ensures DecodedUpTo(s, sprite, 0)
  {
    forall p, l: VoxelLookup | InCube(sprite.size, p)
      ensures CellField(s, sprite.size, p, l) == 0 && VisitNumber(sprite.size, p) >= 0
    {
      CellIndexRoundTrip(sprite.size, p);
      VisitNumberInjective(sprite.size, p, p);
    }
  }

  /** Where the slices of the decoder start: `size²` visits per value of `x`, `size³` in all. */
  lemma SliceArithmetic(size: int, x: int)
    requires 0 <= x <= size
    ensures VisitNumber(size, Position(x, size - 1, 0)) == x * (size * size)
    ensures 0 <= x * (size * size) <= size * size * size
    ensures x == size ==> VisitNumber(size, Position(x, size - 1, 0)) == size * size * size
  {
    assert size * size * x == x * (size * size);
    MulMonotone(x, size, size * size);
    assert size * (size * size) == size * size * size;
  }

  /** After the last visit every voxel holds its decoded fields. */
  lemma DecodedAll(s: seq<byte>, sprite: Sprite)
    requires WellFormed(sprite)
    requires DecodedUpTo(s, sprite, sprite.size * sprite.size * sprite.size)
    ensures forall p, l: VoxelLookup {:trigger CellField(s, sprite.size, p, l)} :: InCube(sprite.size, p) ==>
      CellField(s, sprite.size, p, l) == DecodedField(sprite, p, l)
  {
    forall p | InCube(sprite.size, p)
      ensures VisitNumber(sprite.size, p) < sprite.size * sprite.size * sprite.size
    {
      VisitNumberInjective(sprite.size, p, p);
    }
  }

  /**
   * `spriteToVoxels(sprite)`: a fresh volume of the sprite's size whose every
   * cell holds its decoded pixel, and whose populated offsets are those
   * `DecodedOffsets` lists: one per opaque voxel, in visit order
   * (`DecodedOffsetsExact`).
   */
  method SpriteToVoxels(sprite: Sprite) returns (result: Voxels)
    requires WellFormed(sprite)
    ensures fresh(result) && fresh(result.data) && result.Valid() && result.size == sprite.size
    ensures forall p, l: VoxelLookup {:trigger CellField(result.data[..], sprite.size, p, l)} :: InCube(sprite.size, p) ==>
      CellField(result.data[..], sprite.size, p, l) == DecodedField(sprite, p, l)
    ensures result.populatedOffsets == DecodedOffsets(sprite, sprite.size * sprite.size * sprite.size)
  {
    var size := sprite.size;
    result := new Voxels(size);
    ghost var visited := 0;
    SliceArithmetic(size, 0);
    DecodedNothing(result.data[..], sprite);
    var x := 0;
    while x < size
      invariant 0 <= x <= size
      invariant visited == VisitNumber(size, Position(x, size - 1, 0)) && 0 <= visited <= size * size * size
      invariant fresh(result) && fresh(result.data) && result.Valid() && result.size == size
      invariant DecodedUpTo(result.data[..], sprite, visited)
      invariant result.populatedOffsets == DecodedOffsets(sprite, visited)
    {
      var z := 0;
      ColumnArithmetic(size, x, 0);
      while z < size
        invariant 0 <= z <= size
        invariant visited == VisitNumber(size, Position(x, size - 1, z)) && 0 <= visited <= size * size * size
        invariant fresh(result) && fresh(result.data) && result.Valid() && result.size == size
        invariant DecodedUpTo(result.data[..], sprite, visited)
        invariant result.populatedOffsets == DecodedOffsets(sprite, visited)
      {
        ColumnArithmetic(size, x, z);
        DecodeColumn(sprite, result, x, z, visited);
        visited := visited + size;
        z := z + 1;
      }
      ColumnArithmetic(size, x, 0);
      SliceArithmetic(size, x + 1);
      x := x + 1;
    }
    SliceArithmetic(size, size);
    DecodedAll(result.data[..], sprite);
  }

  /**
   * The innermost loop of `spriteToVoxels`: the column of image `y` values at
   * one `(x, z)`, whose first voxel has visit number `start`.
   */
  method DecodeColumn(sprite: Sprite, result: Voxels, x: int, z: int, ghost start: int)
    requires WellFormed(sprite) && result.Valid() && result.size == sprite.size
    requires 0 <= x < sprite.size && 0 <= z < sprite.size
    requires 0 <= start == VisitNumber(sprite.size, Position(x, sprite.size - 1, z))
    requires DecodedUpTo(result.data[..], sprite, start)
    requires start + sprite.size <= sprite.size * sprite.size * sprite.size
    requires result.populatedOffsets == DecodedOffsets(sprite, start)
    modifies result, result.data
    ensures result.Valid()
    ensures DecodedUpTo(result.data[..], sprite, start + sprite.size)
    ensures result.populatedOffsets == DecodedOffsets(sprite, start + sprite.size)
  {
    var size := sprite.size;
    VisitNumberInjective(size, Position(x, size - 1, z), Position(x, size - 1, z));
    var y := 0;
    while y < size
      invariant 0 <= y <= size
      invariant result.Valid() && result.size == size
      invariant 0 <= start + y <= sprite.size * sprite.size * sprite.size
      invariant DecodedUpTo(result.data[..], sprite, start + y)
      invariant result.populatedOffsets == DecodedOffsets(sprite, start + y)
    {
      VisitArithmetic(size, Position(x, size - (y + 1), z), y);
      DecodePixel(sprite, result, x, y, z, start + y);
      y := y + 1;
    }
  }

  /** The body of the innermost loop: the pixel at image row `y` populates voxel `(x, size - (y + 1), z)` when opaque. */
  method DecodePixel(sprite: Sprite, result: Voxels, x: int, y: int, z: int, ghost k: nat)
    requires WellFormed(sprite) && result.Valid() && result.size == sprite.size
    requires 0 <= x < sprite.size && 0 <= y < sprite.size && 0 <= z < sprite.size
    requires k == VisitNumber(sprite.size, Position(x, sprite.size - (y + 1), z)) && k < sprite.size * sprite.size * sprite.size
    requires DecodedUpTo(result.data[..], sprite, k)
    requires result.populatedOffsets == DecodedOffsets(sprite, k)
    modifies result, result.data
    ensures result.Valid()
    ensures DecodedUpTo(result.data[..], sprite, k + 1)
    ensures result.populatedOffsets == DecodedOffsets(sprite, k + 1)
  {
    var size := sprite.size;
    var p := Position(x, size - (y + 1), z);
    var pixelIndex := x + z * size + y * size * size;
    var imageDataIndex := pixelIndex * PARTS_PER_PIXEL;
    VisitArithmetic(size, p, y);
    VisitedAtVisitNumber(size, p);
    assert imageDataIndex == PixelStart(sprite, p);
    var r, g, b, a := sprite.data[imageDataIndex], sprite.data[imageDataIndex + 1],
                      sprite.data[imageDataIndex + 2], sprite.data[imageDataIndex + 3];
    assert a != 0 <==> Opaque(sprite, p);
    DecodeStep(result.data[..], sprite, p, k);
    assert DecodedVoxels(sprite, k + 1) == DecodedVoxels(sprite, k) + (if Opaque(sprite, p) then [p] else []);
    OffsetsOfAppend(size, DecodedVoxels(sprite, k), if Opaque(sprite, p) then [p] else []);
    if a != 0 {
      OffsetIsCellIndex(result, p);
      ghost var s := result.data[..];
      ghost var o := CellIndex(size, p) * VOXEL_LOOKUP_LENGTH;
      assert OffsetsOf(size, [p]) == [o];
      assert result.GetOffset(x, size - (y + 1), z) == o;
      assert result.IsValid(x, size - (y + 1), x);
      var ok := result.Populate(x, size - (y + 1), z, r as int, g as int, b as int);
      assert ok.Success?;
      assert result.data[..] == PopulateBytes(s, o, r as int, g as int, b as int);
      assert result.populatedOffsets == DecodedOffsets(sprite, k) + [o];
    }
  }
}
