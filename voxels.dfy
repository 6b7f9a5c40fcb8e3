/**
 * The `Voxels` volume of src/voxels.ts: a dense `size³` grid stored as a flat
 * byte buffer with ten fields per cell (existence, colour, six visibility
 * flags), laid out `x + size*y + size²*z`, plus the append-only list
 * `populatedOffsets` of the cells written by `populate`.
 *
 * The source checks every position with `isValid(x, y, x)`, so `z` is never
 * range-checked; the model keeps that call as written and proves what follows
 * from it: reads are still correct for every `z`, while `populate` with a bad
 * `z` does not throw, writes nothing and appends a stray offset.
 */
module VoxelVolume {
  import opened Wrappers
  import opened JsNumbers
  import opened ColorCodec

  /** `VoxelLookup`: the field index inside one ten-byte cell. */
  datatype VoxelLookup =
    | Exists | R | G | B
    | IsLeftVisible | IsRightVisible | IsTopVisible | IsBottomVisible | IsFrontVisible | IsBackVisible
  {
    function Index(): (i: nat)
      ensures i < VOXEL_LOOKUP_LENGTH
    {
      match this
      case Exists => 0
      case R => 1
      case G => 2
      case B => 3
      case IsLeftVisible => 4
      case IsRightVisible => 5
      case IsTopVisible => 6
      case IsBottomVisible => 7
      case IsFrontVisible => 8
      case IsBackVisible => 9
    }
  }

  const VOXEL_LOOKUP_LENGTH: int := 10

  datatype Position = Position(x: int, y: int, z: int)

  /** All three coordinates lie in `[0, size)`. */
  predicate InCube(size: int, p: Position)
  {
    0 <= p.x < size && 0 <= p.y < size && 0 <= p.z < size
  }

  /** The cell number `x + size*y + size²*z`. */
  function CellIndex(size: int, p: Position): int
  {
    p.x + size * p.y + size * size * p.z
  }

  /** The position of a cell number, as `getPosition` computes it for non-negative cell numbers. */
  function CellPosition(size: int, c: nat): Position
    requires size > 0
  {
    Position(c % size, (c / size) % size, ((c / size) / size) % size)
  }

  // ---------------------------------------------------------------------------
  // Arithmetic facts about the layout
  // ---------------------------------------------------------------------------

  lemma MultipleOfLookupLength(c: int)
    ensures (c * VOXEL_LOOKUP_LENGTH) % VOXEL_LOOKUP_LENGTH == 0
  {
    DivModUnique(c * VOXEL_LOOKUP_LENGTH, VOXEL_LOOKUP_LENGTH, c, 0);
  }

  lemma MulMonotone(a: int, b: int, n: int)
    requires 0 <= a <= b && n >= 0
    ensures a * n <= b * n
  {
  }

  /** `x + size*y` of an in-range `(x, y)` lies in `[0, size²)`. */
  lemma PlaneIndexBounds(size: int, x: int, y: int)
    requires 0 <= x < size && 0 <= y < size
    ensures 0 <= x + size * y <= size * size - 1
  {
    MulMonotone(y, size - 1, size);
    assert size * y == y * size;
    assert (size - 1) * size == size * size - size;
  }

  /** Cell numbers of in-cube positions lie in `[0, size³)`. */
  lemma CellIndexBounds(size: int, p: Position)
    requires InCube(size, p)
    ensures 0 <= CellIndex(size, p) < size * size * size
  {
    var s2 := size * size;
    PlaneIndexBounds(size, p.x, p.y);
    MulMonotone(p.z, size - 1, s2);
    assert s2 * p.z == p.z * s2;
    assert (size - 1) * s2 == size * size * size - s2;
  }

  /** Cell numbers of in-cube positions are in `[0, size³)` and decode back to the position. */
  lemma CellIndexRoundTrip(size: int, p: Position)
    requires InCube(size, p)
    ensures 0 <= CellIndex(size, p) < size * size * size
    ensures CellPosition(size, CellIndex(size, p)) == p
  {
    CellIndexBounds(size, p);
    var c := CellIndex(size, p);
    var t := p.y + size * p.z;
    assert c == t * size + p.x by {
      assert t * size == p.y * size + size * p.z * size;
      assert size * p.z * size == size * size * p.z;
    }
    DivModUnique(c, size, t, p.x);
    assert t == p.z * size + p.y;
    DivModUnique(t, size, p.z, p.y);
    DivModUnique(p.z, size, 0, p.z);
  }

  /** Every cell number in `[0, size³)` is the cell number of an in-cube position. */
  lemma CellPositionRoundTrip(size: int, c: int)
    requires size > 0 && 0 <= c < size * size * size
    ensures InCube(size, CellPosition(size, c))
    ensures CellIndex(size, CellPosition(size, c)) == c
  {
    var t := c / size;
    var u := t / size;
    var x, y := c % size, t % size;
    QuotientBelow(c, size, size * size);
    QuotientBelow(t, size, size);
    DivModUnique(u, size, 0, u);
    assert CellPosition(size, c) == Position(x, y, u);
    Horner(size, x, y, u);
  }

  /** The cell number written in Horner form, `(z*size + y)*size + x`. */
  lemma Horner(size: int, x: int, y: int, z: int)
    ensures (z * size + y) * size + x == x + size * y + size * size * z
  {
    assert (z * size + y) * size == z * size * size + y * size;
  }

  /** `a < n*m` gives `a / n < m`. */
  lemma QuotientBelow(a: int, n: int, m: int)
    requires n > 0 && 0 <= a < m * n
    ensures 0 <= a / n < m
  {
    var q := a / n;
    assert a == q * n + a % n;
    if q >= m {
      MulMonotone(m, q, n);
      assert false;
    }
  }

  /** Two distinct in-cube positions have distinct cell numbers. */
  lemma CellIndexInjective(size: int, p: Position, q: Position)
    requires InCube(size, p) && InCube(size, q) && CellIndex(size, p) == CellIndex(size, q)
    ensures p == q
  {
    CellIndexRoundTrip(size, p);
    CellIndexRoundTrip(size, q);
  }

  /**
   * With `x` and `y` in range, a `z` outside `[0, size)` always addresses a cell
   * number outside `[0, size³)`: the missing `z` check never lets a read or a
   * write reach another cell.
   */
  lemma BadZLeavesBuffer(size: int, p: Position)
    requires 0 <= p.x < size && 0 <= p.y < size && !(0 <= p.z < size)
    ensures CellIndex(size, p) < 0 || CellIndex(size, p) >= size * size * size
  {
    var s2 := size * size;
    PlaneIndexBounds(size, p.x, p.y);
    assert s2 * p.z == p.z * s2;
    if p.z < 0 {
      MulMonotone(1, -p.z, s2);
      assert p.z * s2 == -((-p.z) * s2);
    } else {
      MulMonotone(size, p.z, s2);
      assert size * s2 == size * size * size;
    }
  }

  // ---------------------------------------------------------------------------
  // The byte buffer
  // ---------------------------------------------------------------------------

  /** `data[i]` of a `Uint8Array`: `undefined` outside the buffer. */
  function ReadByte(s: seq<byte>, i: int): Option<byte>
  {
    if 0 <= i < |s| then Some(s[i]) else None
  }

  /** `data[i] = v` on a `Uint8Array`: the value is reduced to a byte, and a store outside the buffer is ignored. */
  function StoreByte(s: seq<byte>, i: int, v: int): (s': seq<byte>)
    ensures |s'| == |s|
    ensures forall j :: 0 <= j < |s| && j != i ==> s'[j] == s[j]
    ensures 0 <= i < |s| ==> s'[i] == ToUint8(v)
  {
    if 0 <= i < |s| then s[i := ToUint8(v)] else s
  }

  /** JavaScript truthiness of a number read from the buffer. */
  predicate Truthy(b: Option<byte>)
  {
    b.Some? && b.value != 0
  }

  /** A cell exists: it is in the cube and its `exists` byte is non-zero. */
  predicate CellExists(s: seq<byte>, size: int, p: Position)
  {
    InCube(size, p) && Truthy(ReadByte(s, CellIndex(size, p) * VOXEL_LOOKUP_LENGTH))
  }

  /** The byte colour stored at an in-buffer cell. */
  function CellColor(s: seq<byte>, size: int, p: Position): (c: Color)
    requires InCube(size, p) && |s| == size * size * size * VOXEL_LOOKUP_LENGTH
    ensures IsByteColor(c)
  {
    CellIndexRoundTrip(size, p);
    var o := CellIndex(size, p) * VOXEL_LOOKUP_LENGTH;
    Color(s[o + 1] as int, s[o + 2] as int, s[o + 3] as int)
  }

  /** The stored colour is the cell's `r`, `g` and `b` fields. */
  lemma CellColorFields(s: seq<byte>, size: int, p: Position)
    requires InCube(size, p) && |s| == size * size * size * VOXEL_LOOKUP_LENGTH
    ensures CellColor(s, size, p) == Color(CellField(s, size, p, R) as int, CellField(s, size, p, G) as int, CellField(s, size, p, B) as int)
  {
  }

  /** The byte of field `l` of an in-cube cell. */
  function CellField(s: seq<byte>, size: int, p: Position, l: VoxelLookup): byte
    requires InCube(size, p) && |s| == size * size * size * VOXEL_LOOKUP_LENGTH
  {
    CellIndexRoundTrip(size, p);
    s[CellIndex(size, p) * VOXEL_LOOKUP_LENGTH + l.Index()]
  }

  class Voxels {
    const size: int
    const length: int
    const sizeSquared: int
    const data: array<byte>
    var populatedOffsets: seq<int>

    ghost predicate Valid()
      reads this
    {
      && size >= 0
      && length == size * size * size
      && sizeSquared == size * size
      && data.Length == length * VOXEL_LOOKUP_LENGTH
      && (forall o <- populatedOffsets :: o % VOXEL_LOOKUP_LENGTH == 0)
      && (|populatedOffsets| > 0 ==> size > 0)
    }

    /** `new Voxels(size)`: `size³` zeroed cells and no populated offsets. */
    constructor (size: int)
      requires size >= 0
      ensures Valid()
      ensures this.size == size && length == size * size * size
      ensures data[..] == seq(size * size * size * VOXEL_LOOKUP_LENGTH, _ => 0)
      ensures populatedOffsets == []
      ensures fresh(data)
    {
      this.size := size;
      length := size * size * size;
      sizeSquared := size * size;
      data := new byte[size * size * size * VOXEL_LOOKUP_LENGTH](_ => 0);
      populatedOffsets := [];
    }

    /** `isValid(x, y, z)`: all three coordinates in `[0, size)`. */
    function IsValid(x: int, y: int, z: int): (ok: bool)
      ensures ok <==> InCube(size, Position(x, y, z))
    {
      x >= 0 && x < size && y >= 0 && y < size && z >= 0 && z < size
    }

    /** `getOffset(x, y, z)`: the first byte of the cell. */
    function GetOffset(x: int, y: int, z: int): (offset: int)
      ensures offset % VOXEL_LOOKUP_LENGTH == 0
    {
      MultipleOfLookupLength(x + size * y + sizeSquared * z);
      (x + size * y + sizeSquared * z) * VOXEL_LOOKUP_LENGTH
    }

    /**
     * `getPosition(offset)` on an offset that is a multiple of ten. The two
     * divisions of the source are exact (their dividends are multiples of the
     * divisor), so they are the truncated quotients written here.
     */
    function GetPosition(offset: int): (p: Position)
      requires size > 0 && offset % VOXEL_LOOKUP_LENGTH == 0
      ensures offset >= 0 ==> InCube(size, p)
    {
      var position := offset / VOXEL_LOOKUP_LENGTH;
      var x := JsRem(position, size);
      var q := JsTrunc(position, size);   // (position - x) / size
      var y := JsRem(q, size);
      var z := JsRem(JsTrunc(q, size), size);   // (q*size - y*size) / size²
      Position(x, y, z)
    }

    /** `getByPos(x, y, z, lookup)`: the field, or `undefined` when `isValid(x, y, x)` fails. */
    function GetByPos(x: int, y: int, z: int, lookup: VoxelLookup): (r: Option<byte>)
      reads this, data
      ensures r.Some? ==> InCube(size, Position(x, y, x))
    {
      if IsValid(x, y, x) then ReadByte(data[..], GetOffset(x, y, z) + lookup.Index()) else None
    }

    /** `existsByPos(x, y, z)`: `undefined` when `isValid(x, y, x)` fails, else `!!data[offset]`. */
    function ExistsByPos(x: int, y: int, z: int): (r: Option<bool>)
      reads this, data
      ensures r.Some? <==> InCube(size, Position(x, y, x))
    {
      if IsValid(x, y, x) then Some(Truthy(ReadByte(data[..], GetOffset(x, y, z)))) else None
    }

    /** The truthiness of `existsByPos`, which is how every caller uses it. */
    predicate ExistsAt(p: Position)
      reads this, data
    {
      ExistsByPos(p.x, p.y, p.z) == Some(true)
    }

    /** `populate(x, y, z, r, g, b)`: throws "Bad position" when `isValid(x, y, x)` fails. */
    method Populate(x: int, y: int, z: int, r: int, g: int, b: int) returns (result: Result<()>)
      requires Valid()
      modifies this, data
      ensures Valid()
      ensures result.Success? <==> IsValid(x, y, x)
      ensures result.Failure? ==> result.error == "Bad position"
      ensures result.Failure? ==> populatedOffsets == old(populatedOffsets) && data[..] == old(data[..])
      ensures result.Success? ==> populatedOffsets == old(populatedOffsets) + [GetOffset(x, y, z)]
      ensures result.Success? ==> data[..] == PopulateBytes(old(data[..]), GetOffset(x, y, z), r, g, b)
    {
      if !IsValid(x, y, x) {
        result := Failure("Bad position");
        return;
      }
      var offset := GetOffset(x, y, z);
      MultipleOfLookupLength(x + size * y + sizeSquared * z);
      populatedOffsets := populatedOffsets + [offset];
      SetByOffset(offset, VoxelLookup.Exists, 1);
      SetByOffset(offset, VoxelLookup.R, r);
      SetByOffset(offset, VoxelLookup.G, g);
      SetByOffset(offset, VoxelLookup.B, b);
      result := Success(());
    }

    /** `setByOffset(offset, lookup, value)`: one byte store, nothing else changes. */
    method SetByOffset(offset: int, lookup: VoxelLookup, value: int)
      modifies data
      ensures data[..] == StoreByte(old(data[..]), offset + lookup.Index(), value)
    {
      var i := offset + lookup.Index();
      if 0 <= i < data.Length {
        data[i] := ToUint8(value);
      }
    }

    /** `_setByPos(x, y, z, lookup, value)`: throws "Bad position" when `isValid(x, y, x)` fails. */
    method SetByPos(x: int, y: int, z: int, lookup: VoxelLookup, value: int) returns (result: Result<()>)
      modifies data
      ensures result.Success? <==> IsValid(x, y, x)
      ensures result.Failure? ==> result.error == "Bad position" && data[..] == old(data[..])
      ensures result.Success? ==> data[..] == StoreByte(old(data[..]), GetOffset(x, y, z) + lookup.Index(), value)
    {
      if !IsValid(x, y, x) {
        return Failure("Bad position");
      }
      SetByOffset(GetOffset(x, y, z), lookup, value);
      result := Success(());
    }
  }

  /** The four stores of `populate`: `exists = 1`, then `r`, `g`, `b`. */
  function PopulateBytes(s: seq<byte>, offset: int, r: int, g: int, b: int): seq<byte>
  {
    StoreByte(StoreByte(StoreByte(StoreByte(s, offset, 1), offset + 1, r), offset + 2, g), offset + 3, b)
  }

  // ---------------------------------------------------------------------------
  // What the accessors return
  // ---------------------------------------------------------------------------

  /** The offset of a position is ten times its cell number. */
  lemma OffsetIsCellIndex(v: Voxels, p: Position)
    requires v.Valid()
    ensures v.GetOffset(p.x, p.y, p.z) == CellIndex(v.size, p) * VOXEL_LOOKUP_LENGTH
  {
  }

  /** `getPosition(getOffset(x, y, z)) == {x, y, z}` for every in-cube position. */
  lemma GetPositionOfOffset(v: Voxels, p: Position)
    requires v.Valid() && InCube(v.size, p)
    ensures v.GetPosition(v.GetOffset(p.x, p.y, p.z)) == p
  {
    CellIndexRoundTrip(v.size, p);
    var c := CellIndex(v.size, p);
    OffsetIsCellIndex(v, p);
    DivModUnique(c * VOXEL_LOOKUP_LENGTH, VOXEL_LOOKUP_LENGTH, c, 0);
    GetPositionIsCellPosition(v, c * VOXEL_LOOKUP_LENGTH);
  }

  /** An in-buffer offset that is a multiple of ten is the offset of the position `getPosition` gives. */
  lemma GetPositionInBuffer(v: Voxels, offset: int)
    requires v.Valid() && v.size > 0 && offset % VOXEL_LOOKUP_LENGTH == 0 && 0 <= offset < v.data.Length
    ensures InCube(v.size, v.GetPosition(offset))
    ensures CellIndex(v.size, v.GetPosition(offset)) * VOXEL_LOOKUP_LENGTH == offset
  {
    GetPositionIsCellPosition(v, offset);
    BufferOffsetRoundTrip(v.size, v.length, offset);
  }

  /** On a non-negative offset `getPosition` is the position of the offset's cell number. */
  lemma GetPositionIsCellPosition(v: Voxels, offset: int)
    requires v.size > 0 && offset % VOXEL_LOOKUP_LENGTH == 0 && 0 <= offset
    ensures v.GetPosition(offset) == CellPosition(v.size, offset / VOXEL_LOOKUP_LENGTH)
  {
    var c := offset / VOXEL_LOOKUP_LENGTH;
    var q := c / v.size;
    assert c >= 0 && q >= 0;
    assert JsRem(c, v.size) == c % v.size && JsTrunc(c, v.size) == q;
    assert JsRem(q, v.size) == q % v.size && JsTrunc(q, v.size) == q / v.size;
  }

  /** A multiple of ten below `10 * size³` is ten times the cell number of an in-cube position. */
  lemma BufferOffsetRoundTrip(size: int, length: int, offset: int)
    requires size > 0 && length == size * size * size
    requires offset % VOXEL_LOOKUP_LENGTH == 0 && 0 <= offset < length * VOXEL_LOOKUP_LENGTH
    ensures InCube(size, CellPosition(size, offset / VOXEL_LOOKUP_LENGTH))
    ensures CellIndex(size, CellPosition(size, offset / VOXEL_LOOKUP_LENGTH)) * VOXEL_LOOKUP_LENGTH == offset
  {
    var c := offset / VOXEL_LOOKUP_LENGTH;
    QuotientBelow(offset, VOXEL_LOOKUP_LENGTH, length);
    CellPositionRoundTrip(size, c);
  }

  /**
   * `existsByPos` is truthy exactly for in-cube cells whose `exists` byte is set,
   * for every `z`: an unchecked `z` only ever reads outside the buffer.
   */
  lemma ExistsAtIff(v: Voxels, p: Position)
    requires v.Valid()
    ensures v.ExistsAt(p) <==> CellExists(v.data[..], v.size, p)
  {
    if 0 <= p.x < v.size && 0 <= p.y < v.size && !(0 <= p.z < v.size) {
      BadZLeavesBuffer(v.size, p);
    }
  }

  /** `getByPos` returns the stored field in the cube and `undefined` everywhere else, for every `z`. */
  lemma GetByPosIff(v: Voxels, p: Position, l: VoxelLookup)
    requires v.Valid()
    ensures InCube(v.size, p) ==> v.GetByPos(p.x, p.y, p.z, l) == Some(CellField(v.data[..], v.size, p, l))
    ensures !InCube(v.size, p) ==> v.GetByPos(p.x, p.y, p.z, l) == None
  {
    if InCube(v.size, p) {
      CellIndexRoundTrip(v.size, p);
    } else if 0 <= p.x < v.size && 0 <= p.y < v.size {
      BadZLeavesBuffer(v.size, p);
    }
  }

  /** Which cells a byte index belongs to: stores at other cells leave a cell's fields alone. */
  lemma FieldIndexDistinct(size: int, p: Position, q: Position, l: nat, m: nat)
    requires InCube(size, p) && InCube(size, q) && p != q && l < VOXEL_LOOKUP_LENGTH && m < VOXEL_LOOKUP_LENGTH
    ensures CellIndex(size, p) * VOXEL_LOOKUP_LENGTH + l != CellIndex(size, q) * VOXEL_LOOKUP_LENGTH + m
  {
    if CellIndex(size, p) == CellIndex(size, q) {
      CellIndexInjective(size, p, q);
    }
  }

  /**
   * `populate` on an in-cube position: the cell now exists with the stored
   * colour, its visibility flags are untouched, and every other cell keeps all
   * of its fields.
   */
  lemma PopulateEffect(s: seq<byte>, size: int, p: Position, r: int, g: int, b: int)
    requires InCube(size, p) && |s| == size * size * size * VOXEL_LOOKUP_LENGTH
    ensures var s' := PopulateBytes(s, CellIndex(size, p) * VOXEL_LOOKUP_LENGTH, r, g, b);
      && |s'| == |s|
      && CellExists(s', size, p)
      && CellField(s', size, p, Exists) == 1
      && CellField(s', size, p, R) == ToUint8(r)
      && CellField(s', size, p, G) == ToUint8(g)
      && CellField(s', size, p, B) == ToUint8(b)
      && CellColor(s', size, p) == StoreBytes(Color(r, g, b))
      && (forall l: VoxelLookup :: l.Index() >= 4 ==> CellField(s', size, p, l) == CellField(s, size, p, l))
      && (forall q, l: VoxelLookup :: InCube(size, q) && q != p ==> CellField(s', size, q, l) == CellField(s, size, q, l))
  {
    CellIndexRoundTrip(size, p);
    var s' := PopulateBytes(s, CellIndex(size, p) * VOXEL_LOOKUP_LENGTH, r, g, b);
    forall q, l: VoxelLookup | InCube(size, q) && q != p
      ensures CellField(s', size, q, l) == CellField(s, size, q, l)
    {
      CellIndexRoundTrip(size, q);
      FieldIndexDistinct(size, q, p, l.Index(), 0);
      FieldIndexDistinct(size, q, p, l.Index(), 1);
      FieldIndexDistinct(size, q, p, l.Index(), 2);
      FieldIndexDistinct(size, q, p, l.Index(), 3);
    }
  }

  /**
   * `populate` on a position with `x` and `y` in range but `z` outside the cube:
   * `isValid(x, y, x)` accepts it, and every store falls outside the buffer, so
   * the bytes are unchanged (only the stray offset is appended).
   */
  lemma PopulateBadZIsNoOp(s: seq<byte>, size: int, p: Position, r: int, g: int, b: int)
    requires 0 <= p.x < size && 0 <= p.y < size && !(0 <= p.z < size)
    requires |s| == size * size * size * VOXEL_LOOKUP_LENGTH
    ensures PopulateBytes(s, CellIndex(size, p) * VOXEL_LOOKUP_LENGTH, r, g, b) == s
  {
    BadZLeavesBuffer(size, p);
  }

}
