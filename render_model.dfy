/**
 * The model loader of src/system/render/model.ts: `loadModel` decodes a
 * sprite into a `Voxels` volume and `optimizeModel` reduces it to the six
 * lists of face records the renderer draws. `optimizeModel` is the same
 * pipeline as `voxelsToFaces`, pushing into the model's own lists.
 */
module RenderModel {
  import opened Wrappers
  import opened JsNumbers
  import opened ColorCodec
  import opened VoxelVolume
  import opened SpriteDecoder
  import opened GreedyMesh
  import opened FaceMesh

  /** A loaded model: name, image path, edge length, the decoded volume and its six face lists. */
  class Model {
    const name: string
    const path: string
    const size: int
    const voxels: Voxels
    var topFaces: seq<seq<byte>>
    var bottomFaces: seq<seq<byte>>
    var leftFaces: seq<seq<byte>>
    var rightFaces: seq<seq<byte>>
    var backFaces: seq<seq<byte>>
    var frontFaces: seq<seq<byte>>

    /** The model literal of `loadModel`: every face list starts empty. */
    constructor (name: string, path: string, size: int, voxels: Voxels)
      ensures this.name == name && this.path == path && this.size == size && this.voxels == voxels
      ensures topFaces == [] && bottomFaces == [] && leftFaces == [] && rightFaces == []
      ensures backFaces == [] && frontFaces == []
    {
      this.name := name;
      this.path := path;
      this.size := size;
      this.voxels := voxels;
      topFaces, bottomFaces, leftFaces, rightFaces, backFaces, frontFaces := [], [], [], [], [], [];
    }
  }

  /** The image a model is loaded from. */
  function ModelPath(name: string): (path: string)
    ensures |path| == |name| + 17
    ensures path[..13] == "./src/models/" && path[|path| - 4..] == ".png"
    ensures path[13..|path| - 4] == name
  {
    "./src/models/" + name + ".png"
  }

  /**
   * `optimizeModel(model, size)`: mark the visible sides of every populated
   * voxel, then append to each face list, slice by slice, the records of the
   * greedy merge of that slice's mask.
   */
  method OptimizeModel(model: Model, size: int)
    returns (ghost top: seq<seq<Rect>>, ghost bottom: seq<seq<Rect>>, ghost left: seq<seq<Rect>>,
             ghost right: seq<seq<Rect>>, ghost back: seq<seq<Rect>>, ghost front: seq<seq<Rect>>)
    requires model.voxels.Valid() && size == model.voxels.size
    modifies model, model.voxels.data
    ensures model.voxels.data[..] == VisibilityPass(old(model.voxels.data[..]), size, model.voxels.populatedOffsets)
    ensures Merged(model.voxels.data[..], size, Top, top) && model.topFaces == old(model.topFaces) + Emit(Top, top)
    ensures Merged(model.voxels.data[..], size, Bottom, bottom) && model.bottomFaces == old(model.bottomFaces) + Emit(Bottom, bottom)
    ensures Merged(model.voxels.data[..], size, Left, left) && model.leftFaces == old(model.leftFaces) + Emit(Left, left)
    ensures Merged(model.voxels.data[..], size, Right, right) && model.rightFaces == old(model.rightFaces) + Emit(Right, right)
    ensures Merged(model.voxels.data[..], size, Back, back) && model.backFaces == old(model.backFaces) + Emit(Back, back)
    ensures Merged(model.voxels.data[..], size, Front, front) && model.frontFaces == old(model.frontFaces) + Emit(Front, front)
  {
    var voxels := model.voxels;
    ComputeVisibility(voxels);
    var topFaces, bottomFaces, leftFaces, rightFaces, frontFaces, backFaces;
    topFaces, bottomFaces, top, bottom := MeshAxis(voxels, Top, Bottom);
    leftFaces, rightFaces, left, right := MeshAxis(voxels, Left, Right);
    frontFaces, backFaces, front, back := MeshAxis(voxels, Front, Back);
    model.topFaces, model.bottomFaces := model.topFaces + topFaces, model.bottomFaces + bottomFaces;
    model.leftFaces, model.rightFaces := model.leftFaces + leftFaces, model.rightFaces + rightFaces;
    model.frontFaces, model.backFaces := model.frontFaces + frontFaces, model.backFaces + backFaces;
  }

  // ---------------------------------------------------------------------------
  // From pixels to masks
  // ---------------------------------------------------------------------------

  /**
   * A side of a voxel shows, as the sprite alone decides it: the voxel is solid
   * and its neighbour on that side is not.
   */
  function SpriteMaskCell(sprite: Sprite, d: Direction, slice: int, u: int, v: int): Option<int>
    requires WellFormed(sprite) && InCube(sprite.size, SlicePosition(d, slice, u, v))
  {
    var p := SlicePosition(d, slice, u, v);
    if Opaque(sprite, p) && !Solid(sprite, Neighbour(d, p)) then Some(ToHexTriplet(PixelColor(sprite, p))) else None
  }

  /** The mask of a slice as the sprite alone decides it. */
  function SpriteMaskGrid(sprite: Sprite, d: Direction, slice: int): (m: Grid)
    requires WellFormed(sprite) && 0 <= slice < sprite.size
    ensures IsGrid(m, sprite.size)
    ensures forall u, v :: 0 <= u < sprite.size && 0 <= v < sprite.size ==>
      m[u][v] == SpriteMaskCell(sprite, d, slice, u, v)
  {
    seq(sprite.size, u requires 0 <= u < sprite.size =>
      seq(sprite.size, v requires 0 <= v < sprite.size => SpriteMaskCell(sprite, d, slice, u, v)))
  }

  /** The buffer `spriteToVoxels` leaves: every field of every cell is the decoded field of its pixel. */
  ghost predicate DecodedBuffer(s: seq<byte>, sprite: Sprite)
    requires WellFormed(sprite)
  {
    && |s| == sprite.size * sprite.size * sprite.size * VOXEL_LOOKUP_LENGTH
    && forall p, l: VoxelLookup {:trigger CellField(s, sprite.size, p, l)} :: InCube(sprite.size, p) ==>
         CellField(s, sprite.size, p, l) == DecodedField(sprite, p, l)
  }

  /** The offsets `spriteToVoxels` records. */
  function AllDecodedOffsets(sprite: Sprite): seq<int>
    requires WellFormed(sprite)
  {
    DecodedOffsets(sprite, sprite.size * sprite.size * sprite.size)
  }

  /** In a decoded buffer a cell exists exactly when it is solid. */
  lemma DecodedExists(s: seq<byte>, sprite: Sprite, q: Position)
    requires WellFormed(sprite) && DecodedBuffer(s, sprite)
    ensures CellExists(s, sprite.size, q) <==> Solid(sprite, q)
  {
    if InCube(sprite.size, q) {
      CellExistsField(s, sprite.size, q);
      assert CellField(s, sprite.size, q, Exists) == DecodedField(sprite, q, Exists);
    }
  }

  /** A decoded, opaque cell holds its pixel's colour. */
  lemma DecodedColor(s: seq<byte>, sprite: Sprite, p: Position)
    requires WellFormed(sprite) && DecodedBuffer(s, sprite) && InCube(sprite.size, p) && Opaque(sprite, p)
    ensures CellColor(s, sprite.size, p) == PixelColor(sprite, p)
  {
    var n := sprite.size;
    CellColorFields(s, n, p);
    assert CellField(s, n, p, R) == DecodedField(sprite, p, R);
    assert CellField(s, n, p, G) == DecodedField(sprite, p, G);
    assert CellField(s, n, p, B) == DecodedField(sprite, p, B);
  }

  /** The decoder records a cell's offset exactly when its pixel is opaque, and every offset starts a cell. */
  lemma DecodedOffsetIn(sprite: Sprite, p: Position)
    requires WellFormed(sprite) && InCube(sprite.size, p)
    ensures CellIndex(sprite.size, p) * VOXEL_LOOKUP_LENGTH in AllDecodedOffsets(sprite) <==> Opaque(sprite, p)
    ensures forall o <- AllDecodedOffsets(sprite) :: o % VOXEL_LOOKUP_LENGTH == 0
  {
    DecodedOffsetsExact(sprite);
    var offsets := AllDecodedOffsets(sprite);
    var voxels := DecodedVoxels(sprite, sprite.size * sprite.size * sprite.size);
    forall i | 0 <= i < |offsets|
      ensures offsets[i] % VOXEL_LOOKUP_LENGTH == 0
    {
      MultipleOfLookupLength(CellIndex(sprite.size, voxels[i]));
    }
  }

  /**
   * After the visibility pass over a decoded sprite, a mask cell holds the
   * pixel's packed colour exactly when the pixel is opaque and its neighbour
   * on that side is transparent or outside the cube.
   */
  lemma DecodedMaskCell(s: seq<byte>, sprite: Sprite, d: Direction, slice: int, u: int, v: int)
    requires WellFormed(sprite) && DecodedBuffer(s, sprite)
    requires InCube(sprite.size, SlicePosition(d, slice, u, v))
    ensures MaskCell(VisibilityPass(s, sprite.size, AllDecodedOffsets(sprite)), sprite.size, d, slice, u, v) ==
      SpriteMaskCell(sprite, d, slice, u, v)
  {
    var n := sprite.size;
    var p := SlicePosition(d, slice, u, v);
    var offsets := AllDecodedOffsets(sprite);
    DecodedOffsetIn(sprite, p);
    assert CellField(s, n, p, Flag(d)) == DecodedField(sprite, p, Flag(d));
    MaskCellAfterPass(s, n, offsets, d, p);
    assert SliceCoordinates(d, p) == (slice, u, v);
    DecodedExists(s, sprite, Neighbour(d, p));
    if Opaque(sprite, p) {
      DecodedColor(s, sprite, p);
    }
  }

  /** Every slice mask of a decoded, marked sprite is the mask the sprite alone decides. */
  lemma DecodedMaskGrid(s: seq<byte>, sprite: Sprite, d: Direction, slice: int)
    requires WellFormed(sprite) && DecodedBuffer(s, sprite) && 0 <= slice < sprite.size
    ensures MaskGrid(VisibilityPass(s, sprite.size, AllDecodedOffsets(sprite)), sprite.size, d, slice) ==
      SpriteMaskGrid(sprite, d, slice)
  {
    var t := VisibilityPass(s, sprite.size, AllDecodedOffsets(sprite));
    var m1, m2 := MaskGrid(t, sprite.size, d, slice), SpriteMaskGrid(sprite, d, slice);
    forall u | 0 <= u < sprite.size
      ensures m1[u] == m2[u]
    {
      forall v | 0 <= v < sprite.size
        ensures m1[u][v] == m2[u][v]
      {
        DecodedMaskCell(s, sprite, d, slice, u, v);
      }
    }
  }

  /** `merges[k]` is the greedy merge of the sprite's mask of slice `k`, for every slice. */
  ghost predicate SpriteMerged(sprite: Sprite, d: Direction, merges: seq<seq<Rect>>)
    requires WellFormed(sprite)
  {
    && |merges| == sprite.size
    && forall k :: 0 <= k < |merges| ==> GreedyCover(SpriteMaskGrid(sprite, d, k), sprite.size, merges[k])
  }

  /** The merges of the marked, decoded buffer are the merges of the sprite's own masks. */
  lemma DecodedMerged(s: seq<byte>, sprite: Sprite, d: Direction, merges: seq<seq<Rect>>)
    requires WellFormed(sprite) && DecodedBuffer(s, sprite)
    requires Merged(VisibilityPass(s, sprite.size, AllDecodedOffsets(sprite)), sprite.size, d, merges)
    ensures SpriteMerged(sprite, d, merges)
  {
    forall k | 0 <= k < |merges|
      ensures GreedyCover(SpriteMaskGrid(sprite, d, k), sprite.size, merges[k])
    {
      DecodedMaskGrid(s, sprite, d, k);
    }
  }

  /**
   * The faces of a sprite are determined by the sprite alone: any two greedy
   * merges of its masks produce the same face list.
   */
  lemma SpriteFacesUnique(sprite: Sprite, d: Direction, merges1: seq<seq<Rect>>, merges2: seq<seq<Rect>>)
    requires WellFormed(sprite) && SpriteMerged(sprite, d, merges1) && SpriteMerged(sprite, d, merges2)
    ensures merges1 == merges2 && Emit(d, merges1) == Emit(d, merges2)
  {
    forall k | 0 <= k < sprite.size
      ensures merges1[k] == merges2[k]
    {
      GreedyCoverUnique(SpriteMaskGrid(sprite, d, k), sprite.size, merges1[k], merges2[k]);
    }
  }

  /**
   * The part of `loadModel` after the image is read: decode the pixels, build
   * the model with empty face lists and optimise it. Each face list holds the
   * records of the greedy merges of the sprite's own masks.
   */
  method LoadModel(name: string, sprite: Sprite)
    returns (model: Model, ghost top: seq<seq<Rect>>, ghost bottom: seq<seq<Rect>>, ghost left: seq<seq<Rect>>,
             ghost right: seq<seq<Rect>>, ghost back: seq<seq<Rect>>, ghost front: seq<seq<Rect>>)
    requires WellFormed(sprite)
    ensures fresh(model) && model.name == name && model.path == ModelPath(name) && model.size == sprite.size
    ensures model.voxels.Valid() && model.voxels.size == sprite.size
    ensures model.voxels.populatedOffsets == AllDecodedOffsets(sprite)
    ensures SpriteMerged(sprite, Top, top) && model.topFaces == Emit(Top, top)
    ensures SpriteMerged(sprite, Bottom, bottom) && model.bottomFaces == Emit(Bottom, bottom)
    ensures SpriteMerged(sprite, Left, left) && model.leftFaces == Emit(Left, left)
    ensures SpriteMerged(sprite, Right, right) && model.rightFaces == Emit(Right, right)
    ensures SpriteMerged(sprite, Back, back) && model.backFaces == Emit(Back, back)
    ensures SpriteMerged(sprite, Front, front) && model.frontFaces == Emit(Front, front)
  {
    var voxels := SpriteToVoxels(sprite);
    ghost var s := voxels.data[..];
    assert DecodedBuffer(s, sprite);
    model := new Model(name, ModelPath(name), sprite.size, voxels);
    top, bottom, left, right, back, front := OptimizeModel(model, sprite.size);
    DecodedMerged(s, sprite, Top, top);
    DecodedMerged(s, sprite, Bottom, bottom);
    DecodedMerged(s, sprite, Left, left);
    DecodedMerged(s, sprite, Right, right);
    DecodedMerged(s, sprite, Back, back);
    DecodedMerged(s, sprite, Front, front);
  }
}
