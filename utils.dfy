/**
 * The geometry and mask helpers of src/utils.ts: Manhattan distance and the
 * nested arrays, initially all `undefined`, used as scratch masks.
 */
module Utils {
  import opened Wrappers

  datatype Vector3 = Vector3(x: int, y: int, z: int)

  function Abs(v: int): (r: int)
    ensures r >= 0 && (r == v || r == -v)
  {
    if v < 0 then -v else v
  }

  /** Sum of the absolute coordinate differences. */
  function DistanceManhattan3(from: Vector3, to: Vector3): (d: int)
    ensures Abs(to.x - from.x) <= d && Abs(to.y - from.y) <= d && Abs(to.z - from.z) <= d
  {
    Abs(to.x - from.x) + Abs(to.y - from.y) + Abs(to.z - from.z)
  }

  /** The Manhattan distance is a metric: non-negative, symmetric, zero exactly on equal points. */
  lemma DistanceManhattan3IsMetric(p: Vector3, q: Vector3)
    ensures DistanceManhattan3(p, q) >= 0
    ensures DistanceManhattan3(p, q) == DistanceManhattan3(q, p)
    ensures DistanceManhattan3(p, q) == 0 <==> p == q
  {
  }

  /** The triangle inequality of the Manhattan distance. */
  lemma DistanceManhattan3Triangle(p: Vector3, q: Vector3, s: Vector3)
    ensures DistanceManhattan3(p, s) <= DistanceManhattan3(p, q) + DistanceManhattan3(q, s)
  {
  }

  /** A two-dimensional mask: `mask[u][v]` is a packed colour or `undefined`. */
  type Mask2d = array2<Option<int>>

  /**
   * `createMask2d(size)`: `size` rows of `size` cells, every cell `undefined`
   * (a negative size gives no rows, as the `for` loops run zero times).
   */
  method CreateMask2d(size: int) returns (mask: Mask2d)
    ensures fresh(mask)
    ensures mask.Length0 == mask.Length1 == (if size < 0 then 0 else size)
    ensures forall u, v :: 0 <= u < mask.Length0 && 0 <= v < mask.Length1 ==> mask[u, v] == None
  {
    var n := if size < 0 then 0 else size;
    mask := new Option<int>[n, n];
    var x := 0;
    while x < n
      invariant 0 <= x <= n
      invariant forall u, v :: 0 <= u < x && 0 <= v < n ==> mask[u, v] == None
    {
      var y := 0;
      while y < n
        invariant 0 <= y <= n
        invariant forall u, v :: 0 <= u < x && 0 <= v < n ==> mask[u, v] == None
        invariant forall v :: 0 <= v < y ==> mask[x, v] == None
      {
        mask[x, y] := None;
        y := y + 1;
      }
      x := x + 1;
    }
  }

  

  function NonNegative(n: int): nat
  {
    if n < 0 then 0 else n
  }

  /** `createMask3d(xSize, ySize, zSize)`: an `xSize × ySize × zSize` mask, every cell `undefined`. */
  method CreateMask3d<V>(xSize: int, ySize: int, zSize: int) returns (mask: array3<Option<V>>)
    ensures fresh(mask)
    ensures mask.Length0 == NonNegative(xSize)
    ensures mask.Length1 == NonNegative(ySize)
    ensures mask.Length2 == NonNegative(zSize)
    ensures forall i, j, k :: 0 <= i < mask.Length0 && 0 <= j < mask.Length1 && 0 <= k < mask.Length2 ==>
              mask[i, j, k] == None
  {
    var a, b, c := NonNegative(xSize), NonNegative(ySize), NonNegative(zSize);
    mask := new Option<V>[a, b, c];
    var x := 0;
    while x < a
      invariant 0 <= x <= a
      invariant forall i, j, k :: 0 <= i < x && 0 <= j < b && 0 <= k < c ==> mask[i, j, k] == None
    {
      var y := 0;
      while y < b
        invariant 0 <= y <= b
        invariant forall i, j, k :: 0 <= i < x && 0 <= j < b && 0 <= k < c ==> mask[i, j, k] == None
        invariant forall j, k :: 0 <= j < y && 0 <= k < c ==> mask[x, j, k] == None
      {
        var z := 0;
        while z < c
          invariant 0 <= z <= c
          invariant forall i, j, k :: 0 <= i < x && 0 <= j < b && 0 <= k < c ==> mask[i, j, k] == None
          invariant forall j, k :: 0 <= j < y && 0 <= k < c ==> mask[x, j, k] == None
          invariant forall k :: 0 <= k < z ==> mask[x, y, k] == None
        {
          mask[x, y, z] := None;
          z := z + 1;
        }
        y := y + 1;
      }
      x := x + 1;
    }
  }

  /**
   * `mask3dGet(mask, x, y, z)`: `undefined` when the row `mask[x]` or the column
   * `mask[x][y]` is missing, otherwise `mask[x][y][z]`, which is itself
   * `undefined` past the end of the column.
   */
  function Mask3dGet<V>(mask: array3<Option<V>>, x: int, y: int, z: int): (r: Option<V>)
    reads mask
    ensures !(0 <= x < mask.Length0 && 0 <= y < mask.Length1) ==> r == None
    ensures 0 <= x < mask.Length0 && 0 <= y < mask.Length1 && 0 <= z < mask.Length2 ==> r == mask[x, y, z]
    ensures 0 <= x < mask.Length0 && 0 <= y < mask.Length1 && !(0 <= z < mask.Length2) ==> r == None
  {
    if !(0 <= x < mask.Length0) then None
    else if !(0 <= y < mask.Length1) then None
    else if 0 <= z < mask.Length2 then mask[x, y, z]
    else None
  }
}
