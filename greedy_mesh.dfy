/**
 * The greedy merge `combineFaces` of src/voxel/voxelsToFaces.ts (and of the
 * list-based src/model.ts). A square mask holds, for each cell of one slice,
 * the packed colour of a visible face or `undefined`. Scanning the cells in
 * order (first index outer), every cell still set starts a rectangle: it grows
 * along the first index while the next cell holds the same colour, then along
 * the second index while the whole next row does, and every cell it takes is
 * cleared. The six copies in the source differ only in the names of the two
 * axes and in the layout of the record they push; the model has one merge over
 * `(u, v)` and the records are built from its rectangles.
 */
module GreedyMesh {
  import opened Wrappers

  /** A mask's contents as values: `m[u][v]`. */
  type Grid = seq<seq<Option<int>>>

  /** The cell `m[u][v]`, `undefined` outside the grid. */
  function Cell(m: Grid, u: int, v: int): Option<int>
  {
    if 0 <= u < |m| && 0 <= v < |m[u]| then m[u][v] else None
  }

  /** A square grid of edge `n`. */
  predicate IsGrid(m: Grid, n: int)
  {
    |m| == n && forall u :: 0 <= u < n ==> |m[u]| == n
  }

  /** The contents of an `n × n` mask. */
  ghost function Contents(mask: array2<Option<int>>): (m: Grid)
    reads mask
    ensures IsGrid(m, mask.Length0) || mask.Length0 != mask.Length1
  {
    seq(mask.Length0, u requires 0 <= u < mask.Length0 reads mask =>
      seq(mask.Length1, v requires 0 <= v < mask.Length1 reads mask => mask[u, v]))
  }

  /** A merged face: origin `(u, v)`, extent `du × dv`, packed colour. */
  datatype Rect = Rect(u: int, v: int, du: int, dv: int, color: int)

  /** The rectangle covers the cell `(a, b)`. */
  predicate Covers(r: Rect, a: int, b: int)
  {
    r.u <= a < r.u + r.du && r.v <= b < r.v + r.dv
  }

  /** Some rectangle of the list covers `(a, b)`. */
  predicate CoveredBy(rects: seq<Rect>, a: int, b: int)
    decreases |rects|
  {
    |rects| > 0 && (CoveredBy(rects[..|rects| - 1], a, b) || Covers(rects[|rects| - 1], a, b))
  }

  /** A square mask that shows `m` cell by cell has contents `m`. */
  lemma ContentsIs(mask: array2<Option<int>>, m: Grid)
    requires mask.Length0 == mask.Length1 && IsGrid(m, mask.Length0)
    requires forall u, v :: 0 <= u < mask.Length0 && 0 <= v < mask.Length1 ==> mask[u, v] == m[u][v]
    ensures Contents(mask) == m
  {
    var c := Contents(mask);
    forall u | 0 <= u < mask.Length0
      ensures c[u] == m[u]
    {
    }
  }

  /** A rectangle that covers nothing: the state between two merged faces. */
  const NO_RECT := Rect(0, 0, 0, 0, 0)

  /** `(a, b)` comes strictly before `(u, v)` in the scan order. */
  predicate Before(a: int, b: int, u: int, v: int)
  {
    a < u || (a == u && b < v)
  }

  /** The cell holds colour `c` and no earlier rectangle took it. */
  predicate Available(m0: Grid, earlier: seq<Rect>, a: int, b: int, c: int)
  {
    Cell(m0, a, b) == Some(c) && !CoveredBy(earlier, a, b)
  }

  /** The cell holds some colour and no earlier rectangle took it. */
  predicate Pending(m0: Grid, earlier: seq<Rect>, a: int, b: int)
  {
    Cell(m0, a, b).Some? && !CoveredBy(earlier, a, b)
  }

  /** The `w` cells `(u .. u + w - 1, b)` are all available in colour `c`. */
  predicate RowAvailable(m0: Grid, earlier: seq<Rect>, u: int, w: int, b: int, c: int)
  {
    forall a :: u <= a < u + w ==> Available(m0, earlier, a, b, c)
  }

  /**
   * The rectangle `r` is the one the greedy merge produces after `earlier`:
   * it lies in the grid; every cell of it held its colour and was not taken
   * before; its origin is the first pending cell in scan order; it could not
   * grow by one more cell along `u` nor by one more full row along `v`.
   */
  ghost predicate GreedyStep(m0: Grid, n: int, earlier: seq<Rect>, r: Rect)
  {
    && 0 <= r.u && 1 <= r.du && r.u + r.du <= n
    && 0 <= r.v && 1 <= r.dv && r.v + r.dv <= n
    && (forall a, b :: Covers(r, a, b) ==> Available(m0, earlier, a, b, r.color))
    && (forall a, b :: 0 <= a < n && 0 <= b < n && Before(a, b, r.u, r.v) ==> !Pending(m0, earlier, a, b))
    && (r.u + r.du == n || !Available(m0, earlier, r.u + r.du, r.v, r.color))
    && (r.v + r.dv == n || !RowAvailable(m0, earlier, r.u, r.du, r.v + r.dv, r.color))
  }

  /** Every rectangle of the list is the greedy step after the ones before it. */
  ghost predicate GreedyPrefix(m0: Grid, n: int, rects: seq<Rect>)
    decreases |rects|
  {
    |rects| == 0 ||
    (GreedyPrefix(m0, n, rects[..|rects| - 1]) && GreedyStep(m0, n, rects[..|rects| - 1], rects[|rects| - 1]))
  }

  /** `rects` is the complete greedy merge of `m0`: greedy steps that together cover every set cell. */
  ghost predicate GreedyCover(m0: Grid, n: int, rects: seq<Rect>)
  {
    && GreedyPrefix(m0, n, rects)
    && forall a, b :: 0 <= a < n && 0 <= b < n && Cell(m0, a, b).Some? ==> CoveredBy(rects, a, b)
  }

  /** The mask shows `m0` with every cell of `rects` and of the rectangle being grown cleared. */
  ghost predicate MaskIs(mask: array2<Option<int>>, m0: Grid, rects: seq<Rect>, partial: Rect)
    reads mask
  {
    && mask.Length0 == mask.Length1 && IsGrid(m0, mask.Length0)
    && forall a, b :: 0 <= a < mask.Length0 && 0 <= b < mask.Length1 ==>
         mask[a, b] == (if CoveredBy(rects, a, b) || Covers(partial, a, b) then None else m0[a][b])
  }

  // ---------------------------------------------------------------------------
  // Facts about covering
  // ---------------------------------------------------------------------------

  /** Appending a rectangle adds exactly its cells to the covered ones. */
  lemma CoveredByAppend(rects: seq<Rect>, r: Rect)
    ensures forall a, b :: CoveredBy(rects + [r], a, b) <==> CoveredBy(rects, a, b) || Covers(r, a, b)
  {
    assert (rects + [r])[..|rects|] == rects;
  }

  /** Once the rectangle being grown is finished, it joins the list. */
  lemma MaskIsAppend(mask: array2<Option<int>>, m0: Grid, rects: seq<Rect>, r: Rect)
    requires MaskIs(mask, m0, rects, r)
    ensures MaskIs(mask, m0, rects + [r], NO_RECT)
  {
    CoveredByAppend(rects, r);
  }

  /** A greedy step after a greedy prefix extends it. */
  lemma GreedyPrefixAppend(m0: Grid, n: int, rects: seq<Rect>, r: Rect)
    requires GreedyPrefix(m0, n, rects) && GreedyStep(m0, n, rects, r)
    ensures GreedyPrefix(m0, n, rects + [r])
  {
    assert (rects + [r])[..|rects|] == rects;
  }

  // ---------------------------------------------------------------------------
  // What the greedy merge produces
  // ---------------------------------------------------------------------------

  /**
   * A greedy prefix only covers set cells, each in the colour of the
   * rectangle that covers it, and no cell is covered by two rectangles.
   */
  lemma {:induction false} GreedyPrefixExact(m0: Grid, n: int, rects: seq<Rect>)
    requires GreedyPrefix(m0, n, rects)
    ensures forall i, a, b :: 0 <= i < |rects| && Covers(rects[i], a, b) ==> Cell(m0, a, b) == Some(rects[i].color)
    ensures forall i, j, a, b :: 0 <= i < j < |rects| && Covers(rects[i], a, b) ==> !Covers(rects[j], a, b)
    decreases |rects|
  {
    if |rects| > 0 {
      var earlier := rects[..|rects| - 1];
      GreedyPrefixExact(m0, n, earlier);
      forall i, a, b | 0 <= i < |earlier| && Covers(earlier[i], a, b)
        ensures CoveredBy(earlier, a, b)
      {
        CoveredByMember(earlier, i, a, b);
      }
    }
  }

  /** Every rectangle of a greedy prefix lies in the grid and has both extents at least 1. */
  lemma {:induction false} GreedyPrefixBounds(m0: Grid, n: int, rects: seq<Rect>)
    requires GreedyPrefix(m0, n, rects)
    ensures forall i :: 0 <= i < |rects| ==>
      0 <= rects[i].u && 1 <= rects[i].du && rects[i].u + rects[i].du <= n &&
      0 <= rects[i].v && 1 <= rects[i].dv && rects[i].v + rects[i].dv <= n
    decreases |rects|
  {
    if |rects| > 0 {
      GreedyPrefixBounds(m0, n, rects[..|rects| - 1]);
    }
  }

  /** A rectangle of the list covers each of its cells. */
  lemma {:induction false} CoveredByMember(rects: seq<Rect>, i: int, a: int, b: int)
    requires 0 <= i < |rects| && Covers(rects[i], a, b)
    ensures CoveredBy(rects, a, b)
    decreases |rects|
  {
    if i < |rects| - 1 {
      CoveredByMember(rects[..|rects| - 1], i, a, b);
    }
  }

  /** A covered cell is covered by some rectangle of the list. */
  lemma {:induction false} CoveredByWitness(rects: seq<Rect>, a: int, b: int) returns (i: int)
    requires CoveredBy(rects, a, b)
    ensures 0 <= i < |rects| && Covers(rects[i], a, b)
    decreases |rects|
  {
    if Covers(rects[|rects| - 1], a, b) {
      i := |rects| - 1;
    } else {
      i := CoveredByWitness(rects[..|rects| - 1], a, b);
    }
  }

  /** The greedy merge covers a cell exactly when the cell is set. */
  lemma GreedyCoverExact(m0: Grid, n: int, rects: seq<Rect>, a: int, b: int)
    requires GreedyCover(m0, n, rects) && 0 <= a < n && 0 <= b < n
    ensures CoveredBy(rects, a, b) <==> Cell(m0, a, b).Some?
  {
    if CoveredBy(rects, a, b) {
      var i := CoveredByWitness(rects, a, b);
      GreedyPrefixExact(m0, n, rects);
    }
  }

  /** After the same earlier rectangles, there is only one greedy step. */
  lemma GreedyStepUnique(m0: Grid, n: int, earlier: seq<Rect>, r1: Rect, r2: Rect)
    requires GreedyStep(m0, n, earlier, r1) && GreedyStep(m0, n, earlier, r2)
    ensures r1 == r2
  {
    assert Covers(r1, r1.u, r1.v) && Covers(r2, r2.u, r2.v);
    assert r1.u == r2.u && r1.v == r2.v by {
      if Before(r1.u, r1.v, r2.u, r2.v) {
        assert false;
      }
      if Before(r2.u, r2.v, r1.u, r1.v) {
        assert false;
      }
    }
    assert r1.du == r2.du by {
      if r1.du < r2.du {
        assert Covers(r2, r1.u + r1.du, r1.v);
        assert false;
      }
      if r2.du < r1.du {
        assert Covers(r1, r2.u + r2.du, r2.v);
        assert false;
      }
    }
    assert r1.dv == r2.dv by {
      if r1.dv < r2.dv {
        assert false;
      }
      if r2.dv < r1.dv {
        assert false;
      }
    }
  }

  /** Of two greedy prefixes, the shorter is a prefix of the longer. */
  lemma {:induction false} GreedyPrefixUnique(m0: Grid, n: int, rects1: seq<Rect>, rects2: seq<Rect>)
    requires GreedyPrefix(m0, n, rects1) && GreedyPrefix(m0, n, rects2) && |rects1| <= |rects2|
    ensures rects1 == rects2[..|rects1|]
    decreases |rects2|
  {
    if |rects1| == |rects2| && |rects1| > 0 {
      GreedyPrefixUnique(m0, n, rects1[..|rects1| - 1], rects2[..|rects2| - 1]);
      GreedyPrefixLastStep(m0, n, rects1, rects2);
    } else if |rects1| < |rects2| {
      var shorter := rects2[..|rects2| - 1];
      assert GreedyPrefix(m0, n, shorter);
      GreedyPrefixUnique(m0, n, rects1, shorter);
      assert shorter[..|rects1|] == rects2[..|rects1|];
    }
  }

  /** Two greedy prefixes of the same length that agree up to their last rectangle agree on it too. */
  lemma GreedyPrefixLastStep(m0: Grid, n: int, rects1: seq<Rect>, rects2: seq<Rect>)
    requires GreedyPrefix(m0, n, rects1) && GreedyPrefix(m0, n, rects2) && |rects1| == |rects2| > 0
    requires rects1[..|rects1| - 1] == rects2[..|rects2| - 1]
    ensures rects1 == rects2
  {
    var k := |rects1| - 1;
    GreedyStepUnique(m0, n, rects1[..k], rects1[k], rects2[k]);
    assert rects1 == rects1[..k] + [rects1[k]];
    assert rects2 == rects2[..k] + [rects2[k]];
  }

  /** The greedy merge of a mask is unique: whatever computes it computes the same list. */
  lemma GreedyCoverUnique(m0: Grid, n: int, rects1: seq<Rect>, rects2: seq<Rect>)
    requires GreedyCover(m0, n, rects1) && GreedyCover(m0, n, rects2)
    ensures rects1 == rects2
  {
    GreedyCoverLongest(m0, n, rects1, rects2);
    GreedyCoverLongest(m0, n, rects2, rects1);
    GreedyPrefixUnique(m0, n, rects1, rects2);
  }

  /** No greedy prefix is longer than a complete merge: once every set cell is covered, no step is left. */
  lemma GreedyCoverLongest(m0: Grid, n: int, rects1: seq<Rect>, rects2: seq<Rect>)
    requires GreedyCover(m0, n, rects1) && GreedyPrefix(m0, n, rects2)
    ensures |rects2| <= |rects1|
  {
    if |rects1| < |rects2| {
      var k := |rects1|;
      GreedyPrefixTake(m0, n, rects2, k + 1);
      var longer := rects2[..k + 1];
      GreedyPrefixUnique(m0, n, rects1, longer[..k]);
      assert longer[..k] == rects1;
      var r := longer[k];
      assert GreedyStep(m0, n, rects1, r);
      assert Covers(r, r.u, r.v);
      assert false;
    }
  }

  /** Every prefix of a greedy prefix is one. */
  lemma {:induction false} GreedyPrefixTake(m0: Grid, n: int, rects: seq<Rect>, k: int)
    requires GreedyPrefix(m0, n, rects) && 0 <= k <= |rects|
    ensures GreedyPrefix(m0, n, rects[..k])
    decreases |rects|
  {
    if k < |rects| {
      GreedyPrefixTake(m0, n, rects[..|rects| - 1], k);
      assert rects[..|rects| - 1][..k] == rects[..k];
    } else {
      assert rects[..k] == rects;
    }
  }

  /** An empty mask merges to no faces. */
  lemma EmptyMaskMerge(m0: Grid, n: int, rects: seq<Rect>)
    requires IsGrid(m0, n) && forall a, b :: 0 <= a < n && 0 <= b < n ==> m0[a][b] == None
    requires GreedyCover(m0, n, rects)
    ensures rects == []
  {
    assert GreedyCover(m0, n, []);
    GreedyCoverUnique(m0, n, rects, []);
  }

  /** A mask filled with one colour merges to a single face over the whole slice. */
  lemma UniformMaskMerge(m0: Grid, n: int, c: int, rects: seq<Rect>)
    requires 1 <= n && IsGrid(m0, n) && forall a, b :: 0 <= a < n && 0 <= b < n ==> m0[a][b] == Some(c)
    requires GreedyCover(m0, n, rects)
    ensures rects == [Rect(0, 0, n, n, c)]
  {
    var r := Rect(0, 0, n, n, c);
    assert GreedyStep(m0, n, [], r);
    assert GreedyPrefix(m0, n, [r]) by {
      assert [r][..0] == [];
    }
    CoveredByAppend([], r);
    assert GreedyCover(m0, n, [r]);
    GreedyCoverUnique(m0, n, rects, [r]);
  }

  /** A mask with a single set cell merges to a single one-cell face. */
  lemma SingleCellMerge(m0: Grid, n: int, u: int, v: int, c: int, rects: seq<Rect>)
    requires IsGrid(m0, n) && 0 <= u < n && 0 <= v < n
    requires forall a, b :: 0 <= a < n && 0 <= b < n ==> m0[a][b] == if a == u && b == v then Some(c) else None
    requires GreedyCover(m0, n, rects)
    ensures rects == [Rect(u, v, 1, 1, c)]
  {
    var r := Rect(u, v, 1, 1, c);
    SingleCellStep(m0, n, u, v, c);
    assert GreedyPrefix(m0, n, [r]) by {
      assert [r][..0] == [];
    }
    CoveredByAppend([], r);
    assert GreedyCover(m0, n, [r]);
    GreedyCoverUnique(m0, n, rects, [r]);
  }

  /** The one-cell face is the first greedy step of a mask with a single set cell. */
  lemma SingleCellStep(m0: Grid, n: int, u: int, v: int, c: int)
    requires IsGrid(m0, n) && 0 <= u < n && 0 <= v < n
    requires forall a, b :: 0 <= a < n && 0 <= b < n ==> m0[a][b] == if a == u && b == v then Some(c) else None
    ensures GreedyStep(m0, n, [], Rect(u, v, 1, 1, c))
  {
    assert v + 1 < n ==> !Available(m0, [], u, v + 1, c);
  }

  // ---------------------------------------------------------------------------
  // The merge
  // ---------------------------------------------------------------------------

  /**
   * `combineFaces(mask, target)`: the rectangles pushed, in push order, are the
   * greedy merge of the mask's initial contents, and the mask is left empty.
   */
  method CombineFaces(mask: array2<Option<int>>, n: int) returns (rects: seq<Rect>)
    requires mask.Length0 == n && mask.Length1 == n
    modifies mask
    ensures GreedyCover(old(Contents(mask)), n, rects)
    ensures forall a, b :: 0 <= a < n && 0 <= b < n ==> mask[a, b] == None
  {
    ghost var m0 := Contents(mask);
    rects := [];
    var x := 0;
    while x < n
      invariant 0 <= x <= n
      invariant MaskIs(mask, m0, rects, NO_RECT) && GreedyPrefix(m0, n, rects)
      invariant forall a, b :: 0 <= a < x && 0 <= b < n ==> mask[a, b] == None
    {
      var z := 0;
      while z < n
        invariant 0 <= z <= n
        invariant MaskIs(mask, m0, rects, NO_RECT) && GreedyPrefix(m0, n, rects)
        invariant forall a, b :: 0 <= a < n && 0 <= b < n && Before(a, b, x, z) ==> mask[a, b] == None
      {
        var color := mask[x, z];
        if color != None {
          var r := GrowFace(mask, m0, rects, x, z, color.value);
          GreedyPrefixAppend(m0, n, rects, r);
          MaskIsAppend(mask, m0, rects, r);
          rects := rects + [r];
        }
        z := z + 1;
      }
      x := x + 1;
    }
    forall a, b | 0 <= a < n && 0 <= b < n && Cell(m0, a, b).Some?
      ensures CoveredBy(rects, a, b)
    {
      assert mask[a, b] == None;
    }
  }

  /**
   * One starting point of `combineFaces`: the cell `(x, z)` holds `color` and
   * every cell before it is clear. The rectangle grown from it is the greedy
   * step, and the mask is cleared over it.
   */
  method GrowFace(mask: array2<Option<int>>, ghost m0: Grid, ghost rects: seq<Rect>, x: int, z: int, color: int)
    returns (r: Rect)
    requires MaskIs(mask, m0, rects, NO_RECT)
    requires 0 <= x < mask.Length0 && 0 <= z < mask.Length1 && mask[x, z] == Some(color)
    requires forall a, b :: 0 <= a < mask.Length0 && 0 <= b < mask.Length1 && Before(a, b, x, z) ==> mask[a, b] == None
    modifies mask
    ensures MaskIs(mask, m0, rects, r)
    ensures GreedyStep(m0, mask.Length0, rects, r)
    ensures r.u == x && r.v == z && r.color == color
    ensures forall a, b :: 0 <= a < mask.Length0 && 0 <= b < mask.Length1 && old(mask[a, b]) == None ==> mask[a, b] == None
  {
    var n := mask.Length0;
    forall a, b | 0 <= a < n && 0 <= b < n && Before(a, b, x, z)
      ensures !Pending(m0, rects, a, b)
    {
      assert mask[a, b] == None;
    }
    mask[x, z] := None;
    var width := ExpandWidth(mask, m0, rects, x, z, color);
    var depth := ExpandDepth(mask, m0, rects, x, z, width, color);
    r := Rect(x, z, width, depth, color);
  }

  /**
   * The first `while` of a starting point: grow along the first index while the
   * next cell holds the same colour, clearing each cell taken.
   */
  method ExpandWidth(mask: array2<Option<int>>, ghost m0: Grid, ghost rects: seq<Rect>, x: int, z: int, color: int)
    returns (width: int)
    requires MaskIs(mask, m0, rects, Rect(x, z, 1, 1, color))
    requires 0 <= x < mask.Length0 && 0 <= z < mask.Length1 && Available(m0, rects, x, z, color)
    modifies mask
    ensures 1 <= width && x + width <= mask.Length0
    ensures MaskIs(mask, m0, rects, Rect(x, z, width, 1, color))
    ensures RowAvailable(m0, rects, x, width, z, color)
    ensures x + width == mask.Length0 || !Available(m0, rects, x + width, z, color)
    ensures forall a, b :: 0 <= a < mask.Length0 && 0 <= b < mask.Length1 && old(mask[a, b]) == None ==> mask[a, b] == None
  {
    var n := mask.Length0;
    width := 1;
    var canExpandWidth := true;
    while canExpandWidth
      invariant 1 <= width && x + width <= n
      invariant MaskIs(mask, m0, rects, Rect(x, z, width, 1, color))
      invariant RowAvailable(m0, rects, x, width, z, color)
      invariant !canExpandWidth ==> x + width == n || !Available(m0, rects, x + width, z, color)
      invariant forall a, b :: 0 <= a < n && 0 <= b < n && old(mask[a, b]) == None ==> mask[a, b] == None
      decreases n - width, canExpandWidth
    {
      var nextWidth := width + 1;
      var xToCheck := x + nextWidth - 1;
      if xToCheck >= n {
        canExpandWidth := false;
      } else if mask[xToCheck, z] == Some(color) {
        width := nextWidth;
        mask[xToCheck, z] := None;
      } else {
        canExpandWidth := false;
      }
    }
  }

  /**
   * The second `while` of a starting point: grow along the second index while
   * the whole next row of `width` cells holds the same colour, clearing it.
   */
  method ExpandDepth(mask: array2<Option<int>>, ghost m0: Grid, ghost rects: seq<Rect>, x: int, z: int, width: int, color: int)
    returns (depth: int)
    requires 1 <= width && 0 <= x && x + width <= mask.Length0 && 0 <= z < mask.Length1
    requires MaskIs(mask, m0, rects, Rect(x, z, width, 1, color))
    requires RowAvailable(m0, rects, x, width, z, color)
    modifies mask
    ensures 1 <= depth && z + depth <= mask.Length1
    ensures MaskIs(mask, m0, rects, Rect(x, z, width, depth, color))
    ensures forall a, b :: Covers(Rect(x, z, width, depth, color), a, b) ==> Available(m0, rects, a, b, color)
    ensures z + depth == mask.Length1 || !RowAvailable(m0, rects, x, width, z + depth, color)
    ensures forall a, b :: 0 <= a < mask.Length0 && 0 <= b < mask.Length1 && old(mask[a, b]) == None ==> mask[a, b] == None
  {
    var n := mask.Length1;
    depth := 1;
    var canExpandDepth := true;
    while canExpandDepth
      invariant 1 <= depth && z + depth <= n
      invariant MaskIs(mask, m0, rects, Rect(x, z, width, depth, color))
      invariant forall a, b :: Covers(Rect(x, z, width, depth, color), a, b) ==> Available(m0, rects, a, b, color)
      invariant !canExpandDepth ==> z + depth == n || !RowAvailable(m0, rects, x, width, z + depth, color)
      invariant forall a, b :: 0 <= a < mask.Length0 && 0 <= b < n && old(mask[a, b]) == None ==> mask[a, b] == None
      decreases n - depth, canExpandDepth
    {
      var nextDepth := depth + 1;
      var zToCheck := z + nextDepth - 1;
      if zToCheck >= n {
        canExpandDepth := false;
      } else {
        var nextRowMatches := RowMatches(mask, x, width, zToCheck, color);
        RowMatchesIsRowAvailable(mask, m0, rects, Rect(x, z, width, depth, color), zToCheck);
        if nextRowMatches {
          depth := nextDepth;
          ClearRow(mask, x, width, zToCheck);
        } else {
          canExpandDepth := false;
        }
      }
    }
  }

  /** The `for` loop that checks the next row: every one of its `width` cells holds `color`. */
  method RowMatches(mask: array2<Option<int>>, x: int, width: int, row: int, color: int) returns (matches: bool)
    requires 0 <= x && 0 <= width && x + width <= mask.Length0 && 0 <= row < mask.Length1
    ensures matches <==> forall a :: x <= a < x + width ==> mask[a, row] == Some(color)
  {
    matches := true;
    var i := 0;
    while i < width
      invariant 0 <= i <= width
      invariant matches <==> forall a :: x <= a < x + i ==> mask[a, row] == Some(color)
    {
      if mask[x + i, row] != Some(color) {
        matches := false;
      }
      i := i + 1;
    }
  }

  /** The row checked just past a rectangle matches exactly when it is available. */
  lemma RowMatchesIsRowAvailable(mask: array2<Option<int>>, m0: Grid, rects: seq<Rect>, partial: Rect, row: int)
    requires MaskIs(mask, m0, rects, partial)
    requires 0 <= partial.u && partial.u + partial.du <= mask.Length0
    requires 0 <= row < mask.Length1 && row == partial.v + partial.dv
    ensures (forall a :: partial.u <= a < partial.u + partial.du ==> mask[a, row] == Some(partial.color))
      <==> RowAvailable(m0, rects, partial.u, partial.du, row, partial.color)
  {
    forall a | partial.u <= a < partial.u + partial.du
      ensures mask[a, row] == Some(partial.color) <==> Available(m0, rects, a, row, partial.color)
    {
      assert !Covers(partial, a, row);
    }
  }

  /** The `for` loop that clears a matched row of `width` cells. */
  method ClearRow(mask: array2<Option<int>>, x: int, width: int, row: int)
    requires 0 <= x && 0 <= width && x + width <= mask.Length0 && 0 <= row < mask.Length1
    modifies mask
    ensures forall a, b :: 0 <= a < mask.Length0 && 0 <= b < mask.Length1 ==>
      mask[a, b] == (if b == row && x <= a < x + width then None else old(mask[a, b]))
  {
    var i := 0;
    while i < width
      invariant 0 <= i <= width
      invariant forall a, b :: 0 <= a < mask.Length0 && 0 <= b < mask.Length1 ==>
        mask[a, b] == (if b == row && x <= a < x + i then None else old(mask[a, b]))
    {
      mask[x + i, row] := None;
      i := i + 1;
    }
  }
}
