/**
 * The world list both map generators build: `setAtPosition`, which replaces
 * whatever stands at a position by a new entry, `getSpriteName`, which
 * resolves a short tile name against the sprite files, and the `withIds`
 * export with the knight appended. map/index.ts and gen_map.js repeat this
 * code line for line; it is defined once here.
 */
module World {
  import opened Wrappers
  import opened Components
  import opened Terrain

  /** One model of the world: a position with a rotation, and a sprite name. */
  datatype Entry = Entry(x: int, y: int, z: int, rotation: int, name: string)

  /** A grid position. */
  type Cell = (int, int, int)

  function CellOf(e: Entry): Cell
  {
    (e.x, e.y, e.z)
  }

  // ---------------------------------------------------------------------------
  // setAtPosition
  // ---------------------------------------------------------------------------

  /** The world without its entries at position `c`, in order. */
  function Without(w: seq<Entry>, c: Cell): (r: seq<Entry>)
    ensures |r| <= |w|
    ensures forall i :: 0 <= i < |r| ==> CellOf(r[i]) != c
    decreases |w|
  {
    if w == [] then [] else
    var p := Without(w[..|w| - 1], c);
    var e := w[|w| - 1];
    if CellOf(e) == c then p else p + [e]
  }

  /** The world after `setAtPosition` of entry `e`. */
  function Placed(w: seq<Entry>, e: Entry): (r: seq<Entry>)
    ensures 0 < |r| <= |w| + 1
  {
    Without(w, CellOf(e)) + [e]
  }

  /** The world after a series of `setAtPosition` calls, in order. */
  function ApplyWrites(w: seq<Entry>, writes: seq<Entry>): seq<Entry>
    decreases |writes|
  {
    if writes == [] then w else Placed(ApplyWrites(w, writes[..|writes| - 1]), writes[|writes| - 1])
  }

  /** At most one entry per position. */
  predicate Unique(w: seq<Entry>)
  {
    forall i, j :: 0 <= i < j < |w| ==> CellOf(w[i]) != CellOf(w[j])
  }

  /** The positions that have an entry. */
  function Occupied(w: seq<Entry>): set<Cell>
  {
    set e | e in w :: CellOf(e)
  }

  /** The newest entry at position `c`. */
  function At(w: seq<Entry>, c: Cell): Option<Entry>
    decreases |w|
  {
    if w == [] then None
    else if CellOf(w[|w| - 1]) == c then Some(w[|w| - 1])
    else At(w[..|w| - 1], c)
  }

  /** The filter keeps exactly the entries at other positions. */
  lemma {:induction false} WithoutMembers(w: seq<Entry>, c: Cell)
    ensures forall e :: e in Without(w, c) <==> e in w && CellOf(e) != c
    decreases |w|
  {
    if w != [] {
      WithoutMembers(w[..|w| - 1], c);
      assert w == w[..|w| - 1] + [w[|w| - 1]];
    }
  }

  /** With no entry at `c`, the filter changes nothing. */
  lemma {:induction false} WithoutNothing(w: seq<Entry>, c: Cell)
    requires c !in Occupied(w)
    ensures Without(w, c) == w
    decreases |w|
  {
    if w != [] {
      var p := w[..|w| - 1];
      assert Occupied(p) <= Occupied(w) by {
        forall e | e in p ensures e in w {}
      }
      assert w[|w| - 1] in w;
      WithoutNothing(p, c);
      assert w == p + [w[|w| - 1]];
    }
  }

  /** In a world with one entry per position, the filter removes the entry at `c` and keeps the others in order. */
  lemma {:induction false} WithoutRemovesOne(w: seq<Entry>, c: Cell, i: int)
    requires Unique(w) && 0 <= i < |w| && CellOf(w[i]) == c
    ensures Without(w, c) == w[..i] + w[i + 1..]
    decreases |w|
  {
    var p := w[..|w| - 1];
    assert Unique(p);
    if i == |w| - 1 {
      assert c !in Occupied(p) by {
        forall e | e in p ensures CellOf(e) != c {
          var k :| 0 <= k < |p| && p[k] == e;
        }
      }
      WithoutNothing(p, c);
    } else {
      WithoutRemovesOne(p, c, i);
      assert w[i + 1..] == p[i + 1..] + [w[|w| - 1]];
    }
  }

  lemma {:induction false} WithoutUnique(w: seq<Entry>, c: Cell)
    requires Unique(w)
    ensures Unique(Without(w, c))
    decreases |w|
  {
    if w != [] {
      var p := w[..|w| - 1];
      var e := w[|w| - 1];
      assert Unique(p);
      WithoutUnique(p, c);
      WithoutMembers(p, c);
      if CellOf(e) != c {
        var q := Without(p, c);
        forall i | 0 <= i < |q| ensures CellOf(q[i]) != CellOf(e) {
          assert q[i] in p;
          var k :| 0 <= k < |p| && p[k] == q[i];
        }
      }
    }
  }

  /** `setAtPosition` keeps one entry per position. */
  lemma PlacedUnique(w: seq<Entry>, e: Entry)
    requires Unique(w)
    ensures Unique(Placed(w, e))
  {
    WithoutUnique(w, CellOf(e));
    WithoutMembers(w, CellOf(e));
    var q := Without(w, CellOf(e));
    assert forall i :: 0 <= i < |q| ==> q[i] in q;
  }

  /** `setAtPosition` occupies its position and keeps every other position's occupancy. */
  lemma PlacedOccupied(w: seq<Entry>, e: Entry)
    ensures Occupied(Placed(w, e)) == Occupied(w) + {CellOf(e)}
  {
    WithoutMembers(w, CellOf(e));
  }

  lemma {:induction false} WithoutAt(w: seq<Entry>, c: Cell, d: Cell)
    requires c != d
    ensures At(Without(w, c), d) == At(w, d)
    decreases |w|
  {
    if w != [] {
      WithoutAt(w[..|w| - 1], c, d);
    }
  }

  /** After `setAtPosition`, its position holds the new entry and every other position holds what it held. */
  lemma PlacedAt(w: seq<Entry>, e: Entry, d: Cell)
    ensures At(Placed(w, e), d) == if d == CellOf(e) then Some(e) else At(w, d)
  {
    if d != CellOf(e) {
      WithoutAt(w, CellOf(e), d);
      assert Placed(w, e)[..|Placed(w, e)| - 1] == Without(w, CellOf(e));
    }
  }

  /** The positions a list of writes targets. */
  function Targets(writes: seq<Entry>): set<Cell>
  {
    set e | e in writes :: CellOf(e)
  }

  /** A series of writes keeps one entry per position, and occupies exactly the old positions and its targets. */
  lemma {:induction false} ApplyWritesEffect(w: seq<Entry>, writes: seq<Entry>)
    ensures Unique(w) ==> Unique(ApplyWrites(w, writes))
    ensures Occupied(ApplyWrites(w, writes)) == Occupied(w) + Targets(writes)
    decreases |writes|
  {
    if writes != [] {
      var p := writes[..|writes| - 1];
      var e := writes[|writes| - 1];
      ApplyWritesEffect(w, p);
      if Unique(w) {
        PlacedUnique(ApplyWrites(w, p), e);
      }
      PlacedOccupied(ApplyWrites(w, p), e);
      assert writes == p + [e];
      assert Targets(writes) == Targets(p) + {CellOf(e)};
    }
  }

  /** Writing `a` and then `b` is writing `a + b`. */
  lemma {:induction false} ApplyWritesConcat(w: seq<Entry>, a: seq<Entry>, b: seq<Entry>)
    ensures ApplyWrites(w, a + b) == ApplyWrites(ApplyWrites(w, a), b)
    decreases |b|
  {
    if b == [] {
      assert a + b == a;
    } else {
      var q := b[..|b| - 1];
      ApplyWritesConcat(w, a, q);
      assert (a + b)[..|a + b| - 1] == a + q;
    }
  }

  /** One more write after `writes`. */
  lemma ApplyWritesSnoc(w: seq<Entry>, writes: seq<Entry>, e: Entry)
    ensures ApplyWrites(w, writes + [e]) == Placed(ApplyWrites(w, writes), e)
  {
    assert (writes + [e])[..|writes|] == writes;
  }

  /** The module-level `world` and the `setAtPosition` that reassigns it. */
  class WorldBuilder {
    var world: seq<Entry>
    /** Every `setAtPosition` call so far, in order. */
    ghost var writes: seq<Entry>

    /** The world is what the calls so far have made of the empty world. */
    ghost predicate Valid()
      reads this
    {
      world == ApplyWrites([], writes)
    }

    /** The builder starts with an empty world. */
    constructor ()
      ensures world == [] && writes == [] && Valid()
    {
      world := [];
      writes := [];
    }

    /** `setAtPosition(x, y, z, rotation, name)`: drop the entry at `(x, y, z)` and append the new one. */
    method SetAtPosition(x: int, y: int, z: int, rotation: int, name: string)
      modifies this
      ensures world == Placed(old(world), Entry(x, y, z, rotation, name))
      ensures Unique(old(world)) ==> Unique(world)
      ensures Occupied(world) == Occupied(old(world)) + {(x, y, z)}
      ensures writes == old(writes) + [Entry(x, y, z, rotation, name)]
      ensures old(Valid()) ==> Valid()
    {
      var entry := Entry(x, y, z, rotation, name);
      ApplyWritesSnoc([], writes, entry);
      writes := writes + [entry];
      if Unique(world) {
        PlacedUnique(world, entry);
      }
      PlacedOccupied(world, entry);
      world := Without(world, (x, y, z)) + [entry];
    }
  }

  // ---------------------------------------------------------------------------
  // getSpriteName
  // ---------------------------------------------------------------------------

  /** `s` ends with `suffix`. */
  predicate EndsWith(s: string, suffix: string)
  {
    |suffix| <= |s| && s[|s| - |suffix|..] == suffix
  }

  /** The file names ending with `name`, in order. */
  function Matching(files: seq<string>, name: string): seq<string>
    decreases |files|
  {
    if files == [] then [] else
    var p := Matching(files[..|files| - 1], name);
    var f := files[|files| - 1];
    if EndsWith(f, name) then p + [f] else p
  }

  /** `getSpriteName(name)`: the one file name ending with `name`, or the error it throws. */
  function GetSpriteName(files: seq<string>, name: string): (r: Result<string>)
    ensures r.Failure? ==> r.error == "Could not find " + name
  {
    var found := Matching(files, name);
    if |found| != 1 then Failure("Could not find " + name) else Success(found[0])
  }

  /** Exactly one file ends with `name`. */
  predicate OneMatch(files: seq<string>, name: string)
  {
    exists i :: 0 <= i < |files| && EndsWith(files[i], name) &&
      forall j :: 0 <= j < |files| && EndsWith(files[j], name) ==> j == i
  }

  lemma {:induction false} NoMatch(files: seq<string>, name: string)
    ensures |Matching(files, name)| == 0 <==> forall j :: 0 <= j < |files| ==> !EndsWith(files[j], name)
    decreases |files|
  {
    if files != [] {
      NoMatch(files[..|files| - 1], name);
    }
  }

  lemma {:induction false} MatchingMembers(files: seq<string>, name: string)
    ensures forall f :: f in Matching(files, name) ==> f in files && EndsWith(f, name)
    decreases |files|
  {
    if files != [] {
      var p := files[..|files| - 1];
      MatchingMembers(p, name);
      assert forall f :: f in p ==> f in files;
    }
  }

  /** When the last file matches, it is the only match exactly when no earlier file matches. */
  lemma OneMatchLastMatches(files: seq<string>, name: string)
    requires |files| > 0 && EndsWith(files[|files| - 1], name)
    ensures OneMatch(files, name) <==> forall j :: 0 <= j < |files| - 1 ==> !EndsWith(files[j], name)
  {
    var n := |files| - 1;
    if forall j :: 0 <= j < n ==> !EndsWith(files[j], name) {
      assert forall j :: 0 <= j < |files| && EndsWith(files[j], name) ==> j == n;
    } else {
      var k :| 0 <= k < n && EndsWith(files[k], name);
      forall i | 0 <= i < |files| && EndsWith(files[i], name)
        ensures exists j :: 0 <= j < |files| && EndsWith(files[j], name) && j != i
      {
        if i == n {
          assert EndsWith(files[k], name) && k != i;
        } else {
          assert EndsWith(files[n], name) && n != i;
        }
      }
    }
  }

  /** When the last file does not match, the matches are the earlier files' matches. */
  lemma OneMatchLastMisses(files: seq<string>, name: string)
    requires |files| > 0 && !EndsWith(files[|files| - 1], name)
    ensures OneMatch(files, name) <==> OneMatch(files[..|files| - 1], name)
  {
    if OneMatch(files, name) {
      OneMatchDropLast(files, name);
    }
    if OneMatch(files[..|files| - 1], name) {
      OneMatchAddLast(files, name);
    }
  }

  lemma OneMatchDropLast(files: seq<string>, name: string)
    requires |files| > 0 && !EndsWith(files[|files| - 1], name) && OneMatch(files, name)
    ensures OneMatch(files[..|files| - 1], name)
  {
    var p := files[..|files| - 1];
    var i :| 0 <= i < |files| && EndsWith(files[i], name) &&
      forall j :: 0 <= j < |files| && EndsWith(files[j], name) ==> j == i;
    assert i < |p| && p[i] == files[i];
    forall j | 0 <= j < |p| && EndsWith(p[j], name) ensures j == i {
      assert p[j] == files[j];
    }
  }

  lemma OneMatchAddLast(files: seq<string>, name: string)
    requires |files| > 0 && !EndsWith(files[|files| - 1], name) && OneMatch(files[..|files| - 1], name)
    ensures OneMatch(files, name)
  {
    var p := files[..|files| - 1];
    var i :| 0 <= i < |p| && EndsWith(p[i], name) &&
      forall j :: 0 <= j < |p| && EndsWith(p[j], name) ==> j == i;
    assert files[i] == p[i];
    forall j | 0 <= j < |files| && EndsWith(files[j], name) ensures j == i {
      assert j < |p| && p[j] == files[j];
    }
  }

  lemma {:induction false} OneMatchIff(files: seq<string>, name: string)
    ensures |Matching(files, name)| == 1 <==> OneMatch(files, name)
    decreases |files|
  {
    if files != [] {
      var n := |files| - 1;
      var p := files[..n];
      OneMatchIff(p, name);
      if EndsWith(files[n], name) {
        NoMatch(p, name);
        OneMatchLastMatches(files, name);
        assert forall j :: 0 <= j < n ==> p[j] == files[j];
      } else {
        OneMatchLastMisses(files, name);
      }
    }
  }

  /** `getSpriteName` succeeds exactly when one file name ends with `name`, and then returns that file name. */
  lemma GetSpriteNameSucceedsIff(files: seq<string>, name: string)
    ensures GetSpriteName(files, name).Success? <==> OneMatch(files, name)
    ensures GetSpriteName(files, name).Success? ==>
      var f := GetSpriteName(files, name).value;
      f in files && EndsWith(f, name)
  {
    OneMatchIff(files, name);
    MatchingMembers(files, name);
  }

  // ---------------------------------------------------------------------------
  // withIds and the knight
  // ---------------------------------------------------------------------------

  /** The walkable flag: 1 for a tile name in the walkable list, -1 otherwise. */
  function WalkSpeed(name: string, walkable: seq<string>): (s: int)
    ensures s == 1 <==> name in walkable
    ensures s == 1 || s == -1
  {
    if name in walkable then 1 else -1
  }

  /** The `withIds` record of world entry `e`: its id, position shifted by -5 in x and z, full sprite name and walk speed. */
  function Tagged(e: Entry, id: int, spriteName: string, walkable: seq<string>): Entity
  {
    Entity(Some(id), Some(Placement(e.x - 5, e.y, e.z - 5, Some(e.rotation))), Some(spriteName),
      Some(TerrainInfo(WalkSpeed(e.name, walkable))), None)
  }

  /** The knight pushed after the world: a sprite, a position without rotation and an hourly trigger. */
  function Knight(id: int, at: Cell): Entity
  {
    Entity(Some(id), Some(Placement(at.0, at.1, at.2, None)), Some("knight"), None,
      Some(TimeTrigger("hourly", "moveToRandomLocation")))
  }

  /** Every world entry's name resolves to a sprite file. */
  predicate AllResolve(world: seq<Entry>, files: seq<string>)
  {
    forall i :: 0 <= i < |world| ==> GetSpriteName(files, world[i].name).Success?
  }

  /**
   * What `withIds` followed by `withIds.push(knight)` produces: every world
   * entry in order with ids from 0, then the knight with the next id; or the
   * error of the first entry whose name does not resolve.
   */
  predicate Exported(world: seq<Entry>, files: seq<string>, walkable: seq<string>, knightAt: Cell, r: Result<seq<Entity>>)
  {
    && (r.Success? <==> AllResolve(world, files))
    && (r.Failure? ==> exists i :: (0 <= i < |world| && r.error == "Could not find " + world[i].name &&
      GetSpriteName(files, world[i].name).Failure? &&
      forall j :: 0 <= j < i ==> GetSpriteName(files, world[j].name).Success?))
    && (r.Success? ==> |r.value| == |world| + 1 && r.value[|world|] == Knight(|world|, knightAt))
    && (r.Success? ==> forall i :: 0 <= i < |world| ==>
      r.value[i] == Tagged(world[i], i, GetSpriteName(files, world[i].name).value, walkable))
  }

  /** `withIds` and the knight, with the `id` counter that numbers them. */
  method Export(world: seq<Entry>, files: seq<string>, walkable: seq<string>, knightAt: Cell) returns (r: Result<seq<Entity>>)
    ensures Exported(world, files, walkable, knightAt, r)
  {
    var id := 0;
    var withIds: seq<Entity> := [];
    for i := 0 to |world|
      invariant id == i && |withIds| == i
      invariant forall j :: 0 <= j < i ==> (GetSpriteName(files, world[j].name).Success? &&
        withIds[j] == Tagged(world[j], j, GetSpriteName(files, world[j].name).value, walkable))
    {
      var spriteName := GetSpriteName(files, world[i].name);
      if spriteName.Failure? {
        return Failure(spriteName.error);
      }
      withIds := withIds + [Tagged(world[i], id, spriteName.value, walkable)];
      id := id + 1;
    }
    withIds := withIds + [Knight(id, knightAt)];
    r := Success(withIds);
  }

  /** Every exported world entry is terrain for `groupTerrain`, each with its own id; the knight is not terrain. */
  lemma ExportedTerrain(world: seq<Entry>, files: seq<string>, walkable: seq<string>, knightAt: Cell, out: seq<Entity>)
    requires Exported(world, files, walkable, knightAt, Success(out))
    ensures forall i :: 0 <= i < |world| ==> IsTerrain(out[i])
    ensures !IsTerrain(out[|world|])
    ensures forall i, j :: 0 <= i < j < |out| ==> out[i].id != out[j].id
  {
  }
}
