/**
 * Terrain chunking, in its two copies: `groupTerrain` and `getGroupPosition`
 * of src/load.ts, which replace the terrain tiles of a world by one entity per
 * chunk, and `groupTerrain` and `loadSprites` of models/index.ts, which build
 * one grouped model per chunk from the tile models. Both copies bucket the
 * terrain entities into chunks the same way; that bucketing is defined once.
 */
module Terrain {
  import opened Wrappers
  import opened JsNumbers
  import opened VoxelVolume
  import opened Components
  import opened VoxelGroup

  // ---------------------------------------------------------------------------
  // Terrain entities and the others
  // ---------------------------------------------------------------------------

  /** An entity is terrain when it has a position, a sprite and the terrain flag. */
  predicate IsTerrain(e: Entity)
  {
    e.position.Some? && e.sprite.Some? && e.terrain.Some?
  }

  /** The terrain entities, in entity order. */
  function TerrainOf(es: seq<Entity>): (ts: seq<Entity>)
    ensures forall i :: 0 <= i < |ts| ==> IsTerrain(ts[i])
    decreases |es|
  {
    if es == [] then [] else
    var p := TerrainOf(es[..|es| - 1]);
    var e := es[|es| - 1];
    if IsTerrain(e) then p + [e] else p
  }

  /** The entities that are not terrain, in order. */
  function NonTerrainOf(es: seq<Entity>): (ns: seq<Entity>)
    ensures forall i :: 0 <= i < |ns| ==> !IsTerrain(ns[i])
    decreases |es|
  {
    if es == [] then [] else
    var p := NonTerrainOf(es[..|es| - 1]);
    var e := es[|es| - 1];
    if IsTerrain(e) then p else p + [e]
  }

  /** The entities that are not among the terrain entities, in entity order. */
  function OthersOf(es: seq<Entity>, terrain: seq<Entity>): seq<Entity>
    decreases |es|
  {
    if es == [] then [] else
    var p := OthersOf(es[..|es| - 1], terrain);
    var e := es[|es| - 1];
    if e in terrain then p else p + [e]
  }

  /** An entity of the list is among its terrain entities exactly when it is terrain. */
  lemma {:induction false} TerrainMembership(es: seq<Entity>)
    ensures forall e :: e in TerrainOf(es) <==> e in es && IsTerrain(e)
    decreases |es|
  {
    if es != [] {
      var p := es[..|es| - 1];
      TerrainMembership(p);
      assert es == p + [es[|es| - 1]];
    }
  }

  /** Filtering by place in the terrain list keeps exactly the non-terrain entities. */
  lemma {:induction false} OthersAreNonTerrain(es: seq<Entity>, terrain: seq<Entity>)
    requires forall e :: e in es ==> (e in terrain <==> IsTerrain(e))
    ensures OthersOf(es, terrain) == NonTerrainOf(es)
    decreases |es|
  {
    if es != [] {
      var p := es[..|es| - 1];
      assert forall e :: e in p ==> e in es;
      OthersAreNonTerrain(p, terrain);
    }
  }

  /** The terrain entities and the others split the list: together they are its entities, each once. */
  lemma {:induction false} TerrainPartition(es: seq<Entity>)
    ensures multiset(TerrainOf(es)) + multiset(NonTerrainOf(es)) == multiset(es)
    ensures |TerrainOf(es)| + |NonTerrainOf(es)| == |es|
    decreases |es|
  {
    if es != [] {
      var p := es[..|es| - 1];
      TerrainPartition(p);
      assert es == p + [es[|es| - 1]];
    }
  }

  // ---------------------------------------------------------------------------
  // Chunk keys
  // ---------------------------------------------------------------------------

  /** The chunk of a position: `x` and `z` each floor-divided by the chunk size. */
  function ChunkOf(p: Placement): (c: (int, int))
    ensures c.0 * CHUNK_SIZE <= p.x < c.0 * CHUNK_SIZE + CHUNK_SIZE
    ensures c.1 * CHUNK_SIZE <= p.z < c.1 * CHUNK_SIZE + CHUNK_SIZE
  {
    (FloorDiv(p.x, CHUNK_SIZE), FloorDiv(p.z, CHUNK_SIZE))
  }

  /** A chunk's key: a fixed prefix, then the two chunk coordinates as decimal strings, separated by underscores. */
  function KeyOf(c: (int, int)): string
  {
    "chunk_" + NumberToString(c.0) + "_" + NumberToString(c.1)
  }

  /** The key of the chunk holding a position. */
  function ChunkKey(p: Placement): string
  {
    KeyOf(ChunkOf(p))
  }

  predicate NoSeparator(s: string)
  {
    forall i :: 0 <= i < |s| ==> s[i] != '_'
  }

  /** The index of the first `_`, or the length when there is none. */
  function FirstSeparator(s: string): (n: nat)
    ensures n <= |s|
    decreases |s|
  {
    if s == [] then 0 else if s[0] == '_' then 0 else 1 + FirstSeparator(s[1..])
  }

  lemma {:induction false} SeparatorAfter(a: string, b: string)
    requires NoSeparator(a)
    ensures FirstSeparator(a + "_" + b) == |a|
    decreases |a|
  {
    if a != [] {
      assert (a + "_" + b)[1..] == a[1..] + "_" + b;
      SeparatorAfter(a[1..], b);
    }
  }

  /** Two strings joined by `_` come apart again when the first has no `_`. */
  lemma SplitAtSeparator(a: string, b: string, c: string, d: string)
    requires NoSeparator(a) && NoSeparator(c)
    requires a + "_" + b == c + "_" + d
    ensures a == c && b == d
  {
    var s := a + "_" + b;
    SeparatorAfter(a, b);
    SeparatorAfter(c, d);
    assert a == s[..|a|] && c == s[..|c|];
    assert b == s[|a| + 1..] && d == s[|c| + 1..];
  }

  lemma NumberHasNoSeparator(n: int)
    ensures NoSeparator(NumberToString(n))
  {
  }

  lemma DropPrefix(p: string, a: string, b: string)
    ensures (p + a + "_" + b)[|p|..] == a + "_" + b
  {
  }

  /** Distinct chunks have distinct keys. */
  lemma KeyOfInjective(c: (int, int), d: (int, int))
    requires KeyOf(c) == KeyOf(d)
    ensures c == d
  {
    var cx, cz := NumberToString(c.0), NumberToString(c.1);
    var dx, dz := NumberToString(d.0), NumberToString(d.1);
    DropPrefix("chunk_", cx, cz);
    DropPrefix("chunk_", dx, dz);
    NumberHasNoSeparator(c.0);
    NumberHasNoSeparator(d.0);
    SplitAtSeparator(cx, cz, dx, dz);
    NumberToStringInjective(c.0, d.0);
    NumberToStringInjective(c.1, d.1);
  }

  /** Two positions share a chunk key exactly when they lie in the same chunk. */
  lemma ChunkKeyIff(a: Placement, b: Placement)
    ensures ChunkKey(a) == ChunkKey(b) <==> ChunkOf(a) == ChunkOf(b)
  {
    if ChunkKey(a) == ChunkKey(b) {
      KeyOfInjective(ChunkOf(a), ChunkOf(b));
    }
  }

  // ---------------------------------------------------------------------------
  // First-occurrence order
  // ---------------------------------------------------------------------------

  predicate Distinct(xs: seq<string>)
  {
    forall i, j :: 0 <= i < j < |xs| ==> xs[i] != xs[j]
  }

  /** The distinct strings of `xs` in the order they first occur: what a `Map` or `Set` keeps as its keys. */
  function Dedup(xs: seq<string>): (ys: seq<string>)
    ensures |ys| <= |xs|
    ensures forall i :: 0 <= i < |ys| ==> ys[i] in xs
    decreases |xs|
  {
    if xs == [] then [] else
    var p := Dedup(xs[..|xs| - 1]);
    var x := xs[|xs| - 1];
    if x in p then p else p + [x]
  }

  /** The index where `y` first occurs in `xs`. */
  function FirstIndex(xs: seq<string>, y: string): (i: nat)
    requires y in xs
    ensures i < |xs| && xs[i] == y
    ensures forall j :: 0 <= j < i ==> xs[j] != y
    decreases |xs|
  {
    var p := xs[..|xs| - 1];
    if y in p then FirstIndex(p, y) else |xs| - 1
  }

  /** Deduplication keeps exactly the strings of `xs`, each once, ordered by first occurrence. */
  lemma DedupIsFirstOccurrences(xs: seq<string>)
    ensures forall y :: y in Dedup(xs) <==> y in xs
    ensures Distinct(Dedup(xs))
    ensures forall i, j :: 0 <= i < j < |Dedup(xs)| ==> FirstIndex(xs, Dedup(xs)[i]) < FirstIndex(xs, Dedup(xs)[j])
  {
    DedupMembers(xs);
    DedupDistinct(xs);
    DedupOrder(xs);
  }

  lemma {:induction false} DedupMembers(xs: seq<string>)
    ensures forall y :: y in Dedup(xs) <==> y in xs
    decreases |xs|
  {
    if xs != [] {
      var p := xs[..|xs| - 1];
      DedupMembers(p);
      assert xs == p + [xs[|xs| - 1]];
    }
  }

  lemma {:induction false} DedupDistinct(xs: seq<string>)
    ensures Distinct(Dedup(xs))
    decreases |xs|
  {
    if xs != [] {
      DedupDistinct(xs[..|xs| - 1]);
    }
  }

  lemma {:induction false} DedupOrder(xs: seq<string>)
    ensures forall i, j :: 0 <= i < j < |Dedup(xs)| ==> FirstIndex(xs, Dedup(xs)[i]) < FirstIndex(xs, Dedup(xs)[j])
    decreases |xs|
  {
    if xs != [] {
      var p := xs[..|xs| - 1];
      var x := xs[|xs| - 1];
      DedupOrder(p);
      DedupMembers(p);
      assert xs == p + [x];
      var d := Dedup(xs);
      assert forall i :: 0 <= i < |Dedup(p)| ==> d[i] == Dedup(p)[i] && d[i] in p && FirstIndex(xs, d[i]) == FirstIndex(p, d[i]);
      if x !in p {
        assert FirstIndex(xs, x) == |p|;
      }
    }
  }

  // ---------------------------------------------------------------------------
  // Chunks
  // ---------------------------------------------------------------------------

  /** Every entity is terrain: what `terrainEntities` holds. */
  predicate AllTerrain(es: seq<Entity>)
  {
    forall i :: 0 <= i < |es| ==> IsTerrain(es[i])
  }

  /** A `Map<string, V>`: its keys in insertion order and its entries. */
  datatype OrderedMap<V> = OrderedMap(order: seq<string>, entries: map<string, V>)

  /** `m.set(key, value)`: a new key goes last, an existing key keeps its place. */
  function MapSet<V>(m: OrderedMap<V>, key: string, value: V): OrderedMap<V>
  {
    OrderedMap(if key in m.entries then m.order else m.order + [key], m.entries[key := value])
  }

  /** The list stored under a key, or the empty list for a key not present. */
  function MembersOf(m: OrderedMap<seq<Entity>>, key: string): seq<Entity>
  {
    if key in m.entries then m.entries[key] else []
  }

  /** Every element of the list transformed by `f`, in order. */
  function MapSeq<T, U>(xs: seq<T>, f: T -> U): (ys: seq<U>)
    ensures |ys| == |xs| && forall i :: 0 <= i < |xs| ==> ys[i] == f(xs[i])
  {
    seq(|xs|, i requires 0 <= i < |xs| => f(xs[i]))
  }

  lemma MapSeqLast<T, U>(xs: seq<T>, f: T -> U)
    requires xs != []
    ensures MapSeq(xs, f) == MapSeq(xs[..|xs| - 1], f) + [f(xs[|xs| - 1])]
  {
  }

  /** The chunk keys of the entities, in order: the `i`-th key is the chunk key of the `i`-th entity. */
  function KeysOf(ts: seq<Entity>): (ks: seq<string>)
    requires AllTerrain(ts)
    ensures |ks| == |ts| && forall i :: 0 <= i < |ts| ==> ks[i] == ChunkKey(ts[i].position.value)
  {
    MapSeq(PositionsOf(ts), ChunkKey)
  }

  /** The keys of a list are the keys of all but its last entity, then the last one's key. */
  lemma KeysOfLast(ts: seq<Entity>)
    requires AllTerrain(ts) && ts != []
    ensures KeysOf(ts) == KeysOf(ts[..|ts| - 1]) + [ChunkKey(ts[|ts| - 1].position.value)]
  {
    var ps := PositionsOf(ts);
    MapSeqLast(ps, ChunkKey);
    assert ps[..|ts| - 1] == PositionsOf(ts[..|ts| - 1]);
  }

  /** The entities whose chunk key is `key`, in order. */
  function InChunk(ts: seq<Entity>, key: string): (cs: seq<Entity>)
    requires AllTerrain(ts)
    ensures AllTerrain(cs)
    decreases |ts|
  {
    if ts == [] then [] else
    var p := InChunk(ts[..|ts| - 1], key);
    var e := ts[|ts| - 1];
    if ChunkKey(e.position.value) == key then p + [e] else p
  }

  /** What `chunks` holds after the `forEach` over the terrain entities. */
  function Chunked(ts: seq<Entity>): (m: OrderedMap<seq<Entity>>)
    requires AllTerrain(ts)
    ensures |m.order| <= |ts|
    ensures forall k :: k in m.entries ==> |m.entries[k]| > 0
    decreases |ts|
  {
    if ts == [] then OrderedMap([], map[]) else
    var m := Chunked(ts[..|ts| - 1]);
    var e := ts[|ts| - 1];
    var key := ChunkKey(e.position.value);
    MapSet(m, key, MembersOf(m, key) + [e])
  }

  /** A chunk's members are exactly the terrain entities with its key. */
  lemma {:induction false} InChunkMembers(ts: seq<Entity>, key: string)
    requires AllTerrain(ts)
    ensures forall e :: e in InChunk(ts, key) <==> e in ts && ChunkKey(e.position.value) == key
    decreases |ts|
  {
    if ts != [] {
      var p := ts[..|ts| - 1];
      var last := ts[|ts| - 1];
      InChunkMembers(p, key);
      assert ts == p + [last];
      assert forall e :: e in ts <==> e in p || e == last;
    }
  }

  lemma {:induction false} InChunkEmpty(ts: seq<Entity>, key: string)
    requires AllTerrain(ts) && key !in KeysOf(ts)
    ensures InChunk(ts, key) == []
    decreases |ts|
  {
    if ts != [] {
      KeysOfLast(ts);
      InChunkEmpty(ts[..|ts| - 1], key);
    }
  }

  /**
   * The chunks' keys are the entities' chunk keys in first-occurrence order,
   * and each key holds the entities with that key, in input order.
   */
  lemma {:induction false} ChunkedShape(ts: seq<Entity>)
    requires AllTerrain(ts)
    ensures Chunked(ts).order == Dedup(KeysOf(ts))
    ensures forall k :: k in Chunked(ts).entries <==> k in KeysOf(ts)
    ensures forall k :: k in Chunked(ts).entries ==> Chunked(ts).entries[k] == InChunk(ts, k)
    decreases |ts|
  {
    if ts != [] {
      var p := ts[..|ts| - 1];
      var key := ChunkKey(ts[|ts| - 1].position.value);
      var e := ts[|ts| - 1];
      var m := Chunked(p);
      ChunkedShape(p);
      KeysOfLast(ts);
      DedupMembers(KeysOf(p));
      if key !in KeysOf(p) {
        InChunkEmpty(p, key);
      }
      assert MembersOf(m, key) == InChunk(p, key);
      forall k | k in Chunked(ts).entries
        ensures Chunked(ts).entries[k] == InChunk(ts, k)
      {
        if k == key {
          assert Chunked(ts).entries[k] == MembersOf(m, key) + [e];
        } else {
          assert Chunked(ts).entries[k] == m.entries[k];
        }
      }
    }
  }

  /** The chunk table is keyed by distinct keys and every chunk holds terrain entities, at least one. */
  predicate ChunksWellFormed(m: OrderedMap<seq<Entity>>)
  {
    && Distinct(m.order)
    && (forall k :: k in m.entries ==> k in m.order)
    && (forall i :: 0 <= i < |m.order| ==> m.order[i] in m.entries)
    && (forall k :: k in m.entries ==> |m.entries[k]| > 0 && AllTerrain(m.entries[k]))
  }

  lemma ChunkedWellFormed(ts: seq<Entity>)
    requires AllTerrain(ts)
    ensures ChunksWellFormed(Chunked(ts))
  {
    ChunkedShape(ts);
    DedupMembers(KeysOf(ts));
    DedupDistinct(KeysOf(ts));
    forall k | k in Chunked(ts).entries
      ensures |Chunked(ts).entries[k]| > 0 && AllTerrain(Chunked(ts).entries[k])
    {
      var i :| 0 <= i < |ts| && KeysOf(ts)[i] == k;
      InOwnChunk(ts, i);
    }
  }

  /** Every entity is a member of the chunk named by its own key. */
  lemma InOwnChunk(ts: seq<Entity>, i: int)
    requires AllTerrain(ts) && 0 <= i < |ts|
    ensures ts[i] in InChunk(ts, ChunkKey(ts[i].position.value))
  {
    InChunkMembers(ts, ChunkKey(ts[i].position.value));
  }

  /** Each terrain entity lands in exactly one chunk: the one named by its own key. */
  lemma ExactlyOneChunk(ts: seq<Entity>, e: Entity)
    requires AllTerrain(ts) && e in ts
    ensures e.position.Some? && ChunkKey(e.position.value) in Chunked(ts).order
    ensures forall k :: k in Chunked(ts).entries ==> (e in Chunked(ts).entries[k] <==> k == ChunkKey(e.position.value))
  {
    ChunkedShape(ts);
    DedupIsFirstOccurrences(KeysOf(ts));
    var i :| 0 <= i < |ts| && ts[i] == e;
    assert KeysOf(ts)[i] == ChunkKey(e.position.value);
    forall k | k in Chunked(ts).entries
      ensures e in Chunked(ts).entries[k] <==> k == ChunkKey(e.position.value)
    {
      InChunkMembers(ts, k);
    }
  }

  /** The `terrainEntities.forEach` that fills `chunks`, shared by both `groupTerrain`s. */
  method BucketTerrain(terrain: seq<Entity>) returns (chunks: OrderedMap<seq<Entity>>)
    requires AllTerrain(terrain)
    ensures chunks == Chunked(terrain)
    ensures ChunksWellFormed(chunks)
  {
    chunks := OrderedMap([], map[]);
    for i := 0 to |terrain|
      invariant chunks == Chunked(terrain[..i])
    {
      var entity := terrain[i];
      var chunkKey := ChunkKey(entity.position.value);
      chunks := MapSet(chunks, chunkKey, MembersOf(chunks, chunkKey) + [entity]);
      assert terrain[..i + 1][..i] == terrain[..i];
    }
    assert terrain[..|terrain|] == terrain;
    ChunkedWellFormed(terrain);
  }

  // ---------------------------------------------------------------------------
  // groupTerrain of src/load.ts
  // ---------------------------------------------------------------------------

  /** The positions of a chunk's members, in member order. */
  function PositionsOf(es: seq<Entity>): (ps: seq<Placement>)
    requires AllTerrain(es)
    ensures |ps| == |es| && forall i :: 0 <= i < |es| ==> ps[i] == es[i].position.value
  {
    seq(|es|, i requires 0 <= i < |es| => es[i].position.value)
  }

  /**
   * `getGroupPosition(positions)` on a non-empty list: the component-wise
   * minimum, attained on every axis, with rotation 0.
   */
  method GetGroupPosition(positions: seq<Placement>) returns (position: Placement)
    requires |positions| > 0
    ensures position == Corner(positions) && position.rotation == Some(0)
    ensures forall i :: 0 <= i < |positions| ==>
      position.x <= positions[i].x && position.y <= positions[i].y && position.z <= positions[i].z
    ensures exists i :: 0 <= i < |positions| && positions[i].x == position.x
    ensures exists i :: 0 <= i < |positions| && positions[i].y == position.y
    ensures exists i :: 0 <= i < |positions| && positions[i].z == position.z
  {
    var minX, maxX, minY, maxY, minZ, maxZ := Bounds(positions);
    position := Placement(minX, minY, minZ, Some(0));
    LeastIsMinimum(positions, X);
    LeastIsMinimum(positions, Y);
    LeastIsMinimum(positions, Z);
  }

  /** The entity `groupTerrain` pushes for the `j`-th chunk. */
  function ChunkEntity(chunks: OrderedMap<seq<Entity>>, j: int): Entity
    requires ChunksWellFormed(chunks) && 0 <= j < |chunks.order|
  {
    var key := chunks.order[j];
    Entity(Some(10000 + j), Some(Corner(PositionsOf(chunks.entries[key]))), Some(key), None, None)
  }

  /** Each terrain entity with its sprite removed and its other components kept. */
  function WithoutSprites(ts: seq<Entity>): (us: seq<Entity>)
    ensures |us| == |ts| && forall i :: 0 <= i < |ts| ==> us[i] == ts[i].(sprite := None)
  {
    seq(|ts|, i requires 0 <= i < |ts| => ts[i].(sprite := None))
  }

  /** The entities `groupTerrain` pushes, one per chunk in key order. */
  function ChunkEntities(chunks: OrderedMap<seq<Entity>>): (es: seq<Entity>)
    requires ChunksWellFormed(chunks)
    ensures |es| == |chunks.order| && forall j :: 0 <= j < |chunks.order| ==> es[j] == ChunkEntity(chunks, j)
  {
    seq(|chunks.order|, j requires 0 <= j < |chunks.order| => ChunkEntity(chunks, j))
  }

  /**
   * `groupTerrain(entities)` of src/load.ts: the non-terrain entities in
   * order, then one entity per chunk in key order with ids from 10000, then
   * the terrain entities with their sprites cleared.
   */
  method GroupTerrain(entities: seq<Entity>) returns (result: seq<Entity>)
    ensures ChunksWellFormed(Chunked(TerrainOf(entities)))
    ensures result == NonTerrainOf(entities) + ChunkEntities(Chunked(TerrainOf(entities))) + WithoutSprites(TerrainOf(entities))
    ensures |result| == |entities| + |Chunked(TerrainOf(entities)).order|
  {
    var terrainEntities := TerrainOf(entities);
    var otherEntities := OthersOf(entities, terrainEntities);
    TerrainMembership(entities);
    OthersAreNonTerrain(entities, terrainEntities);
    var chunks := BucketTerrain(terrainEntities);
    var grouped := PushChunkEntities(chunks);
    result := otherEntities + grouped + WithoutSprites(terrainEntities);
    TerrainPartition(entities);
  }

  /** The loop of `groupTerrain` over `chunks`: one entity per chunk, ids counting up from 10000. */
  method PushChunkEntities(chunks: OrderedMap<seq<Entity>>) returns (grouped: seq<Entity>)
    requires ChunksWellFormed(chunks)
    ensures grouped == ChunkEntities(chunks)
  {
    grouped := [];
    var id := 10000;
    for j := 0 to |chunks.order|
      invariant id == 10000 + j && |grouped| == j
      invariant forall i :: 0 <= i < j ==> grouped[i] == ChunkEntity(chunks, i)
    {
      var key := chunks.order[j];
      var terrainVoxels := PositionsOf(chunks.entries[key]);
      var position := GetGroupPosition(terrainVoxels);
      grouped := grouped + [Entity(Some(id), Some(position), Some(key), None, None)];
      id := id + 1;
    }
  }

  /**
   * The chunk entity of a chunk is named by its members' key and sits at a
   * corner from which every member lies within the group.
   */
  lemma ChunkEntityCoversMembers(ts: seq<Entity>, j: int, e: Entity)
    requires AllTerrain(ts) && ChunksWellFormed(Chunked(ts)) && 0 <= j < |Chunked(ts).order|
    requires e in Chunked(ts).entries[Chunked(ts).order[j]]
    ensures ChunkEntity(Chunked(ts), j).sprite == Some(ChunkKey(e.position.value))
    ensures InGroup(e.position.value, ChunkEntity(Chunked(ts), j).position.value,
      GroupSize(PositionsOf(Chunked(ts).entries[Chunked(ts).order[j]])))
  {
    var members := Chunked(ts).entries[Chunked(ts).order[j]];
    ChunkedShape(ts);
    InChunkMembers(ts, Chunked(ts).order[j]);
    GroupSpansPositions(PositionsOf(members));
    var i :| 0 <= i < |members| && members[i] == e;
    assert PositionsOf(members)[i] == e.position.value;
  }

  // ---------------------------------------------------------------------------
  // models/index.ts
  // ---------------------------------------------------------------------------

  /** The sprite names of the entities that have a sprite, in order. */
  function SpriteNames(es: seq<Entity>): seq<string>
    decreases |es|
  {
    if es == [] then [] else
    var p := SpriteNames(es[..|es| - 1]);
    var e := es[|es| - 1];
    if e.sprite.Some? then p + [e.sprite.value] else p
  }

  /**
   * `loadSprites(entities)`: the names handed to `loadModel`, which are the
   * sprite names in first-occurrence order, each once.
   */
  method LoadSprites(entities: seq<Entity>) returns (names: seq<string>)
    ensures names == Dedup(SpriteNames(entities))
    ensures Distinct(names)
    ensures forall n :: n in names <==> n in SpriteNames(entities)
  {
    var spritesToLoad: set<string> := {};
    names := [];
    for i := 0 to |entities|
      invariant names == Dedup(SpriteNames(entities[..i]))
      invariant forall n :: n in spritesToLoad <==> n in names
    {
      var entity := entities[i];
      assert entities[..i + 1][..i] == entities[..i];
      if entity.sprite.Some? && entity.sprite.value !in spritesToLoad {
        spritesToLoad := spritesToLoad + {entity.sprite.value};
        names := names + [entity.sprite.value];
      }
    }
    assert entities[..|entities|] == entities;
    DedupIsFirstOccurrences(SpriteNames(entities));
  }

  /** Each member of a chunk paired with its position and the volume of its sprite's loaded model. */
  function ChunkPieces(members: seq<Entity>, models: map<string, Voxels>): (pieces: seq<PositionedVoxels>)
    requires AllTerrain(members) && forall i :: 0 <= i < |members| ==> members[i].sprite.value in models
    ensures |pieces| == |members|
    ensures forall i :: 0 <= i < |members| ==>
      pieces[i] == PositionedVoxels(members[i].position.value, models[members[i].sprite.value])
    ensures Positions(pieces) == PositionsOf(members)
  {
    seq(|members|, i requires 0 <= i < |members| => PositionedVoxels(members[i].position.value, models[members[i].sprite.value]))
  }

  /** Every model the registry holds is a well-formed volume. */
  ghost predicate ModelsValid(models: map<string, Voxels>)
    reads models.Values
  {
    forall name :: name in models ==> models[name].Valid()
  }

  /** Every terrain entity's sprite has its model in the registry: `loadSprites` ran first. */
  predicate SpritesLoaded(es: seq<Entity>, models: map<string, Voxels>)
  {
    forall i :: 0 <= i < |es| && IsTerrain(es[i]) ==> es[i].sprite.value in models
  }

  /** `addModel(key, groupedTerrainVoxels.voxels)` for the `j`-th chunk: a volume spanning the chunk. */
  ghost predicate ModelAdded(chunks: OrderedMap<seq<Entity>>, j: int, entry: (string, Voxels))
    requires ChunksWellFormed(chunks) && 0 <= j < |chunks.order|
    reads entry.1
  {
    && entry.0 == chunks.order[j]
    && entry.1.Valid()
    && entry.1.size == GroupSize(PositionsOf(chunks.entries[chunks.order[j]])) * GRID_SIZE
  }

  /**
   * `groupTerrain(entities)` of models/index.ts: the `addModel(key, voxels)`
   * calls, in chunk-key order, one per distinct chunk key. Each volume is a
   * fresh `groupVoxels` of the chunk's tile models and spans the chunk.
   */
  method GroupTerrainModels(entities: seq<Entity>, models: map<string, Voxels>) returns (added: seq<(string, Voxels)>)
    requires ModelsValid(models) && SpritesLoaded(entities, models)
    ensures ChunksWellFormed(Chunked(TerrainOf(entities)))
    ensures |added| == |Chunked(TerrainOf(entities)).order|
    ensures forall j :: 0 <= j < |added| ==> fresh(added[j].1) && ModelAdded(Chunked(TerrainOf(entities)), j, added[j])
    ensures ChunksLoaded(Chunked(TerrainOf(entities)), models)
    ensures forall j :: 0 <= j < |added| ==> ChunkGrouped(Chunked(TerrainOf(entities)), models, j, added[j].1)
  {
    var terrainEntities := TerrainOf(entities);
    var chunks := BucketTerrain(terrainEntities);
    ChunkedLoaded(entities, models);
    added := GroupChunks(chunks, models);
  }

  /** The `chunks.forEach` of `groupTerrain`: one grouped model per chunk, in key order. */
  method GroupChunks(chunks: OrderedMap<seq<Entity>>, models: map<string, Voxels>) returns (added: seq<(string, Voxels)>)
    requires ModelsValid(models) && ChunksWellFormed(chunks) && ChunksLoaded(chunks, models)
    ensures |added| == |chunks.order|
    ensures forall j :: 0 <= j < |added| ==> fresh(added[j].1) && ModelAdded(chunks, j, added[j])
    ensures forall j :: 0 <= j < |added| ==> ChunkGrouped(chunks, models, j, added[j].1)
  {
    ghost var snapshots := ChunkSnapshots(chunks, models);
    added := [];
    for j := 0 to |chunks.order|
      invariant |added| == j
      invariant forall i :: 0 <= i < j ==> fresh(added[i].1)
      invariant forall i :: 0 <= i < j ==> ChunkAdded(chunks, snapshots, i, added[i])
    {
      var entry := AddChunk(chunks, models, j, snapshots);
      added := added + [entry];
    }
    assert ChunkSnapshots(chunks, models) == snapshots;
  }

  /** One turn of the `chunks.forEach`: group the `j`-th chunk and pair it with its key. */
  method AddChunk(chunks: OrderedMap<seq<Entity>>, models: map<string, Voxels>, j: int, ghost snapshots: seq<seq<Piece>>)
    returns (entry: (string, Voxels))
    requires ModelsValid(models) && ChunksWellFormed(chunks) && ChunksLoaded(chunks, models) && 0 <= j < |chunks.order|
    requires snapshots == ChunkSnapshots(chunks, models)
    ensures fresh(entry.1) && ChunkAdded(chunks, snapshots, j, entry)
  {
    var key := chunks.order[j];
    var voxels := GroupChunk(chunks.entries[key], models);
    entry := (key, voxels);
  }

  /** `entry` is the `addModel` of the `j`-th chunk: its key, and the grouped volume of the chunk's pieces `snapshots[j]`. */
  ghost predicate ChunkAdded(chunks: OrderedMap<seq<Entity>>, snapshots: seq<seq<Piece>>, j: int, entry: (string, Voxels))
    requires ChunksWellFormed(chunks) && 0 <= j < |chunks.order| && |snapshots| == |chunks.order|
    reads entry.1, entry.1.data
  {
    && ModelAdded(chunks, j, entry)
    && GroupedFrom(entry.1, snapshots[j], Corner(PositionsOf(chunks.entries[chunks.order[j]])))
  }

  /** The tile models of every chunk, as values, in key order. */
  ghost function ChunkSnapshots(chunks: OrderedMap<seq<Entity>>, models: map<string, Voxels>): (snapshots: seq<seq<Piece>>)
    requires ChunksWellFormed(chunks) && ChunksLoaded(chunks, models)
    reads set v | v in models.Values :: v.data
    ensures |snapshots| == |chunks.order|
    ensures forall j :: 0 <= j < |chunks.order| ==> snapshots[j] == ChunkSnapshot(chunks.entries[chunks.order[j]], models)
  {
    seq(|chunks.order|, j requires 0 <= j < |chunks.order|
      reads set v | v in models.Values :: v.data
      => ChunkSnapshot(chunks.entries[chunks.order[j]], models))
  }

  /** `v` is the `groupVoxels` of the `j`-th chunk's tile models. */
  ghost predicate ChunkGrouped(chunks: OrderedMap<seq<Entity>>, models: map<string, Voxels>, j: int, v: Voxels)
    requires ChunksWellFormed(chunks) && ChunksLoaded(chunks, models) && 0 <= j < |chunks.order|
    reads v, v.data, set v | v in models.Values :: v.data
  {
    var members := chunks.entries[chunks.order[j]];
    GroupedFrom(v, ChunkSnapshot(members, models), Corner(PositionsOf(members)))
  }

  /** Every chunk member's sprite has its model in the registry. */
  predicate ChunksLoaded(chunks: OrderedMap<seq<Entity>>, models: map<string, Voxels>)
  {
    forall k :: k in chunks.entries ==> forall i :: 0 <= i < |chunks.entries[k]| ==>
      chunks.entries[k][i].sprite.Some? && chunks.entries[k][i].sprite.value in models
  }

  /** One chunk: `groupVoxels` of its members' tile models, placed at their positions. */
  method GroupChunk(members: seq<Entity>, models: map<string, Voxels>) returns (voxels: Voxels)
    requires |members| > 0 && AllTerrain(members) && ModelsValid(models)
    requires forall i :: 0 <= i < |members| ==> members[i].sprite.value in models
    ensures fresh(voxels) && voxels.Valid()
    ensures voxels.size == GroupSize(PositionsOf(members)) * GRID_SIZE
    ensures GroupedFrom(voxels, ChunkSnapshot(members, models), Corner(PositionsOf(members)))
  {
    var terrainVoxels := ChunkPieces(members, models);
    var grouped, snapshot := GroupVoxels(terrainVoxels);
    voxels := grouped.voxels;
    assert snapshot == ChunkSnapshot(members, models);
  }

  /** The chunk's tile models as values: each member's position with its sprite model's side and bytes. */
  ghost function ChunkSnapshot(members: seq<Entity>, models: map<string, Voxels>): (snapshot: seq<Piece>)
    requires AllTerrain(members) && forall i :: 0 <= i < |members| ==> members[i].sprite.value in models
    reads set v | v in models.Values :: v.data
    ensures |snapshot| == |members|
    ensures forall i :: 0 <= i < |members| ==>
      snapshot[i] == Piece(members[i].position.value, models[members[i].sprite.value].size, models[members[i].sprite.value].data[..])
  {
    Snapshots(ChunkPieces(members, models))
  }

  /**
   * `v` holds what `groupVoxels` builds from the pieces `snapshot` with
   * corner `corner`: every cell is the last covering piece's copy, and the
   * populated offsets are the copies in order.
   */
  ghost predicate GroupedFrom(v: Voxels, snapshot: seq<Piece>, corner: Placement)
    reads v, v.data
  {
    && v.Valid()
    && (forall t, l: VoxelLookup :: InCube(v.size, t) ==>
          CellField(v.data[..], v.size, t, l) == GroupField(snapshot, corner, v.size, |snapshot|, t, l))
    && v.populatedOffsets == GroupOffsets(snapshot, corner, v.size, |snapshot|)
  }

  /** When `loadSprites` ran first, every chunk member's sprite has its model in the registry. */
  lemma ChunkedLoaded(entities: seq<Entity>, models: map<string, Voxels>)
    requires SpritesLoaded(entities, models)
    ensures ChunksLoaded(Chunked(TerrainOf(entities)), models)
  {
    var terrain := TerrainOf(entities);
    forall k | k in Chunked(terrain).entries
      ensures forall i :: 0 <= i < |Chunked(terrain).entries[k]| ==>
        Chunked(terrain).entries[k][i].sprite.Some? && Chunked(terrain).entries[k][i].sprite.value in models
    {
      ModelsOfChunk(terrain, k, entities, models);
    }
  }

  /** Every member of a chunk has its sprite's model in the registry. */
  lemma ModelsOfChunk(terrain: seq<Entity>, key: string, entities: seq<Entity>, models: map<string, Voxels>)
    requires terrain == TerrainOf(entities) && key in Chunked(terrain).entries
    requires SpritesLoaded(entities, models)
    ensures AllTerrain(Chunked(terrain).entries[key])
    ensures forall i :: 0 <= i < |Chunked(terrain).entries[key]| ==> Chunked(terrain).entries[key][i].sprite.value in models
  {
    ChunkedShape(terrain);
    InChunkMembers(terrain, key);
    TerrainMembership(entities);
    var members := Chunked(terrain).entries[key];
    forall i | 0 <= i < |members|
      ensures members[i].sprite.value in models
    {
      assert members[i] in terrain;
      var k :| 0 <= k < |entities| && entities[k] == members[i];
    }
  }
}
