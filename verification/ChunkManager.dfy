/** The class ChunkManager of frontend/src/world/gen/chunks.ts, each method proved against its
    specification on values in module Chunks. */
module ChunkManagement {
  import opened Common
  import opened JsMap
  import opened Streamer
  import opened Chunks
  import opened ChunkRuns

  class ChunkManager {
    const viewRadius: int
    const highLodRadius: int
    const scatterRadius: int
    const cacheSize: nat
    const buildBudget: int
    const worldExtent: real

    var group: seq<Chunk>
    var loaded: OrderedMap<Key, Chunk>
    var lru: OrderedMap<CacheKey, Chunk>
    /** Object identities handed out so far. */
    var serials: nat
    ghost var built: seq<Chunk>
    ghost var disposed: seq<Chunk>

    function Settings(): Config {
      Config(Options(viewRadius, highLodRadius, buildBudget, Ceil(worldExtent / CHUNK_SIZE)), scatterRadius, cacheSize)
    }

    ghost function State(): Scene
      reads this
    {
      Scene(loaded, lru, group, built, disposed)
    }

    ghost predicate Valid()
      reads this
    {
      serials == |built| && Owned(Settings(), State())
    }

    constructor (worldExtent: real, viewRadius: int := 3, highLodRadius: int := 1,
                 scatterRadius: int := 2, cacheSize: nat := 24, buildBudget: int := 2)
      ensures Valid() && State() == EMPTY
      ensures Settings() == Config(Options(viewRadius, highLodRadius, buildBudget, Ceil(worldExtent / CHUNK_SIZE)), scatterRadius, cacheSize)
    {
      this.worldExtent, this.viewRadius, this.highLodRadius := worldExtent, viewRadius, highLodRadius;
      this.scatterRadius, this.cacheSize, this.buildBudget := scatterRadius, cacheSize, buildBudget;
      loaded, lru, group, serials := [], [], [], 0;
      built, disposed := [], [];
      new;
      RunRefines(Settings(), []);
    }

    /** Frees the buffers of a chunk; recorded in `disposed`. */
    method DisposeChunk(chunk: Chunk)
      modifies this`disposed
      ensures disposed == old(disposed) + [chunk]
    {
      disposed := disposed + [chunk];
    }

    method CachePut(chunk: Chunk)
      modifies this`lru, this`disposed
      ensures State() == Chunks.CachePut(Settings(), old(State()), chunk)
    {
      var cacheKey := CacheKeyOf(chunk);
      ghost var target := Chunks.CachePut(Settings(), State(), chunk);
      if Has(lru, cacheKey) {
        lru := Delete(lru, cacheKey);
      } else {
        DeleteAbsent(lru, cacheKey);
      }
      lru := Set(lru, cacheKey, chunk);
      while |lru| > cacheSize
        invariant Evict(Settings(), State()) == target
        invariant group == old(group) && loaded == old(loaded) && built == old(built)
        decreases |lru|
      {
        var evicted := lru[0].val;
        lru := lru[1..];
        DisposeChunk(evicted);
      }
    }

    method CacheTake(key: Key, lod: int) returns (chunk: Option<Chunk>)
      modifies this`lru
      ensures chunk == Get(old(lru), CacheKey(key, lod))
      ensures lru == if chunk.Some? then Delete(old(lru), CacheKey(key, lod)) else old(lru)
    {
      chunk := Get(lru, CacheKey(key, lod));
      if chunk.Some? {
        lru := Delete(lru, CacheKey(key, lod));
      }
    }

    /** Terrain and props are not modelled, only whether props are put in. */
    method BuildChunk(key: Key, lod: int, ring: int) returns (chunk: Chunk)
      requires serials == |built|
      modifies this`serials, this`built
      ensures chunk == NewChunk(Settings(), old(State()), Want(key, lod, ring))
      ensures built == old(built) + [chunk] && serials == |built|
    {
      chunk := Chunk(key, lod, ring <= scatterRadius, serials);
      serials := serials + 1;
      built := built + [chunk];
    }

    /** The first loop of update. Deleting the current entry of a Map does not disturb the
        iteration, which therefore visits the entries present at its start. */
    method UnloadFar(c: Key)
      modifies this`loaded, this`group, this`lru, this`disposed
      ensures State() == UnloadAll(Settings(), c, old(State()), old(loaded))
    {
      ghost var target := UnloadAll(Settings(), c, State(), loaded);
      var entries := loaded;
      for i := 0 to |entries|
        invariant UnloadAll(Settings(), c, State(), entries[i..]) == target
        invariant built == old(built)
      {
        var e := entries[i];
        assert entries[i..][0] == e && entries[i..][1..] == entries[i + 1..];
        if Ring(e.key, c) > viewRadius {
          loaded := Delete(loaded, e.key);
          group := Remove(group, e.val);
          CachePut(e.val);
        }
      }
    }

    /** A chunk from the cache or a new one, put into the scene. */
    method Place(key: Key, lod: int, r: int)
      requires serials == |built|
      modifies this
      ensures serials == |built|
      ensures State() == Admit(Settings(), old(State()), Want(key, lod, r))
    {
      var cached := CacheTake(key, lod);
      var chunk;
      if cached.Some? {
        chunk := cached.value;
      } else {
        chunk := BuildChunk(key, lod, r);
      }
      loaded := Set(loaded, key, chunk);
      group := group + [chunk];
    }

    /** The body of the innermost loop for a chunk of the ring that lies in the world. */
    method Visit(key: Key, r: int) returns (placed: bool)
      requires serials == |built|
      modifies this
      ensures serials == |built|
      ensures State() == LoadOne(Settings(), old(State()), Want(key, LodAt(Settings().view, r), r))
      ensures placed <==> !Present(old(State()), Want(key, LodAt(Settings().view, r), r))
    {
      var lod := if r <= highLodRadius then 0 else 1;
      var existing := Get(loaded, key);
      if existing.Some? {
        if existing.value.lod == lod {
          return false;
        }
        loaded := Delete(loaded, key);
        group := Remove(group, existing.value);
        CachePut(existing.value);
      }
      Place(key, lod, r);
      placed := true;
    }

    ghost predicate Ahead(wants: seq<Want>, count: int, target: Scene)
      reads this
    {
      serials == |built| && LoadAll(Settings(), State(), wants, buildBudget - count) == target
    }

    /** One step of the innermost loop: skips, or visits. */
    method Step(c: Key, r: int, cx: int, cz: int, before: int, ghost target: Scene) returns (count: int)
      requires before < buildBudget && cz <= c.z + r
      requires Ahead(Rest(Settings().view, c, r, cx, cz), before, target)
      modifies this
      ensures Ahead(Rest(Settings().view, c, r, cx, cz + 1), count, target)
    {
      count := before;
      RestSteps(Settings().view, c, r, cx, cz);
      var key := Key(cx, cz);
      if Ring(key, c) != r {
        return;
      }
      var maxChunk := Ceil(worldExtent / CHUNK_SIZE);
      if Abs(cx) > maxChunk || Abs(cz) > maxChunk {
        return;
      }
      var placed := Visit(key, r);
      if placed {
        count := before + 1;
      }
    }

    /** The loop over cz. */
    method VisitColumn(c: Key, r: int, cx: int, before: int, ghost target: Scene) returns (count: int)
      requires cx <= c.x + r && Ahead(ColumnsOn(Settings().view, c, r, cx), before, target)
      modifies this
      ensures Ahead(ColumnsOn(Settings().view, c, r, cx + 1), count, target)
    {
      count := before;
      ColumnStarts(Settings().view, c, r, cx);
      var cz := c.z - r;
      while cz <= c.z + r && count < buildBudget
        invariant Ahead(Rest(Settings().view, c, r, cx, cz), count, target)
        decreases c.z + r - cz
      {
        count := Step(c, r, cx, cz, count, target);
        cz := cz + 1;
      }
      if cz > c.z + r {
        ColumnEnds(Settings().view, c, r, cx, cz);
      }
    }

    /** The loop over cx. */
    method VisitRing(c: Key, r: int, before: int, ghost target: Scene) returns (count: int)
      requires 0 <= r <= viewRadius && Ahead(Rings(Settings().view, c, r), before, target)
      modifies this
      ensures Ahead(Rings(Settings().view, c, r + 1), count, target)
    {
      count := before;
      var cx := c.x - r;
      while cx <= c.x + r && count < buildBudget
        invariant Ahead(ColumnsOn(Settings().view, c, r, cx), count, target)
        decreases c.x + r - cx
      {
        count := VisitColumn(c, r, cx, count, target);
        cx := cx + 1;
      }
      if cx > c.x + r {
        RingEnds(Settings().view, c, r, cx);
      }
    }

    /** update(x, z): the whole effect of one call, for every position and every option. */
    method Update(x: real, z: real)
      requires Valid()
      modifies this
      ensures Valid()
      ensures State() == UpdateScene(Settings(), ChunkAt(x, z), old(State()))
    {
      var c := Key((x / CHUNK_SIZE).Floor, (z / CHUNK_SIZE).Floor);
      ghost var target := UpdateScene(Settings(), c, State());
      UpdateRefines(Settings(), c, State());
      UnloadFar(c);
      assert State() == UnloadAll(Settings(), c, old(State()), old(loaded));
      var count := 0;
      var r := 0;
      while r <= viewRadius && count < buildBudget
        invariant 0 <= r && Ahead(Rings(Settings().view, c, r), count, target)
        decreases viewRadius - r
      {
        count := VisitRing(c, r, count, target);
        r := r + 1;
      }
    }

    method Dispose()
      requires Valid()
      modifies this
      ensures Valid()
      ensures State() == DisposeScene(old(State()))
    {
      DisposeKeeps(Settings(), State());
      DisposeAll(Values(loaded));
      DisposeAll(Values(lru));
      loaded, lru, group := [], [], [];
    }

    method DisposeAll(chunks: seq<Chunk>)
      modifies this`disposed
      ensures disposed == old(disposed) + chunks
    {
      for i := 0 to |chunks|
        invariant disposed == old(disposed) + chunks[..i]
      {
        DisposeChunk(chunks[i]);
      }
    }
  }
}
