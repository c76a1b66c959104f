/** What a player sees of the chunk manager (frontend/src/world/gen/chunks.ts), in world
    coordinates: which chunk is the focus, what is loaded around it, in which order chunks come,
    and in which order retired ones go. */
module ChunkLaws {
  import opened Common
  import opened JsMap
  import opened Streamer
  import opened StreamerOrder
  import opened Chunks
  import opened ChunkRuns

  /** Chunk (cx, cz) covers [64 cx, 64 (cx + 1)) x [64 cz, 64 (cz + 1)). */
  predicate Covers(k: Key, x: real, z: real) {
    && k.x as real * 64.0 <= x < (k.x + 1) as real * 64.0
    && k.z as real * 64.0 <= z < (k.z + 1) as real * 64.0
  }

  lemma FloorOfQuotient(v: real, n: int)
    ensures (v / 64.0).Floor == n <==> n as real * 64.0 <= v < (n + 1) as real * 64.0
  {
  }

  /** The focus is the one chunk that covers the position. */
  lemma FocusCovers(x: real, z: real, k: Key)
    ensures k == ChunkAt(x, z) <==> Covers(k, x, z)
  {
    FloorOfQuotient(x, k.x);
    FloorOfQuotient(z, k.z);
  }

  predicate InWorldSquare(o: Options, k: Key) {
    -o.maxChunk <= k.x <= o.maxChunk && -o.maxChunk <= k.z <= o.maxChunk
  }

  /** maxChunk is large enough for every position of the world. */
  lemma WorldIsCovered(extent: real, x: real, z: real, k: Key)
    requires -extent <= x <= extent && -extent <= z <= extent && Covers(k, x, z)
    ensures -Ceil(extent / 64.0) <= k.x <= Ceil(extent / 64.0) && -Ceil(extent / 64.0) <= k.z <= Ceil(extent / 64.0)
  {
    FloorOfQuotient(x, k.x);
    FloorOfQuotient(z, k.z);
    assert -(extent / 64.0) <= x / 64.0 <= extent / 64.0 && -(extent / 64.0) <= z / 64.0 <= extent / 64.0;
  }

  /** The focus is the first chunk asked for. */
  lemma FocusFirst(o: Options, c: Key)
    requires o.viewRadius >= 0 && o.highLodRadius >= 0 && InWorldSquare(o, c)
    ensures Wanted(o, c) != [] && Wanted(o, c)[0] == Want(c, 0, 0)
  {
    assert Column(o, c, 0, c.x, c.z) == Cell(o, c, 0, c.x, c.z) + Column(o, c, 0, c.x, c.z + 1);
    assert Columns(o, c, 0, c.x) == Column(o, c, 0, c.x, c.z) + Columns(o, c, 0, c.x + 1);
    assert Rings(o, c, 0) == Columns(o, c, 0, c.x) + Rings(o, c, 1);
  }

  lemma FocusServed(o: Options, c: Key, v: View)
    requires WorldView(o, v) && o.buildBudget >= 1 && o.viewRadius >= 0 && o.highLodRadius >= 0 && InWorldSquare(o, c)
    ensures Get(Update(o, c, v), c) == Some(0)
  {
    var wants, u := Wanted(o, c), Unload(o, c, v, v);
    FocusFirst(o, c);
    UnloadShowsAlike(o, c, v);
    WantedIsConsistent(o, c);
    if Shown(u, wants[0]) {
      assert wants == [wants[0]] + wants[1..];
      assert forall a :: a in [wants[0]] + wants <==> a in wants;
      LoadKeepsShown(u, wants, o.buildBudget, wants[0]);
    } else {
      assert wants[..0] == [];
      LoadReaches(u, wants, o.buildBudget, 0);
    }
  }

  /** One update is enough for the ground below the player: the chunk that covers the position is
      loaded, at high resolution. */
  lemma GroundBelow(f: Config, calls: seq<Call>, x: real, z: real, k: Key)
    requires f.view.buildBudget >= 1 && f.view.viewRadius >= 0 && f.view.highLodRadius >= 0
    requires Covers(k, x, z) && InWorldSquare(f.view, k)
    ensures var loaded := After(f, calls + [UpdateTo(x, z)]).loaded;
            Get(loaded, k).Some? && Get(loaded, k).value.key == k && Get(loaded, k).value.lod == 0
  {
    var all := calls + [UpdateTo(x, z)];
    FocusCovers(x, z, k);
    RunRefines(f, all);
    RunStaysInWorld(f.view, calls);
    ViewAfterUpdate(f.view, calls, x, z);
    FocusServed(f.view, k, ViewAfter(f.view, calls));
    ViewGet(After(f, all).loaded, k);
    GetIsEntry(After(f, all).loaded, k);
  }

  /** What is to be shown around chunk `c`: the square of half-size V, as far as the world goes, at
      high resolution within the square of half-size H. */
  function Picture(o: Options, c: Key, k: Key): Option<int> {
    if !Within(c, k, o.viewRadius) || !InWorldSquare(o, k) then None
    else if Within(c, k, o.highLodRadius) then Some(0) else Some(1)
  }

  /** After any run, enough updates at one position show exactly that picture. */
  lemma PictureShown(f: Config, calls: seq<Call>, x: real, z: real, n: nat, c: Key, k: Key)
    requires f.view.buildBudget >= 1 && n >= 1 && Covers(c, x, z)
    requires f.view.viewRadius >= 0 ==> n * f.view.buildBudget >= Square(2 * f.view.viewRadius + 1)
    ensures Get(ViewOf(After(f, calls + Repeat(UpdateTo(x, z), n)).loaded), k) == Picture(f.view, c, k)
  {
    FocusCovers(x, z, c);
    ManagerConverges(f, calls, x, z, n);
    RingIsSquare(c, k, f.view.viewRadius);
    RingIsSquare(c, k, f.view.highLodRadius);
  }

  /** Which chunks one more update serves, after any run: those that are lacking with fewer than
      `budget` lacking ones before them, in the order of squares, cx and cz. */
  lemma ServedExactly(f: Config, calls: seq<Call>, x: real, z: real, c: Key, k: Key)
    requires Covers(c, x, z) && k in Lacking(f.view, c, ViewOf(After(f, calls).loaded))
    ensures Get(ViewOf(After(f, calls + [UpdateTo(x, z)]).loaded), k) == Picture(f.view, c, k)
            <==> |set m | m in Lacking(f.view, c, ViewOf(After(f, calls).loaded)) && Precedes(c, m, k)| < f.view.buildBudget
  {
    FocusCovers(x, z, c);
    RunShows(f, calls);
    UpdateShows(f, calls, x, z);
    RunStaysInWorld(f.view, calls);
    ServedInView(f.view, c, ViewAfter(f.view, calls), k);
  }

  lemma UpdateShows(f: Config, calls: seq<Call>, x: real, z: real)
    ensures ViewOf(After(f, calls + [UpdateTo(x, z)]).loaded) == Update(f.view, ChunkAt(x, z), ViewAfter(f.view, calls))
  {
    RunShows(f, calls + [UpdateTo(x, z)]);
    ViewAfterUpdate(f.view, calls, x, z);
  }

  lemma ServedInView(o: Options, c: Key, v: View, k: Key)
    requires WorldView(o, v) && k in Lacking(o, c, v)
    ensures Get(Update(o, c, v), k) == Picture(o, c, k)
            <==> |set m | m in Lacking(o, c, v) && Precedes(c, m, k)| < o.buildBudget
  {
    LackingMeans(o, c, v, k);
    UpdateReaches(o, c, v, k);
  }

  // ------------------------------------------------------- first in, first out

  /** All chunks that have left the scene and not come back, oldest first. */
  function Queue(s: Scene): seq<Chunk> { s.disposed + Values(s.lru) }

  lemma ValuesAppend(lru: OrderedMap<CacheKey, Chunk>, e: Entry<CacheKey, Chunk>)
    ensures Values(lru + [e]) == Values(lru) + [e.val]
    ensures [(lru + [e])[0].val] + Values((lru + [e])[1..]) == Values(lru + [e])
  {
  }

  lemma QueueShifts(disposed: seq<Chunk>, lru: OrderedMap<CacheKey, Chunk>, e: Entry<CacheKey, Chunk>)
    ensures var queue := lru + [e];
            && disposed + Values(queue) == disposed + Values(lru) + [e.val]
            && (disposed + [queue[0].val]) + Values(queue[1..]) == disposed + Values(lru) + [e.val]
  {
    ValuesAppend(lru, e);
    var queue := lru + [e];
    assert (disposed + [queue[0].val]) + Values(queue[1..]) == disposed + ([queue[0].val] + Values(queue[1..]));
  }

  lemma RetireQueues(f: Config, s: Scene, i: nat)
    requires Owned(f, s) && i < |s.loaded|
    ensures Queue(Retire(f, s, s.loaded[i].key, s.loaded[i].val)) == Queue(s) + [s.loaded[i].val]
  {
    var e := s.loaded[i];
    RetireIs(f, s, i);
    QueueShifts(s.disposed, s.lru, Entry(CacheKeyOf(e.val), e.val));
  }

  /** The out-of-range chunks among `entries`, in map order. */
  function Leaving(f: Config, c: Key, entries: OrderedMap<Key, Chunk>): seq<Chunk> {
    if entries == [] then []
    else (if Within(c, entries[0].key, f.view.viewRadius) then [] else [entries[0].val]) + Leaving(f, c, entries[1..])
  }

  lemma UnloadOneQueues(f: Config, c: Key, s: Scene, e: Entry<Key, Chunk>)
    requires Owned(f, s) && e in s.loaded
    ensures Queue(UnloadOne(f, c, s, e)) == Queue(s) + (if Within(c, e.key, f.view.viewRadius) then [] else [e.val])
  {
    RingIsSquare(c, e.key, f.view.viewRadius);
    if Ring(e.key, c) > f.view.viewRadius {
      var i :| 0 <= i < |s.loaded| && s.loaded[i] == e;
      RetireQueues(f, s, i);
    }
  }

  ghost predicate Ready(f: Config, s: Scene, entries: OrderedMap<Key, Chunk>) {
    Owned(f, s) && Unique(entries) && forall e :: e in entries ==> e in s.loaded
  }

  lemma ReadyAfterOne(f: Config, c: Key, s: Scene, entries: OrderedMap<Key, Chunk>)
    requires Ready(f, s, entries) && entries != []
    ensures Ready(f, UnloadOne(f, c, s, entries[0]), entries[1..])
  {
    UnloadOneRefines(f, c, s, entries[0]);
  }

  lemma {:induction false} UnloadQueues(f: Config, c: Key, s: Scene, next: Scene, entries: OrderedMap<Key, Chunk>)
    requires Ready(f, s, entries) && next == UnloadAll(f, c, s, entries)
    ensures Queue(next) == Queue(s) + Leaving(f, c, entries)
    decreases |entries|
  {
    if entries != [] {
      var t := UnloadOne(f, c, s, entries[0]);
      ReadyAfterOne(f, c, s, entries);
      UnloadQueues(f, c, t, next, entries[1..]);
      FirstLeaves(f, c, s, t, entries);
    }
  }

  lemma FirstLeaves(f: Config, c: Key, s: Scene, t: Scene, entries: OrderedMap<Key, Chunk>)
    requires Ready(f, s, entries) && entries != [] && t == UnloadOne(f, c, s, entries[0])
    ensures Queue(t) + Leaving(f, c, entries[1..]) == Queue(s) + Leaving(f, c, entries)
  {
    UnloadOneQueues(f, c, s, entries[0]);
    Reassociate(Queue(s), if Within(c, entries[0].key, f.view.viewRadius) then [] else [entries[0].val],
                Leaving(f, c, entries[1..]));
  }

  lemma Reassociate<T>(a: seq<T>, b: seq<T>, c: seq<T>)
    ensures (a + b) + c == a + (b + c)
  {
  }

  /** The first pass of an update lets the far chunks queue up in map order; whatever does not fit
      the cache is disposed from the front, so the oldest go first. */
  lemma OldestGoFirst(f: Config, calls: seq<Call>, x: real, z: real, c: Key)
    requires Covers(c, x, z)
    ensures var s := After(f, calls);
            var u := UnloadAll(f, c, s, s.loaded);
            && UpdateScene(f, c, s) == LoadAll(f, u, Wanted(f.view, c), f.view.buildBudget)
            && u.disposed + Values(u.lru) == s.disposed + Values(s.lru) + Leaving(f, c, s.loaded)
            && |u.lru| <= f.cacheSize
  {
    var s := After(f, calls);
    RunRefines(f, calls);
    UnloadQueues(f, c, s, UnloadAll(f, c, s, s.loaded), s.loaded);
    UnloadAllRefines(f, c, s, s.loaded);
  }
}
