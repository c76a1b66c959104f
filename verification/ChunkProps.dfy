/** Which chunks carry vegetation. The option `scatterRadius` is documented as the radius of the
    chunks that get props (frontend/src/world/gen/chunks.ts:22-23), but the ring is looked at
    only when a chunk is BUILT, and a chunk is rebuilt only when its resolution changes. This
    module shows exactly which configurations keep the documented promise. */
module ChunkProps {
  import opened Common
  import opened JsMap
  import opened Streamer
  import opened Chunks
  import opened ChunkRuns

  /** In every settled scene, every chunk within the scatter radius carries props. */
  ghost predicate KeepsPromise(f: Config) {
    forall calls: seq<Call>, x: real, z: real, k: Key ::
      PromiseAt(f, calls + [UpdateTo(x, z)], ChunkAt(x, z), k)
  }

  ghost predicate PromiseAt(f: Config, calls: seq<Call>, c: Key, k: Key) {
    var loaded := After(f, calls).loaded;
    Settled(f.view, c, ViewOf(loaded)) && InRange(f.view, c, k) && Ring(k, c) <= f.scatterRadius
    ==> Has(loaded, k) && Get(loaded, k).value.props
  }

  /** The configurations that keep it: those that show nothing or ask for no props, those whose
      scatter radius covers the whole view, and those where it equals the high-LOD radius. */
  predicate Keeps(f: Config) {
    || f.view.buildBudget <= 0 || f.view.maxChunk < 0
    || f.scatterRadius < 0 || f.view.viewRadius <= f.scatterRadius
    || f.scatterRadius == f.view.highLodRadius
  }

  // ------------------------------------------------- what a chunk was built for

  datatype Kind = Kind(key: Key, lod: int, props: bool)

  function KindOf(c: Chunk): Kind { Kind(c.key, c.lod, c.props) }

  function WantKind(f: Config, w: Want): Kind { Kind(w.key, w.lod, w.ring <= f.scatterRadius) }

  /** `p` holds of every chunk built so far. */
  ghost predicate AllBuilt(s: Scene, p: Kind -> bool) {
    forall c :: c in s.built ==> p(KindOf(c))
  }

  lemma LoadOneBuilds(f: Config, s: Scene, w: Want, p: Kind -> bool)
    requires Owned(f, s) && AllBuilt(s, p) && p(WantKind(f, w))
    ensures AllBuilt(LoadOne(f, s, w), p)
  {
    match Get(s.loaded, w.key) {
      case Some(c) =>
        if c.lod != w.lod {
          RetireEntry(f, s, w.key);
          AdmitIs(f, Retire(f, s, w.key, c), w);
        }
      case None =>
        AdmitIs(f, s, w);
    }
  }

  lemma {:induction false} LoadAllBuilds(f: Config, s: Scene, wants: seq<Want>, budget: int, p: Kind -> bool)
    requires Owned(f, s) && AllBuilt(s, p) && forall w :: w in wants ==> p(WantKind(f, w))
    ensures AllBuilt(LoadAll(f, s, wants, budget), p)
    decreases |wants|
  {
    if wants != [] && budget > 0 {
      assert wants[0] in wants && forall w :: w in wants[1..] ==> w in wants;
      LoadOneRefines(f, s, wants[0]);
      LoadOneBuilds(f, s, wants[0], p);
      LoadAllBuilds(f, LoadOne(f, s, wants[0]), wants[1..], if Present(s, wants[0]) then budget else budget - 1, p);
    }
  }

  /** A property of all that the loops ask for around `c`, and of all built before. */
  lemma UpdateBuilds(f: Config, c: Key, s: Scene, p: Kind -> bool)
    requires Owned(f, s) && AllBuilt(s, p) && forall w :: w in Wanted(f.view, c) ==> p(WantKind(f, w))
    ensures AllBuilt(UpdateScene(f, c, s), p)
  {
    UnloadAllRefines(f, c, s, s.loaded);
    LoadAllBuilds(f, UnloadAll(f, c, s, s.loaded), Wanted(f.view, c), f.view.buildBudget, p);
  }

  /** A loaded chunk has been built. */
  lemma LoadedWasBuilt(f: Config, s: Scene, k: Key)
    requires Owned(f, s) && Has(s.loaded, k)
    ensures Get(s.loaded, k).value in s.built && Get(s.loaded, k).value.key == k
  {
    RetireEntry(f, s, k);
    var c := Get(s.loaded, k).value;
    assert c in multiset(s.group);
    assert c in multiset(Values(s.loaded)) + multiset(Values(s.lru)) + multiset(s.disposed);
  }

  // ---------------------------------------------------------- keeping it

  /** The two radius conditions under which props follow from the resolution alone. */
  predicate RadiiAgree(f: Config) {
    f.view.viewRadius <= f.scatterRadius || f.scatterRadius == f.view.highLodRadius
  }

  predicate PropsByLod(f: Config, k: Kind) {
    (f.view.viewRadius <= f.scatterRadius || k.lod == 0) ==> k.props
  }

  lemma {:induction false} PropsFollowLod(f: Config, calls: seq<Call>)
    requires RadiiAgree(f)
    ensures AllBuilt(After(f, calls), k => PropsByLod(f, k))
    decreases |calls|
  {
    if calls != [] {
      var s := After(f, calls[..|calls| - 1]);
      PropsFollowLod(f, calls[..|calls| - 1]);
      RunRefines(f, calls[..|calls| - 1]);
      match calls[|calls| - 1] {
        case UpdateTo(x, z) =>
          var c := ChunkAt(x, z);
          forall w | w in Wanted(f.view, c) ensures PropsByLod(f, WantKind(f, w)) {
            WantedIsRange(f.view, c, w);
          }
          UpdateBuilds(f, c, s, k => PropsByLod(f, k));
        case Dispose =>
      }
    }
  }

  lemma {:induction false} NothingWithoutBudget(o: Options, calls: seq<Call>)
    requires o.buildBudget <= 0
    ensures ViewAfter(o, calls) == []
    decreases |calls|
  {
    if calls != [] {
      NothingWithoutBudget(o, calls[..|calls| - 1]);
    }
  }

  lemma KeepsIsEnough(f: Config, calls: seq<Call>, x: real, z: real, k: Key)
    requires Keeps(f)
    ensures PromiseAt(f, calls + [UpdateTo(x, z)], ChunkAt(x, z), k)
  {
    var all, c := calls + [UpdateTo(x, z)], ChunkAt(x, z);
    var s := After(f, all);
    RunRefines(f, all);
    ViewGet(s.loaded, k);
    if Settled(f.view, c, ViewOf(s.loaded)) && InRange(f.view, c, k) && Ring(k, c) <= f.scatterRadius {
      assert Get(ViewOf(s.loaded), k) == Some(LodAt(f.view, Ring(k, c)));
      if f.view.buildBudget <= 0 {
        NothingWithoutBudget(f.view, all);
      } else {
        PropsFollowLod(f, all);
        LoadedWasBuilt(f, s, k);
        assert PropsByLod(f, KindOf(Get(s.loaded, k).value));
      }
    }
  }

  // --------------------------------------------------------- breaking it

  lemma UnloadOneLeaves(f: Config, c: Key, s: Scene, e: Entry<Key, Chunk>, k: Key)
    requires Owned(f, s) && e in s.loaded && Ring(k, c) <= f.view.viewRadius
    ensures Get(UnloadOne(f, c, s, e).loaded, k) == Get(s.loaded, k)
  {
    GetIsEntry(s.loaded, e.key);
    if Ring(e.key, c) > f.view.viewRadius {
      RetireEntry(f, s, e.key);
      GetAfter(s.loaded, e.key, e.val, k);
    }
  }

  /** A chunk that stays in range at its resolution is not touched by an update. */
  lemma {:induction false} UnloadAllLeaves(f: Config, c: Key, s: Scene, entries: OrderedMap<Key, Chunk>, k: Key)
    requires Owned(f, s) && Unique(entries) && forall e :: e in entries ==> e in s.loaded
    requires Ring(k, c) <= f.view.viewRadius
    ensures Get(UnloadAll(f, c, s, entries).loaded, k) == Get(s.loaded, k)
    decreases |entries|
  {
    if entries != [] {
      var e := entries[0];
      UnloadOneRefines(f, c, s, e);
      UnloadOneLeaves(f, c, s, e, k);
      UnloadAllLeaves(f, c, UnloadOne(f, c, s, e), entries[1..], k);
    }
  }

  lemma LoadOneLeaves(f: Config, s: Scene, w: Want, k: Key)
    requires Owned(f, s) && (w.key == k ==> Present(s, w))
    ensures Get(LoadOne(f, s, w).loaded, k) == Get(s.loaded, k)
  {
    if w.key != k {
      match Get(s.loaded, w.key) {
        case Some(c) =>
          if c.lod != w.lod {
            RetireEntry(f, s, w.key);
            var r := Retire(f, s, w.key, c);
            GetAfter(s.loaded, w.key, c, k);
            AdmitIs(f, r, w);
            SetAppends(r.loaded, w.key, Admitted(f, r, w));
            GetAfter(r.loaded, w.key, Admitted(f, r, w), k);
          }
        case None =>
          AdmitIs(f, s, w);
          SetAppends(s.loaded, w.key, Admitted(f, s, w));
          GetAfter(s.loaded, w.key, Admitted(f, s, w), k);
      }
    }
  }

  lemma {:induction false} LoadAllLeaves(f: Config, s: Scene, wants: seq<Want>, budget: int, k: Key)
    requires Owned(f, s) && forall w :: w in wants && w.key == k ==> Present(s, w)
    ensures Get(LoadAll(f, s, wants, budget).loaded, k) == Get(s.loaded, k)
    decreases |wants|
  {
    if wants != [] && budget > 0 {
      LoadOneRefines(f, s, wants[0]);
      LoadOneLeaves(f, s, wants[0], k);
      LoadAllLeaves(f, LoadOne(f, s, wants[0]), wants[1..], if Present(s, wants[0]) then budget else budget - 1, k);
    }
  }

  lemma UpdateLeaves(f: Config, c: Key, s: Scene, k: Key)
    requires Owned(f, s) && InRange(f.view, c, k)
    requires Has(s.loaded, k) && Get(s.loaded, k).value.lod == LodAt(f.view, Ring(k, c))
    ensures Get(UpdateScene(f, c, s).loaded, k) == Get(s.loaded, k)
  {
    UnloadAllRefines(f, c, s, s.loaded);
    UnloadAllLeaves(f, c, s, s.loaded, k);
    var u := UnloadAll(f, c, s, s.loaded);
    forall w | w in Wanted(f.view, c) && w.key == k ensures Present(u, w) {
      WantedIsRange(f.view, c, w);
    }
    LoadAllLeaves(f, u, Wanted(f.view, c), f.view.buildBudget, k);
  }

  lemma {:induction false} RepeatLeaves(f: Config, calls: seq<Call>, x: real, z: real, n: nat, k: Key)
    requires var s, c := After(f, calls), ChunkAt(x, z);
             InRange(f.view, c, k) && Has(s.loaded, k) && Get(s.loaded, k).value.lod == LodAt(f.view, Ring(k, c))
    ensures Get(After(f, calls + Repeat(UpdateTo(x, z), n)).loaded, k) == Get(After(f, calls).loaded, k)
  {
    if n == 0 {
      assert calls + Repeat(UpdateTo(x, z), n) == calls;
    } else {
      RepeatSnoc(f, calls, UpdateTo(x, z), n);
      RepeatLeaves(f, calls, x, z, n - 1, k);
      RunRefines(f, calls + Repeat(UpdateTo(x, z), n - 1));
      UpdateLeaves(f, ChunkAt(x, z), After(f, calls + Repeat(UpdateTo(x, z), n - 1)), k);
    }
  }

  predicate PropsByRing(f: Config, c: Key, k: Kind) {
    k.props <==> Ring(k.key, c) <= f.scatterRadius
  }

  /** Updates at one position from a new manager: props exactly within the scatter radius of it. */
  lemma {:induction false} FreshProps(f: Config, x: real, z: real, n: nat)
    ensures AllBuilt(After(f, Repeat(UpdateTo(x, z), n)), (k: Kind) => PropsByRing(f, ChunkAt(x, z), k))
  {
    var c := ChunkAt(x, z);
    if n > 0 {
      var s := After(f, Repeat(UpdateTo(x, z), n - 1));
      RepeatSnoc(f, [], UpdateTo(x, z), n);
      assert forall m: nat :: [] + Repeat(UpdateTo(x, z), m) == Repeat(UpdateTo(x, z), m);
      FreshProps(f, x, z, n - 1);
      RunRefines(f, Repeat(UpdateTo(x, z), n - 1));
      forall w | w in Wanted(f.view, c) ensures PropsByRing(f, c, WantKind(f, w)) {
        WantedIsRange(f.view, c, w);
      }
      UpdateBuilds(f, c, s, (k: Kind) => PropsByRing(f, c, k));
    }
  }

  /** How often to update so that the square is covered whatever the budget. */
  function Enough(f: Config): nat {
    if f.view.viewRadius < 0 then 1 else Square(2 * f.view.viewRadius + 1)
  }

  lemma EnoughIsEnough(f: Config)
    requires f.view.buildBudget >= 1
    ensures Enough(f) >= 1
    ensures f.view.viewRadius >= 0 ==> Enough(f) * f.view.buildBudget >= Square(2 * f.view.viewRadius + 1)
  {
  }

  /** The position `n` chunks along the x axis. */
  function Along(n: int): real { n as real * CHUNK_SIZE }

  lemma AlongIsChunk(n: int)
    ensures ChunkAt(Along(n), 0.0) == Key(n, 0)
  {
  }

  lemma FarChunkIsShown(f: Config)
    requires !Keeps(f)
    ensures var loaded := After(f, Repeat(UpdateTo(Along(f.scatterRadius + 1), 0.0), Enough(f))).loaded;
            Get(ViewOf(loaded), Key(0, 0)) == Some(LodAt(f.view, f.scatterRadius + 1))
  {
    var x, n := Along(f.scatterRadius + 1), Enough(f);
    AlongIsChunk(f.scatterRadius + 1);
    EnoughIsEnough(f);
    assert [] + Repeat(UpdateTo(x, 0.0), n) == Repeat(UpdateTo(x, 0.0), n);
    ManagerConverges(f, [], x, 0.0, n);
    assert InRange(f.view, ChunkAt(x, 0.0), Key(0, 0));
  }

  /** Standing scatterRadius + 1 chunks away until the scene settles, chunk (0, 0) is loaded at
      the resolution of that ring, without props. */
  lemma FarChunkIsBare(f: Config)
    requires !Keeps(f)
    ensures var s := After(f, Repeat(UpdateTo(Along(f.scatterRadius + 1), 0.0), Enough(f)));
            && Has(s.loaded, Key(0, 0)) && !Get(s.loaded, Key(0, 0)).value.props
            && Get(s.loaded, Key(0, 0)).value.lod == LodAt(f.view, f.scatterRadius + 1)
  {
    var x, n, k := Along(f.scatterRadius + 1), Enough(f), Key(0, 0);
    var s := After(f, Repeat(UpdateTo(x, 0.0), n));
    FarChunkIsShown(f);
    ViewGet(s.loaded, k);
    AlongIsChunk(f.scatterRadius + 1);
    RunRefines(f, Repeat(UpdateTo(x, 0.0), n));
    FreshProps(f, x, 0.0, n);
    LoadedWasBuilt(f, s, k);
    assert PropsByRing(f, ChunkAt(x, 0.0), KindOf(Get(s.loaded, k).value));
  }

  /** Any other configuration breaks it: stand scatterRadius + 1 chunks from chunk (0, 0) until
      the scene settles, then come one chunk nearer and let it settle again. The chunk keeps its
      resolution, so it is never rebuilt, and never gets its props. */
  lemma NothingElseKeeps(f: Config)
    requires !Keeps(f)
    ensures !KeepsPromise(f)
  {
    var x, n, k := Along(f.scatterRadius), Enough(f), Key(0, 0);
    var first := Repeat(UpdateTo(Along(f.scatterRadius + 1), 0.0), n);
    FarChunkIsBare(f);
    AlongIsChunk(f.scatterRadius);
    EnoughIsEnough(f);
    ManagerConverges(f, first, x, 0.0, n);
    RepeatLeaves(f, first, x, 0.0, n, k);
    RepeatSnoc(f, first, UpdateTo(x, 0.0), n);
    assert !PromiseAt(f, first + Repeat(UpdateTo(x, 0.0), n - 1) + [UpdateTo(x, 0.0)], ChunkAt(x, 0.0), k);
  }

  /** The documented meaning of scatterRadius holds exactly for the configurations of `Keeps`. */
  lemma ScatterRadiusMeans(f: Config)
    ensures KeepsPromise(f) <==> Keeps(f)
  {
    if Keeps(f) {
      forall calls: seq<Call>, x: real, z: real, k: Key
        ensures PromiseAt(f, calls + [UpdateTo(x, z)], ChunkAt(x, z), k)
      {
        KeepsIsEnough(f, calls, x, z, k);
      }
    } else {
      NothingElseKeeps(f);
    }
  }

  /** The shipped defaults (viewRadius 3, highLodRadius 1, scatterRadius 2, cacheSize 24,
      buildBudget 2; a world of half-size 400 has maxChunk 7) are not among them. */
  lemma DefaultsBreakThePromise()
    ensures !KeepsPromise(Config(Options(3, 1, 2, 7), 2, 24))
  {
    NothingElseKeeps(Config(Options(3, 1, 2, 7), 2, 24));
  }
}
