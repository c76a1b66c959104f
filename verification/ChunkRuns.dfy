/** Whole runs of the chunk manager: ownership of every chunk, independence of the cache, and
    which chunks carry props. */
module ChunkRuns {
  import opened Common
  import opened JsMap
  import opened Streamer
  import opened Chunks

  /** What `loaded` shows, forgetting which chunk objects show it. */
  function ViewOf(m: OrderedMap<Key, Chunk>): View {
    seq(|m|, i requires 0 <= i < |m| => Entry(m[i].key, m[i].val.lod))
  }

  lemma ViewParts(m: OrderedMap<Key, Chunk>, e: Entry<Key, Chunk>)
    ensures m != [] ==> ViewOf(m)[1..] == ViewOf(m[1..]) && ViewOf(m)[0] == Entry(m[0].key, m[0].val.lod)
    ensures ViewOf([e] + m) == [Entry(e.key, e.val.lod)] + ViewOf(m)
    ensures ViewOf(m + [e]) == ViewOf(m) + [Entry(e.key, e.val.lod)]
  {
  }

  lemma {:induction false} ViewGet(m: OrderedMap<Key, Chunk>, k: Key)
    ensures Get(ViewOf(m), k) == match Get(m, k) case Some(c) => Some(c.lod) case None => None
  {
    if m != [] {
      ViewParts(m, m[0]);
      ViewGet(m[1..], k);
    }
  }

  lemma {:induction false} ViewDelete(m: OrderedMap<Key, Chunk>, k: Key)
    ensures ViewOf(Delete(m, k)) == Delete(ViewOf(m), k)
  {
    if m != [] {
      ViewParts(m, m[0]);
      ViewParts(Delete(m[1..], k), m[0]);
      ViewDelete(m[1..], k);
    }
  }

  // ----------------------------------------------------- one update, in parts

  lemma RetireEntry(f: Config, s: Scene, k: Key)
    requires Owned(f, s) && Has(s.loaded, k)
    ensures var c := Get(s.loaded, k).value;
            var r := Retire(f, s, k, c);
            && Owned(f, r) && r.loaded == Delete(s.loaded, k) && r.built == s.built && !Has(r.loaded, k)
            && c.key == k && c in s.group
  {
    GetIsEntry(s.loaded, k);
    var c := Get(s.loaded, k).value;
    var i :| 0 <= i < |s.loaded| && s.loaded[i] == Entry(k, c);
    RetireKeeps(f, s, i);
    RetireIs(f, s, i);
    GetAfter(s.loaded, k, c, k);
    assert s.group[i] == c;
  }

  /** What both passes guarantee: ownership, and the same view as the cache-free streamer. */
  ghost predicate Refines(f: Config, s: Scene, v: View) {
    Owned(f, s) && ViewOf(s.loaded) == v
  }

  lemma UnloadOneRefines(f: Config, c: Key, s: Scene, e: Entry<Key, Chunk>)
    requires Owned(f, s) && e in s.loaded
    ensures var v := ViewOf(s.loaded);
            Refines(f, UnloadOne(f, c, s, e), if Ring(e.key, c) > f.view.viewRadius then Delete(v, e.key) else v)
    ensures UnloadOne(f, c, s, e).built == s.built
    ensures forall x :: x in s.loaded && x.key != e.key ==> x in UnloadOne(f, c, s, e).loaded
  {
    GetIsEntry(s.loaded, e.key);
    if Ring(e.key, c) > f.view.viewRadius {
      RetireEntry(f, s, e.key);
      ViewDelete(s.loaded, e.key);
      forall x | x in s.loaded && x.key != e.key ensures x in Delete(s.loaded, e.key) {
        GetIsEntry(s.loaded, x.key);
        GetAfter(s.loaded, e.key, e.val, x.key);
        GetIsEntry(Delete(s.loaded, e.key), x.key);
      }
    }
  }

  lemma {:induction false} UnloadAllRefines(f: Config, c: Key, s: Scene, entries: OrderedMap<Key, Chunk>)
    requires Owned(f, s) && Unique(entries) && forall e :: e in entries ==> e in s.loaded
    ensures Refines(f, UnloadAll(f, c, s, entries), Unload(f.view, c, ViewOf(s.loaded), ViewOf(entries)))
    ensures UnloadAll(f, c, s, entries).built == s.built
    decreases |entries|
  {
    if entries != [] {
      var e := entries[0];
      ViewParts(entries, e);
      UnloadOneRefines(f, c, s, e);
      UnloadAllRefines(f, c, UnloadOne(f, c, s, e), entries[1..]);
    }
  }

  lemma AdmitRefines(f: Config, s: Scene, w: Want)
    requires Owned(f, s) && !Has(s.loaded, w.key)
    ensures Refines(f, Admit(f, s, w), Set(ViewOf(s.loaded), w.key, w.lod))
  {
    AdmitKeeps(f, s, w);
    AdmitIs(f, s, w);
    ViewParts(s.loaded, Entry(w.key, Admitted(f, s, w)));
    ViewGet(s.loaded, w.key);
    SetAppends(ViewOf(s.loaded), w.key, w.lod);
  }

  /** A cache hit and a rebuild show the same thing. */
  lemma LoadOneRefines(f: Config, s: Scene, w: Want)
    requires Owned(f, s)
    ensures Present(s, w) <==> Shown(ViewOf(s.loaded), w)
    ensures Refines(f, LoadOne(f, s, w), if Present(s, w) then ViewOf(s.loaded) else Show(ViewOf(s.loaded), w))
  {
    ViewGet(s.loaded, w.key);
    match Get(s.loaded, w.key) {
      case Some(c) =>
        if c.lod != w.lod {
          RetireEntry(f, s, w.key);
          ViewDelete(s.loaded, w.key);
          AdmitRefines(f, Retire(f, s, w.key, c), w);
        }
      case None =>
        AdmitRefines(f, s, w);
        DeleteAbsent(ViewOf(s.loaded), w.key);
    }
  }

  lemma {:induction false} LoadAllRefines(f: Config, s: Scene, wants: seq<Want>, budget: int)
    requires Owned(f, s)
    ensures Refines(f, LoadAll(f, s, wants, budget), Load(ViewOf(s.loaded), wants, budget))
    decreases |wants|
  {
    if wants != [] && budget > 0 {
      LoadOneRefines(f, s, wants[0]);
      LoadAllRefines(f, LoadOne(f, s, wants[0]), wants[1..], if Present(s, wants[0]) then budget else budget - 1);
    }
  }

  lemma UpdateRefines(f: Config, c: Key, s: Scene)
    requires Owned(f, s)
    ensures Refines(f, UpdateScene(f, c, s), Update(f.view, c, ViewOf(s.loaded)))
  {
    UnloadAllRefines(f, c, s, s.loaded);
    LoadAllRefines(f, UnloadAll(f, c, s, s.loaded), Wanted(f.view, c), f.view.buildBudget);
  }

  // ------------------------------------------------------------------- runs

  const CHUNK_SIZE := 64.0

  /** The chunk a world position lies in. */
  function ChunkAt(x: real, z: real): Key {
    Key((x / CHUNK_SIZE).Floor, (z / CHUNK_SIZE).Floor)
  }

  /** A call of a public method. */
  datatype Call = UpdateTo(x: real, z: real) | Dispose

  function Apply(f: Config, s: Scene, call: Call): Scene {
    match call
    case UpdateTo(x, z) => UpdateScene(f, ChunkAt(x, z), s)
    case Dispose => DisposeScene(s)
  }

  /** The scene after any sequence of calls on a new manager. */
  function After(f: Config, calls: seq<Call>): Scene
    decreases |calls|
  {
    if calls == [] then EMPTY else Apply(f, After(f, calls[..|calls| - 1]), calls[|calls| - 1])
  }

  /** The same for the cache-free streamer. */
  function ViewAfter(o: Options, calls: seq<Call>): View
    decreases |calls|
  {
    if calls == [] then []
    else match calls[|calls| - 1]
      case UpdateTo(x, z) => Update(o, ChunkAt(x, z), ViewAfter(o, calls[..|calls| - 1]))
      case Dispose => []
  }

  lemma DisposeKeeps(f: Config, s: Scene)
    requires Owned(f, s)
    ensures Owned(f, DisposeScene(s)) && multiset(DisposeScene(s).disposed) == multiset(s.built)
  {
  }

  /** The manager with its cache refines the streamer without one, over every run. */
  lemma {:induction false} RunRefines(f: Config, calls: seq<Call>)
    ensures Refines(f, After(f, calls), ViewAfter(f.view, calls))
    decreases |calls|
  {
    if calls == [] {
      assert Values<Key, Chunk>([]) == [] && Values<CacheKey, Chunk>([]) == [];
    } else {
      var s := After(f, calls[..|calls| - 1]);
      RunRefines(f, calls[..|calls| - 1]);
      match calls[|calls| - 1] {
        case UpdateTo(x, z) => UpdateRefines(f, ChunkAt(x, z), s);
        case Dispose => DisposeKeeps(f, s);
      }
    }
  }

  lemma RunShows(f: Config, calls: seq<Call>)
    ensures ViewOf(After(f, calls).loaded) == ViewAfter(f.view, calls)
  {
    RunRefines(f, calls);
  }

  /** Cache transparency: what is shown does not depend on cacheSize, 0 included, nor on the
      scatter radius; not even the order of the entries does. */
  lemma CacheTransparent(f: Config, g: Config, calls: seq<Call>)
    requires f.view == g.view
    ensures ViewOf(After(f, calls).loaded) == ViewOf(After(g, calls).loaded)
  {
    RunShows(f, calls);
    RunShows(g, calls);
  }

  lemma BuiltOnce(built: seq<Chunk>, i: nat)
    requires i < |built| && forall j :: 0 <= j < |built| ==> built[j].serial == j
    ensures multiset(built)[built[i]] == 1
  {
    var before, after := built[..i], built[i + 1..];
    assert built == before + [built[i]] + after;
    forall x | x in before ensures x != built[i] {
      var j :| 0 <= j < i && x == built[j];
    }
    forall x | x in after ensures x != built[i] {
      var j :| i + 1 <= j < |built| && x == built[j];
    }
    assert multiset(built) == multiset(before) + multiset{built[i]} + multiset(after);
  }

  /** Over every run each chunk ever built is loaded, cached or disposed, exactly one of these
      and exactly once; the scene group mirrors `loaded`; no two live chunks share key and lod;
      and a dispose leaves no chunk undisposed. */
  lemma ChunksOwnedOnce(f: Config, calls: seq<Call>, i: nat)
    requires i < |After(f, calls).built|
    ensures var s, c := After(f, calls), After(f, calls).built[i];
            && multiset(Values(s.loaded))[c] + multiset(Values(s.lru))[c] + multiset(s.disposed)[c] == 1
            && s.group == Values(s.loaded) && OneLive(s) && |s.lru| <= f.cacheSize
            && (calls[|calls| - 1] == Dispose ==> multiset(s.disposed)[c] == 1)
  {
    var s := After(f, calls);
    RunRefines(f, calls);
    BuiltOnce(s.built, i);
    assert multiset(s.built)[s.built[i]] == (multiset(Values(s.loaded)) + multiset(Values(s.lru)) + multiset(s.disposed))[s.built[i]];
    assert Values<Key, Chunk>([]) == [] && Values<CacheKey, Chunk>([]) == [];
  }

  // ------------------------------------------------------------ convergence

  function Repeat(call: Call, n: nat): seq<Call> {
    seq(n, _ => call)
  }

  lemma RepeatParts(calls: seq<Call>, call: Call, n: nat)
    ensures n == 0 ==> calls + Repeat(call, n) == calls
    ensures n > 0 ==> calls + Repeat(call, n) == calls + Repeat(call, n - 1) + [call]
  {
  }

  lemma RepeatSnoc(f: Config, calls: seq<Call>, call: Call, n: nat)
    requires n > 0
    ensures calls + Repeat(call, n) == calls + Repeat(call, n - 1) + [call]
    ensures After(f, calls + Repeat(call, n)) == Apply(f, After(f, calls + Repeat(call, n - 1)), call)
  {
  }

  lemma ViewAfterUpdate(o: Options, calls: seq<Call>, x: real, z: real)
    ensures ViewAfter(o, calls + [UpdateTo(x, z)]) == Update(o, ChunkAt(x, z), ViewAfter(o, calls))
  {
  }

  lemma {:induction false} RepeatedView(o: Options, calls: seq<Call>, x: real, z: real, n: nat)
    ensures ViewAfter(o, calls + Repeat(UpdateTo(x, z), n)) == Updates(o, ChunkAt(x, z), ViewAfter(o, calls), n)
  {
    RepeatParts(calls, UpdateTo(x, z), n);
    if n > 0 {
      RepeatedView(o, calls, x, z, n - 1);
      ViewAfterUpdate(o, calls + Repeat(UpdateTo(x, z), n - 1), x, z);
    }
  }

  lemma {:induction false} RunStaysInWorld(o: Options, calls: seq<Call>)
    ensures WorldView(o, ViewAfter(o, calls))
    decreases |calls|
  {
    if calls != [] {
      RunStaysInWorld(o, calls[..|calls| - 1]);
      match calls[|calls| - 1] {
        case UpdateTo(x, z) => UpdateKeepsWorld(o, ChunkAt(x, z), ViewAfter(o, calls[..|calls| - 1]));
        case Dispose =>
      }
    }
  }

  /** After any run, n updates at one position with n * budget >= (2V + 1)^2 leave loaded exactly
      the in-range chunks of the world, each at its resolution. */
  lemma ManagerConverges(f: Config, calls: seq<Call>, x: real, z: real, n: nat)
    requires f.view.buildBudget >= 1 && n >= 1
    requires f.view.viewRadius >= 0 ==> n * f.view.buildBudget >= Square(2 * f.view.viewRadius + 1)
    ensures Settled(f.view, ChunkAt(x, z), ViewOf(After(f, calls + Repeat(UpdateTo(x, z), n)).loaded))
  {
    RunShows(f, calls + Repeat(UpdateTo(x, z), n));
    RepeatedView(f.view, calls, x, z, n);
    RunStaysInWorld(f.view, calls);
    Converges(f.view, ChunkAt(x, z), ViewAfter(f.view, calls), n);
  }

  /** One more update at any position: the chunks in range that are missing or wrong become fewer
      by exactly min(budget, their number), and nearer rings come first. */
  lemma ManagerProgresses(f: Config, calls: seq<Call>, x: real, z: real, near: Key, far: Key)
    requires f.view.buildBudget >= 1
    ensures var c, s, t := ChunkAt(x, z), After(f, calls), After(f, calls + [UpdateTo(x, z)]);
            var before, after := |Missing(ViewOf(s.loaded), Wanted(f.view, c))|, |Missing(ViewOf(t.loaded), Wanted(f.view, c))|;
            && after == (if before <= f.view.buildBudget then 0 else before - f.view.buildBudget)
            && (InRange(f.view, c, near) && Ring(near, c) < Ring(far, c) <= f.view.viewRadius
                && Get(ViewOf(t.loaded), near) != Some(LodAt(f.view, Ring(near, c)))
                ==> Get(ViewOf(t.loaded), far) == Get(ViewOf(s.loaded), far))
  {
    var c, v := ChunkAt(x, z), ViewAfter(f.view, calls);
    assert (calls + [UpdateTo(x, z)])[..|calls|] == calls;
    RunShows(f, calls);
    RunShows(f, calls + [UpdateTo(x, z)]);
    RunStaysInWorld(f.view, calls);
    UpdateMissing(f.view, c, v);
    UnloadKeepsRange(f.view, c, v, far);
    if InRange(f.view, c, near) && Ring(near, c) < Ring(far, c)
       && Get(Update(f.view, c, v), near) != Some(LodAt(f.view, Ring(near, c))) {
      NearestFirst(f.view, c, v, near, far);
    }
  }
}
