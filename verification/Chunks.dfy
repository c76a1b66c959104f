/** ChunkManager of frontend/src/world/gen/chunks.ts on values: which chunk objects exist and
    who holds them. A chunk is opaque apart from the fields the manager reads; `serial` is the
    identity of the object. Module ChunkManagement holds the class itself. */
module Chunks {
  import opened Common
  import opened JsMap
  import opened Streamer

  datatype Chunk = Chunk(key: Key, lod: int, props: bool, serial: nat)

  /** The key of the LRU, "cx,cz:lod" in the source. */
  datatype CacheKey = CacheKey(key: Key, lod: int)

  /** All options of a manager. A negative cacheSize makes the eviction loop of the source spin
      forever on an empty cache. */
  datatype Config = Config(view: Options, scatterRadius: int, cacheSize: nat)

  /** `group` is the scene group, in child order; `built` and `disposed` record the whole past. */
  datatype Scene = Scene(
    loaded: OrderedMap<Key, Chunk>,
    lru: OrderedMap<CacheKey, Chunk>,
    group: seq<Chunk>,
    built: seq<Chunk>,
    disposed: seq<Chunk>)

  const EMPTY: Scene := Scene([], [], [], [], [])

  /** Removing a child takes out its first occurrence. */
  function Remove(group: seq<Chunk>, c: Chunk): seq<Chunk> {
    if group == [] then []
    else if group[0] == c then group[1..]
    else [group[0]] + Remove(group[1..], c)
  }

  function CacheKeyOf(c: Chunk): CacheKey { CacheKey(c.key, c.lod) }

  /** The eviction loop: the oldest entries go until the cache fits. */
  function Evict(f: Config, s: Scene): Scene
    decreases |s.lru|
  {
    if |s.lru| <= f.cacheSize then s
    else Evict(f, s.(lru := s.lru[1..], disposed := s.disposed + [s.lru[0].val]))
  }

  function CachePut(f: Config, s: Scene, c: Chunk): Scene {
    Evict(f, s.(lru := Set(Delete(s.lru, CacheKeyOf(c)), CacheKeyOf(c), c)))
  }

  /** A chunk leaves the scene for the cache. */
  function Retire(f: Config, s: Scene, k: Key, c: Chunk): Scene {
    CachePut(f, s.(loaded := Delete(s.loaded, k), group := Remove(s.group, c)), c)
  }

  function NewChunk(f: Config, s: Scene, w: Want): Chunk {
    Chunk(w.key, w.lod, w.ring <= f.scatterRadius, |s.built|)
  }

  /** A chunk from the cache if it is there, a new one otherwise, joins the scene. */
  function Admit(f: Config, s: Scene, w: Want): Scene {
    var ck := CacheKey(w.key, w.lod);
    match Get(s.lru, ck)
    case Some(c) =>
      s.(lru := Delete(s.lru, ck), loaded := Set(s.loaded, w.key, c), group := s.group + [c])
    case None =>
      var c := NewChunk(f, s, w);
      s.(built := s.built + [c], loaded := Set(s.loaded, w.key, c), group := s.group + [c])
  }

  function UnloadOne(f: Config, c: Key, s: Scene, e: Entry<Key, Chunk>): Scene {
    if Ring(e.key, c) > f.view.viewRadius then Retire(f, s, e.key, e.val) else s
  }

  function UnloadAll(f: Config, c: Key, s: Scene, entries: OrderedMap<Key, Chunk>): Scene
    decreases |entries|
  {
    if entries == [] then s else UnloadAll(f, c, UnloadOne(f, c, s, entries[0]), entries[1..])
  }

  /** One wanted chunk: already there at the right resolution, or dropped and admitted anew. */
  function LoadOne(f: Config, s: Scene, w: Want): Scene {
    match Get(s.loaded, w.key)
    case Some(c) => if c.lod == w.lod then s else Admit(f, Retire(f, s, w.key, c), w)
    case None => Admit(f, s, w)
  }

  predicate Present(s: Scene, w: Want) {
    Get(s.loaded, w.key).Some? && Get(s.loaded, w.key).value.lod == w.lod
  }

  function LoadAll(f: Config, s: Scene, wants: seq<Want>, budget: int): Scene
    decreases |wants|
  {
    if wants == [] || budget <= 0 then s
    else LoadAll(f, LoadOne(f, s, wants[0]), wants[1..], if Present(s, wants[0]) then budget else budget - 1)
  }

  function UpdateScene(f: Config, c: Key, s: Scene): Scene {
    LoadAll(f, UnloadAll(f, c, s, s.loaded), Wanted(f.view, c), f.view.buildBudget)
  }

  function DisposeScene(s: Scene): Scene {
    Scene([], [], [], s.built, s.disposed + Values(s.loaded) + Values(s.lru))
  }

  // ------------------------------------------------------------ ownership

  /** The scene shows what `loaded` says, keys tell the truth, and the cache fits. */
  ghost predicate Indexed(f: Config, s: Scene) {
    && Unique(s.loaded) && (forall e :: e in s.loaded ==> e.key == e.val.key)
    && Unique(s.lru) && (forall e :: e in s.lru ==> e.key == CacheKeyOf(e.val))
    && s.group == Values(s.loaded)
    && |s.lru| <= f.cacheSize
  }

  /** At most one live chunk per (key, lod): none that is loaded is also cached. */
  ghost predicate OneLive(s: Scene) {
    forall e :: e in s.loaded ==> !Has(s.lru, CacheKeyOf(e.val))
  }

  /** Every chunk ever built is in exactly one of loaded, lru and disposed, exactly once. */
  ghost predicate Conserved(s: Scene) {
    && multiset(Values(s.loaded)) + multiset(Values(s.lru)) + multiset(s.disposed) == multiset(s.built)
    && forall i :: 0 <= i < |s.built| ==> s.built[i].serial == i
  }

  ghost predicate Owned(f: Config, s: Scene) {
    Indexed(f, s) && OneLive(s) && Conserved(s)
  }

  lemma ValuesAround<K, V>(m: OrderedMap<K, V>, i: nat)
    requires i < |m|
    ensures Values(m) == Values(m[..i]) + [m[i].val] + Values(m[i + 1..])
    ensures Values(m[..i] + m[i + 1..]) == Values(m[..i]) + Values(m[i + 1..])
    ensures multiset(Values(m)) == multiset(Values(m[..i] + m[i + 1..])) + multiset{m[i].val}
  {
    var before, after := Values(m[..i]), Values(m[i + 1..]);
    assert Values(m) == before + [m[i].val] + after;
    assert Values(m[..i] + m[i + 1..]) == before + after;
  }

  lemma {:induction false} RemoveFirst(before: seq<Chunk>, c: Chunk, after: seq<Chunk>)
    requires c !in before
    ensures Remove(before + [c] + after, c) == before + after
  {
    if before == [] {
      assert [] + [c] + after == [c] + after && [] + after == after;
    } else {
      assert (before + [c] + after)[1..] == before[1..] + [c] + after;
      RemoveFirst(before[1..], c, after);
      assert before + after == [before[0]] + (before[1..] + after);
    }
  }

  /** The cache after a put: the newcomer last, and the oldest entry gone if it does not fit. */
  lemma CachePutIs(f: Config, s: Scene, c: Chunk)
    requires |s.lru| <= f.cacheSize && !Has(s.lru, CacheKeyOf(c))
    ensures var queue := s.lru + [Entry(CacheKeyOf(c), c)];
            CachePut(f, s, c) == if |queue| <= f.cacheSize then s.(lru := queue)
                                 else s.(lru := queue[1..], disposed := s.disposed + [queue[0].val])
  {
    DeleteAbsent(s.lru, CacheKeyOf(c));
    SetAppends(s.lru, CacheKeyOf(c), c);
    var t := s.(lru := s.lru + [Entry(CacheKeyOf(c), c)]);
    assert CachePut(f, s, c) == Evict(f, t);
    if |t.lru| > f.cacheSize {
      var u := t.(lru := t.lru[1..], disposed := t.disposed + [t.lru[0].val]);
      assert Evict(f, t) == Evict(f, u) == u;
    }
  }

  lemma CacheAppend(lru: OrderedMap<CacheKey, Chunk>, ck: CacheKey, c: Chunk)
    requires Unique(lru) && !Has(lru, ck)
    ensures var queue := lru + [Entry(ck, c)];
            && Unique(queue) && Unique(queue[1..])
            && Values(queue) == Values(lru) + [c]
            && Values(queue) == [queue[0].val] + Values(queue[1..])
  {
    GetIsEntry(lru, ck);
    forall i | 0 <= i < |lru| ensures lru[i].key != ck {
      assert lru[i] in lru;
    }
  }

  /** Retiring entry `i`, spelled out. The delete in cachePut that would drop a chunk without
      disposing it is never reached: no cached chunk has the key of a loaded one. */
  lemma RetireIs(f: Config, s: Scene, i: nat)
    requires Owned(f, s) && i < |s.loaded|
    ensures var e := s.loaded[i];
            var rest, queue := s.loaded[..i] + s.loaded[i + 1..], s.lru + [Entry(CacheKeyOf(e.val), e.val)];
            && !Has(s.lru, CacheKeyOf(e.val))
            && rest == Delete(s.loaded, e.key) && Unique(rest)
            && Retire(f, s, e.key, e.val) ==
                 if |queue| <= f.cacheSize then Scene(rest, queue, Values(rest), s.built, s.disposed)
                 else Scene(rest, queue[1..], Values(rest), s.built, s.disposed + [queue[0].val])
  {
    var e := s.loaded[i];
    var before, after := s.loaded[..i], s.loaded[i + 1..];
    assert e in s.loaded;
    DeleteAt(s.loaded, i);
    ValuesAround(s.loaded, i);
    forall x | x in Values(before) ensures x != e.val {
      var j :| 0 <= j < i && x == s.loaded[j].val;
      assert s.loaded[j] in s.loaded;
    }
    RemoveFirst(Values(before), e.val, Values(after));
    CachePutIs(f, s.(loaded := Delete(s.loaded, e.key), group := Remove(s.group, e.val)), e.val);
  }

  lemma RetireKeeps(f: Config, s: Scene, i: nat)
    requires Owned(f, s) && i < |s.loaded|
    ensures Owned(f, Retire(f, s, s.loaded[i].key, s.loaded[i].val))
  {
    var e := s.loaded[i];
    var rest, queue := s.loaded[..i] + s.loaded[i + 1..], s.lru + [Entry(CacheKeyOf(e.val), e.val)];
    var r := Retire(f, s, e.key, e.val);
    RetireIs(f, s, i);
    CacheAppend(s.lru, CacheKeyOf(e.val), e.val);
    ValuesAround(s.loaded, i);
    RetireConserves(s, r, e.val, queue);
    RestOf(s.loaded, i);
    assert r.lru == queue || r.lru == queue[1..];
    RetireKeepsOneLive(s, r, e);
  }

  lemma RestOf<K, V>(m: OrderedMap<K, V>, i: nat)
    requires Unique(m) && i < |m|
    ensures forall x :: x in m[..i] + m[i + 1..] ==> x in m && x.key != m[i].key
  {
  }

  lemma RetireKeepsOneLive(s: Scene, r: Scene, e: Entry<Key, Chunk>)
    requires OneLive(s) && e in s.loaded
    requires forall x :: x in s.loaded ==> x.key == x.val.key
    requires forall x :: x in r.loaded ==> x in s.loaded && x.key != e.key
    requires var queue := s.lru + [Entry(CacheKeyOf(e.val), e.val)]; r.lru == queue || r.lru == queue[1..]
    ensures OneLive(r)
    ensures forall x :: x in r.lru ==> x in s.lru || x == Entry(CacheKeyOf(e.val), e.val)
  {
    var queue := s.lru + [Entry(CacheKeyOf(e.val), e.val)];
    assert forall x :: x in queue <==> x in s.lru || x == Entry(CacheKeyOf(e.val), e.val);
    assert forall x :: x in queue[1..] ==> x in queue;
    forall x | x in r.loaded ensures !Has(r.lru, CacheKeyOf(x.val)) {
      GetIsEntry(s.lru, CacheKeyOf(x.val));
      GetIsEntry(r.lru, CacheKeyOf(x.val));
    }
  }

  /** A seat is moved from one sequence to the end of another. */
  lemma LiftMultisets(front: seq<Chunk>, c: Chunk)
    ensures multiset(front + [c]) == multiset(front) + multiset{c}
    ensures multiset([c] + front) == multiset(front) + multiset{c}
  {
  }

  lemma SwapSeats(l: multiset<Chunk>, l': multiset<Chunk>, q: multiset<Chunk>,
                  q': multiset<Chunk>, d: multiset<Chunk>, c: Chunk, o: Chunk)
    requires l == l' + multiset{c} && q + multiset{c} == q' + multiset{o}
    ensures l + q + d == l' + (q + multiset{c}) + d
    ensures l + q + d == l' + q' + (d + multiset{o})
  {
  }

  lemma RetireConserves(s: Scene, r: Scene, c: Chunk, queue: OrderedMap<CacheKey, Chunk>)
    requires Conserved(s) && r.built == s.built && queue != []
    requires multiset(Values(s.loaded)) == multiset(Values(r.loaded)) + multiset{c}
    requires Values(queue) == Values(s.lru) + [c] == [queue[0].val] + Values(queue[1..])
    requires || (r.lru == queue && r.disposed == s.disposed)
             || (r.lru == queue[1..] && r.disposed == s.disposed + [queue[0].val])
    ensures Conserved(r)
  {
    var o := queue[0].val;
    LiftMultisets(Values(s.lru), c);
    LiftMultisets(Values(queue[1..]), o);
    LiftMultisets(s.disposed, o);
    SwapSeats(multiset(Values(s.loaded)), multiset(Values(r.loaded)), multiset(Values(s.lru)),
              multiset(Values(queue[1..])), multiset(s.disposed), c, o);
  }

  /** What joins the scene for a wanted chunk: always the wanted key and resolution. */
  function Admitted(f: Config, s: Scene, w: Want): Chunk {
    match Get(s.lru, CacheKey(w.key, w.lod))
    case Some(c) => c
    case None => NewChunk(f, s, w)
  }

  lemma AdmitIs(f: Config, s: Scene, w: Want)
    requires Owned(f, s) && !Has(s.loaded, w.key)
    ensures var r, c := Admit(f, s, w), Admitted(f, s, w);
            && c.key == w.key && c.lod == w.lod
            && r.loaded == s.loaded + [Entry(w.key, c)] && r.group == s.group + [c] && r.disposed == s.disposed
            && if Has(s.lru, CacheKeyOf(c)) then r.lru == Delete(s.lru, CacheKeyOf(c)) && r.built == s.built
               else r.lru == s.lru && r.built == s.built + [c] && c == NewChunk(f, s, w)
    ensures var c := Admitted(f, s, w);
            Has(s.lru, CacheKeyOf(c)) ==> Entry(CacheKeyOf(c), c) in s.lru
  {
    GetIsEntry(s.lru, CacheKey(w.key, w.lod));
    SetAppends(s.loaded, w.key, Admitted(f, s, w));
  }

  lemma TakeIs(m: OrderedMap<CacheKey, Chunk>, k: CacheKey, c: Chunk)
    requires Unique(m) && Entry(k, c) in m
    ensures Unique(Delete(m, k)) && |Delete(m, k)| < |m|
    ensures multiset(Values(m)) == multiset(Values(Delete(m, k))) + multiset{c}
    ensures forall e :: e in Delete(m, k) ==> e in m
  {
    var i :| 0 <= i < |m| && m[i] == Entry(k, c);
    DeleteAt(m, i);
    RestOf(m, i);
    ValuesAround(m, i);
  }

  lemma HitConserves(s: Scene, r: Scene, c: Chunk)
    requires Conserved(s) && r.built == s.built && r.disposed == s.disposed
    requires Values(r.loaded) == Values(s.loaded) + [c]
    requires multiset(Values(s.lru)) == multiset(Values(r.lru)) + multiset{c}
    ensures Conserved(r)
  {
  }

  lemma BuildConserves(s: Scene, r: Scene, c: Chunk)
    requires Conserved(s) && c.serial == |s.built|
    requires r.built == s.built + [c] && r.disposed == s.disposed && r.lru == s.lru
    requires Values(r.loaded) == Values(s.loaded) + [c]
    ensures Conserved(r)
  {
  }

  lemma AdmitConserves(f: Config, s: Scene, w: Want)
    requires Owned(f, s) && !Has(s.loaded, w.key)
    ensures Conserved(Admit(f, s, w))
  {
    var r, c := Admit(f, s, w), Admitted(f, s, w);
    AdmitIs(f, s, w);
    JoinKeeps(s, w.key, c);
    if Has(s.lru, CacheKeyOf(c)) {
      TakeIs(s.lru, CacheKeyOf(c), c);
      HitConserves(s, r, c);
    } else {
      BuildConserves(s, r, c);
    }
  }

  lemma AdmitKeepsOneLive(f: Config, s: Scene, w: Want)
    requires Owned(f, s) && !Has(s.loaded, w.key)
    ensures OneLive(Admit(f, s, w))
  {
    var r, c := Admit(f, s, w), Admitted(f, s, w);
    AdmitIs(f, s, w);
    JoinKeeps(s, w.key, c);
    forall e | e in r.loaded ensures !Has(r.lru, CacheKeyOf(e.val)) {
      GetAfter(s.lru, CacheKeyOf(c), c, CacheKeyOf(e.val));
    }
  }

  lemma AdmitKeepsIndexed(f: Config, s: Scene, w: Want)
    requires Owned(f, s) && !Has(s.loaded, w.key)
    ensures Indexed(f, Admit(f, s, w))
  {
    var c := Admitted(f, s, w);
    AdmitIs(f, s, w);
    JoinKeeps(s, w.key, c);
    if Has(s.lru, CacheKeyOf(c)) {
      TakeIs(s.lru, CacheKeyOf(c), c);
    }
  }

  lemma AdmitKeeps(f: Config, s: Scene, w: Want)
    requires Owned(f, s) && !Has(s.loaded, w.key)
    ensures Owned(f, Admit(f, s, w))
  {
    AdmitKeepsIndexed(f, s, w);
    AdmitKeepsOneLive(f, s, w);
    AdmitConserves(f, s, w);
  }

  lemma JoinKeeps(s: Scene, k: Key, c: Chunk)
    requires Unique(s.loaded) && !Has(s.loaded, k)
    ensures Unique(s.loaded + [Entry(k, c)])
    ensures Values(s.loaded + [Entry(k, c)]) == Values(s.loaded) + [c]
    ensures forall e :: e in s.loaded + [Entry(k, c)] <==> e in s.loaded || e == Entry(k, c)
  {
    GetIsEntry(s.loaded, k);
    forall i | 0 <= i < |s.loaded| ensures s.loaded[i].key != k {
      assert s.loaded[i] in s.loaded;
    }
  }
}
