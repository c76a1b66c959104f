/** What ChunkManager.update of frontend/src/world/gen/chunks.ts is for, without any cache: a
    map from chunk coordinates to the resolution shown there. Module Chunks proves that the
    real manager shows exactly this map, whatever its cache holds. */
module Streamer {
  import opened Common
  import opened JsMap

  /** Chunk coordinates (cx, cz); the source spells them as the string "cx,cz". */
  datatype Key = Key(x: int, z: int)

  /** The fields of ChunkManagerOptions that decide what is shown, and maxChunk. */
  datatype Options = Options(viewRadius: int, highLodRadius: int, buildBudget: int, maxChunk: int)

  type View = OrderedMap<Key, int>

  /** A chunk the update loop asks for, with the ring it is found in. */
  datatype Want = Want(key: Key, lod: int, ring: int)

  function Abs(n: int): nat { if n < 0 then -n else n }

  /** Chebyshev distance. */
  function Ring(a: Key, b: Key): nat {
    if Abs(a.x - b.x) >= Abs(a.z - b.z) then Abs(a.x - b.x) else Abs(a.z - b.z)
  }

  function LodAt(o: Options, ring: int): int {
    if ring <= o.highLodRadius then 0 else 1
  }

  predicate InWorld(o: Options, k: Key) {
    Abs(k.x) <= o.maxChunk && Abs(k.z) <= o.maxChunk
  }

  /** The chunks that ought to be shown around `c`. */
  predicate InRange(o: Options, c: Key, k: Key) {
    Ring(k, c) <= o.viewRadius && InWorld(o, k)
  }

  // ------------------------------------------------- the order of the loops

  function Cell(o: Options, c: Key, r: int, x: int, z: int): seq<Want> {
    var k := Key(x, z);
    if Ring(k, c) == r && InWorld(o, k) then [Want(k, LodAt(o, r), r)] else []
  }

  /** The inner loop over cz, from `z` on. */
  function Column(o: Options, c: Key, r: int, x: int, z: int): seq<Want>
    decreases c.z + r + 1 - z
  {
    if z > c.z + r then [] else Cell(o, c, r, x, z) + Column(o, c, r, x, z + 1)
  }

  /** The loop over cx, from `x` on. */
  function Columns(o: Options, c: Key, r: int, x: int): seq<Want>
    decreases c.x + r + 1 - x
  {
    if x > c.x + r then [] else Column(o, c, r, x, c.z - r) + Columns(o, c, r, x + 1)
  }

  /** The loop over rings r, ..., viewRadius. */
  function Rings(o: Options, c: Key, r: int): seq<Want>
    decreases o.viewRadius + 1 - r
  {
    if r > o.viewRadius then [] else Columns(o, c, r, c.x - r) + Rings(o, c, r + 1)
  }

  function Wanted(o: Options, c: Key): seq<Want> { Rings(o, c, 0) }

  /** What is still to be visited when the innermost loop stands at (r, x, z). */
  function Rest(o: Options, c: Key, r: int, x: int, z: int): seq<Want> {
    Column(o, c, r, x, z) + ColumnsOn(o, c, r, x + 1)
  }

  /** The same when the middle loop stands at (r, x). */
  function ColumnsOn(o: Options, c: Key, r: int, x: int): seq<Want> {
    Columns(o, c, r, x) + Rings(o, c, r + 1)
  }

  lemma RestSteps(o: Options, c: Key, r: int, x: int, z: int)
    requires z <= c.z + r
    ensures Cell(o, c, r, x, z) == [] ==> Rest(o, c, r, x, z) == Rest(o, c, r, x, z + 1)
    ensures Cell(o, c, r, x, z) != [] ==>
              Rest(o, c, r, x, z) == [Want(Key(x, z), LodAt(o, r), r)] + Rest(o, c, r, x, z + 1)
  {
    var cell, next := Cell(o, c, r, x, z), Rest(o, c, r, x, z + 1);
    assert Rest(o, c, r, x, z) == cell + next;
  }

  lemma ColumnStarts(o: Options, c: Key, r: int, x: int)
    requires x <= c.x + r
    ensures ColumnsOn(o, c, r, x) == Rest(o, c, r, x, c.z - r)
  {
  }

  lemma ColumnEnds(o: Options, c: Key, r: int, x: int, z: int)
    requires z > c.z + r
    ensures Rest(o, c, r, x, z) == ColumnsOn(o, c, r, x + 1)
  {
  }

  lemma RingEnds(o: Options, c: Key, r: int, x: int)
    requires x > c.x + r
    ensures ColumnsOn(o, c, r, x) == Rings(o, c, r + 1)
  {
  }

  // ------------------------------------------------------------ one update

  /** The first pass: entries out of range go, one by one. */
  function Unload(o: Options, c: Key, v: View, entries: View): View
    decreases |entries|
  {
    if entries == [] then v
    else
      var k := entries[0].key;
      Unload(o, c, if Ring(k, c) > o.viewRadius then Delete(v, k) else v, entries[1..])
  }

  predicate Shown(v: View, w: Want) { Get(v, w.key) == Some(w.lod) }

  function Show(v: View, w: Want): View { Set(Delete(v, w.key), w.key, w.lod) }

  /** The second pass: wanted chunks that are missing or have the wrong resolution, at most `budget`. */
  function Load(v: View, wants: seq<Want>, budget: int): View
    decreases |wants|
  {
    if wants == [] || budget <= 0 then v
    else if Shown(v, wants[0]) then Load(v, wants[1..], budget)
    else Load(Show(v, wants[0]), wants[1..], budget - 1)
  }

  function Update(o: Options, c: Key, v: View): View {
    Load(Unload(o, c, v, v), Wanted(o, c), o.buildBudget)
  }

  function Updates(o: Options, c: Key, v: View, n: nat): View {
    if n == 0 then v else Update(o, c, Updates(o, c, v, n - 1))
  }

  // ------------------------------------------------------- what is wanted

  lemma {:induction false} ColumnHolds(o: Options, c: Key, r: int, x: int, z: int, w: Want)
    ensures w in Column(o, c, r, x, z) <==>
            w == Want(Key(x, w.key.z), LodAt(o, r), r) && z <= w.key.z <= c.z + r && Ring(w.key, c) == r && InWorld(o, w.key)
    decreases c.z + r + 1 - z
  {
    if z <= c.z + r {
      ColumnHolds(o, c, r, x, z + 1, w);
    }
  }

  lemma {:induction false} ColumnsHold(o: Options, c: Key, r: int, x: int, w: Want)
    ensures w in Columns(o, c, r, x) <==>
            w.lod == LodAt(o, r) && w.ring == r && x <= w.key.x <= c.x + r && Ring(w.key, c) == r && InWorld(o, w.key)
    decreases c.x + r + 1 - x
  {
    if x <= c.x + r {
      ColumnHolds(o, c, r, x, c.z - r, w);
      ColumnsHold(o, c, r, x + 1, w);
    }
  }

  lemma {:induction false} RingsHold(o: Options, c: Key, r: int, w: Want)
    ensures w in Rings(o, c, r) <==>
            w == Want(w.key, LodAt(o, Ring(w.key, c)), Ring(w.key, c)) && r <= w.ring && InRange(o, c, w.key)
    decreases o.viewRadius + 1 - r
  {
    if r <= o.viewRadius {
      ColumnsHold(o, c, r, c.x - r, w);
      RingsHold(o, c, r + 1, w);
    }
  }

  /** The nested loops visit exactly the chunks in range, each at its own resolution. */
  lemma WantedIsRange(o: Options, c: Key, w: Want)
    ensures w in Wanted(o, c) <==>
            w == Want(w.key, LodAt(o, Ring(w.key, c)), Ring(w.key, c)) && InRange(o, c, w.key)
  {
    RingsHold(o, c, 0, w);
  }

  lemma {:induction false} ColumnSize(o: Options, c: Key, r: int, x: int, z: int)
    requires r >= 0 && c.z - r <= z <= c.z + r + 1
    ensures |Column(o, c, r, x, z)| <= c.z + r + 1 - z
    ensures c.x - r < x < c.x + r ==>
              |Column(o, c, r, x, z)| <= (if z == c.z - r then 1 else 0) + (if z <= c.z + r then 1 else 0)
    decreases c.z + r + 1 - z
  {
    if z <= c.z + r {
      ColumnSize(o, c, r, x, z + 1);
    }
  }

  lemma {:induction false} ColumnsSize(o: Options, c: Key, r: int, x: int)
    requires r >= 1 && c.x - r <= x <= c.x + r + 1
    ensures |Columns(o, c, r, x)| <= (if x == c.x - r then 2 * r + 1 else 0)
              + 2 * (c.x + r - (if x == c.x - r then x + 1 else if x > c.x + r then c.x + r else x))
              + (if x <= c.x + r then 2 * r + 1 else 0)
    decreases c.x + r + 1 - x
  {
    if x <= c.x + r {
      ColumnSize(o, c, r, x, c.z - r);
      ColumnsSize(o, c, r, x + 1);
    }
  }

  /** Ring 0 is one chunk, ring r > 0 has 8 r of them. */
  lemma RingSize(o: Options, c: Key, r: int)
    requires r >= 0
    ensures |Columns(o, c, r, c.x - r)| <= if r == 0 then 1 else 8 * r
  {
    if r == 0 {
      ColumnSize(o, c, 0, c.x, c.z);
    } else {
      ColumnsSize(o, c, r, c.x - r);
    }
  }

  function Square(n: int): int { n * n }

  lemma SquareStep(r: int)
    ensures Square(2 * r + 1) == Square(2 * r - 1) + 8 * r
  {
  }

  lemma {:induction false} RingsSize(o: Options, c: Key, r: int)
    requires 0 <= r <= o.viewRadius + 1
    ensures |Rings(o, c, r)| <= Square(2 * o.viewRadius + 1) - (if r == 0 then 0 else Square(2 * r - 1))
    decreases o.viewRadius + 1 - r
  {
    if r <= o.viewRadius {
      RingSize(o, c, r);
      RingsSize(o, c, r + 1);
      SquareStep(r);
    }
  }

  /** At most the (2V + 1) x (2V + 1) square is wanted. */
  lemma WantedSize(o: Options, c: Key)
    ensures |Wanted(o, c)| <= if o.viewRadius < 0 then 0 else Square(2 * o.viewRadius + 1)
  {
    if o.viewRadius >= 0 {
      RingsSize(o, c, 0);
    }
  }

  // ----------------------------------------------------------- unloading

  lemma {:induction false} UnloadGets(o: Options, c: Key, v: View, entries: View, k: Key)
    requires Unique(v)
    ensures Unique(Unload(o, c, v, entries))
    ensures Get(Unload(o, c, v, entries), k) ==
            if Has(entries, k) && Ring(k, c) > o.viewRadius then None else Get(v, k)
    decreases |entries|
  {
    if entries != [] {
      var e := entries[0].key;
      GetAfter(v, e, 0, k);
      UnloadGets(o, c, if Ring(e, c) > o.viewRadius then Delete(v, e) else v, entries[1..], k);
    }
  }

  /** After the first pass exactly the entries within the view radius remain. */
  lemma UnloadKeepsRange(o: Options, c: Key, v: View, k: Key)
    requires Unique(v)
    ensures Unique(Unload(o, c, v, v))
    ensures Get(Unload(o, c, v, v), k) == if Ring(k, c) > o.viewRadius then None else Get(v, k)
  {
    UnloadGets(o, c, v, v, k);
  }

  // -------------------------------------------------------------- loading

  /** One resolution per chunk. */
  ghost predicate Consistent(wants: seq<Want>) {
    forall a, b :: a in wants && b in wants && a.key == b.key ==> a.lod == b.lod
  }

  lemma WantedIsConsistent(o: Options, c: Key)
    ensures Consistent(Wanted(o, c))
  {
    forall a, b | a in Wanted(o, c) && b in Wanted(o, c) && a.key == b.key ensures a.lod == b.lod {
      WantedIsRange(o, c, a);
      WantedIsRange(o, c, b);
    }
  }

  /** The wanted chunks that are absent or shown at the wrong resolution. */
  function Missing(v: View, wants: seq<Want>): set<Key> {
    set w | w in wants && !Shown(v, w) :: w.key
  }

  lemma ShowGets(v: View, w: Want, k: Key)
    requires Unique(v)
    ensures Unique(Show(v, w)) && Get(Show(v, w), k) == if k == w.key then Some(w.lod) else Get(v, k)
  {
    GetAfter(v, w.key, w.lod, k);
    GetAfter(Delete(v, w.key), w.key, w.lod, k);
  }

  /** Loading touches a chunk only to give it a wanted resolution, and only if it was not shown so. */
  lemma {:induction false} LoadGets(v: View, wants: seq<Want>, budget: int, k: Key)
    requires Unique(v)
    ensures Unique(Load(v, wants, budget))
    ensures Get(Load(v, wants, budget), k) == Get(v, k)
         || exists w :: w in wants && w.key == k && !Shown(v, w) && Get(Load(v, wants, budget), k) == Some(w.lod)
    decreases |wants|
  {
    if wants != [] && budget > 0 {
      var w := wants[0];
      if Shown(v, w) {
        LoadGets(v, wants[1..], budget, k);
      } else {
        ShowGets(v, w, k);
        LoadGets(Show(v, w), wants[1..], budget - 1, k);
      }
    }
  }

  /** A chunk that is shown as wanted stays so. */
  lemma LoadKeepsShown(v: View, wants: seq<Want>, budget: int, w: Want)
    requires Unique(v) && Shown(v, w) && Consistent([w] + wants)
    ensures Shown(Load(v, wants, budget), w)
  {
    forall u | u in wants && u.key == w.key ensures u.lod == w.lod {
      assert u in [w] + wants && w in [w] + wants;
    }
    LoadGets(v, wants, budget, w.key);
  }

  lemma MissingHead(v: View, wants: seq<Want>)
    requires Unique(v) && Consistent(wants) && wants != []
    ensures Shown(v, wants[0]) ==> Missing(v, wants) == Missing(v, wants[1..])
    ensures !Shown(v, wants[0]) ==>
              && wants[0].key in Missing(v, wants)
              && Missing(Show(v, wants[0]), wants[1..]) == Missing(v, wants) - {wants[0].key}
  {
    var w := wants[0];
    assert forall u :: u in wants <==> u == w || u in wants[1..];
    if Shown(v, w) {
    } else {
      var shown := Show(v, w);
      forall u | u in wants ensures Shown(shown, u) <==> Shown(v, u) || u.key == w.key {
        ShowGets(v, w, u.key);
      }
      forall k ensures k in Missing(shown, wants[1..]) <==> k in Missing(v, wants) - {w.key} {
        if k in Missing(v, wants) - {w.key} {
          var u :| u in wants && !Shown(v, u) && u.key == k;
          assert u in wants[1..];
        }
      }
    }
  }

  lemma ConsistentTail(wants: seq<Want>)
    requires Consistent(wants) && wants != []
    ensures Consistent(wants[1..]) && Consistent([wants[0]] + wants[1..])
  {
  }

  /** One pass lowers the number of missing chunks by exactly min(budget, that number). */
  lemma {:induction false} LoadMissing(v: View, wants: seq<Want>, budget: int)
    requires Unique(v) && Consistent(wants)
    ensures var before, after := |Missing(v, wants)|, |Missing(Load(v, wants, budget), wants)|;
            after == if budget <= 0 then before else if before <= budget then 0 else before - budget
    decreases |wants|
  {
    if wants == [] {
    } else if budget > 0 {
      ConsistentTail(wants);
      MissingHead(v, wants);
      var w := wants[0];
      var next := if Shown(v, w) then v else Show(v, w);
      var left := if Shown(v, w) then budget else budget - 1;
      ShowGets(v, w, w.key);
      LoadMissing(next, wants[1..], left);
      LoadKeepsShown(next, wants[1..], left, w);
      LoadGets(next, wants[1..], left, w.key);
      MissingHead(Load(v, wants, budget), wants);
    }
  }

  /** Either the budget is spent within `inner`, and what follows is untouched, or all of `inner`
      ends up shown. */
  lemma {:induction false} LoadInnerFirst(v: View, inner: seq<Want>, outer: seq<Want>, budget: int)
    requires Unique(v) && Consistent(inner + outer)
    ensures || Load(v, inner + outer, budget) == Load(v, inner, budget)
            || forall w :: w in inner ==> Shown(Load(v, inner + outer, budget), w)
    decreases |inner|
  {
    if inner != [] && budget > 0 {
      var all, w := inner + outer, inner[0];
      assert all[1..] == inner[1..] + outer && all[0] == w;
      ConsistentTail(all);
      ShowGets(v, w, w.key);
      var next := if Shown(v, w) then v else Show(v, w);
      var left := if Shown(v, w) then budget else budget - 1;
      LoadInnerFirst(next, inner[1..], outer, left);
      LoadKeepsShown(next, all[1..], left, w);
    }
  }

  /** The loop over rings from, ..., r. */
  function RingsUpTo(o: Options, c: Key, from: int, r: int): seq<Want>
    decreases r + 1 - from
  {
    if from > r then [] else Columns(o, c, from, c.x - from) + RingsUpTo(o, c, from + 1, r)
  }

  lemma {:induction false} RingsSplit(o: Options, c: Key, from: int, r: int)
    requires from <= r + 1 <= o.viewRadius + 1
    ensures Rings(o, c, from) == RingsUpTo(o, c, from, r) + Rings(o, c, r + 1)
    decreases r + 1 - from
  {
    if from <= r {
      RingsSplit(o, c, from + 1, r);
    }
  }

  lemma {:induction false} RingsUpToHold(o: Options, c: Key, from: int, r: int, w: Want)
    requires w in RingsUpTo(o, c, from, r)
    ensures w.ring <= r && w.ring == Ring(w.key, c)
    decreases r + 1 - from
  {
    ColumnsHold(o, c, from, c.x - from, w);
    if w !in Columns(o, c, from, c.x - from) {
      RingsUpToHold(o, c, from + 1, r, w);
    }
  }

  /** No chunk of an outer ring is loaded or switched while one of a smaller ring is incomplete. */
  lemma NearestFirst(o: Options, c: Key, v: View, near: Key, far: Key)
    requires Unique(v) && InRange(o, c, near) && Ring(near, c) < Ring(far, c)
    requires Get(Update(o, c, v), near) != Some(LodAt(o, Ring(near, c)))
    ensures Get(Update(o, c, v), far) == Get(Unload(o, c, v, v), far)
  {
    var r := Ring(near, c);
    var u := Unload(o, c, v, v);
    UnloadKeepsRange(o, c, v, far);
    WantedIsConsistent(o, c);
    var w := Want(near, LodAt(o, r), r);
    WantedIsRange(o, c, w);
    var inner, outer := RingsUpTo(o, c, 0, r), Rings(o, c, r + 1);
    RingsSplit(o, c, 0, r);
    RingsHold(o, c, r + 1, w);
    LoadInnerFirst(u, inner, outer, o.buildBudget);
    LoadGets(u, inner, o.buildBudget, far);
    forall x | x in inner ensures x.key != far {
      RingsUpToHold(o, c, 0, r, x);
    }
  }

  // --------------------------------------------------------- convergence

  /** Everything shown lies in the world; true of the empty view and kept by Update. */
  ghost predicate WorldView(o: Options, v: View) {
    Unique(v) && forall k :: Has(v, k) ==> InWorld(o, k)
  }

  lemma UpdateGets(o: Options, c: Key, v: View, k: Key)
    requires WorldView(o, v)
    ensures var after := Update(o, c, v);
            && Unique(after) && (Has(after, k) ==> InRange(o, c, k))
            && (InRange(o, c, k) ==> Get(after, k) == Get(v, k) || Get(after, k) == Some(LodAt(o, Ring(k, c))))
  {
    UnloadKeepsRange(o, c, v, k);
    var u := Unload(o, c, v, v);
    LoadGets(u, Wanted(o, c), o.buildBudget, k);
    assert Has(v, k) ==> InWorld(o, k);
    if Get(Update(o, c, v), k) != Get(u, k) {
      var w :| w in Wanted(o, c) && w.key == k && Get(Update(o, c, v), k) == Some(w.lod);
      WantedIsRange(o, c, w);
    }
  }

  lemma UpdateKeepsWorld(o: Options, c: Key, v: View)
    requires WorldView(o, v)
    ensures WorldView(o, Update(o, c, v))
  {
    UpdateGets(o, c, v, c);
    forall k | Has(Update(o, c, v), k) ensures InWorld(o, k) {
      UpdateGets(o, c, v, k);
    }
  }

  lemma UpdateMissing(o: Options, c: Key, v: View)
    requires WorldView(o, v)
    ensures var before, after := |Missing(v, Wanted(o, c))|, |Missing(Update(o, c, v), Wanted(o, c))|;
            after == if o.buildBudget <= 0 then before else if before <= o.buildBudget then 0 else before - o.buildBudget
  {
    var wants, u := Wanted(o, c), Unload(o, c, v, v);
    WantedIsConsistent(o, c);
    UnloadKeepsRange(o, c, v, c);
    forall w | w in wants ensures Shown(u, w) <==> Shown(v, w) {
      WantedIsRange(o, c, w);
      UnloadKeepsRange(o, c, v, w.key);
    }
    assert Missing(u, wants) == Missing(v, wants);
    LoadMissing(u, wants, o.buildBudget);
  }

  lemma {:induction false} UpdatesMissing(o: Options, c: Key, v: View, n: nat)
    requires WorldView(o, v) && o.buildBudget >= 1
    ensures WorldView(o, Updates(o, c, v, n))
    ensures var before, after := |Missing(v, Wanted(o, c))|, |Missing(Updates(o, c, v, n), Wanted(o, c))|;
            after == if before <= n * o.buildBudget then 0 else before - n * o.buildBudget
  {
    if n > 0 {
      UpdatesMissing(o, c, v, n - 1);
      UpdateKeepsWorld(o, c, Updates(o, c, v, n - 1));
      UpdateMissing(o, c, Updates(o, c, v, n - 1));
      assert n * o.buildBudget == (n - 1) * o.buildBudget + o.buildBudget;
    }
  }

  /** What a settled view shows: the chunks in range at their resolution, and nothing else. */
  ghost predicate Settled(o: Options, c: Key, v: View) {
    forall k :: Get(v, k) == if InRange(o, c, k) then Some(LodAt(o, Ring(k, c))) else None
  }

  lemma {:induction false} MissingSize(v: View, wants: seq<Want>)
    ensures |Missing(v, wants)| <= |wants|
    decreases |wants|
  {
    if wants != [] {
      var last := |wants| - 1;
      MissingSize(v, wants[..last]);
      assert wants == wants[..last] + [wants[last]];
      var front := Missing(v, wants[..last]);
      assert Missing(v, wants) == if Shown(v, wants[last]) then front else front + {wants[last].key};
    }
  }

  /** From any view, n updates at one focus with n * budget >= (2V + 1)^2 settle it; further
      updates leave it settled. */
  lemma {:induction false} Converges(o: Options, c: Key, v: View, n: nat)
    requires WorldView(o, v) && o.buildBudget >= 1 && n >= 1
    requires o.viewRadius >= 0 ==> n * o.buildBudget >= Square(2 * o.viewRadius + 1)
    ensures Settled(o, c, Updates(o, c, v, n))
  {
    var after := Updates(o, c, v, n);
    UpdatesMissing(o, c, v, n);
    UpdatesMissing(o, c, v, n - 1);
    MissingSize(v, Wanted(o, c));
    WantedSize(o, c);
    assert forall w :: w in Wanted(o, c) && !Shown(after, w) ==> w.key in Missing(after, Wanted(o, c));
    forall k ensures Get(after, k) == if InRange(o, c, k) then Some(LodAt(o, Ring(k, c))) else None {
      UpdateGets(o, c, Updates(o, c, v, n - 1), k);
      var w := Want(k, LodAt(o, Ring(k, c)), Ring(k, c));
      WantedIsRange(o, c, w);
    }
  }
}
