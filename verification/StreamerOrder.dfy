/** The order in which ChunkManager.update of frontend/src/world/gen/chunks.ts serves chunks, and
    exactly which ones a limited budget reaches. */
module StreamerOrder {
  import opened Common
  import opened JsMap
  import opened Streamer

  /** Within `r` chunks of `c` along both axes. */
  predicate Within(c: Key, k: Key, r: int) {
    -r <= k.x - c.x <= r && -r <= k.z - c.z <= r
  }

  /** Ring r is the border of the square of half-size r. */
  lemma RingIsSquare(c: Key, k: Key, r: int)
    ensures Ring(k, c) <= r <==> Within(c, k, r)
  {
  }

  /** Nearer squares first; in one ring by cx, then by cz. */
  predicate Precedes(c: Key, a: Key, b: Key) {
    || Ring(a, c) < Ring(b, c)
    || (Ring(a, c) == Ring(b, c) && (a.x < b.x || (a.x == b.x && a.z < b.z)))
  }

  ghost predicate Ordered(c: Key, wants: seq<Want>) {
    forall i, j :: 0 <= i < j < |wants| ==> Precedes(c, wants[i].key, wants[j].key)
  }

  lemma OrderedConcat(c: Key, a: seq<Want>, b: seq<Want>)
    requires Ordered(c, a) && Ordered(c, b)
    requires forall u, w :: u in a && w in b ==> Precedes(c, u.key, w.key)
    ensures Ordered(c, a + b)
  {
    var all := a + b;
    forall i, j | 0 <= i < j < |all| ensures Precedes(c, all[i].key, all[j].key) {
      if i < |a| <= j {
        assert a[i] in a && b[j - |a|] in b;
      }
    }
  }

  lemma {:induction false} ColumnOrdered(o: Options, c: Key, r: int, x: int, z: int)
    ensures Ordered(c, Column(o, c, r, x, z))
    decreases c.z + r + 1 - z
  {
    if z <= c.z + r {
      ColumnOrdered(o, c, r, x, z + 1);
      forall u, w | u in Cell(o, c, r, x, z) && w in Column(o, c, r, x, z + 1) ensures Precedes(c, u.key, w.key) {
        ColumnHolds(o, c, r, x, z + 1, w);
      }
      OrderedConcat(c, Cell(o, c, r, x, z), Column(o, c, r, x, z + 1));
    }
  }

  lemma {:induction false} ColumnsOrdered(o: Options, c: Key, r: int, x: int)
    ensures Ordered(c, Columns(o, c, r, x))
    decreases c.x + r + 1 - x
  {
    if x <= c.x + r {
      ColumnOrdered(o, c, r, x, c.z - r);
      ColumnsOrdered(o, c, r, x + 1);
      forall u, w | u in Column(o, c, r, x, c.z - r) && w in Columns(o, c, r, x + 1) ensures Precedes(c, u.key, w.key) {
        ColumnHolds(o, c, r, x, c.z - r, u);
        ColumnsHold(o, c, r, x + 1, w);
      }
      OrderedConcat(c, Column(o, c, r, x, c.z - r), Columns(o, c, r, x + 1));
    }
  }

  lemma RingBeforeRings(o: Options, c: Key, r: int, u: Want, w: Want)
    requires u in Columns(o, c, r, c.x - r) && w in Rings(o, c, r + 1)
    ensures Precedes(c, u.key, w.key)
  {
    OnTheRing(o, c, r, u);
    BeyondTheRing(o, c, r, w);
  }

  lemma OnTheRing(o: Options, c: Key, r: int, u: Want)
    requires u in Columns(o, c, r, c.x - r)
    ensures Ring(u.key, c) == r
  {
    ColumnsHold(o, c, r, c.x - r, u);
  }

  lemma BeyondTheRing(o: Options, c: Key, r: int, w: Want)
    requires w in Rings(o, c, r + 1)
    ensures Ring(w.key, c) > r
  {
    RingsHold(o, c, r + 1, w);
  }

  lemma {:induction false} RingsOrdered(o: Options, c: Key, r: int)
    ensures Ordered(c, Rings(o, c, r))
    decreases o.viewRadius + 1 - r
  {
    if r <= o.viewRadius {
      var ring, rest := Columns(o, c, r, c.x - r), Rings(o, c, r + 1);
      ColumnsOrdered(o, c, r, c.x - r);
      RingsOrdered(o, c, r + 1);
      forall u, w | u in ring && w in rest ensures Precedes(c, u.key, w.key) {
        RingBeforeRings(o, c, r, u, w);
      }
      OrderedConcat(c, ring, rest);
      assert Rings(o, c, r) == ring + rest;
    }
  }

  /** A missing chunk is loaded exactly when fewer than `budget` missing ones come before it. */
  lemma {:induction false} LoadReaches(v: View, wants: seq<Want>, budget: int, i: nat)
    requires Unique(v) && Consistent(wants) && i < |wants| && !Shown(v, wants[i])
    requires forall j :: 0 <= j < i ==> wants[j].key != wants[i].key
    ensures Shown(Load(v, wants, budget), wants[i]) <==> |Missing(v, wants[..i])| < budget
    decreases |wants|
  {
    if budget > 0 {
      ConsistentTail(wants);
      var w := wants[0];
      if i == 0 {
        assert Missing(v, wants[..0]) == {};
        ShowGets(v, w, w.key);
        LoadKeepsShown(Show(v, w), wants[1..], budget - 1, w);
      } else {
        var next := if Shown(v, w) then v else Show(v, w);
        var left := if Shown(v, w) then budget else budget - 1;
        ShowGets(v, w, wants[i].key);
        assert wants[1..][i - 1] == wants[i];
        LoadReaches(next, wants[1..], left, i - 1);
        FrontMissing(v, wants, i);
      }
    }
  }

  lemma FrontMissing(v: View, wants: seq<Want>, i: nat)
    requires Unique(v) && Consistent(wants) && 0 < i < |wants|
    ensures var w := wants[0];
            |Missing(v, wants[..i])| ==
              if Shown(v, w) then |Missing(v, wants[1..][..i - 1])| else 1 + |Missing(Show(v, w), wants[1..][..i - 1])|
  {
    var front := wants[..i];
    assert front[1..] == wants[1..][..i - 1] && front[0] == wants[0];
    assert forall u :: u in front ==> u in wants;
    MissingHead(v, front);
  }

  /** The chunks in range that are not shown at their resolution. */
  ghost function Lacking(o: Options, c: Key, v: View): set<Key> {
    Missing(v, Wanted(o, c))
  }

  lemma LackingMeans(o: Options, c: Key, v: View, k: Key)
    ensures k in Lacking(o, c, v) <==>
            && Within(c, k, o.viewRadius) && -o.maxChunk <= k.x <= o.maxChunk && -o.maxChunk <= k.z <= o.maxChunk
            && Get(v, k) != Some(if Within(c, k, o.highLodRadius) then 0 else 1)
  {
    var w := Want(k, LodAt(o, Ring(k, c)), Ring(k, c));
    WantedIsRange(o, c, w);
    RingIsSquare(c, k, o.viewRadius);
    RingIsSquare(c, k, o.highLodRadius);
    if k in Lacking(o, c, v) {
      var u :| u in Wanted(o, c) && !Shown(v, u) && u.key == k;
      WantedIsRange(o, c, u);
    }
  }

  lemma MissingBefore(c: Key, v: View, wants: seq<Want>, i: nat)
    requires Ordered(c, wants) && i < |wants|
    ensures Missing(v, wants[..i]) == set k | k in Missing(v, wants) && Precedes(c, k, wants[i].key)
  {
    forall k | k in Missing(v, wants[..i]) ensures k in Missing(v, wants) && Precedes(c, k, wants[i].key) {
      var j :| 0 <= j < i && !Shown(v, wants[j]) && wants[j].key == k;
      assert wants[j] in wants;
    }
    forall k | k in Missing(v, wants) && Precedes(c, k, wants[i].key) ensures k in Missing(v, wants[..i]) {
      var j :| 0 <= j < |wants| && !Shown(v, wants[j]) && wants[j].key == k;
      assert j < i;
      assert wants[..i][j] == wants[j];
    }
  }

  /** Which chunks one update serves: a lacking chunk is served exactly when fewer than `budget`
      lacking ones precede it. */
  lemma UpdateReaches(o: Options, c: Key, v: View, k: Key)
    requires WorldView(o, v) && k in Lacking(o, c, v)
    ensures Get(Update(o, c, v), k) == Some(if Within(c, k, o.highLodRadius) then 0 else 1)
            <==> |set m | m in Lacking(o, c, v) && Precedes(c, m, k)| < o.buildBudget
  {
    var wants, u := Wanted(o, c), Unload(o, c, v, v);
    LackingMeans(o, c, v, k);
    RingIsSquare(c, k, o.viewRadius);
    RingIsSquare(c, k, o.highLodRadius);
    var w :| w in wants && !Shown(v, w) && w.key == k;
    WantedIsRange(o, c, w);
    var i :| 0 <= i < |wants| && wants[i] == w;
    WantedIsConsistent(o, c);
    RingsOrdered(o, c, 0);
    UnloadShowsAlike(o, c, v);
    LoadReaches(u, wants, o.buildBudget, i);
    MissingBefore(c, u, wants, i);
  }

  lemma UnloadShowsAlike(o: Options, c: Key, v: View)
    requires Unique(v)
    ensures var u := Unload(o, c, v, v);
            && Unique(u) && Lacking(o, c, u) == Lacking(o, c, v)
            && forall w :: w in Wanted(o, c) ==> (Shown(u, w) <==> Shown(v, w))
  {
    var u := Unload(o, c, v, v);
    UnloadKeepsRange(o, c, v, c);
    forall w | w in Wanted(o, c) ensures Shown(u, w) <==> Shown(v, w) {
      WantedIsRange(o, c, w);
      UnloadKeepsRange(o, c, v, w.key);
    }
  }
}
