/** When the order of the sites matters: a later pad wins where pads overlap
    (the loop of height in frontend/src/world/gen/worldgen.ts). */
module PadOrder {
  import opened Reals
  import opened WorldGen
  import Terrain
  import Sites

  // ------------------------------------------------------------- two sites

  lemma Positive(a: real, b: real)
    requires a > 0.0 && b > 0.0
    ensures Times(a, b) > 0.0
  {
  }

  lemma CubicBelow(t: real)
    requires 0.0 <= t < 1.0
    ensures Terrain.Cubic(t) < 1.0
  {
    var s := 1.0 - t;
    Positive(s, s);
    Positive(Times(s, s), 3.0 - 2.0 * s);
    assert 1.0 - Terrain.Cubic(t) == Times(Times(s, s), 3.0 - 2.0 * s);
  }

  /** Where a site reaches, it pulls. */
  lemma BlendBelowOne(hypot: Hypot, s: Site, x: real, z: real)
    requires IsHypot(hypot) && Influences(hypot, s, x, z)
    ensures s.padRadius > 0.0 && 0.0 <= Blend(hypot, s, x, z) < 1.0
  {
    BlendRange(hypot, s, x, z);
    InfluenceNeedsPad(hypot, s, x, z);
    var d, e0, e1 := hypot(x - s.x, z - s.z), s.padRadius, Influence(s);
    QuotientBelow(d - e0, e1 - e0);
    CubicBelow(Terrain.Clamp01((d - e0) / (e1 - e0)));
  }

  lemma QuotientBelow(a: real, d: real)
    requires a < d && d > 0.0
    ensures a / d < 1.0
  {
    assert Times(a / d, d) == a;
    if a / d >= 1.0 {
      TimesOrdered(1.0, a / d, d);
      TimesSums(1.0, 0.0, d);
    }
  }

  /** A height pulled to a level. */
  function Pulled(level: real, h: real, t: real): real { level + Times(h - level, t) }

  lemma PullsDiffer(y: real, v: real, h: real, t: real, u: real)
    ensures Pulled(v, Pulled(y, h, t), u) - Pulled(y, Pulled(v, h, u), t) == Times(v - y, Times(1.0 - t, 1.0 - u))
  {
  }

  lemma PullsCommute(y: real, v: real, h: real, t: real, u: real)
    requires t < 1.0 && u < 1.0
    ensures Pulled(v, Pulled(y, h, t), u) == Pulled(y, Pulled(v, h, u), t) <==> v == y
  {
    PullsDiffer(y, v, h, t, u);
    Positive(1.0 - t, 1.0 - u);
    NonZeroProduct(v - y, Times(1.0 - t, 1.0 - u));
  }

  lemma NonZeroProduct(a: real, b: real)
    requires b > 0.0
    ensures Times(a, b) == 0.0 <==> a == 0.0
  {
    if a > 0.0 {
      Positive(a, b);
    } else if a < 0.0 {
      Positive(-a, b);
    }
  }

  ghost predicate Commute(hypot: Hypot, s: Site, t: Site, x: real, z: real) {
    Influences(hypot, s, x, z) && Influences(hypot, t, x, z) ==> s.y == t.y
  }

  lemma FlattenIsPull(hypot: Hypot, s: Site, h: real, x: real, z: real)
    requires IsHypot(hypot) && Influences(hypot, s, x, z)
    ensures s.padRadius > 0.0 && Flatten(hypot, s, h, x, z) == Pulled(s.y, h, Blend(hypot, s, x, z))
  {
    InfluenceNeedsPad(hypot, s, x, z);
  }

  /** Two sites may be exchanged exactly when not both reach the point or they have one level. */
  lemma ExchangedExactly(hypot: Hypot, s: Site, t: Site, h: real, x: real, z: real)
    requires IsHypot(hypot)
    ensures Flatten(hypot, t, Flatten(hypot, s, h, x, z), x, z) == Flatten(hypot, s, Flatten(hypot, t, h, x, z), x, z)
            <==> Commute(hypot, s, t, x, z)
  {
    if Influences(hypot, s, x, z) && Influences(hypot, t, x, z) {
      BothReach(hypot, s, t, h, x, z);
    }
  }

  lemma BothReach(hypot: Hypot, s: Site, t: Site, h: real, x: real, z: real)
    requires IsHypot(hypot) && Influences(hypot, s, x, z) && Influences(hypot, t, x, z)
    ensures Flatten(hypot, t, Flatten(hypot, s, h, x, z), x, z) == Flatten(hypot, s, Flatten(hypot, t, h, x, z), x, z)
            <==> s.y == t.y
  {
    BlendBelowOne(hypot, s, x, z);
    BlendBelowOne(hypot, t, x, z);
    FlattenIsPull(hypot, s, h, x, z);
    FlattenIsPull(hypot, t, h, x, z);
    FlattenIsPull(hypot, t, Flatten(hypot, s, h, x, z), x, z);
    FlattenIsPull(hypot, s, Flatten(hypot, t, h, x, z), x, z);
    PullsCommute(s.y, t.y, h, Blend(hypot, s, x, z), Blend(hypot, t, x, z));
  }

  // -------------------------------------------------------------- any order

  /** All sites that reach the point have one level. */
  ghost predicate OneLevel(hypot: Hypot, sites: seq<Site>, x: real, z: real) {
    forall s, t :: s in sites && t in sites ==> Commute(hypot, s, t, x, z)
  }

  ghost predicate OrderIrrelevant(hypot: Hypot, sites: seq<Site>, h: real, x: real, z: real) {
    forall other: seq<Site> :: multiset(other) == multiset(sites) ==>
      HeightOver(hypot, other, h, x, z) == HeightOver(hypot, sites, h, x, z)
  }

  /** A site may be moved to the front. */
  lemma {:induction false} MoveToFront(hypot: Hypot, before: seq<Site>, s: Site, after: seq<Site>, h: real, x: real, z: real)
    requires IsHypot(hypot) && OneLevel(hypot, before + [s] + after, x, z)
    ensures HeightOver(hypot, before + [s] + after, h, x, z) == HeightOver(hypot, [s] + (before + after), h, x, z)
    decreases |before|
  {
    if before == [] {
      assert before + [s] + after == [s] + (before + after);
    } else {
      var b, rest := before[0], before[1..];
      var all := before + [s] + after;
      assert all[1..] == rest + [s] + after && all[0] == b && b in all && s in all;
      var g := Flatten(hypot, b, h, x, z);
      MoveToFront(hypot, rest, s, after, g, x, z);
      assert ([s] + (rest + after))[1..] == rest + after;
      ExchangedExactly(hypot, b, s, h, x, z);
      assert ([s] + (before + after))[1..] == before + after && (before + after)[1..] == rest + after;
    }
  }

  lemma FindIn<T>(s: T, sites: seq<T>) returns (before: seq<T>, after: seq<T>)
    requires s in multiset(sites)
    ensures sites == before + [s] + after
    ensures multiset(sites) == multiset(before + after) + multiset{s}
  {
    var i :| 0 <= i < |sites| && sites[i] == s;
    before, after := sites[..i], sites[i + 1..];
    assert sites == before + [s] + after;
    assert multiset(before + [s] + after) == multiset(before) + multiset{s} + multiset(after);
  }

  lemma {:induction false} OneLevelEnough(hypot: Hypot, a: seq<Site>, b: seq<Site>, h: real, x: real, z: real)
    requires IsHypot(hypot) && multiset(a) == multiset(b) && OneLevel(hypot, a, x, z)
    ensures HeightOver(hypot, a, h, x, z) == HeightOver(hypot, b, h, x, z)
    decreases |a|
  {
    SameMembers(a, b);
    if a == [] {
      assert |multiset(b)| == 0;
    } else {
      assert a == [a[0]] + a[1..] && a[0] in multiset(a);
      var before, after := FindIn(a[0], b);
      MoveToFront(hypot, before, a[0], after, h, x, z);
      assert ([a[0]] + (before + after))[1..] == before + after;
      SameRest(a, before + after);
      OneLevelEnough(hypot, a[1..], before + after, Flatten(hypot, a[0], h, x, z), x, z);
    }
  }

  lemma SameMembers<T>(a: seq<T>, b: seq<T>)
    requires multiset(a) == multiset(b)
    ensures forall s :: s in a <==> s in b
  {
    assert forall s :: s in a <==> s in multiset(a);
    assert forall s :: s in b <==> s in multiset(b);
  }

  lemma SameRest<T>(a: seq<T>, rest: seq<T>)
    requires a != [] && multiset(a) == multiset(rest) + multiset{a[0]}
    ensures multiset(a[1..]) == multiset(rest)
  {
    assert a == [a[0]] + a[1..];
    assert multiset(a) == multiset(a[1..]) + multiset{a[0]};
    assert multiset(rest) == multiset(a) - multiset{a[0]};
  }

  /** Two sites that do not commute, put last in either order. */
  lemma LastTwoDiffer(hypot: Hypot, rest: seq<Site>, s: Site, t: Site, h: real, x: real, z: real)
    requires IsHypot(hypot) && !Commute(hypot, s, t, x, z)
    ensures HeightOver(hypot, rest + [s, t], h, x, z) != HeightOver(hypot, rest + [t, s], h, x, z)
  {
    HeightConcat(hypot, rest, [s, t], h, x, z);
    HeightConcat(hypot, rest, [t, s], h, x, z);
    var g := HeightOver(hypot, rest, h, x, z);
    TwoSites(hypot, s, t, g, x, z);
    TwoSites(hypot, t, s, g, x, z);
    ExchangedExactly(hypot, s, t, g, x, z);
  }

  lemma TwoSites(hypot: Hypot, s: Site, t: Site, h: real, x: real, z: real)
    ensures HeightOver(hypot, [s, t], h, x, z) == Flatten(hypot, t, Flatten(hypot, s, h, x, z), x, z)
  {
    var g := Flatten(hypot, s, h, x, z);
    assert [s, t][1..] == [t] && [t][1..] == [];
    assert HeightOver(hypot, [t], g, x, z) == HeightOver(hypot, [], Flatten(hypot, t, g, x, z), x, z);
  }

  /** The height at a point does not depend on the order of the sites exactly when all sites that
      reach the point have one level; in particular where at most one does. */
  lemma OrderIrrelevantExactly(hypot: Hypot, sites: seq<Site>, h: real, x: real, z: real)
    requires IsHypot(hypot)
    ensures OrderIrrelevant(hypot, sites, h, x, z) <==> OneLevel(hypot, sites, x, z)
  {
    if OneLevel(hypot, sites, x, z) {
      forall other: seq<Site> | multiset(other) == multiset(sites)
        ensures HeightOver(hypot, other, h, x, z) == HeightOver(hypot, sites, h, x, z)
      {
        OneLevelEnough(hypot, sites, other, h, x, z);
      }
    } else {
      var s, t :| s in sites && t in sites && !Commute(hypot, s, t, x, z);
      var rest := WithoutTwo(sites, s, t);
      LastTwoDiffer(hypot, rest, s, t, h, x, z);
      assert multiset(rest + [s, t]) == multiset(sites) && multiset(rest + [t, s]) == multiset(sites);
    }
  }

  lemma WithoutTwo<T>(sites: seq<T>, s: T, t: T) returns (rest: seq<T>)
    requires s in sites && t in sites && s != t
    ensures multiset(rest + [s, t]) == multiset(sites) && multiset(rest + [t, s]) == multiset(sites)
  {
    assert s in multiset(sites) && t in multiset(sites);
    var before, after := FindIn(s, sites);
    assert t in multiset(before + after);
    var before', after' := FindIn(t, before + after);
    rest := before' + after';
  }

  // ------------------------------------------------------------ the catalog

  function Mapped<A, B>(f: A -> B, s: seq<A>): (r: seq<B>)
    ensures |r| == |s| && forall i :: 0 <= i < |s| ==> r[i] == f(s[i])
  {
    seq(|s|, i requires 0 <= i < |s| => f(s[i]))
  }

  lemma MappedAround<A, B>(f: A -> B, before: seq<A>, x: A, after: seq<A>)
    ensures multiset(Mapped(f, before + [x] + after)) == multiset(Mapped(f, before + after)) + multiset{f(x)}
  {
    var p, q := Mapped(f, before), Mapped(f, after);
    assert Mapped(f, before + [x] + after) == p + [f(x)] + q;
    assert Mapped(f, before + after) == p + q;
  }

  lemma MappedHead<A, B>(f: A -> B, s: seq<A>)
    requires s != []
    ensures multiset(Mapped(f, s)) == multiset(Mapped(f, s[1..])) + multiset{f(s[0])}
  {
    assert Mapped(f, s) == [f(s[0])] + Mapped(f, s[1..]);
  }

  lemma {:induction false} MappedPermutes<A, B>(f: A -> B, a: seq<A>, b: seq<A>)
    requires multiset(a) == multiset(b)
    ensures multiset(Mapped(f, a)) == multiset(Mapped(f, b))
    decreases |a|
  {
    if a == [] {
      assert |multiset(b)| == 0;
    } else {
      assert a[0] in multiset(a);
      var before, after := FindIn(a[0], b);
      SameRest(a, before + after);
      MappedPermutes(f, a[1..], before + after);
      MappedAround(f, before, a[0], after);
      MappedHead(f, a);
    }
  }

  lemma SitesPermute(o: Sites.Externals, s: Sites.Sampler, a: seq<Sites.SiteInput>, b: seq<Sites.SiteInput>, m: real)
    requires multiset(a) == multiset(b) && m >= 1.0
    ensures multiset(Sites.SitesWith(o, s, a, m)) == multiset(Sites.SitesWith(o, s, b, m))
  {
    var place := (c: Sites.SiteInput) => Sites.SiteOf(o, s, c, m);
    assert Sites.SitesWith(o, s, a, m) == Mapped(place, a);
    assert Sites.SitesWith(o, s, b, m) == Mapped(place, b);
    MappedPermutes(place, a, b);
  }

  /** The final height under a catalog. */
  ghost function CatalogHeight(o: Sites.Externals, s: Sites.Sampler, catalog: seq<Sites.SiteInput>, hypot: Hypot, x: real, z: real): real {
    HeightOver(hypot, Sites.SitesOf(o, s, catalog), s.base(x, z), x, z)
  }

  lemma SameMax(a: seq<Sites.SiteInput>, b: seq<Sites.SiteInput>)
    requires multiset(a) == multiset(b)
    ensures Sites.MaxValue(a) == Sites.MaxValue(b)
  {
    SameMembers(a, b);
    Sites.MaxGrows(a, b);
    Sites.MaxGrows(b, a);
  }

  lemma PermutedHeight(o: Sites.Externals, s: Sites.Sampler, a: seq<Sites.SiteInput>, b: seq<Sites.SiteInput>,
                       hypot: Hypot, x: real, z: real)
    requires IsHypot(hypot) && multiset(a) == multiset(b) && OneLevel(hypot, Sites.SitesOf(o, s, a), x, z)
    ensures CatalogHeight(o, s, a, hypot, x, z) == CatalogHeight(o, s, b, hypot, x, z)
  {
    SameMax(a, b);
    SitesPermute(o, s, a, b, Sites.MaxValue(a));
    OneLevelEnough(hypot, Sites.SitesOf(o, s, a), Sites.SitesOf(o, s, b), s.base(x, z), x, z);
  }

  lemma LastTwoPlaced(o: Sites.Externals, s: Sites.Sampler, rest: seq<Sites.SiteInput>,
                      c: Sites.SiteInput, d: Sites.SiteInput, m: real)
    requires m >= 1.0
    ensures Sites.SitesWith(o, s, rest + [c, d], m)
         == Sites.SitesWith(o, s, rest, m) + [Sites.SiteOf(o, s, c, m), Sites.SiteOf(o, s, d, m)]
  {
    Sites.SitesConcat(o, s, rest, [c, d], m);
    assert Sites.SitesWith(o, s, [c, d], m) == [Sites.SiteOf(o, s, c, m), Sites.SiteOf(o, s, d, m)];
  }

  lemma OrderedHeightsDiffer(o: Sites.Externals, s: Sites.Sampler, catalog: seq<Sites.SiteInput>, i: nat, j: nat,
                             hypot: Hypot, x: real, z: real)
    returns (a: seq<Sites.SiteInput>, b: seq<Sites.SiteInput>)
    requires IsHypot(hypot) && i < |catalog| && j < |catalog|
    requires var sites := Sites.SitesOf(o, s, catalog); !Commute(hypot, sites[i], sites[j], x, z)
    ensures multiset(a) == multiset(catalog) && multiset(b) == multiset(catalog)
    ensures CatalogHeight(o, s, a, hypot, x, z) != CatalogHeight(o, s, b, hypot, x, z)
  {
    var m, c, d := Sites.MaxValue(catalog), catalog[i], catalog[j];
    var rest := WithoutTwo(catalog, c, d);
    a, b := rest + [c, d], rest + [d, c];
    SameMax(a, catalog);
    SameMax(b, catalog);
    LastTwoPlaced(o, s, rest, c, d, m);
    LastTwoPlaced(o, s, rest, d, c, m);
    LastTwoDiffer(hypot, Sites.SitesWith(o, s, rest, m), Sites.SiteOf(o, s, c, m), Sites.SiteOf(o, s, d, m), s.base(x, z), x, z);
  }

  lemma TwoThatDiffer(hypot: Hypot, sites: seq<Site>, x: real, z: real) returns (i: nat, j: nat)
    requires !OneLevel(hypot, sites, x, z)
    ensures i < |sites| && j < |sites| && !Commute(hypot, sites[i], sites[j], x, z)
  {
    var p, q :| p in sites && q in sites && !Commute(hypot, p, q, x, z);
    i :| 0 <= i < |sites| && sites[i] == p;
    j :| 0 <= j < |sites| && sites[j] == q;
  }

  ghost predicate CatalogOrderIrrelevant(o: Sites.Externals, s: Sites.Sampler, catalog: seq<Sites.SiteInput>,
                                         hypot: Hypot, x: real, z: real) {
    forall other: seq<Sites.SiteInput> :: multiset(other) == multiset(catalog) ==>
      CatalogHeight(o, s, other, hypot, x, z) == CatalogHeight(o, s, catalog, hypot, x, z)
  }

  /** The sites do not depend on the order of the catalog, but the ground may: its height at a
      point is the same for every order exactly when all sites that reach the point have one level. */
  lemma CatalogOrderExactly(o: Sites.Externals, s: Sites.Sampler, catalog: seq<Sites.SiteInput>,
                            hypot: Hypot, x: real, z: real)
    requires IsHypot(hypot)
    ensures CatalogOrderIrrelevant(o, s, catalog, hypot, x, z) <==> OneLevel(hypot, Sites.SitesOf(o, s, catalog), x, z)
  {
    var sites := Sites.SitesOf(o, s, catalog);
    if OneLevel(hypot, sites, x, z) {
      forall other: seq<Sites.SiteInput> | multiset(other) == multiset(catalog)
        ensures CatalogHeight(o, s, other, hypot, x, z) == CatalogHeight(o, s, catalog, hypot, x, z)
      {
        PermutedHeight(o, s, catalog, other, hypot, x, z);
      }
    } else {
      var i, j := TwoThatDiffer(hypot, sites, x, z);
      var a, b := OrderedHeightsDiffer(o, s, catalog, i, j, hypot, x, z);
    }
  }
}
