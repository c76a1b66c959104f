/** The final height of the terrain, with the challenge pads flattened
    (frontend/src/world/gen/worldgen.ts). */
module WorldGen {
  import opened Reals
  import Terrain

  datatype Site = Site(name: string, category: string, x: real, z: real, y: real,
                       scale: real, padRadius: real, biomeId: string)

  /** Math.hypot. */
  type Hypot = (real, real) -> real

  ghost predicate IsHypot(hypot: Hypot) {
    forall a, b :: hypot(a, b) >= 0.0 && Times(hypot(a, b), hypot(a, b)) == Times(a, a) + Times(b, b)
  }

  const PAD_BLEND: real := 1.9

  function Influence(s: Site): real { Times(s.padRadius, PAD_BLEND) }

  predicate Influences(hypot: Hypot, s: Site, x: real, z: real) {
    hypot(x - s.x, z - s.z) < Influence(s)
  }

  /** 0 on the pad, 1 where the influence of the site ends. */
  function Blend(hypot: Hypot, s: Site, x: real, z: real): real
    requires s.padRadius > 0.0
  {
    Terrain.Smoothstep(s.padRadius, Influence(s), hypot(x - s.x, z - s.z))
  }

  /** What one site makes of the height so far. */
  function Flatten(hypot: Hypot, s: Site, h: real, x: real, z: real): real {
    if Influences(hypot, s, x, z) && s.padRadius > 0.0 then s.y + Times(h - s.y, Blend(hypot, s, x, z)) else h
  }

  /** The plain fold over all sites, without any early rejection. */
  function HeightOver(hypot: Hypot, sites: seq<Site>, h: real, x: real, z: real): real
    decreases |sites|
  {
    if sites == [] then h else HeightOver(hypot, sites[1..], Flatten(hypot, sites[0], h, x, z), x, z)
  }

  function PadReach(s: Site, margin: real): real { Influence(s) + margin }

  predicate OnPadOf(s: Site, x: real, z: real, margin: real) {
    var r := PadReach(s, margin);
    r > 0.0 && Times(x - s.x, x - s.x) + Times(z - s.z, z - s.z) < Times(r, r)
  }

  predicate OnPad(sites: seq<Site>, x: real, z: real, margin: real) {
    exists i :: 0 <= i < |sites| && OnPadOf(sites[i], x, z, margin)
  }

  // ---------------------------------------------------------------- distances

  lemma SquaresTell(a: real, b: real)
    requires a >= 0.0 && b >= 0.0
    ensures a < b <==> Times(a, a) < Times(b, b)
    ensures a <= b <==> Times(a, a) <= Times(b, b)
  {
    if a < b {
      TimesOrdered(a, b, a);
      TimesStrict(a, b, b);
      TimesSums(a, b, a);
      TimesSums(a, b, b);
    } else if b < a {
      TimesOrdered(b, a, b);
      TimesStrict(b, a, a);
      TimesSums(b, a, b);
      TimesSums(b, a, a);
    }
  }

  lemma SquareOfAbs(a: real)
    ensures Times(a, a) == Times(Abs(a), Abs(a)) && Times(a, a) >= 0.0
  {
  }

  /** The bounding box holds the whole disc: what it rejects the distance test would reject. */
  lemma BoxHoldsDisc(hypot: Hypot, dx: real, dz: real)
    requires IsHypot(hypot)
    ensures Abs(dx) <= hypot(dx, dz) && Abs(dz) <= hypot(dx, dz)
  {
    SquareOfAbs(dx);
    SquareOfAbs(dz);
    SquaresTell(Abs(dx), hypot(dx, dz));
    SquaresTell(Abs(dz), hypot(dx, dz));
  }

  lemma OnPadByDistance(hypot: Hypot, s: Site, x: real, z: real, margin: real)
    requires IsHypot(hypot)
    ensures OnPadOf(s, x, z, margin) <==> hypot(x - s.x, z - s.z) < PadReach(s, margin)
  {
    if PadReach(s, margin) > 0.0 {
      SquaresTell(hypot(x - s.x, z - s.z), PadReach(s, margin));
    }
  }

  lemma InfluenceNeedsPad(hypot: Hypot, s: Site, x: real, z: real)
    requires IsHypot(hypot) && Influences(hypot, s, x, z)
    ensures s.padRadius > 0.0 && Influence(s) > s.padRadius
  {
  }

  // -------------------------------------------------------------- the program

  /** What createWorldGen closes over. */
  datatype World = World(sites: seq<Site>, base: (real, real) -> real, hypot: Hypot)
  {
    function HeightAt(x: real, z: real): real {
      HeightOver(hypot, sites, base(x, z), x, z)
    }
  }

  method Height(w: World, x: real, z: real) returns (h: real)
    requires IsHypot(w.hypot)
    ensures h == w.HeightAt(x, z)
  {
    h := w.base(x, z);
    for i := 0 to |w.sites|
      invariant HeightOver(w.hypot, w.sites[i..], h, x, z) == w.HeightAt(x, z)
    {
      var s := w.sites[i];
      assert w.sites[i..][1..] == w.sites[i + 1..];
      var influence := s.padRadius * PAD_BLEND;
      var dx, dz := x - s.x, z - s.z;
      BoxHoldsDisc(w.hypot, dx, dz);
      if Abs(dx) > influence || Abs(dz) > influence {
        continue;
      }
      var d := w.hypot(dx, dz);
      if d >= influence {
        continue;
      }
      InfluenceNeedsPad(w.hypot, s, x, z);
      var t := Terrain.Smoothstep(s.padRadius, influence, d);
      h := s.y + Times(h - s.y, t);
    }
  }

  method IsOnPad(w: World, x: real, z: real, extraMargin: real := 0.0) returns (on: bool)
    ensures on <==> OnPad(w.sites, x, z, extraMargin)
  {
    for i := 0 to |w.sites|
      invariant forall j :: 0 <= j < i ==> !OnPadOf(w.sites[j], x, z, extraMargin)
    {
      var s := w.sites[i];
      var r := s.padRadius * PAD_BLEND + extraMargin;
      var dx, dz := x - s.x, z - s.z;
      assert r == PadReach(s, extraMargin);
      if Abs(dx) > r || Abs(dz) > r {
        BoxRejects(dx, dz, r);
        continue;
      }
      if Times(dx, dx) + Times(dz, dz) < Times(r, r) {
        SquareOfAbs(dx);
        SquareOfAbs(dz);
        return true;
      }
    }
    on := false;
  }

  lemma BoxRejects(dx: real, dz: real, r: real)
    requires Abs(dx) > r || Abs(dz) > r
    ensures r > 0.0 ==> Times(dx, dx) + Times(dz, dz) >= Times(r, r)
  {
  }

  // ----------------------------------------------------------- what it means

  lemma BlendRange(hypot: Hypot, s: Site, x: real, z: real)
    requires IsHypot(hypot) && Influences(hypot, s, x, z)
    ensures s.padRadius > 0.0 && 0.0 <= Blend(hypot, s, x, z) <= 1.0
    ensures hypot(x - s.x, z - s.z) <= s.padRadius ==> Blend(hypot, s, x, z) == 0.0
  {
    InfluenceNeedsPad(hypot, s, x, z);
    var d := hypot(x - s.x, z - s.z);
    Terrain.SmoothstepRises(s.padRadius, Influence(s), d, d);
  }

  lemma FlattenWithin(hypot: Hypot, s: Site, h: real, x: real, z: real, lo: real, hi: real)
    requires IsHypot(hypot) && lo <= h <= hi
    requires Influences(hypot, s, x, z) ==> lo <= s.y <= hi
    ensures lo <= Flatten(hypot, s, h, x, z) <= hi
  {
    if Influences(hypot, s, x, z) {
      BlendRange(hypot, s, x, z);
      var t := Blend(hypot, s, x, z);
      if h >= s.y {
        FractionsOrdered(t, t, h - s.y);
      } else {
        FractionsOrdered(t, t, s.y - h);
        TimesSums(h, s.y, t);
        TimesSums(s.y, h, t);
      }
      TimesSums(h - s.y, 0.0, t);
      TimesSums(s.y - h, 0.0, t);
    }
  }

  /** The final height never leaves the range of the base height and the influencing pads. */
  lemma {:induction false} HeightWithin(hypot: Hypot, sites: seq<Site>, h: real, x: real, z: real, lo: real, hi: real)
    requires IsHypot(hypot) && lo <= h <= hi
    requires forall i :: 0 <= i < |sites| && Influences(hypot, sites[i], x, z) ==> lo <= sites[i].y <= hi
    ensures lo <= HeightOver(hypot, sites, h, x, z) <= hi
    decreases |sites|
  {
    if sites != [] {
      FlattenWithin(hypot, sites[0], h, x, z, lo, hi);
      HeightWithin(hypot, sites[1..], Flatten(hypot, sites[0], h, x, z), x, z, lo, hi);
    }
  }

  lemma {:induction false} HeightConcat(hypot: Hypot, a: seq<Site>, b: seq<Site>, h: real, x: real, z: real)
    ensures HeightOver(hypot, a + b, h, x, z) == HeightOver(hypot, b, HeightOver(hypot, a, h, x, z), x, z)
    decreases |a|
  {
    if a == [] {
      assert a + b == b;
    } else {
      assert (a + b)[1..] == a[1..] + b;
      HeightConcat(hypot, a[1..], b, Flatten(hypot, a[0], h, x, z), x, z);
    }
  }

  lemma {:induction false} HeightUntouched(hypot: Hypot, sites: seq<Site>, h: real, x: real, z: real)
    requires forall i :: 0 <= i < |sites| ==> !Influences(hypot, sites[i], x, z)
    ensures HeightOver(hypot, sites, h, x, z) == h
    decreases |sites|
  {
    if sites != [] {
      HeightUntouched(hypot, sites[1..], h, x, z);
    }
  }

  /** On its pad a site has its own level, unless a later site reaches there. */
  lemma PadIsLevel(w: World, i: nat, x: real, z: real)
    requires IsHypot(w.hypot) && i < |w.sites| && w.sites[i].padRadius > 0.0
    requires w.hypot(x - w.sites[i].x, z - w.sites[i].z) <= w.sites[i].padRadius
    requires forall j :: i < j < |w.sites| ==> !Influences(w.hypot, w.sites[j], x, z)
    ensures w.HeightAt(x, z) == w.sites[i].y
  {
    var s := w.sites[i];
    TimesStrict(1.0, PAD_BLEND, s.padRadius);
    TimesSums(s.padRadius, 0.0, PAD_BLEND);
    TimesSums(1.0, 0.0, s.padRadius);
    assert Influences(w.hypot, s, x, z);
    BlendRange(w.hypot, s, x, z);
    var before, after := w.sites[..i], w.sites[i + 1..];
    assert w.sites == before + ([s] + after);
    HeightConcat(w.hypot, before, [s] + after, w.base(x, z), x, z);
    var h := HeightOver(w.hypot, before, w.base(x, z), x, z);
    assert ([s] + after)[1..] == after;
    TimesSums(h - s.y, 0.0, 0.0);
    assert Flatten(w.hypot, s, h, x, z) == s.y;
    HeightUntouched(w.hypot, after, s.y, x, z);
  }

  /** Off all pads, by any margin, the terrain is unmodified. */
  lemma OffPadIsBase(w: World, x: real, z: real, margin: real)
    requires IsHypot(w.hypot) && margin >= 0.0 && !OnPad(w.sites, x, z, margin)
    ensures w.HeightAt(x, z) == w.base(x, z)
  {
    forall i | 0 <= i < |w.sites| ensures !Influences(w.hypot, w.sites[i], x, z) {
      OnPadByDistance(w.hypot, w.sites[i], x, z, margin);
      assert !OnPadOf(w.sites[i], x, z, margin);
    }
    HeightUntouched(w.hypot, w.sites, w.base(x, z), x, z);
  }

  /** A site changes the height only where it reaches, wherever it stands in the list. */
  lemma NewSiteIsLocal(w: World, i: nat, s: Site, x: real, z: real)
    requires i <= |w.sites| && !Influences(w.hypot, s, x, z)
    ensures w.(sites := w.sites[..i] + [s] + w.sites[i..]).HeightAt(x, z) == w.HeightAt(x, z)
  {
    var before, after, h := w.sites[..i], w.sites[i..], w.base(x, z);
    assert w.sites == before + after && before + [s] + after == before + ([s] + after);
    HeightConcat(w.hypot, before, after, h, x, z);
    HeightConcat(w.hypot, before, [s] + after, h, x, z);
    assert ([s] + after)[1..] == after;
  }

  lemma NewSitePads(sites: seq<Site>, i: nat, s: Site, x: real, z: real, margin: real)
    requires i <= |sites|
    ensures OnPad(sites[..i] + [s] + sites[i..], x, z, margin) <==> OnPad(sites, x, z, margin) || OnPadOf(s, x, z, margin)
  {
    var all := sites[..i] + [s] + sites[i..];
    if OnPad(all, x, z, margin) {
      var j :| 0 <= j < |all| && OnPadOf(all[j], x, z, margin);
      assert all[j] == if j < i then sites[j] else if j == i then s else sites[j - 1];
    }
    if OnPad(sites, x, z, margin) {
      var j :| 0 <= j < |sites| && OnPadOf(sites[j], x, z, margin);
      assert sites[j] == all[if j < i then j else j + 1];
    }
    if OnPadOf(s, x, z, margin) {
      assert all[i] == s;
    }
  }

  /** Two lists of sites that differ only in sites that do not reach a point are the same there. */
  lemma {:induction false} HeightPairwise(hypot: Hypot, a: seq<Site>, b: seq<Site>, h: real, x: real, z: real)
    requires |a| == |b|
    requires forall i :: 0 <= i < |a| ==>
               a[i] == b[i] || (!Influences(hypot, a[i], x, z) && !Influences(hypot, b[i], x, z))
    ensures HeightOver(hypot, a, h, x, z) == HeightOver(hypot, b, h, x, z)
    decreases |a|
  {
    if a != [] {
      HeightPairwise(hypot, a[1..], b[1..], Flatten(hypot, a[0], h, x, z), x, z);
    }
  }

  lemma PadsPairwise(a: seq<Site>, b: seq<Site>, x: real, z: real, margin: real)
    requires |a| == |b|
    requires forall i :: 0 <= i < |a| ==> a[i] == b[i] || (!OnPadOf(a[i], x, z, margin) && !OnPadOf(b[i], x, z, margin))
    ensures OnPad(a, x, z, margin) <==> OnPad(b, x, z, margin)
  {
    if OnPad(a, x, z, margin) {
      var i :| 0 <= i < |a| && OnPadOf(a[i], x, z, margin);
      assert OnPadOf(b[i], x, z, margin);
    }
    if OnPad(b, x, z, margin) {
      var i :| 0 <= i < |b| && OnPadOf(b[i], x, z, margin);
      assert OnPadOf(a[i], x, z, margin);
    }
  }
}
