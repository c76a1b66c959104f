/** Props of a chunk (scatterChunk in frontend/src/world/gen/scatter.ts), on top of the sampling,
    the sites and the final height. */
module Scatter {
  import opened Common
  import opened Reals
  import opened SeededRng
  import opened Biomes
  import opened WorldGen
  import opened Poisson
  import opened PoissonGrid
  import PoissonDisc
  import Sites

  datatype Prop = Prop(kind: string, x: real, z: real, y: real, scale: real, rotation: real)

  /** What scatterChunk reads of a world. `density` depends on the seed alone. */
  datatype Land = Land(world: World, biomeAt: (real, real) -> Biome, density: (real, real) -> real)

  /** The square to fill, and the steepest slope that carries props. */
  datatype Chunk = Chunk(originX: real, originZ: real, maxSlope: real)

  /** The three rolls of one sample point. */
  datatype Rolls = Rolls(roll: real, scaleRoll: real, rotation: real)

  function RollsAt(words: Words, pos: nat, twoPi: real): Rolls {
    Rolls(UnitAt(words, pos), UnitAt(words, pos + 1), RangeAt(words, pos + 2, 0.0, twoPi))
  }

  /** The first entry whose cumulated density exceeds the roll. */
  function Pick(table: seq<ScatterEntry>, mod: real, acc: real, roll: real): Option<ScatterEntry>
    decreases |table|
  {
    if table == [] then None
    else
      var next := acc + Times(table[0].density, mod);
      if roll < next then Some(table[0]) else Pick(table[1..], mod, next, roll)
  }

  function Slope(w: World, x: real, z: real): real {
    Abs(w.HeightAt(x + 1.5, z) - w.HeightAt(x, z)) + Abs(w.HeightAt(x, z + 1.5) - w.HeightAt(x, z))
  }

  /** What becomes of a world position with given rolls. */
  function Emit(l: Land, maxSlope: real, x: real, z: real, r: Rolls): Option<Prop> {
    if OnPad(l.world.sites, x, z, 1.0) then None
    else if Slope(l.world, x, z) / 1.5 > maxSlope then None
    else
      var mod := 0.7 + 0.45 * l.density(Times(x, 0.01), Times(z, 0.01));
      match Pick(l.biomeAt(x, z).scatterTable, mod, 0.0, r.roll)
      case None => None
      case Some(e) => Some(Prop(e.kind, x, z, l.world.HeightAt(x, z),
                                e.minScale + Times(e.maxScale - e.minScale, r.scaleRoll), r.rotation))
  }

  /** The outcome at sample point `i`: the rolls of point i are words 3 i, 3 i + 1, 3 i + 2 after
      the sampling, whatever happened to the points before. */
  function EmitAt(l: Land, c: Chunk, points: seq<Point>, words: Words, pos: nat, twoPi: real, i: nat): Option<Prop> {
    if i >= |points| then None
    else Emit(l, c.maxSlope, c.originX + points[i].x, c.originZ + points[i].y, RollsAt(words, pos + 3 * i, twoPi))
  }

  /** The outcomes at the sample points, as a function of the point. */
  type Outcomes = nat -> Option<Prop>

  function OutcomesOf(l: Land, c: Chunk, points: seq<Point>, words: Words, pos: nat, twoPi: real): Outcomes {
    (i: nat) => EmitAt(l, c, points, words, pos, twoPi, i)
  }

  /** The props of the first `n` points, in order. */
  function Collect(outcomes: Outcomes, n: nat): seq<Prop> {
    if n == 0 then [] else Collect(outcomes, n - 1) + Listed(outcomes(n - 1))
  }

  function Listed(p: Option<Prop>): seq<Prop> {
    if p.Some? then [p.value] else []
  }

  /** The props of a chunk: sample first, then three rolls a point. */
  function Props(l: Land, c: Chunk, d: Params, words: Words, pos: nat): seq<Prop>
    requires d.Valid()
  {
    var s := Sample(d, words, pos);
    Collect(OutcomesOf(l, c, s.points, words, s.pos, d.trig.twoPi), |s.points|)
  }

  method PickEntry(table: seq<ScatterEntry>, mod: real, roll: real) returns (entry: Option<ScatterEntry>)
    ensures entry == Pick(table, mod, 0.0, roll)
  {
    var acc := 0.0;
    for i := 0 to |table|
      invariant Pick(table[i..], mod, acc, roll) == Pick(table, mod, 0.0, roll)
    {
      assert table[i..][1..] == table[i + 1..];
      acc := acc + Times(table[i].density, mod);
      if roll < acc {
        return Some(table[i]);
      }
    }
    entry := None;
  }

  /** The body of the loop over the sample points. */
  method TryEmit(l: Land, c: Chunk, x: real, z: real, r: Rolls) returns (prop: Option<Prop>)
    requires IsHypot(l.world.hypot)
    ensures prop == Emit(l, c.maxSlope, x, z, r)
  {
    var onPad := IsOnPad(l.world, x, z, 1.0);
    if onPad {
      return None;
    }
    var h := Height(l.world, x, z);
    var hx := Height(l.world, x + 1.5, z);
    var hz := Height(l.world, x, z + 1.5);
    var slope := Abs(hx - h) + Abs(hz - h);
    if slope / 1.5 > c.maxSlope {
      return None;
    }
    var biome := l.biomeAt(x, z);
    var mod := 0.7 + 0.45 * l.density(Times(x, 0.01), Times(z, 0.01));
    var entry := PickEntry(biome.scatterTable, mod, r.roll);
    if entry.None? {
      return None;
    }
    var e := entry.value;
    prop := Some(Prop(e.kind, x, z, h, e.minScale + Times(e.maxScale - e.minScale, r.scaleRoll), r.rotation));
  }

  /** One turn of the loop over the sample points: three rolls, whatever becomes of the point. */
  method Turn(l: Land, c: Chunk, points: seq<Point>, rng: Rng, twoPi: real, ghost pos: nat,
              i: nat) returns (prop: Option<Prop>)
    requires i < |points| && rng.pos == pos + 3 * i && IsHypot(l.world.hypot)
    modifies rng
    ensures rng.pos == pos + 3 * (i + 1) && prop == EmitAt(l, c, points, rng.words, pos, twoPi, i)
  {
    var roll := rng.Next();
    var scaleRoll := rng.Next();
    var rotation := rng.Range(0.0, twoPi);
    var r := Rolls(roll, scaleRoll, rotation);
    assert r == RollsAt(rng.words, pos + 3 * i, twoPi);
    prop := TryEmit(l, c, c.originX + points[i].x, c.originZ + points[i].y, r);
  }

  method ScatterChunk(l: Land, c: Chunk, d: Params, rng: Rng) returns (out: seq<Prop>)
    requires d.Valid() && IsHypot(l.world.hypot)
    modifies rng
    ensures out == Props(l, c, d, rng.words, old(rng.pos))
  {
    var points, iterations := PoissonDisc.Fill(d, rng);
    ghost var pos := rng.pos;
    ghost var outcomes := OutcomesOf(l, c, points, rng.words, pos, d.trig.twoPi);
    out := [];
    for i := 0 to |points|
      invariant rng.pos == pos + 3 * i
      invariant out == Collect(outcomes, i)
    {
      var prop := Turn(l, c, points, rng, d.trig.twoPi, pos, i);
      assert prop == outcomes(i);
      out := out + Listed(prop);
    }
  }

  // ---------------------------------------------------------- what a prop is

  lemma {:induction false} PickIsEntry(table: seq<ScatterEntry>, mod: real, acc: real, roll: real)
    ensures Pick(table, mod, acc, roll).Some? ==> Pick(table, mod, acc, roll).value in table
    decreases |table|
  {
    if table != [] {
      PickIsEntry(table[1..], mod, acc + Times(table[0].density, mod), roll);
    }
  }

  /** Every prop stands on unmodified terrain, off all pads by a margin of 1, on a slope that is
      not too steep, and is of a kind and scale its biome lists. */
  lemma PropsAreGrounded(l: Land, maxSlope: real, x: real, z: real, r: Rolls)
    requires IsHypot(l.world.hypot) && 0.0 <= r.scaleRoll < 1.0 && Emit(l, maxSlope, x, z, r).Some?
    ensures var p := Emit(l, maxSlope, x, z, r).value;
            && (p.x, p.z) == (x, z) && p.y == l.world.base(x, z)
            && !OnPad(l.world.sites, x, z, 1.0) && Slope(l.world, x, z) <= 1.5 * maxSlope
            && exists e :: e in l.biomeAt(x, z).scatterTable && p.kind == e.kind
                 && (e.minScale <= e.maxScale ==> e.minScale <= p.scale <= e.maxScale)
  {
    var p := Emit(l, maxSlope, x, z, r).value;
    var mod := 0.7 + 0.45 * l.density(Times(x, 0.01), Times(z, 0.01));
    var table := l.biomeAt(x, z).scatterTable;
    OffPadIsBase(l.world, x, z, 1.0);
    PickIsEntry(table, mod, 0.0, r.roll);
    var e := Pick(table, mod, 0.0, r.roll).value;
    assert p.kind == e.kind && p.scale == e.minScale + Times(e.maxScale - e.minScale, r.scaleRoll);
    if e.minScale <= e.maxScale {
      FractionsOrdered(r.scaleRoll, 1.0, e.maxScale - e.minScale);
      TimesSums(e.maxScale - e.minScale, 0.0, r.scaleRoll);
    }
  }

  /** Where prop `k` of the collected ones comes from. */
  lemma {:induction false} SourceOf(outcomes: Outcomes, n: nat, k: nat) returns (i: nat)
    requires k < |Collect(outcomes, n)|
    ensures i < n && outcomes(i) == Some(Collect(outcomes, n)[k]) && |Collect(outcomes, i)| == k
  {
    if k < |Collect(outcomes, n - 1)| {
      i := SourceOf(outcomes, n - 1, k);
    } else {
      i := n - 1;
    }
  }

  lemma {:induction false} CollectGrows(outcomes: Outcomes, m: nat, n: nat)
    requires m <= n
    ensures |Collect(outcomes, m)| <= |Collect(outcomes, n)|
  {
    if m < n {
      CollectGrows(outcomes, m, n - 1);
    }
  }

  /** Two props come from two points, in the same order. */
  lemma SourcesOrdered(outcomes: Outcomes, n: nat, j: nat, k: nat) returns (a: nat, b: nat)
    requires j < k < |Collect(outcomes, n)|
    ensures a < b < n && outcomes(a) == Some(Collect(outcomes, n)[j]) && outcomes(b) == Some(Collect(outcomes, n)[k])
  {
    a := SourceOf(outcomes, n, j);
    b := SourceOf(outcomes, n, k);
    if b <= a {
      CollectGrows(outcomes, b, a);
    }
  }

  predicate InSquare(c: Chunk, d: Params, p: Prop) {
    c.originX <= p.x < c.originX + d.width && c.originZ <= p.z < c.originZ + d.height
  }

  /** A prop stands where its sample point is, on unmodified terrain. */
  predicate StandsAt(l: Land, c: Chunk, p: Prop, point: Point) {
    p.x == c.originX + point.x && p.z == c.originZ + point.y && p.y == l.world.base(p.x, p.z)
  }

  lemma EmittedStands(l: Land, maxSlope: real, x: real, z: real, r: Rolls)
    requires IsHypot(l.world.hypot) && Emit(l, maxSlope, x, z, r).Some?
    ensures var p := Emit(l, maxSlope, x, z, r).value; (p.x, p.z) == (x, z) && p.y == l.world.base(x, z)
  {
    OffPadIsBase(l.world, x, z, 1.0);
  }

  lemma OutcomeStands(l: Land, c: Chunk, points: seq<Point>, words: Words, pos: nat,
                      twoPi: real, i: nat, p: Prop)
    requires i < |points| && IsHypot(l.world.hypot) && EmitAt(l, c, points, words, pos, twoPi, i) == Some(p)
    ensures StandsAt(l, c, p, points[i])
  {
    EmittedStands(l, c.maxSlope, c.originX + points[i].x, c.originZ + points[i].y, RollsAt(words, pos + 3 * i, twoPi));
  }

  lemma PropsSpaced(l: Land, c: Chunk, d: Params, p: Prop, q: Prop, u: Point, v: Point)
    requires d.Inside(u) && d.Inside(v) && Dist2(u, v) >= d.radius * d.radius
    requires StandsAt(l, c, p, u) && StandsAt(l, c, q, v)
    ensures Dist2(Point(p.x, p.z), Point(q.x, q.z)) >= d.radius * d.radius
    ensures InSquare(c, d, p) && InSquare(c, d, q)
  {
  }

  /** Any two collected props stand at two sample points. */
  lemma CollectedStand(l: Land, c: Chunk, points: seq<Point>, words: Words, pos: nat,
                       twoPi: real, j: nat, k: nat)
    returns (a: nat, b: nat)
    requires IsHypot(l.world.hypot)
    requires j < k < |Collect(OutcomesOf(l, c, points, words, pos, twoPi), |points|)|
    ensures a < b < |points|
    ensures var out := Collect(OutcomesOf(l, c, points, words, pos, twoPi), |points|);
            StandsAt(l, c, out[j], points[a]) && StandsAt(l, c, out[k], points[b])
  {
    var outcomes := OutcomesOf(l, c, points, words, pos, twoPi);
    a, b := SourcesOrdered(outcomes, |points|, j, k);
    OutcomeStands(l, c, points, words, pos, twoPi, a, Collect(outcomes, |points|)[j]);
    OutcomeStands(l, c, points, words, pos, twoPi, b, Collect(outcomes, |points|)[k]);
  }

  /** The props of a chunk lie in its square, any two at least `radius` apart, and each on ground
      that no pad has modified. */
  lemma ChunkPropsSpaced(l: Land, c: Chunk, d: Params, words: Words, pos: nat, j: nat, k: nat)
    requires d.Valid() && IsHypot(l.world.hypot) && j < k < |Props(l, c, d, words, pos)|
    ensures var p, q := Props(l, c, d, words, pos)[j], Props(l, c, d, words, pos)[k];
            && Dist2(Point(p.x, p.z), Point(q.x, q.z)) >= d.radius * d.radius
            && InSquare(c, d, p) && InSquare(c, d, q)
            && p.y == l.world.base(p.x, p.z) && q.y == l.world.base(q.x, q.z)
  {
    var s := Sample(d, words, pos);
    var a, b := CollectedStand(l, c, s.points, words, s.pos, d.trig.twoPi, j, k);
    SampleSpaced(d, words, pos, a, b);
    var out := Props(l, c, d, words, pos);
    PropsSpaced(l, c, d, out[j], out[k], s.points[a], s.points[b]);
  }

  lemma SampleSpaced(d: Params, words: Words, pos: nat, a: nat, b: nat)
    requires d.Valid() && a < b < |Sample(d, words, pos).points|
    ensures var points := Sample(d, words, pos).points;
            d.Inside(points[a]) && d.Inside(points[b]) && Dist2(points[a], points[b]) >= d.radius * d.radius
  {
    PoissonDisc.SampleIsPoissonDisc(d, words, pos);
  }

  // ------------------------------------------------------- non-interference

  /** Two worlds look the same to a sample point. */
  ghost predicate AgreeAt(l: Land, m: Land, x: real, z: real) {
    && l.density == m.density
    && (OnPad(l.world.sites, x, z, 1.0) <==> OnPad(m.world.sites, x, z, 1.0))
    && l.biomeAt(x, z).scatterTable == m.biomeAt(x, z).scatterTable
    && l.world.HeightAt(x, z) == m.world.HeightAt(x, z)
    && l.world.HeightAt(x + 1.5, z) == m.world.HeightAt(x + 1.5, z)
    && l.world.HeightAt(x, z + 1.5) == m.world.HeightAt(x, z + 1.5)
  }

  /** The same outcomes, but only at the points in `kept`. */
  function Only(outcomes: Outcomes, kept: nat -> bool): Outcomes {
    (i: nat) => if kept(i) then outcomes(i) else None
  }

  lemma {:induction false} SameOutcomes(f: Outcomes, g: Outcomes, n: nat)
    requires forall i: nat :: i < n ==> f(i) == g(i)
    ensures Collect(f, n) == Collect(g, n)
  {
    if n > 0 {
      SameOutcomes(f, g, n - 1);
    }
  }

  lemma AgreeingWorldsEmitTheSame(l: Land, m: Land, maxSlope: real, x: real, z: real, r: Rolls)
    requires AgreeAt(l, m, x, z)
    ensures Emit(l, maxSlope, x, z, r) == Emit(m, maxSlope, x, z, r)
  {
  }

  /** Two worlds look the same to the sample points in `kept`. */
  ghost predicate AgreeOn(l: Land, m: Land, c: Chunk, points: seq<Point>, kept: nat -> bool) {
    forall i: nat :: i < |points| && kept(i) ==> AgreeAt(l, m, c.originX + points[i].x, c.originZ + points[i].y)
  }

  lemma SameOutcomeAt(l: Land, m: Land, c: Chunk, points: seq<Point>, words: Words, pos: nat,
                      twoPi: real, i: nat)
    requires i < |points| && AgreeAt(l, m, c.originX + points[i].x, c.originZ + points[i].y)
    ensures EmitAt(l, c, points, words, pos, twoPi, i) == EmitAt(m, c, points, words, pos, twoPi, i)
  {
    AgreeingWorldsEmitTheSame(l, m, c.maxSlope, c.originX + points[i].x, c.originZ + points[i].y,
                              RollsAt(words, pos + 3 * i, twoPi));
  }

  /** Differences elsewhere never show: at the sample points where two worlds agree they have the
      same props in the same order, whatever happens at the others. */
  lemma NoInterference(l: Land, m: Land, c: Chunk, points: seq<Point>, words: Words, pos: nat,
                       twoPi: real, kept: nat -> bool)
    requires AgreeOn(l, m, c, points, kept)
    ensures Collect(Only(OutcomesOf(l, c, points, words, pos, twoPi), kept), |points|)
         == Collect(Only(OutcomesOf(m, c, points, words, pos, twoPi), kept), |points|)
  {
    var f := OutcomesOf(l, c, points, words, pos, twoPi);
    var g := OutcomesOf(m, c, points, words, pos, twoPi);
    forall i: nat | i < |points| && kept(i) ensures f(i) == g(i) {
      SameOutcomeAt(l, m, c, points, words, pos, twoPi, i);
    }
    SameOutcomes(Only(f, kept), Only(g, kept), |points|);
  }

  lemma OnlyAll(outcomes: Outcomes, n: nat)
    ensures Collect(Only(outcomes, _ => true), n) == Collect(outcomes, n)
  {
    SameOutcomes(Only(outcomes, _ => true), outcomes, n);
  }

  /** Worlds that agree at every sample point of a chunk give it the same props. */
  lemma SamePropsWhereSameWorld(l: Land, m: Land, c: Chunk, d: Params, words: Words, pos: nat)
    requires d.Valid() && AgreeOn(l, m, c, Sample(d, words, pos).points, _ => true)
    ensures Props(l, c, d, words, pos) == Props(m, c, d, words, pos)
  {
    var s := Sample(d, words, pos);
    var n := |s.points|;
    NoInterference(l, m, c, s.points, words, s.pos, d.trig.twoPi, _ => true);
    OnlyAll(OutcomesOf(l, c, s.points, words, s.pos, d.trig.twoPi), n);
    OnlyAll(OutcomesOf(m, c, s.points, words, s.pos, d.trig.twoPi), n);
  }

  /** Moving by 1.5 along an axis shortens a distance by at most 1.5. */
  lemma ProbesStayFar(hypot: Hypot, a: real, b: real)
    requires IsHypot(hypot)
    ensures hypot(a + 1.5, b) >= hypot(a, b) - 1.5 && hypot(a, b + 1.5) >= hypot(a, b) - 1.5
  {
    var h := hypot(a, b);
    BoxHoldsDisc(hypot, a, b);
    if h > 1.5 {
      assert Times(a + 1.5, a + 1.5) == Times(a, a) + 3.0 * a + 2.25;
      assert Times(b + 1.5, b + 1.5) == Times(b, b) + 3.0 * b + 2.25;
      assert Times(h - 1.5, h - 1.5) == Times(h, h) - 3.0 * h + 2.25;
      SquaresTell(h - 1.5, hypot(a + 1.5, b));
      SquaresTell(h - 1.5, hypot(a, b + 1.5));
    }
  }

  /** A site added anywhere in the list is invisible beyond its influence plus 1.5. */
  lemma FarSiteIsInvisible(l: Land, i: nat, s: Site, x: real, z: real)
    requires IsHypot(l.world.hypot) && i <= |l.world.sites|
    requires l.world.hypot(x - s.x, z - s.z) >= Influence(s) + 1.5
    ensures AgreeAt(l, l.(world := l.world.(sites := l.world.sites[..i] + [s] + l.world.sites[i..])), x, z)
  {
    var hypot := l.world.hypot;
    ProbesStayFar(hypot, x - s.x, z - s.z);
    assert (x + 1.5) - s.x == (x - s.x) + 1.5 && (z + 1.5) - s.z == (z - s.z) + 1.5;
    NewSiteIsLocal(l.world, i, s, x, z);
    NewSiteIsLocal(l.world, i, s, x + 1.5, z);
    NewSiteIsLocal(l.world, i, s, x, z + 1.5);
    NewSitePads(l.world.sites, i, s, x, z, 1.0);
    OnPadByDistance(hypot, s, x, z, 1.0);
  }

  /** A point so far from a site that no sample there can see it. */
  predicate Clear(hypot: Hypot, s: Site, x: real, z: real) {
    s.padRadius <= 16.0 && hypot(x - s.x, z - s.z) >= 31.9
  }

  lemma ClearReach(hypot: Hypot, s: Site, x: real, z: real)
    requires IsHypot(hypot) && Clear(hypot, s, x, z)
    ensures hypot(x - s.x, z - s.z) >= Influence(s) + 1.5
    ensures !Influences(hypot, s, x, z) && !Influences(hypot, s, x + 1.5, z) && !Influences(hypot, s, x, z + 1.5)
    ensures !OnPadOf(s, x, z, 1.0)
  {
    TimesOrdered(s.padRadius, 16.0, PAD_BLEND);
    ProbesStayFar(hypot, x - s.x, z - s.z);
    assert (x + 1.5) - s.x == (x - s.x) + 1.5 && (z + 1.5) - s.z == (z - s.z) + 1.5;
    OnPadByDistance(hypot, s, x, z, 1.0);
  }

  /** The two lists differ only in sites the point is clear of. */
  ghost predicate PairsClear(hypot: Hypot, a: seq<Site>, b: seq<Site>, x: real, z: real) {
    |a| == |b| && forall i :: 0 <= i < |a| ==> a[i] == b[i] || (Clear(hypot, a[i], x, z) && Clear(hypot, b[i], x, z))
  }

  /** The land of a catalog. */
  ghost function LandOf(o: Sites.Externals, s: Sites.Sampler, catalog: seq<Sites.SiteInput>, hypot: Hypot,
                        density: (real, real) -> real): Land {
    LandWith(Sites.SitesOf(o, s, catalog), s, hypot, density)
  }

  function LandWith(sites: seq<Site>, s: Sites.Sampler, hypot: Hypot, density: (real, real) -> real): Land {
    Land(World(sites, s.base, hypot), s.biomeAt, density)
  }

  lemma ResizedIsInvisible(a: seq<Site>, b: seq<Site>, s: Sites.Sampler,
                           hypot: Hypot, density: (real, real) -> real, x: real, z: real)
    requires IsHypot(hypot) && PairsClear(hypot, a, b, x, z)
    ensures AgreeAt(LandWith(a, s, hypot, density), LandWith(b, s, hypot, density), x, z)
  {
    forall i | 0 <= i < |a| && a[i] != b[i]
      ensures !Influences(hypot, a[i], x, z) && !Influences(hypot, b[i], x, z)
      ensures !Influences(hypot, a[i], x + 1.5, z) && !Influences(hypot, b[i], x + 1.5, z)
      ensures !Influences(hypot, a[i], x, z + 1.5) && !Influences(hypot, b[i], x, z + 1.5)
      ensures !OnPadOf(a[i], x, z, 1.0) && !OnPadOf(b[i], x, z, 1.0)
    {
      ClearReach(hypot, a[i], x, z);
      ClearReach(hypot, b[i], x, z);
    }
    HeightPairwise(hypot, a, b, s.base(x, z), x, z);
    HeightPairwise(hypot, a, b, s.base(x + 1.5, z), x + 1.5, z);
    HeightPairwise(hypot, a, b, s.base(x, z + 1.5), x, z + 1.5);
    PadsPairwise(a, b, x, z, 1.0);
  }

  lemma AgreeTransitive(l: Land, m: Land, n: Land, x: real, z: real)
    requires AgreeAt(l, m, x, z) && AgreeAt(m, n, x, z)
    ensures AgreeAt(l, n, x, z)
  {
  }

  lemma GrownIsInvisible(before: seq<Site>, resized: seq<Site>, k: nat, site: Site, s: Sites.Sampler,
                         hypot: Hypot, density: (real, real) -> real, x: real, z: real)
    requires IsHypot(hypot) && k <= |resized| && PairsClear(hypot, before, resized, x, z) && Clear(hypot, site, x, z)
    ensures AgreeAt(LandWith(before, s, hypot, density),
                    LandWith(resized[..k] + [site] + resized[k..], s, hypot, density), x, z)
  {
    var m := LandWith(resized, s, hypot, density);
    ResizedIsInvisible(before, resized, s, hypot, density, x, z);
    ClearReach(hypot, site, x, z);
    FarSiteIsInvisible(m, k, site, x, z);
    AgreeTransitive(LandWith(before, s, hypot, density), m, LandWith(resized[..k] + [site] + resized[k..], s, hypot, density), x, z);
  }

  predicate FarFrom(hypot: Hypot, p: Sites.Spot, x: real, z: real) {
    hypot(x - p.x, z - p.z) >= 31.9
  }

  /** A point is clear of adding challenge `n`: far from its site, and, if it is worth more than
      all others, far from every site that it resizes. */
  ghost predicate ClearOf(o: Sites.Externals, s: Sites.Sampler, catalog: seq<Sites.SiteInput>, n: Sites.SiteInput,
                          hypot: Hypot, x: real, z: real) {
    && FarFrom(hypot, Sites.PlaceOf(o, s, n), x, z)
    && forall i :: 0 <= i < |catalog| && n.value > Sites.MaxValue(catalog) && catalog[i].value > 0.0 ==>
         FarFrom(hypot, Sites.PlaceOf(o, s, catalog[i]), x, z)
  }

  lemma PairIsClear(o: Sites.Externals, s: Sites.Sampler, catalog: seq<Sites.SiteInput>,
                    n: Sites.SiteInput, g: real, hypot: Hypot, x: real, z: real, i: nat)
    requires g >= Sites.MaxValue(catalog) && (n.value <= Sites.MaxValue(catalog) ==> g == Sites.MaxValue(catalog))
    requires ClearOf(o, s, catalog, n, hypot, x, z) && i < |catalog|
    ensures var p, q := Sites.SitesOf(o, s, catalog)[i], Sites.SitesWith(o, s, catalog, g)[i];
            p == q || (Clear(hypot, p, x, z) && Clear(hypot, q, x, z))
  {
    var p, q := Sites.SitesOf(o, s, catalog)[i], Sites.SitesWith(o, s, catalog, g)[i];
    Sites.ResizedSites(o, s, catalog, g, i);
    if g != Sites.MaxValue(catalog) && catalog[i].value > 0.0 {
      FarSpotIsClear(hypot, p, Sites.PlaceOf(o, s, catalog[i]), x, z);
      FarSpotIsClear(hypot, q, Sites.PlaceOf(o, s, catalog[i]), x, z);
    }
  }

  lemma FarSpotIsClear(hypot: Hypot, p: Site, spot: Sites.Spot, x: real, z: real)
    requires Sites.Spot(p.x, p.z) == spot && p.padRadius <= 16.0 && FarFrom(hypot, spot, x, z)
    ensures Clear(hypot, p, x, z)
  {
  }

  lemma ClearOfMeans(o: Sites.Externals, s: Sites.Sampler, catalog: seq<Sites.SiteInput>,
                     n: Sites.SiteInput, g: real, hypot: Hypot, x: real, z: real)
    requires g >= Sites.MaxValue(catalog) && (n.value <= Sites.MaxValue(catalog) ==> g == Sites.MaxValue(catalog))
    requires ClearOf(o, s, catalog, n, hypot, x, z) && n.value <= g
    ensures PairsClear(hypot, Sites.SitesOf(o, s, catalog), Sites.SitesWith(o, s, catalog, g), x, z)
    ensures Clear(hypot, Sites.SiteOf(o, s, n, g), x, z)
  {
    forall i | 0 <= i < |catalog|
      ensures var p, q := Sites.SitesOf(o, s, catalog)[i], Sites.SitesWith(o, s, catalog, g)[i];
              p == q || (Clear(hypot, p, x, z) && Clear(hypot, q, x, z))
    {
      PairIsClear(o, s, catalog, n, g, hypot, x, z, i);
    }
    Sites.SiteStandsAtPlace(o, s, n, g);
  }

  /** Adding a challenge, whatever it is worth, changes nothing a sample point sees that is at
      least 31.9 units from its site and, if it is the new dearest, from the sites it resizes. */
  lemma NewChallengeIsLocal(o: Sites.Externals, s: Sites.Sampler, catalog: seq<Sites.SiteInput>,
                            k: nat, n: Sites.SiteInput,
                            hypot: Hypot, density: (real, real) -> real, x: real, z: real)
    requires IsHypot(hypot) && k <= |catalog| && ClearOf(o, s, catalog, n, hypot, x, z)
    ensures AgreeAt(LandOf(o, s, catalog, hypot, density),
                    LandOf(o, s, catalog[..k] + [n] + catalog[k..], hypot, density), x, z)
  {
    var g := Sites.SitesGrow(o, s, catalog, k, n);
    ClearOfMeans(o, s, catalog, n, g, hypot, x, z);
    GrownIsInvisible(Sites.SitesOf(o, s, catalog), Sites.SitesWith(o, s, catalog, g), k, Sites.SiteOf(o, s, n, g),
                     s, hypot, density, x, z);
  }

  /** The sample points of a chunk are clear of what a new challenge brings. */
  ghost predicate AllClear(hypot: Hypot, before: seq<Site>, resized: seq<Site>, site: Site, c: Chunk, points: seq<Point>) {
    forall i :: 0 <= i < |points| ==>
      && PairsClear(hypot, before, resized, c.originX + points[i].x, c.originZ + points[i].y)
      && Clear(hypot, site, c.originX + points[i].x, c.originZ + points[i].y)
  }

  lemma GrownAt(before: seq<Site>, resized: seq<Site>, k: nat, site: Site, l: Land, m: Land,
                c: Chunk, points: seq<Point>, i: nat)
    requires IsHypot(l.world.hypot) && l.world.sites == before && k <= |resized| && i < |points|
    requires AllClear(l.world.hypot, before, resized, site, c, points)
    requires m == l.(world := l.world.(sites := resized[..k] + [site] + resized[k..]))
    ensures AgreeAt(l, m, c.originX + points[i].x, c.originZ + points[i].y)
  {
    var s := Sites.Sampler(l.biomeAt, l.world.base, 0.0);
    assert l == LandWith(before, s, l.world.hypot, l.density);
    assert m == LandWith(resized[..k] + [site] + resized[k..], s, l.world.hypot, l.density);
    GrownIsInvisible(before, resized, k, site, s, l.world.hypot, l.density, c.originX + points[i].x, c.originZ + points[i].y);
  }

  lemma GrownOff(before: seq<Site>, resized: seq<Site>, k: nat, site: Site, l: Land, m: Land,
                 c: Chunk, points: seq<Point>)
    requires IsHypot(l.world.hypot) && l.world.sites == before && k <= |resized|
    requires AllClear(l.world.hypot, before, resized, site, c, points)
    requires m == l.(world := l.world.(sites := resized[..k] + [site] + resized[k..]))
    ensures AgreeOn(l, m, c, points, _ => true)
  {
    forall i: nat | i < |points| ensures AgreeAt(l, m, c.originX + points[i].x, c.originZ + points[i].y) {
      GrownAt(before, resized, k, site, l, m, c, points, i);
    }
  }

  lemma GrownKeepsProps(before: seq<Site>, resized: seq<Site>, k: nat, site: Site, s: Sites.Sampler,
                        hypot: Hypot, density: (real, real) -> real,
                        c: Chunk, d: Params, words: Words, pos: nat)
    requires IsHypot(hypot) && k <= |resized| && d.Valid()
    requires AllClear(hypot, before, resized, site, c, Sample(d, words, pos).points)
    ensures Props(LandWith(before, s, hypot, density), c, d, words, pos)
         == Props(LandWith(resized[..k] + [site] + resized[k..], s, hypot, density), c, d, words, pos)
  {
    var l, m := LandWith(before, s, hypot, density), LandWith(resized[..k] + [site] + resized[k..], s, hypot, density);
    GrownOff(before, resized, k, site, l, m, c, Sample(d, words, pos).points);
    SamePropsWhereSameWorld(l, m, c, d, words, pos);
  }

  ghost predicate ChunkClearOf(o: Sites.Externals, s: Sites.Sampler, catalog: seq<Sites.SiteInput>, n: Sites.SiteInput,
                               hypot: Hypot, c: Chunk, points: seq<Point>) {
    forall i :: 0 <= i < |points| ==> ClearOf(o, s, catalog, n, hypot, c.originX + points[i].x, c.originZ + points[i].y)
  }

  lemma ChunkClearOfMeans(o: Sites.Externals, s: Sites.Sampler, catalog: seq<Sites.SiteInput>,
                          n: Sites.SiteInput, g: real, hypot: Hypot, c: Chunk, points: seq<Point>)
    requires g >= Sites.MaxValue(catalog) && (n.value <= Sites.MaxValue(catalog) ==> g == Sites.MaxValue(catalog))
    requires ChunkClearOf(o, s, catalog, n, hypot, c, points) && n.value <= g
    ensures AllClear(hypot, Sites.SitesOf(o, s, catalog), Sites.SitesWith(o, s, catalog, g), Sites.SiteOf(o, s, n, g), c, points)
  {
    forall i | 0 <= i < |points|
      ensures PairsClear(hypot, Sites.SitesOf(o, s, catalog), Sites.SitesWith(o, s, catalog, g),
                         c.originX + points[i].x, c.originZ + points[i].y)
      ensures Clear(hypot, Sites.SiteOf(o, s, n, g), c.originX + points[i].x, c.originZ + points[i].y)
    {
      ClearOfMeans(o, s, catalog, n, g, hypot, c.originX + points[i].x, c.originZ + points[i].y);
    }
  }

  /** So a chunk all of whose sample points are clear keeps its props. */
  lemma FarChunkKeepsItsProps(o: Sites.Externals, s: Sites.Sampler, catalog: seq<Sites.SiteInput>,
                              k: nat, n: Sites.SiteInput,
                              hypot: Hypot, density: (real, real) -> real,
                              c: Chunk, d: Params, words: Words, pos: nat)
    requires IsHypot(hypot) && k <= |catalog| && d.Valid()
    requires ChunkClearOf(o, s, catalog, n, hypot, c, Sample(d, words, pos).points)
    ensures Props(LandOf(o, s, catalog, hypot, density), c, d, words, pos)
         == Props(LandOf(o, s, catalog[..k] + [n] + catalog[k..], hypot, density), c, d, words, pos)
  {
    var g := Sites.SitesGrow(o, s, catalog, k, n);
    ChunkClearOfMeans(o, s, catalog, n, g, hypot, c, Sample(d, words, pos).points);
    GrownKeepsProps(Sites.SitesOf(o, s, catalog), Sites.SitesWith(o, s, catalog, g), k, Sites.SiteOf(o, s, n, g),
                    s, hypot, density, c, d, words, pos);
  }
}
