/** The height and moisture fields (frontend/src/world/gen/terrain.ts) and the octave sum they
    are built from (fbm and domainWarp in frontend/src/world/gen/noise.ts), over exact reals. */
module Terrain {
  import opened Reals

  type Noise = (real, real) -> real

  function Clamp01(v: real): (r: real)
    ensures 0.0 <= r <= 1.0
    ensures 0.0 <= v <= 1.0 ==> r == v
  {
    if v < 0.0 then 0.0 else if v > 1.0 then 1.0 else v
  }

  // ------------------------------------------------------------ smoothstep

  function Cubic(t: real): real { t * t * (3.0 - 2.0 * t) }

  function Smoothstep(edge0: real, edge1: real, x: real): real
    requires edge0 != edge1
  {
    Cubic(Clamp01((x - edge0) / (edge1 - edge0)))
  }

  lemma NonNegativeProduct(a: real, b: real)
    requires a >= 0.0 && b >= 0.0
    ensures a * b >= 0.0
  {
  }

  lemma CubicOrdered(a: real, b: real)
    requires 0.0 <= a <= b <= 1.0
    ensures 0.0 <= Cubic(a) <= Cubic(b) <= 1.0
  {
    CubicSlope(a, b);
    CubicSlope(b, 1.0);
    CubicSlope(0.0, a);
    assert Cubic(0.0) == 0.0 && Cubic(1.0) == 1.0;
  }

  lemma CubicSlope(a: real, b: real)
    requires 0.0 <= a <= b <= 1.0
    ensures Cubic(a) <= Cubic(b)
  {
    var slope := 3.0 * (a + b) - 2.0 * (a * a + a * b + b * b);
    NonNegativeProduct(a, 1.0 - a);
    NonNegativeProduct(b, 1.0 - b);
    NonNegativeProduct(b - a, b - a);
    assert slope == 2.0 * (a * (1.0 - a)) + 2.0 * (b * (1.0 - b)) + (a + b - 2.0 * (a * b));
    assert a + b - 2.0 * (a * b) == a * (1.0 - a) + b * (1.0 - b) + (b - a) * (b - a);
    NonNegativeProduct(b - a, slope);
    assert Cubic(b) - Cubic(a) == (b - a) * slope;
  }

  /** Between its edges smoothstep rises from 0 to 1; outside it is flat. */
  lemma SmoothstepRises(edge0: real, edge1: real, x: real, y: real)
    requires edge0 < edge1 && x <= y
    ensures 0.0 <= Smoothstep(edge0, edge1, x) <= Smoothstep(edge0, edge1, y) <= 1.0
    ensures x <= edge0 ==> Smoothstep(edge0, edge1, x) == 0.0
    ensures x >= edge1 ==> Smoothstep(edge0, edge1, x) == 1.0
  {
    var d := edge1 - edge0;
    QuotientOrdered(x - edge0, y - edge0, d);
    QuotientOrdered(x - edge0, 0.0, d);
    QuotientOrdered(d, x - edge0, d);
    assert d / d == 1.0 && 0.0 / d == 0.0;
    CubicOrdered(Clamp01((x - edge0) / d), Clamp01((y - edge0) / d));
  }

  // ------------------------------------------------------------------- fbm

  datatype FbmParams = FbmParams(octaves: int, lacunarity: real, gain: real, frequency: real)

  function Power(b: real, n: nat): real {
    if n == 0 then 1.0 else Times(Power(b, n - 1), b)
  }

  function FrequencyAt(p: FbmParams, n: nat): real {
    if n == 0 then p.frequency else Times(FrequencyAt(p, n - 1), p.lacunarity)
  }

  function Octave(noise: Noise, x: real, y: real, p: FbmParams, o: nat): real {
    noise(Times(x, FrequencyAt(p, o)), Times(y, FrequencyAt(p, o)))
  }

  /** The first `n` octaves, weighted by the powers of the gain. */
  function OctaveSum(noise: Noise, x: real, y: real, p: FbmParams, n: nat): real {
    if n == 0 then 0.0 else OctaveSum(noise, x, y, p, n - 1) + Times(Power(p.gain, n - 1), Octave(noise, x, y, p, n - 1))
  }

  function WeightSum(p: FbmParams, n: nat): real {
    if n == 0 then 0.0 else WeightSum(p, n - 1) + Power(p.gain, n - 1)
  }

  function FbmOf(noise: Noise, x: real, y: real, p: FbmParams): real {
    var n := if p.octaves < 0 then 0 else p.octaves;
    if WeightSum(p, n) > 0.0 then OctaveSum(noise, x, y, p, n) / WeightSum(p, n) else 0.0
  }

  method Fbm(noise: Noise, x: real, y: real, p: FbmParams) returns (r: real)
    ensures r == FbmOf(noise, x, y, p)
  {
    var amplitude := 1.0;
    var frequency := p.frequency;
    var sum := 0.0;
    var norm := 0.0;
    var o := 0;
    while o < p.octaves
      invariant 0 <= o && (o <= p.octaves || o == 0)
      invariant amplitude == Power(p.gain, o) && frequency == FrequencyAt(p, o)
      invariant sum == OctaveSum(noise, x, y, p, o) && norm == WeightSum(p, o)
    {
      sum := sum + Times(amplitude, noise(Times(x, frequency), Times(y, frequency)));
      norm := norm + amplitude;
      amplitude := Times(amplitude, p.gain);
      frequency := Times(frequency, p.lacunarity);
      o := o + 1;
    }
    r := if norm > 0.0 then sum / norm else 0.0;
  }

  lemma {:induction false} PowerNonNegative(b: real, n: nat)
    requires b >= 0.0
    ensures Power(b, n) >= 0.0
  {
    if n > 0 {
      PowerNonNegative(b, n - 1);
      TimesNonNegative(Power(b, n - 1), b);
    }
  }

  ghost predicate Within(noise: Noise, lo: real, hi: real) {
    forall a, b :: lo <= noise(a, b) <= hi
  }

  lemma WeightedStep(lo: real, hi: real, weight: real, sum: real, w: real, v: real)
    requires Times(lo, weight) <= sum <= Times(hi, weight) && w >= 0.0 && lo <= v <= hi
    ensures Times(lo, weight + w) <= sum + Times(w, v) <= Times(hi, weight + w)
  {
  }

  lemma {:induction false} OctaveSumWithin(noise: Noise, x: real, y: real, p: FbmParams, n: nat, lo: real, hi: real)
    requires p.gain >= 0.0 && Within(noise, lo, hi)
    ensures Times(lo, WeightSum(p, n)) <= OctaveSum(noise, x, y, p, n) <= Times(hi, WeightSum(p, n))
    ensures n >= 1 ==> WeightSum(p, n) >= 1.0
  {
    if n > 0 {
      OctaveSumWithin(noise, x, y, p, n - 1, lo, hi);
      PowerNonNegative(p.gain, n - 1);
      WeightedStep(lo, hi, WeightSum(p, n - 1), OctaveSum(noise, x, y, p, n - 1),
                   Power(p.gain, n - 1), Octave(noise, x, y, p, n - 1));
    }
  }

  /** The normalised sum of at least one octave stays in any range the noise stays in. */
  lemma FbmWithin(noise: Noise, x: real, y: real, p: FbmParams, lo: real, hi: real)
    requires p.gain >= 0.0 && p.octaves >= 1 && Within(noise, lo, hi)
    ensures lo <= FbmOf(noise, x, y, p) <= hi
  {
    OctaveSumWithin(noise, x, y, p, p.octaves, lo, hi);
    QuotientWithin(lo, hi, OctaveSum(noise, x, y, p, p.octaves), WeightSum(p, p.octaves));
  }

  // ------------------------------------------------- the redistribution curve

  /** `exponent` is applied through Math.pow, see IsPow. */
  datatype Redistribution = Redistribution(plainsCenter: real, plainsWidth: real, plainsFlatten: real)

  /** What is used of Math.pow(., exponent) for an exponent > 0: on [0, 1] it rises from 0 to 1. */
  ghost predicate IsPow(pow: real -> real) {
    pow(0.0) == 0.0 && pow(1.0) == 1.0 && forall a, b :: 0.0 <= a <= b <= 1.0 ==> pow(a) <= pow(b)
  }

  /** 1 at the center of the plains band, 0 outside it. */
  function Band(rd: Redistribution, e: real): real
    requires rd.plainsWidth != 0.0
  {
    1.0 - Smoothstep(0.0, rd.plainsWidth, Abs(e - rd.plainsCenter))
  }

  function Shaped(rd: Redistribution, pow: real -> real, e: real): real
    requires rd.plainsWidth != 0.0
  {
    pow(e) + Times(Times(pow(rd.plainsCenter) - pow(e), Band(rd, e)), rd.plainsFlatten)
  }

  ghost predicate Sound(rd: Redistribution, pow: real -> real) {
    IsPow(pow) && 0.0 <= rd.plainsCenter <= 1.0 && rd.plainsWidth > 0.0 && 0.0 <= rd.plainsFlatten <= 1.0
  }

  /** `Shaped` is a mixture of pow(e) and the plains level, with this weight on the latter. */
  function Pull(rd: Redistribution, e: real): real
    requires rd.plainsWidth != 0.0
  {
    Times(Band(rd, e), rd.plainsFlatten)
  }

  function Mix(p: real, level: real, u: real): real { p + Times(level - p, u) }

  lemma ShapedIsMix(rd: Redistribution, pow: real -> real, e: real)
    requires Sound(rd, pow)
    ensures Shaped(rd, pow, e) == Mix(pow(e), pow(rd.plainsCenter), Pull(rd, e))
  {
  }

  lemma BandNearer(rd: Redistribution, d: real, e: real)
    requires rd.plainsWidth > 0.0 && Abs(e - rd.plainsCenter) <= Abs(d - rd.plainsCenter)
    ensures 0.0 <= Band(rd, d) <= Band(rd, e) <= 1.0
    ensures Abs(d - rd.plainsCenter) >= rd.plainsWidth ==> Band(rd, d) == 0.0
    ensures e == rd.plainsCenter ==> Band(rd, e) == 1.0
  {
    SmoothstepRises(0.0, rd.plainsWidth, Abs(e - rd.plainsCenter), Abs(d - rd.plainsCenter));
    SmoothstepRises(0.0, rd.plainsWidth, Abs(d - rd.plainsCenter), Abs(d - rd.plainsCenter));
  }

  lemma PullNearer(rd: Redistribution, d: real, e: real)
    requires rd.plainsWidth > 0.0 && 0.0 <= rd.plainsFlatten <= 1.0
    requires Abs(e - rd.plainsCenter) <= Abs(d - rd.plainsCenter)
    ensures 0.0 <= Pull(rd, d) <= Pull(rd, e) <= 1.0
    ensures Abs(d - rd.plainsCenter) >= rd.plainsWidth ==> Pull(rd, d) == 0.0
  {
    BandNearer(rd, d, e);
    FractionsOrdered(Band(rd, d), Band(rd, e), rd.plainsFlatten);
  }

  /** On one side of the level: nearer values pulled harder come out nearer. */
  lemma MixOrdered(p: real, q: real, level: real, u: real, v: real)
    requires 0.0 <= u <= v <= 1.0
    ensures p <= q <= level ==> p <= Mix(p, level, u) <= Mix(q, level, v) <= level
    ensures p >= q >= level ==> p >= Mix(p, level, u) >= Mix(q, level, v) >= level
  {
    if p <= q <= level {
      MixBelow(p, q, level, u, v);
    }
    if p >= q >= level {
      MixBelow(-p, -q, -level, u, v);
      assert Mix(-p, -level, u) == -Mix(p, level, u) && Mix(-q, -level, v) == -Mix(q, level, v);
    }
  }

  lemma MixBelow(p: real, q: real, level: real, u: real, v: real)
    requires 0.0 <= u <= v <= 1.0 && p <= q <= level
    ensures p <= Mix(p, level, u) <= Mix(q, level, v) <= level
  {
    FractionsOrdered(u, v, level - p);
    FractionsOrdered(u, v, level - q);
    TimesOrdered(p, q, 1.0 - v);
    TimesSums(1.0, v, p);
    TimesSums(1.0, v, q);
    TimesSums(p, q, 1.0 - v);
    TimesSums(q, p, 1.0 - v);
    TimesSums(level, p, u);
    TimesSums(level, p, v);
    TimesSums(level, q, v);
    TimesSums(level - p, 0.0, u);
    TimesSums(level - p, 0.0, v);
    TimesSums(level - q, 0.0, v);
    TimesSums(p, q, v);
    TimesSums(q, p, v);
  }

  /** The curve keeps order: whatever is higher in the raw field is at least as high after the
      plains have been widened. It stays in [0, 1], is pow(e) outside the band and the plains
      level at its center. */
  lemma ShapedRises(rd: Redistribution, pow: real -> real, d: real, e: real)
    requires Sound(rd, pow) && 0.0 <= d <= e <= 1.0
    ensures 0.0 <= Shaped(rd, pow, d) <= Shaped(rd, pow, e) <= 1.0
    ensures Abs(d - rd.plainsCenter) >= rd.plainsWidth ==> Shaped(rd, pow, d) == pow(d)
    ensures d == rd.plainsCenter ==> Shaped(rd, pow, d) == pow(d)
  {
    var c := rd.plainsCenter;
    var level := pow(c);
    ShapedIsMix(rd, pow, d);
    ShapedIsMix(rd, pow, e);
    PullNearer(rd, d, d);
    PullNearer(rd, e, e);
    assert pow(0.0) <= pow(d) <= pow(e) <= pow(1.0);
    if e <= c {
      PullNearer(rd, d, e);
      MixOrdered(pow(d), pow(e), level, Pull(rd, d), Pull(rd, e));
    } else if d >= c {
      PullNearer(rd, e, d);
      MixOrdered(pow(e), pow(d), level, Pull(rd, e), Pull(rd, d));
    } else {
      MixOrdered(pow(d), pow(d), level, Pull(rd, d), Pull(rd, d));
      MixOrdered(pow(e), pow(e), level, Pull(rd, e), Pull(rd, e));
    }
  }

  // ---------------------------------------------------------- the sampler

  datatype WarpParams = WarpParams(strength: real, frequency: real)

  datatype Config = Config(worldExtent: real, heightScale: real, height: FbmParams, warp: WarpParams,
                           moisture: FbmParams, rd: Redistribution)

  /** The four noise fields of a seed, and Math.pow with the configured exponent. */
  datatype Fields = Fields(height: Noise, warpX: Noise, warpZ: Noise, moisture: Noise, pow: real -> real)

  function DomainWarp(warpX: Noise, warpY: Noise, x: real, y: real, p: WarpParams): (real, real) {
    var fx, fy := Times(x, p.frequency), Times(y, p.frequency);
    (x + Times(p.strength, warpX(fx, fy)), y + Times(p.strength, warpY(fx, fy)))
  }

  function RawElevation(f: Fields, c: Config, x: real, z: real): real {
    var (wx, wz) := DomainWarp(f.warpX, f.warpZ, x, z, c.warp);
    Clamp01(0.5 + 0.5 * FbmOf(f.height, wx, wz, c.height))
  }

  function Elevation(f: Fields, c: Config, x: real, z: real): real
    requires c.rd.plainsWidth != 0.0
  {
    Shaped(c.rd, f.pow, RawElevation(f, c, x, z))
  }

  function BaseHeight(f: Fields, c: Config, x: real, z: real): real
    requires c.rd.plainsWidth != 0.0
  {
    Times(Elevation(f, c, x, z), c.heightScale)
  }

  function Moisture(f: Fields, c: Config, x: real, z: real): real {
    Clamp01(0.5 + 0.5 * FbmOf(f.moisture, x, z, c.moisture))
  }

  /** Heights lie in [0, heightScale], and two places are ordered as their raw elevations are. */
  lemma HeightsInOrder(f: Fields, c: Config, x: real, z: real, x': real, z': real)
    requires Sound(c.rd, f.pow) && c.heightScale >= 0.0
    requires RawElevation(f, c, x, z) <= RawElevation(f, c, x', z')
    ensures 0.0 <= BaseHeight(f, c, x, z) <= BaseHeight(f, c, x', z') <= c.heightScale
  {
    ShapedRises(c.rd, f.pow, RawElevation(f, c, x, z), RawElevation(f, c, x', z'));
    FractionsOrdered(Elevation(f, c, x, z), Elevation(f, c, x', z'), c.heightScale);
  }
}
