/** The shapes of the terrain (frontend/src/world/gen/terrain.ts, fbm and domainWarp of
    frontend/src/world/gen/noise.ts, and the pads of frontend/src/world/gen/worldgen.ts), pinned by
    what they are at given places rather than by their bounds. */
module TerrainLaws {
  import opened Reals
  import opened Terrain
  import opened WorldGen

  // ------------------------------------------------------------ smoothstep

  /** The curve of smoothstep is the one cubic that goes from 0 to 1 and is flat at both ends. */
  lemma CubicIsOnly(a: real, b: real, c: real, d: real, t: real)
    requires a == 0.0 && a + b + c + d == 1.0           // its values at 0 and 1
    requires b == 0.0 && b + 2.0 * c + 3.0 * d == 0.0   // its slopes there
    ensures Cubic(t) == a + b * t + c * (t * t) + d * (t * t * t)
  {
    assert c == 3.0 && d == -2.0;
  }

  /** What is left to 1, and the symmetry of the curve. */
  lemma CubicRest(t: real)
    ensures 1.0 - Cubic(t) == (1.0 - t) * (1.0 - t) * (1.0 + 2.0 * t)
    ensures Cubic(1.0 - t) == 1.0 - Cubic(t)
  {
  }

  lemma QuotientIs(t: real, d: real)
    requires d != 0.0
    ensures Times(t, d) / d == t
  {
  }

  /** A fraction `t` of the way from one edge to the other. */
  lemma SmoothstepBetween(edge0: real, edge1: real, t: real)
    requires edge0 != edge1 && 0.0 <= t <= 1.0
    ensures Smoothstep(edge0, edge1, edge0 + Times(t, edge1 - edge0)) == Cubic(t)
  {
    QuotientIs(t, edge1 - edge0);
  }

  // ------------------------------------------------------------------- fbm

  lemma FrequencyScales(p: FbmParams, x: real, n: nat)
    ensures Times(Times(x, p.lacunarity), FrequencyAt(p, n)) == Times(x, FrequencyAt(p, n + 1))
  {
  }

  /** The octaves over a field are its first octave, plus gain times the octaves over the field
      lacunarity times finer; and so are their weights. */
  lemma {:induction false} FbmIsSelfSimilar(noise: Noise, x: real, y: real, p: FbmParams, n: nat)
    ensures OctaveSum(noise, x, y, p, n + 1) ==
            noise(Times(x, p.frequency), Times(y, p.frequency))
              + Times(p.gain, OctaveSum(noise, Times(x, p.lacunarity), Times(y, p.lacunarity), p, n))
    ensures WeightSum(p, n + 1) == 1.0 + Times(p.gain, WeightSum(p, n))
  {
    if n == 0 {
      OneOctave(noise, x, y, p);
    } else {
      FbmIsSelfSimilar(noise, x, y, p, n - 1);
      FrequencyScales(p, x, n - 1);
      FrequencyScales(p, y, n - 1);
      var fx, fy := Times(x, p.lacunarity), Times(y, p.lacunarity);
      assert Octave(noise, fx, fy, p, n - 1) == Octave(noise, x, y, p, n);
      NextTerm(p.gain, OctaveSum(noise, fx, fy, p, n - 1), Power(p.gain, n - 1), Octave(noise, x, y, p, n));
      TimesSums(WeightSum(p, n - 1), Power(p.gain, n - 1), p.gain);
      TimesSums(p.gain, 0.0, WeightSum(p, n));
      TimesSums(p.gain, 0.0, WeightSum(p, n - 1));
    }
  }

  lemma OneOctave(noise: Noise, x: real, y: real, p: FbmParams)
    ensures OctaveSum(noise, x, y, p, 1) == noise(Times(x, p.frequency), Times(y, p.frequency))
    ensures WeightSum(p, 1) == 1.0
    ensures Times(p.gain, OctaveSum(noise, Times(x, p.lacunarity), Times(y, p.lacunarity), p, 0)) == 0.0
    ensures Times(p.gain, WeightSum(p, 0)) == 0.0
  {
    assert Power(p.gain, 0) == 1.0 && FrequencyAt(p, 0) == p.frequency;
    assert OctaveSum(noise, x, y, p, 1) == OctaveSum(noise, x, y, p, 0) + Times(Power(p.gain, 0), Octave(noise, x, y, p, 0));
    assert WeightSum(p, 1) == WeightSum(p, 0) + Power(p.gain, 0);
  }

  lemma NextTerm(gain: real, sum: real, power: real, v: real)
    ensures Times(gain, sum + Times(power, v)) == Times(gain, sum) + Times(Times(power, gain), v)
  {
  }

  /** fbm is the sum of all its octaves over the sum of all their weights. */
  lemma FbmIsMean(noise: Noise, x: real, y: real, p: FbmParams)
    requires p.octaves >= 1 && WeightSum(p, p.octaves) > 0.0
    ensures Times(FbmOf(noise, x, y, p), WeightSum(p, p.octaves)) == OctaveSum(noise, x, y, p, p.octaves)
  {
    Quotient(OctaveSum(noise, x, y, p, p.octaves), WeightSum(p, p.octaves));
  }

  lemma Quotient(v: real, w: real)
    requires w > 0.0
    ensures Times(v / w, w) == v
  {
  }

  // ---------------------------------------------------------- the fields

  /** Where the noise keeps its range, the clamps of elevation and moisture never act. */
  lemma FieldsAreMeans(f: Fields, c: Config, x: real, z: real)
    requires Within(f.height, -1.0, 1.0) && c.height.gain >= 0.0 && c.height.octaves >= 1
    requires Within(f.moisture, -1.0, 1.0) && c.moisture.gain >= 0.0 && c.moisture.octaves >= 1
    ensures Moisture(f, c, x, z) == (1.0 + FbmOf(f.moisture, x, z, c.moisture)) / 2.0
    ensures var (wx, wz) := DomainWarp(f.warpX, f.warpZ, x, z, c.warp);
            RawElevation(f, c, x, z) == (1.0 + FbmOf(f.height, wx, wz, c.height)) / 2.0
  {
    var (wx, wz) := DomainWarp(f.warpX, f.warpZ, x, z, c.warp);
    FbmWithin(f.moisture, x, z, c.moisture, -1.0, 1.0);
    FbmWithin(f.height, wx, wz, c.height, -1.0, 1.0);
  }

  /** The warp moves a position, along each axis by the strength times its own field at that
      position and frequency, hence by at most the strength; without strength not at all. */
  lemma WarpMoves(warpX: Noise, warpY: Noise, x: real, y: real, p: WarpParams)
    requires Within(warpX, -1.0, 1.0) && Within(warpY, -1.0, 1.0)
    ensures var (wx, wy) := DomainWarp(warpX, warpY, x, y, p);
            && wx - x == Times(p.strength, warpX(Times(x, p.frequency), Times(y, p.frequency)))
            && wy - y == Times(p.strength, warpY(Times(x, p.frequency), Times(y, p.frequency)))
            && Abs(wx - x) <= Abs(p.strength) && Abs(wy - y) <= Abs(p.strength)
  {
    ProductWithin(p.strength, warpX(Times(x, p.frequency), Times(y, p.frequency)));
    ProductWithin(p.strength, warpY(Times(x, p.frequency), Times(y, p.frequency)));
  }

  lemma ProductWithin(s: real, v: real)
    requires -1.0 <= v <= 1.0
    ensures Abs(Times(s, v)) <= Abs(s)
  {
    var a, b := Abs(s), Abs(v);
    assert Abs(Times(s, v)) == Times(a, b);
    TimesOrdered(b, 1.0, a);
    TimesSums(a, 0.0, b);
    TimesSums(1.0, 0.0, a);
  }

  /** How much of the plains level there is at a raw elevation `e` that lies a fraction `t` of the
      band's width from its center: the flattening, fading with the rest of the smoothstep curve. */
  lemma ShapedBetween(rd: Redistribution, pow: real -> real, e: real, t: real)
    requires rd.plainsWidth > 0.0 && 0.0 <= t <= 1.0 && Abs(e - rd.plainsCenter) == Times(t, rd.plainsWidth)
    ensures Shaped(rd, pow, e) ==
            pow(e) + Times(Times(pow(rd.plainsCenter) - pow(e), (1.0 - t) * (1.0 - t) * (1.0 + 2.0 * t)), rd.plainsFlatten)
  {
    SmoothstepBetween(0.0, rd.plainsWidth, t);
    CubicRest(t);
  }

  /** The base height at raw elevations 0 and 1, where the band does not reach, and at its center. */
  lemma LandmarkHeights(f: Fields, c: Config, x: real, z: real)
    requires Sound(c.rd, f.pow)
    ensures RawElevation(f, c, x, z) == 0.0 && c.rd.plainsCenter >= c.rd.plainsWidth ==> BaseHeight(f, c, x, z) == 0.0
    ensures RawElevation(f, c, x, z) == 1.0 && 1.0 - c.rd.plainsCenter >= c.rd.plainsWidth ==>
              BaseHeight(f, c, x, z) == c.heightScale
    ensures RawElevation(f, c, x, z) == c.rd.plainsCenter ==>
              BaseHeight(f, c, x, z) == Times(f.pow(c.rd.plainsCenter), c.heightScale)
  {
    var e := RawElevation(f, c, x, z);
    ShapedRises(c.rd, f.pow, e, e);
    TimesSums(1.0, 0.0, c.heightScale);
  }

  // ------------------------------------------------------------------ pads

  /** The profile of one pad: level up to padRadius; a fraction `t` of the way from there to 1.9
      padRadius, that much of the smoothstep curve back to the height there was before. */
  lemma PadProfile(hypot: Hypot, s: Site, h: real, x: real, z: real, t: real)
    requires IsHypot(hypot) && s.padRadius > 0.0 && 0.0 <= t < 1.0
    ensures hypot(x - s.x, z - s.z) <= s.padRadius ==> Flatten(hypot, s, h, x, z) == s.y
    ensures hypot(x - s.x, z - s.z) >= 1.9 * s.padRadius ==> Flatten(hypot, s, h, x, z) == h
    ensures hypot(x - s.x, z - s.z) == s.padRadius + Times(t, 0.9 * s.padRadius) ==>
              Flatten(hypot, s, h, x, z) == s.y + Times(h - s.y, Cubic(t))
  {
    var d := hypot(x - s.x, z - s.z);
    assert Influence(s) == 1.9 * s.padRadius;
    if d <= s.padRadius {
      BlendRange(hypot, s, x, z);
      TimesSums(h - s.y, 0.0, 0.0);
    }
    if d == s.padRadius + Times(t, 0.9 * s.padRadius) {
      BetweenEdges(s.padRadius, t);
      SmoothstepBetween(s.padRadius, Influence(s), t);
    }
  }

  lemma BetweenEdges(r: real, t: real)
    requires r > 0.0 && 0.0 <= t < 1.0
    ensures r + Times(t, 0.9 * r) < 1.9 * r
  {
    TimesStrict(t, 1.0, 0.9 * r);
    TimesSums(1.0, 0.0, 0.9 * r);
  }
}
