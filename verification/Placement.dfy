/** Layout of the first world version (frontend/src/world/placement.ts): the mulberry32
    generator, districts and the spiral placement inside them. */
module Placement {
  import opened Iteration
  import opened Reals
  import opened SeededRng
  import opened Poisson
  import Sites

  // ------------------------------------------------------------- mulberry32

  const WRAP: int := 0x1_0000_0000
  const INCREMENT: int := 0x6d2b79f5

  /** The state moves by a constant, modulo 2^32. */
  function Bump(a: Word): Word { (a + INCREMENT) % WRAP }

  function StateAfter(seed: Word, n: nat): Word { Iterate(Bump, seed, n) }

  /** What a draw makes of the state. */
  function Mulberry(a: bv32): bv32 {
    var t := (a ^ (a >> 15)) * (1 | a);
    var u := (t + (t ^ (t >> 7)) * (61 | t)) ^ t;
    u ^ (u >> 14)
  }

  /** The functions the layout is built from. The results below hold for any hash and any output
      function; `Shipped` names those of the source. */
  datatype Kit = Kit(trig: Trig, sqrt: real -> real, hash: Text -> bv32, output: Word -> Word, uncategorized: Text)
  {
    ghost predicate Valid() {
      IsTrig(trig) && forall v: real :: v >= 0.0 ==> sqrt(v) >= 0.0 && Times(sqrt(v), sqrt(v)) == v
    }

    /** The number drawn in state `a`. */
    function Draw(a: Word): (u: real)
      ensures 0.0 <= u < 1.0
    {
      output(Bump(a)) as real / TWO32
    }
  }

  function Shipped(trig: Trig, sqrt: real -> real): Kit {
    Kit(trig, sqrt, Fnv32, (a: Word) => Mulberry(a as bv32) as Word,
        UNCATEGORIZED)
  }

  /** "uncategorized" as code units. */
  const UNCATEGORIZED: Text := [117, 110, 99, 97, 116, 101, 103, 111, 114, 105, 122, 101, 100]

  /** The closure returned by seededRandom. */
  class SeededRandom {
    const kit: Kit
    var a: Word

    constructor (kit: Kit, seed: Word)
      ensures this.kit == kit && a == seed
    {
      this.kit, a := kit, seed;
    }

    method Next() returns (u: real)
      modifies this
      ensures a == Bump(old(a)) && u == kit.Draw(old(a))
    {
      a := (a + INCREMENT) % WRAP;
      u := kit.output(a) as real / TWO32;
    }
  }

  /** The first two draws mulberry32 is known by: seeds 0 and 1, whose states become the increment
      and one more. */
  lemma MulberryVectors()
    ensures Bump(0) == 0x6d2b79f5 && Mulberry(0x6d2b79f5) == 1144304738
    ensures Bump(1) == 0x6d2b79f6 && Mulberry(0x6d2b79f6) == 2693262067
  {
  }

  lemma {:induction false} StateIs(seed: Word, n: nat)
    ensures StateAfter(seed, n) == (seed + n * INCREMENT) % WRAP
  {
    if n > 0 {
      StateIs(seed, n - 1);
      BumpsAdd(seed, n - 1);
    }
  }

  lemma BumpsAdd(seed: int, n: int)
    ensures ((seed + n * INCREMENT) % WRAP + INCREMENT) % WRAP == (seed + (n + 1) * INCREMENT) % WRAP
  {
  }

  lemma Wraps(x: int, q: int)
    ensures (x + q * WRAP) % WRAP == x % WRAP
  {
  }

  /** The increment is odd, so it has an inverse: only multiples of 2^32 increments come back. */
  lemma IncrementInvertible(k: int)
    ensures (k * INCREMENT) % WRAP == 0 <==> k % WRAP == 0
  {
    var inverse, quotient := 3696798301, 1576479847;
    assert INCREMENT * inverse == 1 + quotient * WRAP;
    var j, d := k * INCREMENT / WRAP, k / WRAP;
    if (k * INCREMENT) % WRAP == 0 {
      assert k == (j * inverse - quotient * k) * WRAP;
      Wraps(0, j * inverse - quotient * k);
    }
    if k % WRAP == 0 {
      assert k * INCREMENT == (d * INCREMENT) * WRAP;
      Wraps(0, d * INCREMENT);
    }
  }

  lemma SameRemainder(x: int, y: int)
    ensures x % WRAP == y % WRAP <==> (x - y) % WRAP == 0
  {
  }

  /** The state repeats after 2^32 draws and no sooner. */
  lemma StateRepeats(seed: Word, m: nat, n: nat)
    ensures StateAfter(seed, m) == StateAfter(seed, n) <==> (m - n) % WRAP == 0
  {
    StateIs(seed, m);
    StateIs(seed, n);
    SameRemainder(seed + m * INCREMENT, seed + n * INCREMENT);
    IncrementInvertible(m - n);
    assert (seed + m * INCREMENT) - (seed + n * INCREMENT) == (m - n) * INCREMENT;
  }

  // --------------------------------------------------------------- districts

  datatype Input = Input(name: Text, category: Text, value: real)

  datatype Building = Building(name: Text, category: Text, at: Point, scale: real)

  const DISTRICT_SPACING: real := 60.0
  const DISTRICT_RADIUS: real := 22.0

  /** The hash is an unsigned 32-bit number, and so are its remainders below. */
  function CategoryHash(kit: Kit, category: Text): bv32 {
    kit.hash(if category == [] then kit.uncategorized else category)
  }

  function AngleSlot(h: bv32): bv32 { h % 3600 }

  function RingSlot(h: bv32): bv32 { h % 8 }

  function DistrictAngle(kit: Kit, slot: bv32): real { Times(slot as int as real / 3600.0, kit.trig.twoPi) }

  /** DISTRICT_SPACING * (1 + Math.floor(ringSlot / 4)), of an integer below 8. */
  function DistrictDistance(slot: bv32): real {
    DISTRICT_SPACING * (1 + (slot / 4) as int) as real
  }

  const ORIGIN: Point := Point(0.0, 0.0)

  function DistrictCenter(kit: Kit, category: Text): Point {
    var h := CategoryHash(kit, category);
    Polar(kit.trig, ORIGIN, DistrictAngle(kit, AngleSlot(h)), DistrictDistance(RingSlot(h)))
  }

  function Seed(kit: Kit, name: Text): Word { kit.hash(name) as Word }

  function Spot(kit: Kit, name: Text, category: Text): Point {
    var seed := Seed(kit, name);
    Polar(kit.trig, DistrictCenter(kit, category), Times(kit.Draw(seed), kit.trig.twoPi),
          Times(kit.sqrt(kit.Draw(Bump(seed))), DISTRICT_RADIUS))
  }

  lemma OnCircle(t: Trig, o: Point, angle: real, dist: real)
    requires IsTrig(t)
    ensures Dist2(o, Polar(t, o, angle, dist)) == Times(dist, dist)
  {
  }

  lemma RingFollowsAngle(h: bv32)
    ensures RingSlot(AngleSlot(h)) == RingSlot(h)
  {
  }

  /** Two districts at one angle are one district: 8 divides 3600, so the angle fixes the ring. All
      centers lie on two circles, of radius 60 and 120, where the comment speaks of up to 8 rings. */
  lemma DistrictsOnTwoRings(kit: Kit, a: Text, b: Text)
    requires kit.Valid()
    ensures AngleSlot(CategoryHash(kit, a)) == AngleSlot(CategoryHash(kit, b)) ==>
              DistrictCenter(kit, a) == DistrictCenter(kit, b) && ColorIndex(kit, a) == ColorIndex(kit, b)
    ensures Dist2(ORIGIN, DistrictCenter(kit, a)) == if ColorIndex(kit, a) < 4 then 3600.0 else 14400.0
  {
    var h, k := CategoryHash(kit, a), CategoryHash(kit, b);
    RingFollowsAngle(h);
    RingFollowsAngle(k);
    OnCircle(kit.trig, ORIGIN, DistrictAngle(kit, AngleSlot(h)), DistrictDistance(RingSlot(h)));
    TwoDistances(RingSlot(h));
    SlotRange(h);
  }

  lemma SlotRange(h: bv32)
    ensures RingSlot(h) < 8
  {
  }

  lemma TwoDistances(slot: bv32)
    requires slot < 8
    ensures Times(DistrictDistance(slot), DistrictDistance(slot)) == if slot < 4 then 3600.0 else 14400.0
  {
    Quarters(slot);
  }

  lemma Quarters(slot: bv32)
    requires slot < 8
    ensures slot / 4 == if slot < 4 then 0 else 1
  {
  }

  /** A challenge stands less than 22 from the center of the district of its category: the square
      of its distance is 22 squared times the second draw of its name, so that it is spread evenly
      over the disc. */
  lemma StaysInDistrict(kit: Kit, name: Text, category: Text)
    requires kit.Valid()
    ensures Dist2(DistrictCenter(kit, category), Spot(kit, name, category)) < DISTRICT_RADIUS * DISTRICT_RADIUS
    ensures Dist2(DistrictCenter(kit, category), Spot(kit, name, category)) == Times(484.0, kit.Draw(Bump(Seed(kit, name))))
  {
    var seed := Seed(kit, name);
    var u := kit.Draw(Bump(seed));
    OnCircle(kit.trig, DistrictCenter(kit, category), Times(kit.Draw(seed), kit.trig.twoPi), Times(kit.sqrt(u), DISTRICT_RADIUS));
    ScaledSquare(kit.sqrt(u), u);
  }

  lemma ScaledSquare(r: real, u: real)
    requires Times(r, r) == u < 1.0
    ensures Times(Times(r, DISTRICT_RADIUS), Times(r, DISTRICT_RADIUS)) == Times(484.0, u) < DISTRICT_RADIUS * DISTRICT_RADIUS
  {
  }

  lemma PolarIs(t: Trig, o: Point, angle: real, r: real)
    ensures Polar(t, o, angle, r).x == o.x + Times(t.cos(angle), r)
    ensures Polar(t, o, angle, r).y == o.y + Times(t.sin(angle), r)
  {
  }

  /** c is slot parts in 3600 of a full turn around, 60 or 120 from the origin. */
  predicate OnRing(t: Trig, slot: bv32, ring: bv32, c: Point) {
    var angle, r := Times(slot as int as real / 3600.0, t.twoPi), if ring < 4 then 60.0 else 120.0;
    c.x == Times(t.cos(angle), r) && c.y == Times(t.sin(angle), r)
  }

  lemma CenterIs(kit: Kit, category: Text)
    ensures var h := CategoryHash(kit, category);
            OnRing(kit.trig, AngleSlot(h), RingSlot(h), DistrictCenter(kit, category))
  {
    var h := CategoryHash(kit, category);
    SlotRange(h);
    CenterAt(kit, AngleSlot(h), RingSlot(h));
  }

  lemma CenterAt(kit: Kit, slot: bv32, ring: bv32)
    requires ring < 8
    ensures OnRing(kit.trig, slot, ring, Polar(kit.trig, ORIGIN, DistrictAngle(kit, slot), DistrictDistance(ring)))
  {
    RingDistance(ring);
    PolarIs(kit.trig, ORIGIN, DistrictAngle(kit, slot), DistrictDistance(ring));
  }

  lemma RingDistance(slot: bv32)
    requires slot < 8
    ensures DistrictDistance(slot) == if slot < 4 then 60.0 else 120.0
  {
    Quarters(slot);
  }

  /** A challenge around it: at the first draw of its name of a full turn, 22 times the root of the
      second draw away. */
  lemma SpotIs(kit: Kit, name: Text, category: Text)
    ensures var center, seed, p := DistrictCenter(kit, category), Seed(kit, name), Spot(kit, name, category);
            var angle, r := Times(kit.Draw(seed), kit.trig.twoPi), Times(kit.sqrt(kit.Draw(Bump(seed))), 22.0);
            p.x == center.x + Times(kit.trig.cos(angle), r) && p.y == center.y + Times(kit.trig.sin(angle), r)
  {
    var seed := Seed(kit, name);
    PolarIs(kit.trig, DistrictCenter(kit, category), Times(kit.Draw(seed), kit.trig.twoPi),
            Times(kit.sqrt(kit.Draw(Bump(seed))), DISTRICT_RADIUS));
  }

  // ------------------------------------------------------------------ colors

  /** The index of categoryColor into its palette of eight. */
  function ColorIndex(kit: Kit, category: Text): bv32 { RingSlot(CategoryHash(kit, category)) }

  function Low(u: bv16): bv3 { (u & 7) as bv3 }

  function LowOf(h: bv32): bv3 { (h & 7) as bv3 }

  function LowUnits(s: Text): (r: seq<bv3>)
    ensures |r| == |s| && forall i :: 0 <= i < |s| ==> r[i] == Low(s[i])
  {
    seq(|s|, i requires 0 <= i < |s| => Low(s[i]))
  }

  /** One FNV-1a round on the last three bits. */
  function ColorRound(h: bv3, u: bv3): bv3 { (h ^ u) * 3 }

  /** The color of a category, from the last three bits of its code units. */
  function ColorOf(s: Text): bv3 {
    Fold(ColorRound, 5, LowUnits(if s == [] then UNCATEGORIZED else s))
  }

  lemma RoundKeepsLow(h: bv32, u: bv16)
    ensures LowOf(Fnv32Round(h, u)) == ColorRound(LowOf(h), Low(u))
  {
  }

  lemma SlotIsLow(h: bv32)
    ensures RingSlot(h) == LowOf(h) as bv32
  {
  }

  lemma {:induction false} FoldKeepsLow(h: bv32, s: Text)
    ensures LowOf(Fold(Fnv32Round, h, s)) == Fold(ColorRound, LowOf(h), LowUnits(s))
    decreases |s|
  {
    if s != [] {
      RoundKeepsLow(h, s[0]);
      FoldKeepsLow(Fnv32Round(h, s[0]), s[1..]);
      assert LowUnits(s)[1..] == LowUnits(s[1..]);
    }
  }

  lemma ColorRoundBits(h: bv3, k: bv3, u: bv3, v: bv3)
    ensures ColorRound(h, u) == ColorRound(k, u) ==> h == k
    ensures ColorRound(h, u) == ColorRound(h, v) ==> u == v
  {
  }

  lemma ColorRoundLossless()
    ensures Lossless(ColorRound)
  {
    forall h, k, u | ColorRound(h, u) == ColorRound(k, u) ensures h == k {
      ColorRoundBits(h, k, u, u);
    }
    forall h, u, v | ColorRound(h, u) == ColorRound(h, v) ensures u == v {
      ColorRoundBits(h, h, u, v);
    }
  }

  lemma LowColors(trig: Trig, sqrt: real -> real, s: Text)
    ensures ColorIndex(Shipped(trig, sqrt), s) == ColorOf(s) as bv32
  {
    var hashed := if s == [] then UNCATEGORIZED else s;
    FoldKeepsLow(0x811c9dc5, hashed);
    SlotIsLow(Fnv32(hashed));
  }

  lemma WidenedApart(a: bv3, b: bv3)
    ensures a as bv32 == b as bv32 <==> a == b
  {
  }

  /** When two categories share a color, by the hash of the source: exactly when ColorOf, which
      looks at three bits of each code unit, is the same. */
  lemma SameColorExactly(trig: Trig, sqrt: real -> real, a: Text, b: Text)
    ensures ColorIndex(Shipped(trig, sqrt), a) == ColorIndex(Shipped(trig, sqrt), b) <==> ColorOf(a) == ColorOf(b)
  {
    LowColors(trig, sqrt, a);
    LowColors(trig, sqrt, b);
    WidenedApart(ColorOf(a), ColorOf(b));
  }

  /** Two categories of one length that differ in one code unit share their color exactly when
      these units agree modulo 8: the case of an ASCII letter, for one, never shows. */
  lemma OneUnitColors(trig: Trig, sqrt: real -> real, s: Text, i: nat, u: bv16)
    requires i < |s|
    ensures ColorIndex(Shipped(trig, sqrt), s) == ColorIndex(Shipped(trig, sqrt), s[i := u]) <==> Low(s[i]) == Low(u)
  {
    SameColorExactly(trig, sqrt, s, s[i := u]);
    assert LowUnits(s[i := u]) == LowUnits(s)[i := Low(u)];
    if Low(s[i]) == Low(u) {
      assert LowUnits(s[i := u]) == LowUnits(s);
    } else {
      ColorRoundLossless();
      FoldOneApart(ColorRound, 5, LowUnits(s), i, Low(u));
    }
  }

  // The categories of the challenge catalog (CATEGORY_BIOMES in frontend/src/world/gen/sites.ts),
  // as code units.
  const WEB: Text := [119, 101, 98]
  const FORENSICS: Text := [102, 111, 114, 101, 110, 115, 105, 99, 115]
  const MISC: Text := [109, 105, 115, 99]
  const CRYPTO: Text := [99, 114, 121, 112, 116, 111]
  const OSINT: Text := [111, 115, 105, 110, 116]
  const PWN: Text := [112, 119, 110]
  const STEGANO: Text := [115, 116, 101, 103, 97, 110, 111]
  const REVERSE: Text := [114, 101, 118, 101, 114, 115, 101]

  /** `hs` lists what the loop over `s` goes through, from `hs[0]` on. */
  ghost predicate Traces(s: Text, hs: seq<bv3>) {
    |hs| == |s| + 1 && forall i :: 0 <= i < |s| ==> hs[i + 1] == ColorRound(hs[i], Low(s[i]))
  }

  lemma {:induction false} TraceEnds(s: Text, hs: seq<bv3>)
    requires Traces(s, hs)
    ensures Fold(ColorRound, hs[0], LowUnits(s)) == hs[|s|]
    decreases |s|
  {
    if s != [] {
      assert LowUnits(s)[1..] == LowUnits(s[1..]);
      forall i | 0 <= i < |s[1..]| ensures hs[1..][i + 1] == ColorRound(hs[1..][i], Low(s[1..][i])) {
        assert hs[(i + 1) + 1] == ColorRound(hs[i + 1], Low(s[i + 1]));
      }
      TraceEnds(s[1..], hs[1..]);
    }
  }

  lemma ColorOfWeb()
    ensures ColorOf(WEB) == 1
  {
    TraceEnds(WEB, [5, 6, 1, 1]);
  }

  lemma ColorOfForensics()
    ensures ColorOf(FORENSICS) == 1
  {
    TraceEnds(FORENSICS, [5, 1, 2, 0, 7, 3, 0, 3, 0, 1]);
  }

  lemma ColorOfMisc()
    ensures ColorOf(MISC) == 1
  {
    TraceEnds(MISC, [5, 0, 3, 0, 1]);
  }

  lemma ColorOfCrypto()
    ensures ColorOf(CRYPTO) == 0
  {
    TraceEnds(CRYPTO, [5, 2, 0, 3, 1, 7, 0]);
  }

  lemma ColorOfOsint()
    ensures ColorOf(OSINT) == 0
  {
    TraceEnds(OSINT, [5, 6, 7, 2, 4, 0]);
  }

  lemma ColorOfPwn()
    ensures ColorOf(PWN) == 2
  {
    TraceEnds(PWN, [5, 7, 0, 2]);
  }

  lemma ColorOfStegano()
    ensures ColorOf(STEGANO) == 2
  {
    TraceEnds(STEGANO, [5, 2, 2, 5, 6, 5, 1, 2]);
  }

  lemma ColorOfReverse()
    ensures ColorOf(REVERSE) == 5
  {
    TraceEnds(REVERSE, [5, 5, 0, 2, 5, 5, 2, 5]);
  }

  /** Of the eight categories of the catalog three have one color, and two more pairs share one:
      the palette of eight shows four colors. */
  lemma CatalogColorsCollide(trig: Trig, sqrt: real -> real)
    ensures var kit := Shipped(trig, sqrt);
            && ColorIndex(kit, WEB) == ColorIndex(kit, FORENSICS) == ColorIndex(kit, MISC) == 1
            && ColorIndex(kit, CRYPTO) == ColorIndex(kit, OSINT) == 0
            && ColorIndex(kit, PWN) == ColorIndex(kit, STEGANO) == 2
            && ColorIndex(kit, REVERSE) == 5
  {
    ColorOfWeb();
    LowColors(trig, sqrt, WEB);
    ColorOfForensics();
    LowColors(trig, sqrt, FORENSICS);
    ColorOfMisc();
    LowColors(trig, sqrt, MISC);
    ColorOfCrypto();
    LowColors(trig, sqrt, CRYPTO);
    ColorOfOsint();
    LowColors(trig, sqrt, OSINT);
    ColorOfPwn();
    LowColors(trig, sqrt, PWN);
    ColorOfStegano();
    LowColors(trig, sqrt, STEGANO);
    ColorOfReverse();
    LowColors(trig, sqrt, REVERSE);
  }

  // ----------------------------------------------------------------- layout

  function MaxValue(catalog: seq<Input>, n: nat): (m: real)
    requires n <= |catalog|
    ensures m >= 1.0 && forall i :: 0 <= i < n ==> catalog[i].value <= m
  {
    if n == 0 then 1.0
    else
      var m := MaxValue(catalog, n - 1);
      if catalog[n - 1].value > m then catalog[n - 1].value else m
  }

  function BuildingOf(kit: Kit, c: Input, maxValue: real): Building
    requires maxValue >= 1.0
  {
    Building(c.name, c.category, Spot(kit, c.name, c.category), Sites.ScaleOf(c.value, maxValue))
  }

  /** The body of the map in placeChallenges. */
  method PlaceOne(kit: Kit, c: Input, maxValue: real) returns (p: Building)
    requires maxValue >= 1.0
    ensures p == BuildingOf(kit, c, maxValue)
  {
    var center := DistrictCenter(kit, c.category);
    var rng := new SeededRandom(kit, Seed(kit, c.name));
    var u := rng.Next();
    var v := rng.Next();
    var value := if c.value > 0.0 then c.value else 0.0;
    var scale := 1.0 + (3.0 - 1.0) * (value / maxValue);
    assert scale == Sites.ScaleOf(c.value, maxValue);
    p := Building(c.name, c.category, Polar(kit.trig, center, Times(u, kit.trig.twoPi), Times(kit.sqrt(v), DISTRICT_RADIUS)), scale);
  }

  method PlaceChallenges(kit: Kit, catalog: seq<Input>) returns (placed: seq<Building>)
    ensures |placed| == |catalog|
    ensures forall i :: 0 <= i < |placed| ==> placed[i] == BuildingOf(kit, catalog[i], MaxValue(catalog, |catalog|))
  {
    var maxValue := MaxValue(catalog, |catalog|);
    placed := [];
    for i := 0 to |catalog|
      invariant |placed| == i
      invariant forall j :: 0 <= j < i ==> placed[j] == BuildingOf(kit, catalog[j], maxValue)
    {
      var p := PlaceOne(kit, catalog[i], maxValue);
      placed := placed + [p];
    }
  }

  /** Whatever the catalogs, a challenge keeps its place, less than 22 from the center of its
      district; its scale is between 1 and 3, and the larger of two values has the larger scale. */
  lemma LayoutIsSound(kit: Kit, catalog: seq<Input>, i: nat, j: nat, other: real)
    requires kit.Valid() && i < |catalog| && j < |catalog| && other >= 1.0
    ensures var m := MaxValue(catalog, |catalog|);
            var p, q := BuildingOf(kit, catalog[i], m), BuildingOf(kit, catalog[j], m);
            && 1.0 <= p.scale <= 3.0
            && (0.0 <= catalog[i].value < catalog[j].value ==> p.scale < q.scale)
            && BuildingOf(kit, catalog[i], other).at == p.at
            && Dist2(DistrictCenter(kit, catalog[i].category), p.at) < DISTRICT_RADIUS * DISTRICT_RADIUS
  {
    var m := MaxValue(catalog, |catalog|);
    StaysInDistrict(kit, catalog[i].name, catalog[i].category);
    Sites.ScaleAcross(catalog[i].value, m, m);
    if 0.0 <= catalog[i].value < catalog[j].value {
      QuotientOrdered(catalog[j].value, catalog[i].value, m);
    }
  }
}
