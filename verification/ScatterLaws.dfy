/** What scatterChunk (frontend/src/world/gen/scatter.ts) emits, in numbers: which entry of a
    scatter table a roll picks, when a sample point gets a prop and which one, and that the props of
    a chunk are exactly the outcomes at its sample points. */
module ScatterLaws {
  import opened Common
  import opened Reals
  import opened SeededRng
  import opened Biomes
  import opened WorldGen
  import opened Poisson
  import opened PoissonGrid
  import opened PoissonLaws
  import opened Scatter

  // ----------------------------------------------------------- the roulette

  /** The densities of the first `k` entries together. */
  function DensityBelow(table: seq<ScatterEntry>, k: nat): real
    requires k <= |table|
  {
    if k == 0 then 0.0 else DensityBelow(table, k - 1) + table[k - 1].density
  }

  /** The modulated sum of the densities up to entry `k` exceeds the roll. */
  predicate Above(table: seq<ScatterEntry>, mod: real, roll: real, k: nat)
    requires k < |table|
  {
    roll < Times(DensityBelow(table, k + 1), mod)
  }

  ghost predicate FirstAbove(table: seq<ScatterEntry>, mod: real, roll: real, k: nat) {
    && k < |table| && Above(table, mod, roll, k)
    && forall j: nat :: j < k ==> !Above(table, mod, roll, j)
  }

  lemma {:induction false} PickFrom(table: seq<ScatterEntry>, mod: real, roll: real, i: nat)
    requires i <= |table| && forall j: nat :: j < i ==> !Above(table, mod, roll, j)
    ensures match Pick(table[i..], mod, Times(DensityBelow(table, i), mod), roll)
            case Some(e) => exists k: nat :: FirstAbove(table, mod, roll, k) && e == table[k]
            case None => forall j: nat :: j < |table| ==> !Above(table, mod, roll, j)
    decreases |table| - i
  {
    if i < |table| {
      assert table[i..][0] == table[i] && table[i..][1..] == table[i + 1..];
      TimesSums(DensityBelow(table, i), table[i].density, mod);
      if Above(table, mod, roll, i) {
        assert FirstAbove(table, mod, roll, i);
      } else {
        PickFrom(table, mod, roll, i + 1);
      }
    }
  }

  /** The entry a roll picks: the first whose modulated sum of densities exceeds the roll; none
      exactly when no sum does. */
  lemma PickExactly(table: seq<ScatterEntry>, mod: real, roll: real)
    ensures var e := Pick(table, mod, 0.0, roll);
            && (e.None? <==> forall j: nat :: j < |table| ==> !Above(table, mod, roll, j))
            && (e.Some? <==> exists k: nat :: FirstAbove(table, mod, roll, k))
            && forall k: nat :: FirstAbove(table, mod, roll, k) ==> e == Some(table[k])
  {
    PickFrom(table, mod, roll, 0);
    TimesSums(0.0, 0.0, mod);
    assert table[0..] == table;
  }

  lemma {:induction false} DensitiesRise(table: seq<ScatterEntry>, j: nat, k: nat)
    requires j <= k <= |table| && forall i :: 0 <= i < |table| ==> table[i].density >= 0.0
    ensures DensityBelow(table, j) <= DensityBelow(table, k)
    decreases k
  {
    if j < k {
      DensitiesRise(table, j, k - 1);
    }
  }

  /** With densities that are not negative each entry owns an interval of rolls, of the length of
      its modulated density, one after the other from 0 on. */
  lemma RollInterval(table: seq<ScatterEntry>, mod: real, roll: real, k: nat)
    requires k < |table| && mod >= 0.0 && roll >= 0.0 && forall i :: 0 <= i < |table| ==> table[i].density >= 0.0
    ensures FirstAbove(table, mod, roll, k)
            <==> Times(DensityBelow(table, k), mod) <= roll < Times(DensityBelow(table, k), mod) + Times(table[k].density, mod)
  {
    TimesSums(DensityBelow(table, k), table[k].density, mod);
    NoneBelow(table, mod, roll, k);
  }

  lemma NoneBelow(table: seq<ScatterEntry>, mod: real, roll: real, k: nat)
    requires k < |table| && mod >= 0.0 && roll >= 0.0 && forall i :: 0 <= i < |table| ==> table[i].density >= 0.0
    ensures (forall j: nat :: j < k ==> !Above(table, mod, roll, j)) <==> Times(DensityBelow(table, k), mod) <= roll
  {
    if k == 0 {
      TimesSums(0.0, 0.0, mod);
    } else {
      assert Above(table, mod, roll, k - 1) <==> roll < Times(DensityBelow(table, k), mod);
      forall j: nat | j < k ensures Above(table, mod, roll, j) ==> roll < Times(DensityBelow(table, k), mod) {
        SumsOrdered(table, mod, j + 1, k);
      }
    }
  }

  lemma SumsOrdered(table: seq<ScatterEntry>, mod: real, j: nat, k: nat)
    requires j <= k <= |table| && mod >= 0.0 && forall i :: 0 <= i < |table| ==> table[i].density >= 0.0
    ensures Times(DensityBelow(table, j), mod) <= Times(DensityBelow(table, k), mod)
  {
    DensitiesRise(table, j, k);
    TimesOrdered(DensityBelow(table, j), DensityBelow(table, k), mod);
  }

  // ------------------------------------------------------------- one prop

  /** The clearing and thicket modulation, between 0.25 and 1.15 for a field between -1 and 1. */
  function Modulation(l: Land, x: real, z: real): real {
    0.7 + 0.45 * l.density(Times(x, 0.01), Times(z, 0.01))
  }

  /** Off all pads by 1, and the rises over 1.5 units along the axes together at most 1.5 maxSlope. */
  ghost predicate Plantable(l: Land, maxSlope: real, x: real, z: real) {
    var w := l.world;
    && (forall i :: 0 <= i < |w.sites| ==> w.hypot(x - w.sites[i].x, z - w.sites[i].z) >= 1.9 * w.sites[i].padRadius + 1.0)
    && Abs(w.HeightAt(x + 1.5, z) - w.HeightAt(x, z)) + Abs(w.HeightAt(x, z + 1.5) - w.HeightAt(x, z)) <= 1.5 * maxSlope
  }

  lemma OnPadMeans(w: World, x: real, z: real, margin: real)
    requires IsHypot(w.hypot)
    ensures OnPad(w.sites, x, z, margin) <==>
            exists i :: 0 <= i < |w.sites| && w.hypot(x - w.sites[i].x, z - w.sites[i].z) < 1.9 * w.sites[i].padRadius + margin
  {
    forall i | 0 <= i < |w.sites|
      ensures OnPadOf(w.sites[i], x, z, margin)
              <==> w.hypot(x - w.sites[i].x, z - w.sites[i].z) < 1.9 * w.sites[i].padRadius + margin
    {
      OnPadByDistance(w.hypot, w.sites[i], x, z, margin);
    }
  }

  lemma PlantableMeans(l: Land, maxSlope: real, x: real, z: real)
    requires IsHypot(l.world.hypot)
    ensures Plantable(l, maxSlope, x, z) <==> !OnPad(l.world.sites, x, z, 1.0) && Slope(l.world, x, z) / 1.5 <= maxSlope
  {
    OnPadMeans(l.world, x, z, 1.0);
  }

  /** The prop that entry `e` makes at a point: its kind, on the base height, at a scale as far
      between its bounds as the scale roll says, turned by the rotation roll. */
  function PropOf(l: Land, e: ScatterEntry, x: real, z: real, r: Rolls): Prop {
    Prop(e.kind, x, z, l.world.base(x, z), e.minScale + Times(e.maxScale - e.minScale, r.scaleRoll), r.rotation)
  }

  ghost predicate Planted(l: Land, x: real, z: real, r: Rolls, k: nat) {
    FirstAbove(l.biomeAt(x, z).scatterTable, Modulation(l, x, z), r.roll, k)
  }

  /** A point gets a prop exactly when it is plantable and its roll picks an entry of the table of
      its biome; the prop is the one of that entry. */
  lemma EmitExactly(l: Land, maxSlope: real, x: real, z: real, r: Rolls)
    requires IsHypot(l.world.hypot)
    ensures Emit(l, maxSlope, x, z, r).Some? <==> Plantable(l, maxSlope, x, z) && exists k: nat :: Planted(l, x, z, r, k)
    ensures forall k: nat :: Plantable(l, maxSlope, x, z) && Planted(l, x, z, r, k) ==>
              Emit(l, maxSlope, x, z, r) == Some(PropOf(l, l.biomeAt(x, z).scatterTable[k], x, z, r))
  {
    PlantableMeans(l, maxSlope, x, z);
    if Plantable(l, maxSlope, x, z) {
      OffPadIsBase(l.world, x, z, 1.0);
      EmitPicks(l, maxSlope, x, z, r);
      var table, mod := l.biomeAt(x, z).scatterTable, Modulation(l, x, z);
      PickExactly(table, mod, r.roll);
      if Pick(table, mod, 0.0, r.roll).Some? {
        var k: nat :| FirstAbove(table, mod, r.roll, k);
        assert Planted(l, x, z, r, k);
      }
    }
  }

  lemma EmitPicks(l: Land, maxSlope: real, x: real, z: real, r: Rolls)
    requires !OnPad(l.world.sites, x, z, 1.0) && Slope(l.world, x, z) / 1.5 <= maxSlope
    requires l.world.HeightAt(x, z) == l.world.base(x, z)
    ensures Emit(l, maxSlope, x, z, r) ==
            match Pick(l.biomeAt(x, z).scatterTable, Modulation(l, x, z), 0.0, r.roll)
            case None => None
            case Some(e) => Some(PropOf(l, e, x, z, r))
  {
  }

  // -------------------------------------------------------------- one chunk

  /** The rolls of sample point `i`: three words of its own, after those of the sampling. */
  lemma RollsAre(words: Words, pos: nat, twoPi: real, i: nat)
    ensures RollsAt(words, pos + 3 * i, twoPi)
         == Rolls(Fraction(words, pos + 3 * i), Fraction(words, pos + 3 * i + 1), twoPi * Fraction(words, pos + 3 * i + 2))
  {
    RangesAre(words, pos + 3 * i + 2, twoPi);
  }

  /** Nothing is left out: an outcome is listed, after exactly those of the points before it. */
  lemma {:induction false} OutcomeListed(outcomes: Outcomes, n: nat, i: nat)
    requires i < n && outcomes(i).Some?
    ensures |Collect(outcomes, i)| < |Collect(outcomes, n)|
    ensures Collect(outcomes, n)[|Collect(outcomes, i)|] == outcomes(i).value
    decreases n
  {
    if i < n - 1 {
      OutcomeListed(outcomes, n - 1, i);
    }
  }

  /** Sample point `i` is planted with `p`; its rolls are words pos + 3 i, pos + 3 i + 1, pos + 3 i + 2. */
  ghost predicate PlantedWith(l: Land, c: Chunk, points: seq<Point>, words: Words, pos: nat, twoPi: real, i: nat, p: Prop) {
    && i < |points|
    && var x, z := c.originX + points[i].x, c.originZ + points[i].y;
    && var r := Rolls(Fraction(words, pos + 3 * i), Fraction(words, pos + 3 * i + 1), twoPi * Fraction(words, pos + 3 * i + 2));
    && Plantable(l, c.maxSlope, x, z)
    && exists k: nat :: Planted(l, x, z, r, k) && p == PropOf(l, l.biomeAt(x, z).scatterTable[k], x, z, r)
  }

  lemma OutcomeMeans(l: Land, c: Chunk, points: seq<Point>, words: Words, pos: nat, twoPi: real, i: nat, p: Prop)
    requires IsHypot(l.world.hypot)
    ensures PlantedWith(l, c, points, words, pos, twoPi, i, p) <==> EmitAt(l, c, points, words, pos, twoPi, i) == Some(p)
  {
    if i < |points| {
      RollsAre(words, pos, twoPi, i);
      EmitExactly(l, c.maxSlope, c.originX + points[i].x, c.originZ + points[i].y, RollsAt(words, pos + 3 * i, twoPi));
    }
  }

  lemma CollectedExactly(outcomes: Outcomes, n: nat, p: Prop)
    ensures p in Collect(outcomes, n) <==> exists i: nat :: i < n && outcomes(i) == Some(p)
  {
    if p in Collect(outcomes, n) {
      var k :| 0 <= k < |Collect(outcomes, n)| && Collect(outcomes, n)[k] == p;
      var i := SourceOf(outcomes, n, k);
    }
    if i: nat :| i < n && outcomes(i) == Some(p) {
      OutcomeListed(outcomes, n, i);
    }
  }

  /** The props of a chunk are exactly those its sample points are planted with. */
  lemma PropsExactly(l: Land, c: Chunk, d: Params, words: Words, pos: nat, p: Prop)
    requires d.Valid() && IsHypot(l.world.hypot)
    ensures var s := Sample(d, words, pos);
            p in Props(l, c, d, words, pos)
            <==> exists i: nat :: PlantedWith(l, c, s.points, words, s.pos, d.trig.twoPi, i, p)
  {
    var s := Sample(d, words, pos);
    CollectedPlanted(l, c, s.points, words, s.pos, d.trig.twoPi, p);
  }

  lemma CollectedPlanted(l: Land, c: Chunk, points: seq<Point>, words: Words, pos: nat, twoPi: real, p: Prop)
    requires IsHypot(l.world.hypot)
    ensures p in Collect(OutcomesOf(l, c, points, words, pos, twoPi), |points|)
            <==> exists i: nat :: PlantedWith(l, c, points, words, pos, twoPi, i, p)
  {
    var outcomes := OutcomesOf(l, c, points, words, pos, twoPi);
    CollectedExactly(outcomes, |points|, p);
    if i: nat :| i < |points| && outcomes(i) == Some(p) {
      OutcomeMeans(l, c, points, words, pos, twoPi, i, p);
    }
    if i: nat :| PlantedWith(l, c, points, words, pos, twoPi, i, p) {
      OutcomeMeans(l, c, points, words, pos, twoPi, i, p);
      assert outcomes(i) == Some(p);
    }
  }
}
