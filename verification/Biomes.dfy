/** The biome registry and its classifier (frontend/src/world/gen/biomes.ts). */
module Biomes {
  import opened Common
  import opened Reals

  datatype ScatterEntry = ScatterEntry(kind: string, density: real, minScale: real, maxScale: real)

  datatype Range = Range(lo: real, hi: real)
  {
    predicate Contains(v: real) { lo <= v <= hi }

    function Center(): real { (lo + hi) / 2.0 }

    function HalfWidth(): real { (hi - lo) / 2.0 }
  }

  /** Palettes are rendering data and left out. */
  datatype Biome = Biome(id: string, elevation: Range, moisture: Range, scatterTable: seq<ScatterEntry>)
  {
    predicate Contains(e: real, m: real) { elevation.Contains(e) && moisture.Contains(m) }
  }

  const BIOMES: seq<Biome> := [
    Biome("plains", Range(0.12, 0.35), Range(0.3, 0.62),
      [ScatterEntry("grass", 0.55, 0.7, 1.4), ScatterEntry("tree", 0.06, 0.8, 1.3), ScatterEntry("rock", 0.04, 0.5, 1.0)]),
    Biome("forest", Range(0.12, 0.5), Range(0.62, 1.0),
      [ScatterEntry("tree", 0.5, 0.9, 1.8), ScatterEntry("pine", 0.2, 0.9, 1.6), ScatterEntry("grass", 0.25, 0.6, 1.2)]),
    Biome("desert", Range(0.0, 0.35), Range(0.0, 0.3),
      [ScatterEntry("cactus", 0.12, 0.8, 1.6), ScatterEntry("rock", 0.1, 0.5, 1.4)]),
    Biome("mountains", Range(0.62, 1.0), Range(0.0, 1.0),
      [ScatterEntry("rock", 0.3, 0.8, 2.2), ScatterEntry("pine", 0.05, 0.7, 1.2)]),
    Biome("tundra", Range(0.5, 0.62), Range(0.0, 0.55),
      [ScatterEntry("rock", 0.15, 0.6, 1.4), ScatterEntry("grass", 0.12, 0.5, 0.9)]),
    Biome("swamp", Range(0.0, 0.12), Range(0.55, 1.0),
      [ScatterEntry("reed", 0.35, 0.8, 1.6), ScatterEntry("tree", 0.1, 0.7, 1.2)]),
    Biome("highland-forest", Range(0.35, 0.62), Range(0.55, 1.0),
      [ScatterEntry("pine", 0.4, 1.0, 1.9), ScatterEntry("rock", 0.08, 0.5, 1.2)])]

  function RangeScore(v: real, r: Range): (s: real)
    ensures r.lo <= r.hi ==> s >= 0.0 && (s == 0.0 <==> r.Contains(v))
  {
    if v >= r.lo && v <= r.hi then 0.0 else if v < r.lo then r.lo - v else v - r.hi
  }

  /** The weighted distance to the domain of the biome. */
  function Outside(b: Biome, e: real, m: real): real {
    RangeScore(e, b.elevation) * 2.0 + RangeScore(m, b.moisture)
  }

  function CenterDist(b: Biome, e: real, m: real): real {
    Abs(e - b.elevation.Center()) + Abs(m - b.moisture.Center())
  }

  function Score(b: Biome, e: real, m: real): real {
    Outside(b, e, m) * 10.0 + CenterDist(b, e, m)
  }

  /** The index of the first biome of least score among the first `n`. */
  function Best(registry: seq<Biome>, e: real, m: real, n: nat): (i: nat)
    requires 1 <= n <= |registry|
    ensures i < n
  {
    if n == 1 then 0
    else
      var i := Best(registry, e, m, n - 1);
      if Score(registry[n - 1], e, m) < Score(registry[i], e, m) then n - 1 else i
  }

  function Classified(registry: seq<Biome>, e: real, m: real): Biome
    requires registry != []
  {
    registry[Best(registry, e, m, |registry|)]
  }

  /** `bestScore` is None where the source starts from Infinity. */
  method Classify(registry: seq<Biome>, e: real, m: real) returns (best: Biome)
    requires registry != []
    ensures best == Classified(registry, e, m)
  {
    best := registry[0];
    var bestScore: Option<real> := None;
    for i := 0 to |registry|
      invariant i == 0 ==> bestScore == None
      invariant i > 0 ==> best == registry[Best(registry, e, m, i)] && bestScore == Some(Score(best, e, m))
    {
      var b := registry[i];
      var outside := RangeScore(e, b.elevation) * 2.0 + RangeScore(m, b.moisture);
      var centerDist := Abs(e - (b.elevation.lo + b.elevation.hi) / 2.0) + Abs(m - (b.moisture.lo + b.moisture.hi) / 2.0);
      var score := outside * 10.0 + centerDist;
      if bestScore.None? || score < bestScore.value {
        bestScore := Some(score);
        best := b;
      }
    }
  }

  /** Classification is total, and picks the first of the biomes of least score. */
  lemma {:induction false} BestIsFirstLeast(registry: seq<Biome>, e: real, m: real, n: nat)
    requires 1 <= n <= |registry|
    ensures var i := Best(registry, e, m, n);
            && (forall j :: 0 <= j < n ==> Score(registry[i], e, m) <= Score(registry[j], e, m))
            && (forall j :: 0 <= j < i ==> Score(registry[i], e, m) < Score(registry[j], e, m))
    decreases n
  {
    if n > 1 {
      BestIsFirstLeast(registry, e, m, n - 1);
    }
  }

  /** What a sample pays for reaching the point (a, b) of the domain of a biome: twenty times the
      step in elevation, ten times the step in moisture, and once the way to the center. */
  function Toll(biome: Biome, e: real, m: real, a: real, b: real): real {
    20.0 * Abs(e - a) + 10.0 * Abs(m - b)
    + Abs(e - (biome.elevation.lo + biome.elevation.hi) / 2.0) + Abs(m - (biome.moisture.lo + biome.moisture.hi) / 2.0)
  }

  /** The point of a range nearest to `v`. */
  function Nearest(v: real, r: Range): real {
    if v < r.lo then r.lo else if v > r.hi then r.hi else v
  }

  predicate WellFormed(b: Biome) { b.elevation.lo <= b.elevation.hi && b.moisture.lo <= b.moisture.hi }

  /** A score is the least toll over all points of the domain. */
  lemma ScoreIsLeastToll(biome: Biome, e: real, m: real)
    requires WellFormed(biome)
    ensures var a, b := Nearest(e, biome.elevation), Nearest(m, biome.moisture);
            biome.Contains(a, b) && Toll(biome, e, m, a, b) == Score(biome, e, m)
    ensures forall a, b :: biome.Contains(a, b) ==> Score(biome, e, m) <= Toll(biome, e, m, a, b)
  {
  }

  /** The winner has a point in its domain with a toll no domain undercuts anywhere. */
  lemma WinnerIsCheapest(registry: seq<Biome>, e: real, m: real) returns (a: real, b: real)
    requires registry != [] && forall j :: 0 <= j < |registry| ==> WellFormed(registry[j])
    ensures Classified(registry, e, m).Contains(a, b)
    ensures forall j, c, d :: 0 <= j < |registry| && registry[j].Contains(c, d) ==>
              Toll(Classified(registry, e, m), e, m, a, b) <= Toll(registry[j], e, m, c, d)
  {
    BestIsFirstLeast(registry, e, m, |registry|);
    var winner := Classified(registry, e, m);
    a, b := Nearest(e, winner.elevation), Nearest(m, winner.moisture);
    ScoreIsLeastToll(winner, e, m);
    forall j, c, d | 0 <= j < |registry| && registry[j].Contains(c, d)
      ensures Toll(winner, e, m, a, b) <= Toll(registry[j], e, m, c, d)
    {
      ScoreIsLeastToll(registry[j], e, m);
    }
  }

  /** If some domain contains the sample, the winner's domain is near: its weighted distance is
      at most a tenth of the half-width sum of any containing domain. */
  lemma WinnerIsNear(registry: seq<Biome>, e: real, m: real, c: nat)
    requires c < |registry| && registry[c].Contains(e, m)
    ensures Outside(Classified(registry, e, m), e, m)
              <= (registry[c].elevation.HalfWidth() + registry[c].moisture.HalfWidth()) / 10.0
  {
    BestIsFirstLeast(registry, e, m, |registry|);
  }

  /** A sample in the domain of entry `c` scores its distance to the center of that domain. Entry
      `c` beats entry `j` when that is the lower score, or the same and `c` comes first. */
  predicate Beats(registry: seq<Biome>, e: real, m: real, c: nat, j: nat)
    requires c < |registry| && j < |registry|
  {
    || CenterDist(registry[c], e, m) < Score(registry[j], e, m)
    || (CenterDist(registry[c], e, m) == Score(registry[j], e, m) && c < j)
  }

  /** "Domain containment dominates" holds of exactly those samples for which some containing
      domain beats every domain that does not contain them. */
  lemma ContainmentWinsExactly(registry: seq<Biome>, e: real, m: real)
    requires registry != []
    ensures Classified(registry, e, m).Contains(e, m) <==>
            exists c: nat :: c < |registry| && registry[c].Contains(e, m)
              && forall j: nat :: j < |registry| && !registry[j].Contains(e, m) ==> Beats(registry, e, m, c, j)
  {
    var i := Best(registry, e, m, |registry|);
    BestIsFirstLeast(registry, e, m, |registry|);
    if registry[i].Contains(e, m) {
      forall j: nat | j < |registry| && !registry[j].Contains(e, m) ensures Beats(registry, e, m, i, j) {
      }
    } else {
      forall c: nat | c < |registry| && registry[c].Contains(e, m) ensures !Beats(registry, e, m, c, i) {
      }
    }
  }

  /** In particular when all other domains are farther than the margin of WinnerIsNear. */
  lemma ClearSampleIsContained(registry: seq<Biome>, e: real, m: real, c: nat)
    requires c < |registry| && registry[c].Contains(e, m)
    requires forall j :: 0 <= j < |registry| && !registry[j].Contains(e, m) ==>
               Outside(registry[j], e, m) * 10.0 > registry[c].elevation.HalfWidth() + registry[c].moisture.HalfWidth()
    ensures Classified(registry, e, m).Contains(e, m)
  {
    forall j: nat | j < |registry| && !registry[j].Contains(e, m) ensures Beats(registry, e, m, c, j) {
    }
    ContainmentWinsExactly(registry, e, m);
  }

  /** For the shipped registry the distance is at most 0.069. */
  lemma ShippedWinnerIsNear(e: real, m: real, c: nat)
    requires c < |BIOMES| && BIOMES[c].Contains(e, m)
    ensures Outside(Classified(BIOMES, e, m), e, m) <= 0.069
  {
    WinnerIsNear(BIOMES, e, m, c);
  }

  lemma StrictLeastWins(registry: seq<Biome>, e: real, m: real, i: nat)
    requires i < |registry| && forall j :: 0 <= j < |registry| && j != i ==> Score(registry[i], e, m) < Score(registry[j], e, m)
    ensures Classified(registry, e, m) == registry[i]
  {
    BestIsFirstLeast(registry, e, m, |registry|);
  }

  lemma ScoresOnTheEdge(j: nat)
    requires j < |BIOMES|
    ensures Score(BIOMES[3], 0.63, 0.0) == 0.68 && Score(BIOMES[4], 0.63, 0.0) == 0.545
    ensures j != 4 ==> Score(BIOMES[j], 0.63, 0.0) > 0.545
  {
  }

  /** "Domain containment dominates" is not quite so: at elevation 0.63, moisture 0 the mountains
      contain the sample, score 0.68 and lose to the tundra, which scores 0.545 from outside. */
  lemma ContainmentMayLose()
    ensures BIOMES[3].Contains(0.63, 0.0) && Classified(BIOMES, 0.63, 0.0) == BIOMES[4] && !BIOMES[4].Contains(0.63, 0.0)
  {
    forall j | 0 <= j < |BIOMES| && j != 4 ensures Score(BIOMES[4], 0.63, 0.0) < Score(BIOMES[j], 0.63, 0.0) {
      ScoresOnTheEdge(j);
    }
    StrictLeastWins(BIOMES, 0.63, 0.0, 4);
  }

  /** BIOMES.find((b) => b.id === id), over any registry. */
  function Find(registry: seq<Biome>, id: string): Option<Biome>
    decreases |registry|
  {
    if registry == [] then None
    else if registry[0].id == id then Some(registry[0])
    else Find(registry[1..], id)
  }

  lemma {:induction false} FindFinds(registry: seq<Biome>, id: string)
    ensures var b := Find(registry, id);
            if b.Some? then b.value in registry && b.value.id == id
            else forall i :: 0 <= i < |registry| ==> registry[i].id != id
    decreases |registry|
  {
    if registry != [] {
      FindFinds(registry[1..], id);
    }
  }
}
