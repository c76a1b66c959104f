/** Where a challenge site stands and how large it is (frontend/src/world/gen/sites.ts), in numbers
    drawn from the words of its stream. */
module SiteLaws {
  import opened Reals
  import opened SeededRng
  import opened Biomes
  import opened WorldGen
  import opened Sites
  import opened PoissonLaws

  /** Half-size of the square sites are drawn from: 0.85 of the world's, 216 at most. */
  function HalfSize(s: Sampler): real {
    if 0.85 * s.worldExtent < 216.0 then 0.85 * s.worldExtent else 216.0
  }

  /** Candidate `t`: x from word 2 t, z from the word after, evenly over the square. */
  function Drawn(words: Words, e: real, t: nat): Spot {
    Spot(2.0 * e * Fraction(words, 2 * t) - e, 2.0 * e * Fraction(words, 2 * t + 1) - e)
  }

  predicate Fits(s: Sampler, words: Words, target: string, t: nat) {
    var p := Drawn(words, HalfSize(s), t);
    s.biomeAt(p.x, p.z).id == target
  }

  /** Candidate `t` is the first of 64 that fits, or the first of all if none does. */
  ghost predicate Chosen(s: Sampler, words: Words, target: string, t: nat) {
    || (t < 64 && Fits(s, words, target, t) && forall u: nat :: u < t ==> !Fits(s, words, target, u))
    || (t == 0 && forall u: nat :: u < 64 ==> !Fits(s, words, target, u))
  }

  lemma EvenDraw(words: Words, n: nat, e: real)
    ensures RangeAt(words, n, -e, e) == 2.0 * e * Fraction(words, n) - e
  {
  }

  lemma CandidateIsDrawn(words: Words, e: real, t: nat)
    ensures Candidate(words, e, t) == Drawn(words, e, t)
  {
    EvenDraw(words, 2 * t, e);
    EvenDraw(words, 2 * t + 1, e);
  }

  lemma HitIsFit(s: Sampler, words: Words, target: string, t: nat)
    ensures Extent(s) == HalfSize(s) && (Hit(s, words, target, t) <==> Fits(s, words, target, t))
  {
    CandidateIsDrawn(words, HalfSize(s), t);
  }

  lemma SpotExactly(s: Sampler, p: Plan) returns (t: nat)
    ensures Chosen(s, p.words, p.target, t) && SpotOf(s, p, MAX_ATTEMPTS) == Drawn(p.words, HalfSize(s), t)
  {
    t := TakenAttempt(s, p.words, p.target, MAX_ATTEMPTS);
    forall u: nat ensures Hit(s, p.words, p.target, u) <==> Fits(s, p.words, p.target, u) {
      HitIsFit(s, p.words, p.target, u);
    }
    HitIsFit(s, p.words, p.target, t);
    CandidateIsDrawn(p.words, HalfSize(s), t);
  }

  /** Every site of a catalog: at its chosen candidate, on the ground there; its scale from 1 to 3,
      in proportion to its value, 3 for the dearest; its pad of radius 7 + 3 scale. */
  lemma SiteExactly(o: Externals, s: Sampler, catalog: seq<SiteInput>, i: nat)
    requires i < |catalog|
    ensures i < |SitesOf(o, s, catalog)|
    ensures var site, c, words := SitesOf(o, s, catalog)[i], catalog[i], o.stream(catalog[i].name);
            var target := PreferredBiome(o, c.category).id;
            && site.name == c.name && site.category == c.category
            && (exists t: nat :: Chosen(s, words, target, t) && Spot(site.x, site.z) == Drawn(words, HalfSize(s), t))
            && site.y == s.base(site.x, site.z) && site.biomeId == s.biomeAt(site.x, site.z).id
            && Times(site.scale - 1.0, MaxValue(catalog)) == 2.0 * (if c.value > 0.0 then c.value else 0.0)
            && site.padRadius == 7.0 + 3.0 * site.scale
            && (c.value == MaxValue(catalog) ==> site.scale == 3.0 && site.padRadius == 16.0)
  {
    var c, m := catalog[i], MaxValue(catalog);
    var t := SpotExactly(s, PlanOf(o, c));
    Proportion(if c.value > 0.0 then c.value else 0.0, m);
  }

  lemma Proportion(v: real, m: real)
    requires m >= 1.0
    ensures Times(2.0 * (v / m), m) == 2.0 * v && (v == m ==> v / m == 1.0)
  {
    assert Times(v / m, m) == v;
  }

  /** The preferred biome: of a category in the table, in any case of its letters, the biome listed
      there; of any other, the entry of the registry at its hash modulo 7. */
  lemma PreferredExactly(o: Externals, category: string)
    ensures var key := o.lower(if category == "" then "uncategorized" else category);
            if key in CATEGORY_BIOMES then PreferredBiome(o, category).id == CATEGORY_BIOMES[key]
            else PreferredBiome(o, category) == BIOMES[o.hash(key) % 7]
  {
    PreferredIsRegistered(o, category);
  }
}
