/** Challenge site placement (frontend/src/world/gen/sites.ts). */
module Sites {
  import opened Common
  import opened Reals
  import opened SeededRng
  import opened Biomes
  import opened WorldGen

  datatype SiteInput = SiteInput(name: string, category: string, value: real)

  /** What computeSites needs of the terrain sampler: classification, height, world half-size. */
  datatype Sampler = Sampler(biomeAt: (real, real) -> Biome, base: (real, real) -> real, worldExtent: real)

  /** The streams createRng(seed, "site:" + name) of one seed, String.toLowerCase and fnv1a. */
  datatype Externals = Externals(stream: string -> Words, lower: string -> string, hash: string -> nat)

  const PLAYABLE_BOUND: real := 240.0
  const SITE_BOUND: real := PLAYABLE_BOUND * 0.9
  const PLACEMENT_MARGIN: real := 0.85
  const MAX_ATTEMPTS: nat := 64
  const MIN_SCALE: real := 1.0
  const MAX_SCALE: real := 3.0

  const CATEGORY_BIOMES: map<string, string> := map[
    "web" := "plains", "crypto" := "mountains", "pwn" := "desert", "reverse" := "tundra",
    "forensics" := "swamp", "osint" := "forest", "misc" := "plains", "stegano" := "highland-forest"]

  /** An unknown category is hashed onto the registry. */
  function PreferredBiome(o: Externals, category: string): Biome {
    var key := o.lower(if category == "" then "uncategorized" else category);
    var mapped := if key in CATEGORY_BIOMES then Find(BIOMES, CATEGORY_BIOMES[key]) else None;
    if mapped.Some? then mapped.value else BIOMES[o.hash(key) % |BIOMES|]
  }

  /** Every category prefers a registered biome; a registered category the one it is mapped to. */
  lemma PreferredIsRegistered(o: Externals, category: string)
    ensures PreferredBiome(o, category) in BIOMES
    ensures var key := o.lower(if category == "" then "uncategorized" else category);
            key in CATEGORY_BIOMES ==> PreferredBiome(o, category).id == CATEGORY_BIOMES[key]
  {
    var key := o.lower(if category == "" then "uncategorized" else category);
    if key in CATEGORY_BIOMES {
      var id := CATEGORY_BIOMES[key];
      assert id in ["plains", "mountains", "desert", "tundra", "swamp", "forest", "highland-forest"];
      KnownBiomes(id);
      FindFinds(BIOMES, id);
    }
  }

  lemma KnownBiomes(id: string)
    requires id in ["plains", "mountains", "desert", "tundra", "swamp", "forest", "highland-forest"]
    ensures Find(BIOMES, id).Some?
  {
    assert BIOMES[0].id == "plains" && BIOMES[1].id == "forest" && BIOMES[2].id == "desert" && BIOMES[3].id == "mountains";
    assert BIOMES[4].id == "tundra" && BIOMES[5].id == "swamp" && BIOMES[6].id == "highland-forest";
    var i :| 0 <= i < |BIOMES| && BIOMES[i].id == id;
    FindFinds(BIOMES, id);
  }

  // ------------------------------------------------------------- placement

  function Extent(s: Sampler): real {
    var e := s.worldExtent * PLACEMENT_MARGIN;
    if e < SITE_BOUND then e else SITE_BOUND
  }

  datatype Spot = Spot(x: real, z: real)

  /** Candidate number `t` of a stream. */
  function Candidate(words: Words, extent: real, t: nat): Spot {
    Spot(RangeAt(words, 2 * t, -extent, extent), RangeAt(words, 2 * t + 1, -extent, extent))
  }

  predicate Hit(s: Sampler, words: Words, target: string, t: nat) {
    var c := Candidate(words, Extent(s), t);
    s.biomeAt(c.x, c.z).id == target
  }

  /** The attempt whose candidate is taken, among the first `n`: the first hit, else number 0. */
  ghost predicate Taken(s: Sampler, words: Words, target: string, n: nat, t: nat) {
    if exists u :: 0 <= u < n && Hit(s, words, target, u)
    then t < n && Hit(s, words, target, t) && forall u :: 0 <= u < t ==> !Hit(s, words, target, u)
    else t == 0
  }

  lemma {:induction false} TakenExists(s: Sampler, words: Words, target: string, n: nat, tried: nat)
    requires tried <= n && 0 < n && forall u :: 0 <= u < tried ==> !Hit(s, words, target, u)
    ensures exists t: nat :: t < n && Taken(s, words, target, n, t)
    decreases n - tried
  {
    if tried == n {
      assert Taken(s, words, target, n, 0);
    } else if Hit(s, words, target, tried) {
      assert Taken(s, words, target, n, tried);
    } else {
      TakenExists(s, words, target, n, tried + 1);
    }
  }

  ghost function TakenAttempt(s: Sampler, words: Words, target: string, n: nat): (t: nat)
    requires 0 < n
    ensures t < n && Taken(s, words, target, n, t)
  {
    TakenExists(s, words, target, n, 0);
    var t: nat :| t < n && Taken(s, words, target, n, t);
    t
  }

  /** What decides where a challenge goes: its stream and the id of its preferred biome. */
  datatype Plan = Plan(words: Words, target: string)

  function PlanOf(o: Externals, c: SiteInput): Plan {
    Plan(o.stream(c.name), PreferredBiome(o, c.category).id)
  }

  ghost function SpotOf(s: Sampler, p: Plan, attempts: nat): Spot
    requires 0 < attempts
  {
    Candidate(p.words, Extent(s), TakenAttempt(s, p.words, p.target, attempts))
  }

  lemma TakenIsSpot(s: Sampler, p: Plan, attempts: nat, t: nat)
    requires t < attempts && Taken(s, p.words, p.target, attempts, t)
    ensures SpotOf(s, p, attempts) == Candidate(p.words, Extent(s), t)
  {
  }

  /** The search of one challenge; the source makes 64 attempts. */
  method Place(s: Sampler, p: Plan, attempts: nat) returns (x: real, z: real, biome: Option<Biome>)
    ensures 0 < attempts ==> Spot(x, z) == SpotOf(s, p, attempts) && biome == Some(s.biomeAt(x, z))
  {
    var rng := new Rng(p.words);
    var extent := Extent(s);
    x, z, biome := 0.0, 0.0, None;
    var attempt := 0;
    while attempt < attempts
      invariant attempt <= attempts && rng.pos == 2 * attempt && rng.words == p.words
      invariant forall u :: 0 <= u < attempt ==> !Hit(s, p.words, p.target, u)
      invariant attempt > 0 ==> Spot(x, z) == Candidate(p.words, extent, 0) && biome == Some(s.biomeAt(x, z))
    {
      var cx := rng.Range(-extent, extent);
      var cz := rng.Range(-extent, extent);
      assert Spot(cx, cz) == Candidate(p.words, extent, attempt);
      var b := s.biomeAt(cx, cz);
      if attempt == 0 || b.id == p.target {
        x, z, biome := cx, cz, Some(b);
        if b.id == p.target {
          assert Hit(s, p.words, p.target, attempt);
          TakenIsSpot(s, p, attempts, attempt);
          return;
        }
      }
      attempt := attempt + 1;
    }
    if 0 < attempts {
      TakenIsSpot(s, p, attempts, 0);
    }
  }

  // ---------------------------------------------------------------- catalog

  /** challenges.reduce((m, c) => Math.max(m, c.value), 1) */
  function MaxValue(catalog: seq<SiteInput>): (m: real)
    ensures m >= 1.0
  {
    MaxOfFirst(catalog, |catalog|)
  }

  function MaxOfFirst(catalog: seq<SiteInput>, n: nat): (m: real)
    requires n <= |catalog|
    ensures m >= 1.0
  {
    if n == 0 then 1.0
    else
      var m := MaxOfFirst(catalog, n - 1);
      if catalog[n - 1].value > m then catalog[n - 1].value else m
  }

  lemma {:induction false} MaxOfFirstIsLeast(catalog: seq<SiteInput>, n: nat)
    requires n <= |catalog|
    ensures forall i :: 0 <= i < n ==> catalog[i].value <= MaxOfFirst(catalog, n)
    ensures MaxOfFirst(catalog, n) == 1.0 || exists i :: 0 <= i < n && catalog[i].value == MaxOfFirst(catalog, n)
  {
    if n > 0 {
      MaxOfFirstIsLeast(catalog, n - 1);
      assert MaxOfFirst(catalog, n) == catalog[n - 1].value || MaxOfFirst(catalog, n) == MaxOfFirst(catalog, n - 1);
    }
  }

  /** It is the least number that is at least 1 and at least every value. */
  lemma MaxIsLeast(catalog: seq<SiteInput>)
    ensures forall c :: c in catalog ==> c.value <= MaxValue(catalog)
    ensures MaxValue(catalog) == 1.0 || exists c :: c in catalog && c.value == MaxValue(catalog)
  {
    MaxOfFirstIsLeast(catalog, |catalog|);
    if MaxValue(catalog) != 1.0 {
      var i :| 0 <= i < |catalog| && catalog[i].value == MaxValue(catalog);
      assert catalog[i] in catalog;
    }
  }

  function ScaleOf(value: real, maxValue: real): real
    requires maxValue >= 1.0
  {
    MIN_SCALE + (MAX_SCALE - MIN_SCALE) * ((if value > 0.0 then value else 0.0) / maxValue)
  }

  function SiteAt(s: Sampler, c: SiteInput, p: Spot, scale: real): Site {
    Site(c.name, c.category, p.x, p.z, s.base(p.x, p.z), scale, 7.0 + 3.0 * scale, s.biomeAt(p.x, p.z).id)
  }

  ghost function SiteOf(o: Externals, s: Sampler, c: SiteInput, maxValue: real): Site
    requires maxValue >= 1.0
  {
    SiteAt(s, c, SpotOf(s, PlanOf(o, c), MAX_ATTEMPTS), ScaleOf(c.value, maxValue))
  }

  /** The sites of a catalog whose dearest challenge is worth `maxValue`. */
  ghost function SitesWith(o: Externals, s: Sampler, catalog: seq<SiteInput>, maxValue: real): seq<Site>
    requires maxValue >= 1.0
  {
    seq(|catalog|, i requires 0 <= i < |catalog| => SiteOf(o, s, catalog[i], maxValue))
  }

  ghost function SitesOf(o: Externals, s: Sampler, catalog: seq<SiteInput>): seq<Site> {
    SitesWith(o, s, catalog, MaxValue(catalog))
  }

  /** One challenge of the catalog. */
  method PlaceChallenge(o: Externals, s: Sampler, c: SiteInput, maxValue: real) returns (site: Site)
    requires maxValue >= 1.0
    ensures site == SiteOf(o, s, c, maxValue)
  {
    var plan := PlanOf(o, c);
    var x, z, biome := Place(s, plan, MAX_ATTEMPTS);
    var value := if c.value > 0.0 then c.value else 0.0;
    var scale := MIN_SCALE + (MAX_SCALE - MIN_SCALE) * (value / maxValue);
    assert scale == ScaleOf(c.value, maxValue);
    var biomeId := if biome.Some? then biome.value.id else plan.target;
    site := Site(c.name, c.category, x, z, s.base(x, z), scale, 7.0 + 3.0 * scale, biomeId);
    assert site == SiteAt(s, c, Spot(x, z), scale);
  }

  method ComputeSites(o: Externals, s: Sampler, catalog: seq<SiteInput>) returns (sites: seq<Site>)
    ensures sites == SitesOf(o, s, catalog)
  {
    var maxValue := MaxValue(catalog);
    sites := [];
    for i := 0 to |catalog|
      invariant |sites| == i && forall j :: 0 <= j < i ==> sites[j] == SiteOf(o, s, catalog[j], maxValue)
    {
      var site := PlaceChallenge(o, s, catalog[i], maxValue);
      sites := sites + [site];
    }
  }

  lemma ScaleAcross(value: real, m: real, n: real)
    requires 1.0 <= m <= n
    ensures 1.0 <= ScaleOf(value, n) <= ScaleOf(value, m)
    ensures ScaleOf(value, n) == ScaleOf(value, m) <==> m == n || value <= 0.0
    ensures value <= m ==> ScaleOf(value, m) <= 3.0
  {
  }

  /** Position, height and biome of a site never depend on the rest of the catalog; its size does:
      two catalogs give a challenge the same site exactly when their maxima agree or its value is
      not positive. A larger maximum only makes it smaller. */
  lemma SiteAcrossCatalogs(o: Externals, s: Sampler, c: SiteInput, m: real, n: real)
    requires m >= 1.0 && n >= 1.0
    ensures var p, q := SiteOf(o, s, c, m), SiteOf(o, s, c, n);
            && SamePlace(p, q)
            && (p == q <==> m == n || c.value <= 0.0)
            && (m <= n ==> q.scale <= p.scale && q.padRadius <= p.padRadius)
  {
    if m <= n {
      ScaleAcross(c.value, m, n);
    } else {
      ScaleAcross(c.value, n, m);
    }
    SizeAlone(s, c, SpotOf(s, PlanOf(o, c), MAX_ATTEMPTS), ScaleOf(c.value, m), ScaleOf(c.value, n));
  }

  predicate SamePlace(p: Site, q: Site) {
    (p.name, p.category, p.x, p.z, p.y, p.biomeId) == (q.name, q.category, q.x, q.z, q.y, q.biomeId)
  }

  lemma SizeAlone(s: Sampler, c: SiteInput, p: Spot, a: real, b: real)
    ensures SamePlace(SiteAt(s, c, p, a), SiteAt(s, c, p, b))
    ensures SiteAt(s, c, p, a) == SiteAt(s, c, p, b) <==> a == b
  {
  }

  lemma MaxGrows(a: seq<SiteInput>, b: seq<SiteInput>)
    requires forall c :: c in a ==> c in b
    ensures MaxValue(a) <= MaxValue(b)
  {
    MaxIsLeast(a);
    MaxIsLeast(b);
  }

  /** The order of the catalog does not matter: each challenge gets the same site. */
  lemma OrderDoesNotMatter(o: Externals, s: Sampler, a: seq<SiteInput>, b: seq<SiteInput>,
                           i: nat, j: nat)
    requires multiset(a) == multiset(b) && i < |a| && j < |b| && a[i] == b[j]
    ensures SitesOf(o, s, a)[i] == SitesOf(o, s, b)[j]
  {
    assert forall c :: c in a <==> c in multiset(a);
    assert forall c :: c in b <==> c in multiset(b);
    MaxGrows(a, b);
    MaxGrows(b, a);
  }

  /** Adding a challenge anywhere moves nobody and can only shrink the others; it changes nothing
      for them unless its value is a new maximum. */
  lemma AddingShrinks(o: Externals, s: Sampler, catalog: seq<SiteInput>, k: nat, c: SiteInput,
                      i: nat)
    requires k <= |catalog| && i < |catalog|
    ensures var p := SitesOf(o, s, catalog)[i];
            var grown := catalog[..k] + [c] + catalog[k..];
            var q := SitesOf(o, s, grown)[if i < k then i else i + 1];
            && SamePlace(p, q) && q.scale <= p.scale && q.padRadius <= p.padRadius
            && (c.value <= MaxValue(catalog) ==> p == q)
  {
    var grown := catalog[..k] + [c] + catalog[k..];
    MaxWith(catalog, k, c);
    assert grown[if i < k then i else i + 1] == catalog[i];
    SiteAcrossCatalogs(o, s, catalog[i], MaxValue(catalog), MaxValue(grown));
  }

  lemma MaxWith(catalog: seq<SiteInput>, k: nat, c: SiteInput)
    requires k <= |catalog|
    ensures MaxValue(catalog[..k] + [c] + catalog[k..]) ==
            if c.value > MaxValue(catalog) then c.value else MaxValue(catalog)
  {
    var grown := catalog[..k] + [c] + catalog[k..];
    assert catalog == catalog[..k] + catalog[k..];
    assert forall x :: x in grown <==> x in catalog || x == c;
    MaxIsLeast(catalog);
    MaxIsLeast(grown);
  }

  lemma SitesConcat(o: Externals, s: Sampler, a: seq<SiteInput>, b: seq<SiteInput>, m: real)
    requires m >= 1.0
    ensures SitesWith(o, s, a + b, m) == SitesWith(o, s, a, m) + SitesWith(o, s, b, m)
  {
  }

  lemma SitesInsert(o: Externals, s: Sampler, catalog: seq<SiteInput>, k: nat, c: SiteInput, m: real)
    requires k <= |catalog| && m >= 1.0
    ensures var before := SitesWith(o, s, catalog, m);
            SitesWith(o, s, catalog[..k] + [c] + catalog[k..], m) == before[..k] + [SiteOf(o, s, c, m)] + before[k..]
  {
    SitesConcat(o, s, catalog[..k] + [c], catalog[k..], m);
    SitesConcat(o, s, catalog[..k], [c], m);
    SitesConcat(o, s, catalog[..k], catalog[k..], m);
    assert catalog == catalog[..k] + catalog[k..];
    assert SitesWith(o, s, [c], m) == [SiteOf(o, s, c, m)];
  }

  /** Where a challenge goes, in every catalog. */
  ghost function PlaceOf(o: Externals, s: Sampler, c: SiteInput): Spot {
    SpotOf(s, PlanOf(o, c), MAX_ATTEMPTS)
  }

  lemma SiteStandsAtPlace(o: Externals, s: Sampler, c: SiteInput, m: real)
    requires m >= 1.0 && c.value <= m
    ensures var site := SiteOf(o, s, c, m); Spot(site.x, site.z) == PlaceOf(o, s, c) && site.padRadius <= 16.0
  {
    ScaleAcross(c.value, m, m);
  }

  /** Adding any challenge inserts its site and resizes the others for the new maximum. */
  lemma SitesGrow(o: Externals, s: Sampler, catalog: seq<SiteInput>, k: nat, c: SiteInput)
    returns (g: real)
    requires k <= |catalog|
    ensures g >= MaxValue(catalog) && c.value <= g && (c.value <= MaxValue(catalog) ==> g == MaxValue(catalog))
    ensures var resized := SitesWith(o, s, catalog, g);
            SitesOf(o, s, catalog[..k] + [c] + catalog[k..]) == resized[..k] + [SiteOf(o, s, c, g)] + resized[k..]
  {
    g := MaxValue(catalog[..k] + [c] + catalog[k..]);
    MaxWith(catalog, k, c);
    SitesInsert(o, s, catalog, k, c, g);
  }

  /** Which sites a larger maximum resizes: those of positive value. All stay where they are. */
  lemma ResizedSites(o: Externals, s: Sampler, catalog: seq<SiteInput>, g: real, i: nat)
    requires g >= MaxValue(catalog) && i < |catalog|
    ensures var p, q := SitesOf(o, s, catalog)[i], SitesWith(o, s, catalog, g)[i];
            && (p == q <==> g == MaxValue(catalog) || catalog[i].value <= 0.0)
            && Spot(p.x, p.z) == Spot(q.x, q.z) == PlaceOf(o, s, catalog[i])
            && p.padRadius <= 16.0 && q.padRadius <= 16.0
  {
    var m, c := MaxValue(catalog), catalog[i];
    assert c in catalog;
    MaxIsLeast(catalog);
    SiteAcrossCatalogs(o, s, c, m, g);
    SiteStandsAtPlace(o, s, c, m);
    SiteStandsAtPlace(o, s, c, g);
  }

  /** Every site of a catalog is inside the wall, of scale 1 to 3 and pad radius 10 to 16, at the
      height of the unmodified terrain, and at the first of the 64 candidates in its preferred
      biome if there is one, else at the first candidate. */
  lemma SitesAreSound(o: Externals, s: Sampler, catalog: seq<SiteInput>, i: nat)
    requires i < |catalog| && s.worldExtent >= 0.0
    ensures var site, p := SitesOf(o, s, catalog)[i], PlanOf(o, catalog[i]);
            && Abs(site.x) <= SITE_BOUND && Abs(site.z) <= SITE_BOUND
            && 1.0 <= site.scale <= 3.0 && 10.0 <= site.padRadius <= 16.0
            && site.y == s.base(site.x, site.z) && site.biomeId == s.biomeAt(site.x, site.z).id
            && exists t: nat :: t < MAX_ATTEMPTS && Taken(s, p.words, p.target, MAX_ATTEMPTS, t)
                 && Spot(site.x, site.z) == Candidate(p.words, Extent(s), t)
  {
    var c, p := catalog[i], PlanOf(o, catalog[i]);
    var site := SitesOf(o, s, catalog)[i];
    assert c in catalog;
    MaxIsLeast(catalog);
    ScaleAcross(c.value, MaxValue(catalog), MaxValue(catalog));
    SpotIsSound(s, p, MAX_ATTEMPTS);
    assert Spot(site.x, site.z) == SpotOf(s, p, MAX_ATTEMPTS);
  }

  lemma SpotIsSound(s: Sampler, p: Plan, attempts: nat)
    requires s.worldExtent >= 0.0 && attempts > 0
    ensures var spot := SpotOf(s, p, attempts);
            && Abs(spot.x) <= SITE_BOUND && Abs(spot.z) <= SITE_BOUND
            && exists t: nat :: t < attempts && Taken(s, p.words, p.target, attempts, t)
                 && spot == Candidate(p.words, Extent(s), t)
  {
    var t := TakenAttempt(s, p.words, p.target, attempts);
    RangeBounds(p.words, 2 * t, -Extent(s), Extent(s));
    RangeBounds(p.words, 2 * t + 1, -Extent(s), Extent(s));
  }
}
