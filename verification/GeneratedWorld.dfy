/** The whole pipeline of createWorldGen (frontend/src/world/gen/worldgen.ts) over the terrain
    sampler of a seed: fields, biomes, sites and final height together. */
module GeneratedWorld {
  import opened WorldGen
  import Biomes
  import Sites
  import Terrain

  /** biomeAt: the classified elevation and moisture. */
  function BiomeAt(f: Terrain.Fields, c: Terrain.Config, x: real, z: real): Biomes.Biome
    requires c.rd.plainsWidth != 0.0
  {
    Biomes.Classified(Biomes.BIOMES, Terrain.Elevation(f, c, x, z), Terrain.Moisture(f, c, x, z))
  }

  function SamplerOf(f: Terrain.Fields, c: Terrain.Config): Sites.Sampler
    requires c.rd.plainsWidth != 0.0
  {
    Sites.Sampler((x, z) => BiomeAt(f, c, x, z), (x, z) => Terrain.BaseHeight(f, c, x, z), c.worldExtent)
  }

  ghost function WorldOf(o: Sites.Externals, f: Terrain.Fields, c: Terrain.Config, catalog: seq<Sites.SiteInput>,
                         hypot: Hypot): World
    requires c.rd.plainsWidth != 0.0
  {
    World(Sites.SitesOf(o, SamplerOf(f, c), catalog), SamplerOf(f, c).base, hypot)
  }

  lemma BaseWithin(f: Terrain.Fields, c: Terrain.Config, x: real, z: real)
    requires Terrain.Sound(c.rd, f.pow) && c.heightScale >= 0.0
    ensures 0.0 <= SamplerOf(f, c).base(x, z) <= c.heightScale
  {
    Terrain.HeightsInOrder(f, c, x, z, x, z);
  }

  lemma SiteStandsOnTerrain(o: Sites.Externals, s: Sites.Sampler, catalog: seq<Sites.SiteInput>, i: nat)
    requires i < |catalog| && s.worldExtent >= 0.0
    ensures i < |Sites.SitesOf(o, s, catalog)|
    ensures var site := Sites.SitesOf(o, s, catalog)[i]; site.y == s.base(site.x, site.z)
  {
    Sites.SitesAreSound(o, s, catalog, i);
  }

  lemma PadsWithin(o: Sites.Externals, s: Sites.Sampler, catalog: seq<Sites.SiteInput>, hypot: Hypot,
                   x: real, z: real, lo: real, hi: real)
    requires IsHypot(hypot) && s.worldExtent >= 0.0 && forall a, b :: lo <= s.base(a, b) <= hi
    ensures lo <= World(Sites.SitesOf(o, s, catalog), s.base, hypot).HeightAt(x, z) <= hi
  {
    var sites := Sites.SitesOf(o, s, catalog);
    forall i | 0 <= i < |sites| ensures lo <= sites[i].y <= hi {
      SiteStandsOnTerrain(o, s, catalog, i);
    }
    HeightWithin(hypot, sites, s.base(x, z), x, z, lo, hi);
  }

  /** Whatever the seed and the catalog, the ground of a generated world, pads included, lies
      everywhere between 0 and heightScale. */
  lemma GroundWithin(o: Sites.Externals, f: Terrain.Fields, c: Terrain.Config,
                     catalog: seq<Sites.SiteInput>, hypot: Hypot, x: real, z: real)
    requires Terrain.Sound(c.rd, f.pow) && c.heightScale >= 0.0 && c.worldExtent >= 0.0 && IsHypot(hypot)
    ensures 0.0 <= WorldOf(o, f, c, catalog, hypot).HeightAt(x, z) <= c.heightScale
  {
    var s := SamplerOf(f, c);
    forall a, b ensures 0.0 <= s.base(a, b) <= c.heightScale {
      BaseWithin(f, c, a, b);
    }
    PadsWithin(o, s, catalog, hypot, x, z, 0.0, c.heightScale);
  }
}
