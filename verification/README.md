# CyberKube, modelled and proved in Dafny

Two groups of code carry the hard promises of this repository.

**World generation and streaming** (`frontend/src/world`). Every client must grow the same world
from the same seed: a seeded generator (FNV-1a, splitmix64, xoshiro128**), simplex-noise tables, a
terrain curve, biome classification, challenge sites with flattened pads, Bridson poisson-disc
sampling for props, and a chunk streamer with an LRU cache, a build budget and two resolutions.

**Backend protocols** (`internal`). Flag submission, event fan-out and schema migration each run on
several replicas against one PostgreSQL, as sequences of separate statements that interleave, fail
half-way and are abandoned by crashes.

The project models both and proves what they are for, over every input, every stream of random
words and every schedule.

## How it is organised

| files | what they hold |
|---|---|
| `Rng` (module SeededRng), `Iteration`, `RngLaws` | the generator; folds and iterated steps in general; published values and ranges |
| `Poisson`, `PoissonGrid`, `PoissonDisc`, `PoissonLaws` | the sampler without a grid, the geometry of the grid, the program, what attempts and turns mean |
| `Reals`, `Terrain`, `WorldGen`, `Noise`, `Biomes`, `Sites`, `PadOrder`, `GeneratedWorld`, `Scatter` | the world: fields, pads, permutation table, classifier, sites, overlapping pads, the pipeline, props |
| `TerrainLaws`, `SiteLaws`, `ScatterLaws` | heights, sites and props in numbers |
| `Placement` | the layout of the first world version and its mulberry32 generator |
| `JsMap`, `Streamer`, `StreamerOrder`, `Chunks`, `ChunkRuns`, `ChunkLaws`, `ChunkProps`, `ChunkManager` (module ChunkManagement) | insertion-ordered maps, the streamer without a cache, its order of service, the manager on values, its runs, what they show in world coordinates, its props, the class |
| `Pricing`, `Tables`, `Submit`, `SubmitRuns`, `SubmitLaws`, `SubmitSchedules` | prices, tables, the submission protocol, its guarantees, where rows come from, particular schedules |
| `Hub`, `Fanout`, `Feed` | the per-pod hub, the fan-out across pods, from a solve to its subscribers |
| `Migrations` | one migrating replica, and many |

Where the source updates state in place there is a class or a method over arrays with that state,
proved against a function on values; the theorems are about that function. Each method body follows
the branches of the source in their order.

What the source takes from its platform is a parameter with only the laws that are used: a stream
of 32-bit words, `cos² + sin² = 1`, `sqrt2 * sqrt2 = 2`, `hypot`, a power function that rises from
0 to 1 on [0, 1], `log2` (monotone, additive on products, 1 at 2), atomic SQL statements, and
NOTIFY delivering to each listening session in commit order.

Inductions are written out: lemmas that call themselves switch Dafny's automatic induction off.

## Where the code and its own comments disagree

The model follows the code.

- `chunks.ts:22-23` says `scatterRadius` is the radius of the chunks that get props. The ring is
  looked at only when a chunk is built, and a chunk is rebuilt only when its resolution changes.
  `ChunkProps.ScatterRadiusMeans` gives the exact condition; the shipped defaults fail it.
- `sites.ts:6-8` says a site depends only on seed, name and category. Position, height and biome do;
  scale and pad radius also depend on value and on the dearest challenge (`Sites.SiteAcrossCatalogs`
  says exactly when they agree).
- `biomes.ts:121,133` say containment in a domain wins. It wins exactly where
  `Biomes.ContainmentWinsExactly` says, loses near some edges (`Biomes.ContainmentMayLose`), and
  then by at most a tenth of the container's half-width sum (`Biomes.WinnerIsNear`).
- `scoring.go:12-13` speaks of decay; with a Minimum above the initial value the first solve raises
  the price (`Pricing.DecayNeverRaises`).
- `handlers.go:300-307` counts and then inserts, so two solvers can be paid the same price
  (`SubmitSchedules.RacePaysTwice`). Which challenges are safe from it is exactly
  `SubmitSchedules.EachPaidExactlyWhenFixed`, which rows are hit `SubmitRuns.PaidExactlyWhen`.
- `hub.go:74-75` says slow clients are dropped; it is the frame that is dropped, for that client.
- `rng.ts:64,74` guards xoshiro against the all-zero state; no seed can produce it
  (`SeededRng.ExpandNeverZero`).
- `rng.ts:65` separates seed and stream by a NUL character, which most editors show as a blank.
- `placement.ts:61-64,102` speaks of up to 8 rings and of distinct colors; there are two rings, and
  the eight categories of the catalog show four colors (`Placement.CatalogColorsCollide`; exact
  condition in `Placement.SameColorExactly`).
- `worldgen.ts:49-60` blends toward each site in turn, so where pads of different levels overlap the
  ground depends on the order of the catalog (`PadOrder.CatalogOrderExactly`).
- `scatter.ts:27` promises points in the closed rectangle; they lie in the half-open one.

## Model

| member | source | states |
|---|---|---|
| PoissonDisc.Fill | frontend/src/world/gen/scatter.ts:30-91 | the grid program returns, for every stream of words, the points the all-pairs algorithm returns, consumes the same words, and runs its main loop exactly 2·points − 1 times |
| PoissonDisc.Sampler.FarEnough | frontend/src/world/gen/scatter.ts:47-61 | the scan of the 5×5 window answers true exactly when the candidate keeps its distance from all points placed so far |
| PoissonDisc.Sampler.GridIndex | frontend/src/world/gen/scatter.ts:44-45 | the clamped index is the cell of the point and lies in the grid, so the clamps never act |
| PoissonDisc.Sampler.Push | frontend/src/world/gen/scatter.ts:63-67 | appends the point, activates it, and keeps every point registered in its own cell |
| PoissonDisc.Sampler.Attempts | frontend/src/world/gen/scatter.ts:72-84 | the k attempts place the first candidate that is inside and far from all points, or none if all k fail, with the words each costs |
| PoissonDisc.Sampler.Advance | frontend/src/world/gen/scatter.ts:71-89 | one turn of the main loop, swap-remove included, is one step of the plain algorithm |
| PoissonDisc.WindowSuffices | frontend/src/world/gen/scatter.ts:47-61 | if no point of the window is too close, none at all is |
| PoissonDisc.PushRegisters | frontend/src/world/gen/scatter.ts:63-67 | an accepted point lands in an empty cell, so push overwrites no entry, and registration is kept |
| PoissonDisc.SampleIsPoissonDisc | frontend/src/world/gen/scatter.ts:26-36 | the result has between 1 and gw·gh points, all inside, pairwise at least `radius` apart, each but the first within [radius, 2·radius) of an earlier one |
| PoissonGrid.PackingBound | frontend/src/world/gen/scatter.ts:37-40 | separated points fall into distinct cells, so there are at most gw·gh |
| PoissonGrid.StopsExactly | frontend/src/world/gen/scatter.ts:71-90 | the loop is done at iteration 2·points − 1 and at no earlier one |
| PoissonGrid.Terminates | frontend/src/world/gen/scatter.ts:71-90 | it stops for every stream of words, adversarial ones included |
| Poisson.RunIsGood | frontend/src/world/gen/scatter.ts:69-90 | what every state of every run satisfies: inside, separated, anchored, and the iteration count |
| PoissonLaws.AttemptsExactly | frontend/src/world/gen/scatter.ts:74-84 | an origin is exhausted if and only if each of its k candidates, the j-th from words 2j and 2j+1, is outside or too close, and then 2k words are gone; otherwise the first that passes is placed, after 2(j+1) words |
| PoissonLaws.TurnExactly | frontend/src/world/gen/scatter.ts:71-89 | a turn takes the active entry at the drawn word modulo the length, and either swap-removes it because all its candidates fail, or appends and activates the first that passes |
| PoissonLaws.EveryPointGivenUp | frontend/src/world/gen/scatter.ts:71-90 | every returned point left the active list at a turn in which all its k candidates failed |
| PoissonLaws.FirstPoint | frontend/src/world/gen/scatter.ts:69 | the first point is at the first two words, as fractions of width and height |
| Scatter.ScatterChunk | frontend/src/world/gen/scatter.ts:115-166 | the props are the outcomes at the sample points in order, point i using words 3i, 3i+1, 3i+2 after the sampling whatever was skipped before |
| Scatter.Turn | frontend/src/world/gen/scatter.ts:130-163 | one turn consumes exactly three words on every path and yields the outcome at its point |
| Scatter.TryEmit | frontend/src/world/gen/scatter.ts:137-163 | pads, slope and density table are looked at in the order of the source |
| Scatter.PickEntry | frontend/src/world/gen/scatter.ts:149-163 | the loop picks the first entry whose cumulated density exceeds the roll |
| ScatterLaws.PickExactly | frontend/src/world/gen/scatter.ts:149-153 | the roll picks entry k for the least k whose sum of densities 0..k, times the modulation, exceeds it, and none if and only if there is no such k |
| ScatterLaws.RollInterval | frontend/src/world/gen/scatter.ts:149-153 | for densities that are not negative the rolls of entry k are exactly an interval as long as its modulated density, where the one before ends |
| ScatterLaws.EmitExactly | frontend/src/world/gen/scatter.ts:137-163 | a point gets a prop if and only if it is a unit clear of every pad, not too steep, and its roll picks an entry; the prop is the one of that entry |
| ScatterLaws.OnPadMeans | frontend/src/world/gen/worldgen.ts:71-80 | on a pad means nearer to some site than 1.9 times its radius plus the margin |
| ScatterLaws.OutcomeListed | frontend/src/world/gen/scatter.ts:129-166 | each outcome is in the list, right after those of the points before it |
| ScatterLaws.PropsExactly | frontend/src/world/gen/scatter.ts:115-166 | the props of a chunk are exactly those its sample points are planted with, from the sampled points, the terrain, the table and three words a point |
| Scatter.PropsAreGrounded | frontend/src/world/gen/scatter.ts:139-160 | a prop stands on unmodified terrain, clear of all pads by 1, on an admissible slope, with a kind and scale its biome lists |
| Scatter.ChunkPropsSpaced | frontend/src/world/gen/scatter.ts:110-166 | any two props of a chunk are at least `radius` apart and lie in its square, on unmodified ground |
| Scatter.NoInterference | frontend/src/world/gen/scatter.ts:131-135 | at any set of sample points where two worlds agree, both have the same props in the same order, whatever happens at the other points |
| Scatter.SamePropsWhereSameWorld | frontend/src/world/gen/scatter.ts:110-114 | worlds that agree at all sample points of a chunk give it the same props |
| Scatter.FarSiteIsInvisible | frontend/src/world/gen/scatter.ts:139-145 | a site inserted anywhere in the list changes nothing a sample point sees beyond its influence plus 1.5 |
| Scatter.NewChallengeIsLocal | frontend/src/world/gen/sites.ts:6-8 | adding any challenge, a new dearest one included, changes nothing a sample point sees that is 31.9 units from its site and, if it is the new dearest, from the sites it resizes |
| Scatter.FarChunkKeepsItsProps | frontend/src/world/gen/sites.ts:6-8 | hence a chunk all of whose sample points are so placed keeps exactly its props |
| ChunkManagement.ChunkManager.Update | frontend/src/world/gen/chunks.ts:106-145 | the whole effect of one update on loaded, lru, scene group, built and disposed chunks, for every option and position |
| ChunkManagement.ChunkManager.UnloadFar | frontend/src/world/gen/chunks.ts:111-119 | the first loop retires exactly the out-of-range entries, in map order |
| ChunkManagement.ChunkManager.VisitRing | frontend/src/world/gen/chunks.ts:123-144 | the nested loops, broken off by the budget, do what a walk over the wanted list does |
| ChunkManagement.ChunkManager.Visit | frontend/src/world/gen/chunks.ts:128-141 | one wanted chunk: kept, switched, taken from the cache or built; counted exactly when it was not already shown |
| ChunkManagement.ChunkManager.CachePut | frontend/src/world/gen/chunks.ts:166-176 | reinserts as newest and evicts oldest entries, disposing each, until the cache fits |
| ChunkManagement.ChunkManager.Dispose | frontend/src/world/gen/chunks.ts:147-153 | disposes all loaded and cached chunks and empties the maps and the group |
| Chunks.RetireIs | frontend/src/world/gen/chunks.ts:115-117 | retiring a chunk appends it to the cache and disposes the oldest entry if it does not fit; the delete in cachePut that would lose a chunk is never reached |
| Chunks.AdmitIs | frontend/src/world/gen/chunks.ts:138-140 | what joins the scene always has the wanted key and resolution, and leaves the cache if it came from there |
| Chunks.AdmitKeeps | frontend/src/world/gen/chunks.ts:138-140 | a cache hit and a build both keep ownership, uniqueness and the scene group |
| ChunkRuns.ChunksOwnedOnce | frontend/src/world/gen/chunks.ts:147-184 | over every run each chunk ever built is loaded, cached or disposed, exactly one of these and once; the group mirrors loaded; no key and resolution is live twice; the cache fits; dispose leaves nothing undisposed |
| ChunkRuns.RunRefines | frontend/src/world/gen/chunks.ts:106-184 | over every run the manager shows what the streamer without a cache shows, entry order included |
| ChunkRuns.CacheTransparent | frontend/src/world/gen/chunks.ts:24-25 | what is shown does not depend on cacheSize, 0 included, nor on scatterRadius |
| ChunkRuns.ManagerConverges | frontend/src/world/gen/chunks.ts:121-144 | n updates at one position with n·budget ≥ (2V+1)² leave loaded exactly the in-range chunks of the world at their resolutions |
| ChunkRuns.ManagerProgresses | frontend/src/world/gen/chunks.ts:121-144 | each update lowers the number of missing or wrong chunks by exactly min(budget, that number), and touches no chunk of a ring while a smaller ring is incomplete |
| ChunkLaws.FocusCovers | frontend/src/world/gen/chunks.ts:106-109 | the focus is the one chunk with 64·cx ≤ x < 64·(cx+1) and 64·cz ≤ z < 64·(cz+1) |
| ChunkLaws.GroundBelow | frontend/src/world/gen/chunks.ts:106-145 | after any run that ends with an update at a position of the world, the chunk that covers it is loaded at high resolution, whatever the positive budget |
| ChunkLaws.PictureShown | frontend/src/world/gen/chunks.ts:121-144 | after enough updates at a position the chunks shown are, in coordinates, those of the square around the chunk that covers it, and of the world, at high resolution in the inner square |
| ChunkLaws.ServedExactly | frontend/src/world/gen/chunks.ts:121-144 | one update after any run puts a lacking chunk right if and only if fewer than budget lacking ones come before it in the order of the loops |
| ChunkLaws.OldestGoFirst | frontend/src/world/gen/chunks.ts:111-119 | the far chunks queue behind the cache in map order, and what does not fit is disposed from the front: first in, first out |
| ChunkLaws.WorldIsCovered | frontend/src/world/gen/chunks.ts:106-128 | every position of the world lies in a chunk the manager may load |
| StreamerOrder.RingsOrdered | frontend/src/world/gen/chunks.ts:123-128 | chunks are asked for ring by ring, in a ring by cx, then by cz, none twice |
| StreamerOrder.UpdateReaches | frontend/src/world/gen/chunks.ts:121-144 | for the cache-free streamer: a limited budget reaches exactly the lacking chunks with fewer than budget lacking ones before them |
| Streamer.WantedIsRange | frontend/src/world/gen/chunks.ts:123-128 | the nested loops visit exactly the in-range chunks of the world, each with its own resolution |
| Streamer.LoadMissing | frontend/src/world/gen/chunks.ts:122-144 | a pass lowers the number of missing chunks by exactly min(budget, that number) |
| Streamer.NearestFirst | frontend/src/world/gen/chunks.ts:121-123 | no outer chunk is loaded or switched while an inner one is incomplete |
| Streamer.Converges | frontend/src/world/gen/chunks.ts:106-145 | the cache-free streamer settles and stays settled |
| ChunkProps.ScatterRadiusMeans | frontend/src/world/gen/chunks.ts:22-23 | "chunks within scatterRadius get props" holds of every settled scene if and only if the radii satisfy an explicit condition |
| ChunkProps.DefaultsBreakThePromise | frontend/src/world/gen/chunks.ts:89-95 | the shipped defaults do not satisfy it |
| WorldGen.Height | frontend/src/world/gen/worldgen.ts:47-62 | the loop with its bounding-box and distance rejections computes the plain fold over all sites |
| WorldGen.IsOnPad | frontend/src/world/gen/worldgen.ts:71-80 | the early-exit loop answers true exactly when some pad, grown by the margin, contains the point |
| WorldGen.HeightWithin | frontend/src/world/gen/worldgen.ts:47-62 | the height never leaves the range of the base height and the influencing pads |
| WorldGen.PadIsLevel | frontend/src/world/gen/worldgen.ts:1-4 | on its pad a site has its own level, unless a later site reaches there |
| TerrainLaws.PadProfile | frontend/src/world/gen/worldgen.ts:51-60 | a pad is level up to its radius, the ground untouched from 1.9 radii on, and the cubic ramp between |
| WorldGen.OffPadIsBase | frontend/src/world/gen/worldgen.ts:47-80 | off all pads, by any margin ≥ 0, the height is the base height |
| WorldGen.NewSiteIsLocal | frontend/src/world/gen/worldgen.ts:51-60 | a site changes the height only where its influence reaches, wherever it stands in the list |
| PadOrder.ExchangedExactly | frontend/src/world/gen/worldgen.ts:51-60 | two consecutive sites may be exchanged without changing the height at a point if and only if not both reach it or they have one level |
| PadOrder.OrderIrrelevantExactly | frontend/src/world/gen/worldgen.ts:51-60 | the height at a point is the same for every order of the sites if and only if all sites that reach it have one level |
| PadOrder.CatalogOrderExactly | frontend/src/world/gen/worldgen.ts:44-62 | the same for every order of the catalog, whose sites do not depend on it |
| GeneratedWorld.GroundWithin | frontend/src/world/gen/worldgen.ts:39-71 | fields, biomes, sites and pads together: the ground of every generated world lies between 0 and heightScale everywhere |
| Terrain.SmoothstepRises | frontend/src/world/gen/terrain.ts:51-54 | smoothstep rises monotonically from 0 to 1 and is flat outside its edges |
| TerrainLaws.CubicIsOnly | frontend/src/world/gen/terrain.ts:51-54 | the ramp is the only cubic that goes from 0 to 1 with level ends |
| TerrainLaws.SmoothstepBetween | frontend/src/world/gen/terrain.ts:51-54 | a fraction t of the way between any two edges smoothstep is that cubic at t |
| Terrain.Fbm | frontend/src/world/gen/noise.ts:87-99 | the loop computes the weighted sum of the octaves divided by the weights |
| Terrain.FbmWithin | frontend/src/world/gen/noise.ts:86-99 | the normalised sum stays in any range the noise stays in |
| TerrainLaws.FbmIsSelfSimilar | frontend/src/world/gen/noise.ts:87-99 | n + 1 octaves are one octave plus gain times n octaves over the field lacunarity times finer, and so are their weights |
| TerrainLaws.FbmIsMean | frontend/src/world/gen/noise.ts:87-99 | fbm times the weights of all its octaves is their sum |
| TerrainLaws.WarpMoves | frontend/src/world/gen/noise.ts:112-123 | the warp moves a position by strength times the two noises there, at most strength along each axis |
| TerrainLaws.FieldsAreMeans | frontend/src/world/gen/terrain.ts:69-92 | moisture and raw elevation are (1 + fbm) / 2, the latter at the warped position; their clamps never act where the noise keeps its range |
| Terrain.ShapedRises | frontend/src/world/gen/terrain.ts:72-81 | the redistribution curve keeps order, stays in [0, 1], is e^exponent outside the band and the plains level at its center |
| TerrainLaws.ShapedBetween | frontend/src/world/gen/terrain.ts:74-81 | inside the plains band, a fraction t of its width from the center, the curve is pulled toward the plains level by the rest of the ramp |
| TerrainLaws.LandmarkHeights | frontend/src/world/gen/terrain.ts:69-87 | the base height is 0 at raw elevation 0, heightScale at 1, and the plains level at the center of the band |
| Terrain.HeightsInOrder | frontend/src/world/gen/terrain.ts:69-87 | base heights lie in [0, heightScale] and are ordered as the raw elevations are |
| Noise.FisherYates | frontend/src/world/gen/noise.ts:23-30 | the in-place shuffle is the shuffle by the drawn choices, one word a position |
| Noise.BuildTable | frontend/src/world/gen/noise.ts:20-31 | the table is a permutation of 0..255 followed by itself, for every stream |
| Noise.ShufflePermutes | frontend/src/world/gen/noise.ts:25-30 | any legal choices give a permutation, and positions already visited are final |
| Noise.ShuffleInjective | frontend/src/world/gen/noise.ts:24-30 | different choices give different permutations |
| Noise.ShuffleSurjective | frontend/src/world/gen/noise.ts:24-30 | every permutation is reached by some choices |
| Noise.EveryTableIsDrawn | frontend/src/world/gen/noise.ts:20-31 | every permutation of 0..255 is the table of some stream of words |
| Noise.LookupIsCorner | frontend/src/world/gen/noise.ts:50-72 | all nested lookups stay in the 512 entries for every cell, negative ones included, and cells that share a corner agree on its hash |
| Biomes.Classify | frontend/src/world/gen/biomes.ts:125-140 | the loop returns the entry that `Best` selects |
| Biomes.BestIsFirstLeast | frontend/src/world/gen/biomes.ts:119-140 | the winner has the least score, and is the first that has it, for every non-empty registry |
| Biomes.WinnerIsCheapest | frontend/src/world/gen/biomes.ts:123-138 | with the toll of a domain point being 20 per step in elevation, 10 in moisture, and 1 to the center: the winner has a point that no point of any domain undercuts |
| Biomes.WinnerIsNear | frontend/src/world/gen/biomes.ts:121-133 | if some domain contains the sample, the winner is at most a tenth of that domain's half-width sum away |
| Biomes.ShippedWinnerIsNear | frontend/src/world/gen/biomes.ts:35-108 | for the shipped registry that distance is at most 0.069 |
| Biomes.ContainmentWinsExactly | frontend/src/world/gen/biomes.ts:121-138 | for every non-empty registry and sample, the winner contains the sample if and only if some containing domain beats, by the guard of the loop, every domain that does not |
| Biomes.ClearSampleIsContained | frontend/src/world/gen/biomes.ts:121-133 | in particular when all other domains are farther than that margin |
| Biomes.ContainmentMayLose | frontend/src/world/gen/biomes.ts:133 | at elevation 0.63, moisture 0 the containing mountains lose to the tundra |
| Biomes.FindFinds | frontend/src/world/gen/biomes.ts:110-112 | the lookup finds an entry of that id, or there is none |
| Sites.Place | frontend/src/world/gen/sites.ts:85-101 | the attempt loop ends at the first candidate in the target biome, else at candidate 0 |
| Sites.ComputeSites | frontend/src/world/gen/sites.ts:74-117 | the sites of the catalog, in its order |
| Sites.SitesAreSound | frontend/src/world/gen/sites.ts:68-117 | every site is inside the wall, of scale 1 to 3 and pad radius 10 to 16, at terrain height, at the first of 64 seeded candidates in its biome if there is one |
| SiteLaws.SiteExactly | frontend/src/world/gen/sites.ts:74-117 | every site in numbers: the first of 64 candidates, drawn evenly from two words each over 0.85 of the world, that has the target biome, or the first; the ground, the proportional scale and the pad radius there |
| Sites.SiteAcrossCatalogs | frontend/src/world/gen/sites.ts:6-8 | position, height and biome never depend on the rest of the catalog; the whole site is the same if and only if the maxima agree or the value is not positive |
| Sites.OrderDoesNotMatter | frontend/src/world/gen/sites.ts:84-116 | under any permutation of the catalog each challenge gets the same site |
| Sites.AddingShrinks | frontend/src/world/gen/sites.ts:6-8 | an added challenge moves nobody, can only shrink the others, and changes nothing for them unless it is a new maximum |
| Sites.ResizedSites | frontend/src/world/gen/sites.ts:79-113 | a larger maximum resizes exactly the sites of positive value, and moves none |
| Sites.PreferredIsRegistered | frontend/src/world/gen/sites.ts:54-60 | every category prefers a registered biome, a known one the biome it is mapped to |
| SiteLaws.PreferredExactly | frontend/src/world/gen/sites.ts:54-60 | a mapped category prefers its listed biome in any letter case, any other the entry at its hash modulo 7 |
| SeededRng.FnvOneUnitApart | frontend/src/world/gen/rng.ts:21-41 | equal-length texts that differ in one code unit never collide, in 32 or 64 bits |
| SeededRng.HashText | frontend/src/world/gen/rng.ts:22-41 | the loop is the fold of its round over the code units |
| RngLaws.Fnv32Vectors | frontend/src/world/gen/rng.ts:22-30 | the published FNV-1a values of three texts, in 32 bits |
| RngLaws.Fnv64Vectors | frontend/src/world/gen/rng.ts:32-41 | and of two, in 64 bits |
| RngLaws.SplitMixVectors | frontend/src/world/gen/rng.ts:44-52 | the published first outputs of splitmix64 from state 0 |
| RngLaws.XoshiroVectors | frontend/src/world/gen/rng.ts:76-86 | the published first outputs of xoshiro128** from state 1, 2, 3, 4 |
| RngLaws.ScrambleRoundTrip | frontend/src/world/gen/rng.ts:76-86 | the output scrambler can be undone, so every 32-bit word comes from exactly one s1 |
| RngLaws.StreamKeyTells | frontend/src/world/gen/rng.ts:62-65 | seeds without NUL and stream names can be read back from the text that is hashed |
| SeededRng.MixRoundTrip | frontend/src/world/gen/rng.ts:44-52 | the splitmix64 output determines its state |
| SeededRng.StepRoundTrip | frontend/src/world/gen/rng.ts:76-86 | the xoshiro128** transition can be undone |
| SeededRng.StatesStayApart | frontend/src/world/gen/rng.ts:76-86 | different states stay different after every number of draws, and none falls into the all-zero state |
| SeededRng.ExpandNeverZero | frontend/src/world/gen/rng.ts:63-74 | no hash expands to the all-zero state |
| SeededRng.NeighbouringStreamsNeverCoincide | frontend/src/world/gen/rng.ts:58-86 | streams whose labels differ in one unit are never in the same state after equally many draws |
| SeededRng.Xoshiro.Uint32 | frontend/src/world/gen/rng.ts:62-86 | the n-th call returns the output of the initial state after n transitions |
| SeededRng.RangeBounds | frontend/src/world/gen/rng.ts:93 | range(lo, hi) lies in [lo, hi) |
| RngLaws.RangeIsEven | frontend/src/world/gen/rng.ts:88-93 | next is the word over 2^32, and range goes evenly from lo to hi |
| Placement.StateRepeats | frontend/src/world/placement.ts:36-46 | the mulberry32 state repeats after 2^32 draws and no sooner, for every seed |
| Placement.MulberryVectors | frontend/src/world/placement.ts:36-46 | the first outputs mulberry32 is known by |
| Placement.DistrictsOnTwoRings | frontend/src/world/placement.ts:58-66 | districts at one angle are one district, and all centers lie at distance 60 or 120 |
| Placement.CenterIs | frontend/src/world/placement.ts:58-66 | the center of a district is at its angle in 3600ths of a turn, 60 or 120 away by its ring |
| Placement.SpotIs | frontend/src/world/placement.ts:73-96 | a challenge is at the first draw of its name of a turn around it, 22 times the root of the second draw away |
| Placement.StaysInDistrict | frontend/src/world/placement.ts:78-82 | so it is less than 22 away, and evenly spread over the disc |
| Placement.CatalogColorsCollide | frontend/src/world/placement.ts:102-105 | by the hash of the source, web, forensics and misc have one color, and so have crypto and osint, and pwn and stegano |
| Placement.SameColorExactly | frontend/src/world/placement.ts:26-34 | two categories share a color if and only if the same fold over the low three bits of their code units ends alike |
| Placement.OneUnitColors | frontend/src/world/placement.ts:102-105 | two categories that differ in one code unit share a color if and only if these units agree modulo 8 |
| Placement.PlaceChallenges | frontend/src/world/placement.ts:73-96 | every challenge of the catalog is placed, in its order |
| Placement.LayoutIsSound | frontend/src/world/placement.ts:68-96 | a challenge keeps its place in every catalog, less than 22 from its district's center; scales lie in [1, 3] and rise with the value |
| Pricing.PriceRange | internal/engine/scoring.go:12-44 | when the floor does not exceed the start, the price lies between the minimum and the initial value |
| Pricing.DecayNeverRaises | internal/engine/scoring.go:12-44 | the price never rises with the solve count if and only if the floor does not exceed the start (or there is no decay) |
| Pricing.PriceExactly | internal/engine/scoring.go:16-44 | the price after n solves in terms of the fields: the initial value less decay·n or decay·log2(n+1), to the nearest integer, ties up, never below the minimum; 0, fixed and unsolved cases included |
| Pricing.DoublingPrice | internal/engine/scoring.go:28-43 | under logarithmic decay 2^j − 1 solves cost exactly j times the decay, down to the floor |
| Pricing.DoublingDrops | internal/engine/scoring.go:28-43 | it drops from one doubling to a later one if and only if it had not reached the floor |
| Pricing.LogarithmicAboveLinear | internal/engine/scoring.go:28-34 | logarithmic decay is never below linear decay |
| Pricing.LinearPriceTells | internal/engine/scoring.go:32-43 | linear decay is strict until the floor |
| Pricing.StaleLinearPrice | internal/engine/scoring.go:24-43 | when a price at an earlier count is still the price, whatever the floor |
| Pricing.FixedPriceTells | internal/engine/scoring.go:16-44 | the price never moves if and only if it is the same before and after the first solve |
| SubmitRuns.Handle | internal/engine/handlers.go:240-331 | the handler, alone, leaves the tables and gives the answer that the five protocol statements give, errors at any of them included |
| SubmitRuns.Score | internal/engine/handlers.go:289-330 | its part after the flag check, statement by statement |
| SubmitLaws.AdmittedExactly | internal/engine/handlers.go:240-287 | a request reaches the tables if and only if it has a team, names a visible challenge with a flag to compare, and carries a flag; it is stored as correct if and only if that flag is the static one or one of the running instance |
| SubmitLaws.RefusedExactly | internal/engine/handlers.go:241-287 | which status every other request gets |
| SubmitLaws.HandledExactly | internal/engine/handlers.go:289-330 | what an undisturbed request adds to submissions, solves and events, and what it is told |
| SubmitLaws.LostExactly | internal/engine/handlers.go:289-329 | what an error of each statement does, whether or not the statement took effect |
| Tables.Store.AwardSolve | internal/store/scoring.go:47-59 | writes the row and reports it exactly when the team had none for that challenge |
| Submit.StepKeeps | internal/engine/handlers.go:289-330 | every statement of every request, successful or lost, keeps the protocol invariant |
| Submit.AlwaysInv | internal/engine/handlers.go:289-330 | the protocol invariant holds after every schedule of any number of requests, with errors and crashes anywhere |
| SubmitRuns.ScoringConserved | internal/store/migrations/0002_submissions.sql:13-21 | at most one award per team and challenge, each after a correct submission of that team, with the points its request computed; a team's total is the sum over its awarded requests |
| SubmitLaws.AttemptsWereSent | internal/engine/handlers.go:261-292 | over every schedule, each stored submission comes from an arrival of that team and user for that visible challenge with that flag, and is correct if and only if the flag was |
| SubmitLaws.SolvesWereEarned | internal/engine/handlers.go:261-312 | over every schedule, each solve of a team has an arrival of that team for that visible challenge with a right flag |
| SubmitLaws.CountIsTeams | internal/store/scoring.go:61-69 | over every schedule, the solve count of a challenge is the number of teams that solved it |
| SubmitRuns.AnswersAreBacked | internal/engine/handlers.go:306-330 | points told to a client are in a row of its team |
| SubmitRuns.PointsNeverChange | internal/engine/scoring.go:13-15 | rows are never changed or removed |
| SubmitRuns.RowPrice | internal/engine/handlers.go:300-307 | the j-th solve was paid a price of j or fewer solves, hence at least the j-th price |
| SubmitRuns.TotalPaid | internal/engine/handlers.go:300-307 | k solves cost at least the first k prices, and exactly that when nobody raced |
| SubmitRuns.PaidExactlyWhen | internal/engine/handlers.go:300-307 | under linear decay, with any floor, a row carries its own price if and only if it was not raced, the price is fixed, or the floor had been reached at the count its request read |
| SubmitSchedules.HandlerIsSchedule | internal/engine/handlers.go:289-330 | the handler without interference is one schedule of the protocol |
| SubmitSchedules.SerialPaysThePrices | internal/engine/handlers.go:300-307 | handled one after the other, k solvers are paid exactly the first k prices |
| SubmitSchedules.RacePaysTwice | internal/engine/handlers.go:300-307 | for any scoring, a schedule in which two solvers are both paid the first price |
| SubmitSchedules.EachPaidExactlyWhenFixed | internal/engine/handlers.go:300-307 | "the n-th solver is paid the n-th price" holds over all schedules if and only if the challenge is worth nothing, does not decay, or starts at its floor; for both decay functions |
| SubmitSchedules.AnnouncedTruthfully | internal/engine/handlers.go:324-329 | challenge.solved is announced at most once per team and challenge, after its row and with its points |
| Hub.Hub.Register | internal/events/hub.go:52-59 | adds a fresh open client with an empty queue |
| Hub.Hub.Unregister | internal/events/hub.go:63-71 | closes the queue on the first call and does nothing on later ones |
| Hub.Hub.BroadcastRaw | internal/events/hub.go:76-85 | offers the frame to every registered client exactly once, and to no closed queue |
| Fanout.AlwaysInv | internal/events/publisher.go:46-71 | the fan-out invariant holds after every interleaving of publishers, listeners, registrations and readers on any number of pods |
| Fanout.InOrderWithoutGaps | internal/events/hub.go:73-85 | received plus queued frames are an in-order, duplicate-free part of the NOTIFY log, and the whole slice since registration if the queue never filled and the listener never dropped; one close at most |
| Fanout.OnlyFullQueuesLose | internal/events/hub.go:79-84 | a broadcast leaves out a registered client exactly when 16 frames wait for it |
| Fanout.StepOnClient | internal/events/hub.go:52-85 | after any run, what one more step does to a client: removed and closed by unregistering, changed by deliveries on its pod only while registered, read from the front |
| Fanout.GoneForGood | internal/events/hub.go:63-85 | an unregistered client hears nothing more and is not closed again, whatever follows |
| Fanout.GaugeIsClients | internal/events/hub.go:52-71 | the gauge is the number of clients less those between unlock and Inc |
| Feed.SubscribersHearTruthfully | internal/events/publisher.go:46-71 | whatever the schedules of submissions, launches and fan-out, no subscriber hears of one solve twice, and what it hears of is in the table with the points it was told |
| Migrations.Migrate | internal/store/store.go:60-108 | alone, a replica goes through the files up to the first of which a statement fails, and has applied exactly the missing ones before it, in order and once each; it succeeds if and only if none fails |
| Migrations.MigrationsInOrder | internal/store/store.go:58-108 | whatever the races, errors and crashes of any number of replicas, the committed migrations are an initial segment of the sorted list, and a replica that returned without error has all of its own applied |
| Migrations.PendingIsMissing | internal/store/store.go:78-107 | what a run applies are exactly the names that are not recorded |
| Migrations.PendingCompletes | internal/store/store.go:78-107 | what a run applies completes any initial segment of the files to all of them |
| Migrations.AloneItFinishes | internal/store/store.go:58-108 | from any reachable state, after any races and crashes, a replica left alone without errors finishes with all its files committed |

## Left out

- Floating point: all coordinates, prices and noise values are exact reals; rounding, NaN and infinities are not modelled.
- poissonDisc with a width, height or radius that is not positive: the grid has no cells or is undefined there, and no caller passes such values.
- A negative cacheSize: the eviction loop of the source then spins forever on an empty cache.
- The simplex noise value itself (skewing, kernels, its amplitude and continuity): only its table and lookups are modelled; fbm and the terrain take an arbitrary noise function.
- Rendering: terrain meshes, materials, instanced props, camera, minimap. A chunk is an opaque object with key, resolution, a props flag and an identity.
- The memo of the density field in scatter.ts: it caches a function of the seed alone, here a parameter of the land.
- Spacing of props across chunk borders: not promised by the source, whose chunks are sampled independently.
- String.toLowerCase, strings.TrimSpace, JSON and HTTP decoding, sessions, metrics: parameters or left out.
- MarkInstanceSolved and the instance lookup: foreign calls; the flags of the team's instance are an input.
- The order of the scoreboard and the other read-only queries: sorting by the database.
- Marshalling of events and their timestamps: a frame is identified by its position in the NOTIFY log.
- WebSocket writes that fail: the handler then unregisters its client, a step the fan-out allows at any time.
- Launch, but for the event it publishes; team membership, world-seed settings, attachment cache: outside the protocols modelled here.
