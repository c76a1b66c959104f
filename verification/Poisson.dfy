/** Bridson poisson-disc sampling (poissonDisc in frontend/src/world/gen/scatter.ts).

    The reference is the plain algorithm: a candidate is accepted when it keeps its distance
    from ALL points placed so far (`Far`). The program looks only at a 5 x 5 window of a
    background grid. `PoissonDisc` is proved to return exactly what the plain algorithm
    returns on the same stream of random words, in exactly 2 * |points| - 1 iterations. */
module Poisson {
  import opened Common
  import opened Iteration
  import opened SeededRng

  datatype Point = Point(x: real, y: real)

  /** Math.cos, Math.sin and 2 * Math.PI, of which only cos^2 + sin^2 = 1 matters. */
  datatype Trig = Trig(cos: real -> real, sin: real -> real, twoPi: real)

  ghost predicate IsTrig(t: Trig) {
    forall a :: t.cos(a) * t.cos(a) + t.sin(a) * t.sin(a) == 1.0
  }

  /** The arguments of one call, together with Math.SQRT2. */
  datatype Params = Params(width: real, height: real, radius: real, k: int, sqrt2: real, trig: Trig)
  {
    ghost predicate Valid() {
      width > 0.0 && height > 0.0 && radius > 0.0 && sqrt2 > 0.0 && sqrt2 * sqrt2 == 2.0 && IsTrig(trig)
    }

    function Cell(): (c: real)
      requires Valid()
      ensures c > 0.0 && 2.0 * (c * c) == radius * radius
    {
      var c := radius / sqrt2;
      assert c * sqrt2 == radius;
      assert (c * sqrt2) * (c * sqrt2) == (c * c) * (sqrt2 * sqrt2);
      c
    }

    function GridWidth(): (n: int)
      requires Valid()
      ensures n > 0
    {
      Ceil(width / Cell())
    }

    function GridHeight(): (n: int)
      requires Valid()
      ensures n > 0
    {
      Ceil(height / Cell())
    }

    function Capacity(): (n: nat)
      requires Valid()
    {
      GridHeight() * GridWidth()
    }

    predicate Inside(p: Point) {
      0.0 <= p.x < width && 0.0 <= p.y < height
    }
  }

  function Dist2(p: Point, q: Point): real {
    (p.x - q.x) * (p.x - q.x) + (p.y - q.y) * (p.y - q.y)
  }

  // ------------------------------------------------- the plain algorithm

  /** `p` keeps its distance from every point placed so far. */
  predicate Far(points: seq<Point>, p: Point, radius: real) {
    forall i :: 0 <= i < |points| ==> Dist2(points[i], p) >= radius * radius
  }

  function Polar(trig: Trig, origin: Point, angle: real, dist: real): Point {
    Point(origin.x + trig.cos(angle) * dist, origin.y + trig.sin(angle) * dist)
  }

  function Candidate(d: Params, words: Words, pos: nat, origin: Point): Point {
    Polar(d.trig, origin, RangeAt(words, pos, 0.0, d.trig.twoPi), RangeAt(words, pos + 1, d.radius, d.radius * 2.0))
  }

  datatype Attempt = Placed(p: Point, pos: nat) | Exhausted(pos: nat)

  /** Candidates number i, i + 1, ..., k - 1 around `origin`: the first acceptable one. */
  function TryPlace(d: Params, words: Words, points: seq<Point>, origin: Point, pos: nat, i: nat): Attempt
    decreases d.k - i
  {
    if i >= d.k then Exhausted(pos)
    else
      var cand := Candidate(d, words, pos, origin);
      if d.Inside(cand) && Far(points, cand, d.radius) then Placed(cand, pos + 2)
      else TryPlace(d, words, points, origin, pos + 2, i + 1)
  }

  /** The variables of the main loop; active entries are indices of points. */
  datatype Loop = Loop(points: seq<Point>, active: seq<nat>, pos: nat)
  {
    ghost predicate Wf() {
      forall i :: 0 <= i < |active| ==> active[i] < |points|
    }

    /** How many iterations have led to this state, as RunIsGood shows. */
    function Age(): int { 2 * |points| - |active| - 1 }
  }

  type State = s: Loop | s.Wf() witness Loop([], [], 0)

  function Start(d: Params, words: Words, pos: nat): State {
    Loop([Point(RangeAt(words, pos, 0.0, d.width), RangeAt(words, pos + 1, 0.0, d.height))], [0], pos + 2)
  }

  /** A placed point joins the active list; an exhausted origin leaves it by swap-remove. */
  function Settle(s: State, slot: nat, a: Attempt): (r: State)
    requires slot < |s.active|
    ensures s.points <= r.points && r.Age() == s.Age() + 1
  {
    match a
    case Placed(p, pos) => Loop(s.points + [p], s.active + [|s.points|], pos)
    case Exhausted(pos) =>
      var last := |s.active| - 1;
      Loop(s.points, s.active[slot := s.active[last]][..last], pos)
  }

  function AttemptAt(d: Params, words: Words, s: State): Attempt
    requires s.active != []
  {
    var slot := IntAt(words, s.pos, |s.active|);
    TryPlace(d, words, s.points, s.points[s.active[slot]], s.pos + 1, 0)
  }

  /** One iteration of the main loop; nothing happens once no point is active. */
  function Step(d: Params, words: Words, s: State): State {
    if s.active == [] then s
    else Settle(s, IntAt(words, s.pos, |s.active|), AttemptAt(d, words, s))
  }

  function Stepper(d: Params, words: Words): State -> State {
    (s: State) => Step(d, words, s)
  }

  function Run(d: Params, words: Words, pos: nat, n: nat): State {
    Iterate(Stepper(d, words), Start(d, words, pos), n)
  }

  // ------------------------------------------- what every state satisfies

  ghost predicate Separated(points: seq<Point>, radius: real) {
    forall i, j :: 0 <= i < j < |points| ==> Dist2(points[i], points[j]) >= radius * radius
  }

  ghost predicate InAnnulus(o: Point, p: Point, radius: real) {
    radius * radius <= Dist2(o, p) < 4.0 * (radius * radius)
  }

  /** Point `i` was generated around an earlier one: its distance to it is in [radius, 2 * radius). */
  ghost predicate Anchored(points: seq<Point>, i: int, radius: real)
    requires 0 <= i < |points|
  {
    exists j :: 0 <= j < i && InAnnulus(points[j], points[i], radius)
  }

  ghost predicate Good(d: Params, s: State) {
    && s.points != []
    && (forall i :: 0 <= i < |s.points| ==> d.Inside(s.points[i]))
    && Separated(s.points, d.radius)
    && (forall i :: 1 <= i < |s.points| ==> Anchored(s.points, i, d.radius))
  }

  lemma PolarDistance(o: Point, c: real, s: real, dist: real)
    requires c * c + s * s == 1.0
    ensures Dist2(o, Point(o.x + c * dist, o.y + s * dist)) == dist * dist
  {
  }

  lemma CandidateInAnnulus(d: Params, words: Words, pos: nat, origin: Point)
    requires d.Valid()
    ensures InAnnulus(origin, Candidate(d, words, pos, origin), d.radius)
  {
    var angle := RangeAt(words, pos, 0.0, d.trig.twoPi);
    var dist := RangeAt(words, pos + 1, d.radius, d.radius * 2.0);
    RangeBounds(words, pos + 1, d.radius, d.radius * 2.0);
    PolarDistance(origin, d.trig.cos(angle), d.trig.sin(angle), dist);
    SquaresOrdered(d.radius, dist);
    SquaresOrdered(dist, d.radius * 2.0);
  }

  lemma ProductPositive(a: real, b: real)
    requires a > 0.0 && b > 0.0
    ensures a * b > 0.0
  {
  }

  lemma SquaresOrdered(a: real, b: real)
    requires 0.0 <= a <= b
    ensures a * a <= b * b
    ensures a < b ==> a * a < b * b
  {
    if a < b {
      ProductPositive(b - a, b + a);
      assert b * b - a * a == (b - a) * (b + a);
    }
  }

  /** What an accepted candidate is, whichever attempt it came from. */
  lemma {:induction false} PlacedIsGood(d: Params, words: Words, points: seq<Point>, origin: Point, pos: nat, i: nat)
    requires d.Valid()
    ensures match TryPlace(d, words, points, origin, pos, i)
            case Placed(p, _) =>
              d.Inside(p) && Far(points, p, d.radius) && InAnnulus(origin, p, d.radius)
            case Exhausted(_) => true
    decreases d.k - i
  {
    if i < d.k {
      CandidateInAnnulus(d, words, pos, origin);
      PlacedIsGood(d, words, points, origin, pos + 2, i + 1);
    }
  }

  lemma AppendAnchored(points: seq<Point>, p: Point, i: int, o: nat, radius: real)
    requires 0 <= i < |points| ==> Anchored(points, i, radius)
    requires i == |points| ==> o < |points| && InAnnulus(points[o], p, radius)
    requires 0 <= i <= |points|
    ensures Anchored(points + [p], i, radius)
  {
    var r := points + [p];
    if i < |points| {
      var j :| 0 <= j < i && InAnnulus(points[j], points[i], radius);
      assert InAnnulus(r[j], r[i], radius);
    } else {
      assert InAnnulus(r[o], r[i], radius);
    }
  }

  lemma AppendSeparated(points: seq<Point>, p: Point, radius: real)
    requires Separated(points, radius) && Far(points, p, radius)
    ensures Separated(points + [p], radius)
  {
  }

  lemma SettleKeepsGood(d: Params, s: State, slot: nat, a: Attempt)
    requires Good(d, s) && slot < |s.active|
    requires match a
             case Placed(p, _) =>
               d.Inside(p) && Far(s.points, p, d.radius) && InAnnulus(s.points[s.active[slot]], p, d.radius)
             case Exhausted(_) => true
    ensures Good(d, Settle(s, slot, a))
  {
    if a.Placed? {
      AppendSeparated(s.points, a.p, d.radius);
      forall i | 1 <= i <= |s.points| ensures Anchored(s.points + [a.p], i, d.radius) {
        AppendAnchored(s.points, a.p, i, s.active[slot], d.radius);
      }
    }
  }

  lemma StepKeepsGood(d: Params, words: Words, s: State)
    requires d.Valid() && Good(d, s)
    ensures Good(d, Step(d, words, s))
  {
    if s.active != [] {
      var slot := IntAt(words, s.pos, |s.active|);
      PlacedIsGood(d, words, s.points, s.points[s.active[slot]], s.pos + 1, 0);
      SettleKeepsGood(d, s, slot, AttemptAt(d, words, s));
    }
  }

  lemma StartIsGood(d: Params, words: Words, pos: nat)
    requires d.Valid()
    ensures Good(d, Start(d, words, pos))
  {
    RangeBounds(words, pos, 0.0, d.width);
    RangeBounds(words, pos + 1, 0.0, d.height);
  }

  /** Every state of every run: inside, pairwise separated, anchored; and as long as a point is
      active the number of iterations done is 2 * |points| - |active| - 1. */
  lemma {:induction false} RunIsGood(d: Params, words: Words, pos: nat, n: nat)
    requires d.Valid()
    ensures var s := Run(d, words, pos, n);
            Good(d, s) && s.Age() <= n && (s.active != [] ==> s.Age() == n)
  {
    if n == 0 {
      StartIsGood(d, words, pos);
    } else {
      RunIsGood(d, words, pos, n - 1);
      StepKeepsGood(d, words, Run(d, words, pos, n - 1));
    }
  }
}
