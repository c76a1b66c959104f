/** What the turns of poissonDisc (frontend/src/world/gen/scatter.ts) do, over the words they draw:
    which candidate is placed, how many words that takes, and when a point is given up. */
module PoissonLaws {
  import opened Common
  import opened Iteration
  import opened SeededRng
  import opened Poisson
  import opened PoissonGrid

  /** A drawn word as a fraction of 2^32. */
  function Fraction(words: Words, n: nat): real { words(n) as real / 4294967296.0 }

  /** Candidate `j` around `origin` when the attempts start at word `pos`: its angle comes from word
      pos + 2 j, its distance, between radius and 2 radius, from the word after. */
  function Nth(d: Params, words: Words, pos: nat, origin: Point, j: nat): Point {
    Around(d.trig, origin, AngleFrom(d, words, pos + 2 * j), DistanceFrom(d, words, pos + 2 * j + 1))
  }

  function AngleFrom(d: Params, words: Words, n: nat): real { d.trig.twoPi * Fraction(words, n) }

  function DistanceFrom(d: Params, words: Words, n: nat): real { d.radius + d.radius * Fraction(words, n) }

  function Around(t: Trig, origin: Point, angle: real, dist: real): Point {
    Point(origin.x + t.cos(angle) * dist, origin.y + t.sin(angle) * dist)
  }

  lemma PolarIsAround(t: Trig, origin: Point, angle: real, dist: real)
    ensures Polar(t, origin, angle, dist) == Around(t, origin, angle, dist)
  {
  }

  /** Inside the rectangle, and no point so far is nearer than `radius`. */
  predicate Passes(d: Params, points: seq<Point>, p: Point) {
    && 0.0 <= p.x < d.width && 0.0 <= p.y < d.height
    && forall i :: 0 <= i < |points| ==>
         (points[i].x - p.x) * (points[i].x - p.x) + (points[i].y - p.y) * (points[i].y - p.y) >= d.radius * d.radius
  }

  lemma RangesAre(words: Words, pos: nat, top: real)
    ensures RangeAt(words, pos, 0.0, top) == top * Fraction(words, pos)
    ensures RangeAt(words, pos, top, top * 2.0) == top + top * Fraction(words, pos)
  {
  }

  lemma DrawsAre(d: Params, words: Words, n: nat)
    ensures RangeAt(words, n, 0.0, d.trig.twoPi) == AngleFrom(d, words, n)
    ensures RangeAt(words, n, d.radius, d.radius * 2.0) == DistanceFrom(d, words, n)
  {
    RangesAre(words, n, d.trig.twoPi);
    RangesAre(words, n, d.radius);
  }

  lemma CandidateIsNth(d: Params, words: Words, pos: nat, origin: Point, j: nat)
    ensures Candidate(d, words, pos + 2 * j, origin) == Nth(d, words, pos, origin, j)
  {
    DrawsAre(d, words, pos + 2 * j);
    DrawsAre(d, words, pos + 2 * j + 1);
    PolarIsAround(d.trig, origin, AngleFrom(d, words, pos + 2 * j), DistanceFrom(d, words, pos + 2 * j + 1));
  }

  lemma AcceptedIsPassing(d: Params, points: seq<Point>, p: Point)
    ensures d.Inside(p) && Far(points, p, d.radius) <==> Passes(d, points, p)
  {
  }

  /** The attempts number i, ..., k - 1 around `origin` all fail. */
  ghost predicate AllFail(d: Params, words: Words, points: seq<Point>, origin: Point, pos: nat, i: nat) {
    forall j: nat :: i <= j < d.k ==> !Passes(d, points, Nth(d, words, pos, origin, j))
  }

  /** Attempt `j` passes, as the first from `i` on. */
  ghost predicate FirstPass(d: Params, words: Words, points: seq<Point>, origin: Point, pos: nat, i: nat, j: nat) {
    && i <= j < d.k && Passes(d, points, Nth(d, words, pos, origin, j))
    && forall m: nat :: i <= m < j ==> !Passes(d, points, Nth(d, words, pos, origin, m))
  }

  /** What is known of the attempts from number `i` on. */
  ghost predicate Tried(d: Params, words: Words, points: seq<Point>, origin: Point, pos: nat, i: nat, a: Attempt) {
    match a
    case Placed(p, after) => exists j: nat :: FirstPass(d, words, points, origin, pos, i, j)
                               && p == Nth(d, words, pos, origin, j) && after == pos + 2 * (j + 1)
    case Exhausted(after) => AllFail(d, words, points, origin, pos, i) && after == pos + 2 * (if i < d.k then d.k else i)
  }

  lemma TriedOneMore(d: Params, words: Words, points: seq<Point>, origin: Point, pos: nat, i: nat, a: Attempt)
    requires i < d.k && !Passes(d, points, Nth(d, words, pos, origin, i))
    requires Tried(d, words, points, origin, pos, i + 1, a)
    ensures Tried(d, words, points, origin, pos, i, a)
  {
    if a.Placed? {
      var j: nat :| FirstPass(d, words, points, origin, pos, i + 1, j)
                    && a.p == Nth(d, words, pos, origin, j) && a.pos == pos + 2 * (j + 1);
      assert FirstPass(d, words, points, origin, pos, i, j);
    }
  }

  lemma {:induction false} TryFrom(d: Params, words: Words, points: seq<Point>, origin: Point, pos: nat, i: nat)
    ensures Tried(d, words, points, origin, pos, i, TryPlace(d, words, points, origin, pos + 2 * i, i))
    decreases d.k - i
  {
    if i < d.k {
      var p := Nth(d, words, pos, origin, i);
      CandidateIsNth(d, words, pos, origin, i);
      AcceptedIsPassing(d, points, p);
      if Passes(d, points, p) {
        assert FirstPass(d, words, points, origin, pos, i, i);
      } else {
        TryFrom(d, words, points, origin, pos, i + 1);
        TriedOneMore(d, words, points, origin, pos, i, TryPlace(d, words, points, origin, pos + 2 * (i + 1), i + 1));
      }
    }
  }

  /** An origin is exhausted exactly when all k candidates fail, and 2 k words are drawn then;
      otherwise the first that passes is placed, and two words are drawn for it and each before it. */
  lemma AttemptsExactly(d: Params, words: Words, points: seq<Point>, origin: Point, pos: nat)
    ensures var a := TryPlace(d, words, points, origin, pos, 0);
            && (a.Exhausted? <==> AllFail(d, words, points, origin, pos, 0))
            && (a.Exhausted? ==> a.pos == pos + 2 * (if d.k > 0 then d.k else 0))
            && (a.Placed? ==> exists j: nat :: FirstPass(d, words, points, origin, pos, 0, j)
                                && a.p == Nth(d, words, pos, origin, j) && a.pos == pos + 2 * (j + 1))
  {
    TryFrom(d, words, points, origin, pos, 0);
  }

  // ------------------------------------------------------------------ turns

  /** The origin a turn takes: the entry of the active list at the drawn word modulo its length. */
  function Slot(words: Words, s: State): nat
    requires s.active != []
  {
    words(s.pos) % |s.active|
  }

  function Origin(words: Words, s: State): nat
    requires s.active != []
  {
    s.active[Slot(words, s)]
  }

  /** All candidates of a turn fail: its origin is given up. */
  ghost predicate GivesUp(d: Params, words: Words, s: State) {
    s.active != [] && AllFail(d, words, s.points, s.points[Origin(words, s)], s.pos + 1, 0)
  }

  /** Candidate `j` is the first that passes, and is placed. */
  ghost predicate Places(d: Params, words: Words, s: State, r: State, j: nat) {
    && s.active != []
    && var origin := s.points[Origin(words, s)];
    && FirstPass(d, words, s.points, origin, s.pos + 1, 0, j)
    && r.points == s.points + [Nth(d, words, s.pos + 1, origin, j)] && r.active == s.active + [|s.points|]
    && r.pos == s.pos + 1 + 2 * (j + 1)
  }

  /** One turn of the main loop. */
  lemma TurnExactly(d: Params, words: Words, s: State)
    requires s.active != []
    ensures var r, last := Poisson.Step(d, words, s), |s.active| - 1;
            if GivesUp(d, words, s) then
              && r.points == s.points && r.active == s.active[Slot(words, s) := s.active[last]][..last]
              && r.pos == s.pos + 1 + 2 * (if d.k > 0 then d.k else 0)
            else exists j: nat :: Places(d, words, s, r, j)
  {
    var origin := s.points[Origin(words, s)];
    AttemptsExactly(d, words, s.points, origin, s.pos + 1);
    var a := TryPlace(d, words, s.points, origin, s.pos + 1, 0);
    assert a == AttemptAt(d, words, s);
    if a.Placed? {
      var j: nat :| FirstPass(d, words, s.points, origin, s.pos + 1, 0, j)
                    && a.p == Nth(d, words, s.pos + 1, origin, j) && a.pos == s.pos + 1 + 2 * (j + 1);
      assert Places(d, words, s, Poisson.Step(d, words, s), j);
    }
  }

  /** Point `i` is active, or the turn after `m` others gave it up. */
  ghost predicate GivenUpAt(d: Params, words: Words, pos: nat, i: nat, m: nat) {
    var s := Run(d, words, pos, m);
    && GivesUp(d, words, s) && Origin(words, s) == i
    && i !in Run(d, words, pos, m + 1).active
  }

  ghost predicate Settled(d: Params, words: Words, pos: nat, n: nat) {
    var s := Run(d, words, pos, n);
    && Distinct(s.active)
    && forall i: nat :: i < |s.points| && i !in s.active ==> exists m: nat :: m < n && GivenUpAt(d, words, pos, i, m)
  }

  lemma SwapRemove(active: seq<nat>, slot: nat)
    requires slot < |active| && Distinct(active)
    ensures var last := |active| - 1;
            var r := active[slot := active[last]][..last];
            Distinct(r) && forall i :: i in r <==> i in active && i != active[slot]
  {
    var last := |active| - 1;
    var r := active[slot := active[last]][..last];
    forall i | i in active && i != active[slot] ensures i in r {
      var j :| 0 <= j < |active| && active[j] == i;
      assert j == last ==> r[slot] == i;
      assert j < last ==> r[j] == i;
    }
  }

  /** What a turn does to the active list. */
  lemma TurnActive(d: Params, words: Words, s: State)
    requires Distinct(s.active)
    ensures var r := Poisson.Step(d, words, s);
            && Distinct(r.active) && |s.points| <= |r.points|
            && (forall i: nat :: i < |s.points| && i in s.active ==> i in r.active || (GivesUp(d, words, s) && i == Origin(words, s)))
            && (forall i: nat :: |s.points| <= i < |r.points| ==> i in r.active)
            && (GivesUp(d, words, s) ==> Origin(words, s) !in r.active)
  {
    if s.active != [] {
      TurnExactly(d, words, s);
      if GivesUp(d, words, s) {
        SwapRemove(s.active, Slot(words, s));
      } else {
        var j: nat :| Places(d, words, s, Poisson.Step(d, words, s), j);
      }
    }
  }

  lemma TurnSettles(d: Params, words: Words, pos: nat, n: nat)
    requires Settled(d, words, pos, n)
    ensures Settled(d, words, pos, n + 1)
  {
    var s, r := Run(d, words, pos, n), Run(d, words, pos, n + 1);
    assert r == Poisson.Step(d, words, s);
    TurnActive(d, words, s);
    forall i: nat | i < |r.points| && i !in r.active ensures exists m: nat :: m < n + 1 && GivenUpAt(d, words, pos, i, m) {
      if i in s.active {
        assert GivenUpAt(d, words, pos, i, n);
      } else {
        var m: nat :| m < n && GivenUpAt(d, words, pos, i, m);
      }
    }
  }

  lemma {:induction false} RunSettles(d: Params, words: Words, pos: nat, n: nat)
    ensures Settled(d, words, pos, n)
  {
    if n > 0 {
      RunSettles(d, words, pos, n - 1);
      TurnSettles(d, words, pos, n - 1);
    }
  }

  /** Every returned point was given up, at a turn of its own, after k candidates around it had all
      been outside or too close. */
  lemma EveryPointGivenUp(d: Params, words: Words, pos: nat, i: nat)
    requires d.Valid() && i < |Sample(d, words, pos).points|
    ensures exists m: nat :: m < 2 * |Sample(d, words, pos).points| - 1 && GivenUpAt(d, words, pos, i, m)
  {
    Terminates(d, words, pos);
    RunSettles(d, words, pos, 2 * |Sample(d, words, pos).points| - 1);
    SettledAtEnd(d, words, pos, Sample(d, words, pos), 2 * |Sample(d, words, pos).points| - 1, i);
  }

  lemma SettledAtEnd(d: Params, words: Words, pos: nat, s: State, n: nat, i: nat)
    requires Settled(d, words, pos, n) && Run(d, words, pos, n) == s && s.active == [] && i < |s.points|
    ensures exists m: nat :: m < n && GivenUpAt(d, words, pos, i, m)
  {
    assert i !in Run(d, words, pos, n).active && i < |Run(d, words, pos, n).points|;
  }

  /** The first point is drawn from the first two words. */
  lemma FirstPoint(d: Params, words: Words, pos: nat)
    requires d.Valid()
    ensures var points := Sample(d, words, pos).points;
            points != [] && points[0] == Point(d.width * Fraction(words, pos), d.height * Fraction(words, pos + 1))
  {
    FirstStays(d, words, pos, 2 * d.Capacity());
    RangesAre(words, pos, d.width);
    RangesAre(words, pos + 1, d.height);
  }

  lemma {:induction false} FirstStays(d: Params, words: Words, pos: nat, n: nat)
    ensures var s := Run(d, words, pos, n); s.points != [] && s.points[0] == Start(d, words, pos).points[0]
  {
    if n > 0 {
      FirstStays(d, words, pos, n - 1);
    }
  }
}
