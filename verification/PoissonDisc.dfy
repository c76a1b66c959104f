/** The program poissonDisc of frontend/src/world/gen/scatter.ts: grid, points and active list
    updated in place, proved against the plain algorithm of module Poisson. */
module PoissonDisc {
  import opened Common
  import opened Iteration
  import opened SeededRng
  import opened Poisson
  import opened PoissonGrid
  import opened PoissonLaws

  /** Column x, row y holds no point, or one that keeps its distance from `p`. */
  ghost predicate Clear(d: Params, grid: seq<int>, points: seq<Point>, p: Point, x: int, y: int)
    requires d.Valid()
  {
    0 <= At(d, x, y) < |grid| && 0 <= grid[At(d, x, y)] < |points| ==>
      Dist2(points[grid[At(d, x, y)]], p) >= d.radius * d.radius
  }

  /** Every entry is -1 or the one point of that cell, and every point is registered in its cell. */
  ghost predicate Registered(d: Params, grid: seq<int>, points: seq<Point>)
    requires d.Valid()
  {
    && |grid| == d.Capacity()
    && (forall i :: 0 <= i < |points| ==> d.Inside(points[i]))
    && (forall c :: 0 <= c < |grid| ==>
          -1 <= grid[c] < |points| && (grid[c] >= 0 ==> Index(d, points[grid[c]]) == c))
    && (forall i :: 0 <= i < |points| ==>
          0 <= Index(d, points[i]) < |grid| && grid[Index(d, points[i])] == i)
  }

  /** The window of the program: two columns and two rows around the cell of `p`. */
  ghost predicate InWindow(d: Params, p: Point, x: int, y: int)
    requires d.Valid()
  {
    && 0 <= x < d.GridWidth() && 0 <= y < d.GridHeight()
    && -2 <= x - CellX(d, p) <= 2 && -2 <= y - CellY(d, p) <= 2
  }

  /** The 5 x 5 scan accepts a candidate exactly when a scan of all points would. */
  lemma WindowSuffices(d: Params, grid: seq<int>, points: seq<Point>, p: Point)
    requires d.Valid() && Registered(d, grid, points)
    requires forall x, y :: InWindow(d, p, x, y) ==> Clear(d, grid, points, p, x, y)
    ensures Far(points, p, d.radius)
  {
    forall i | 0 <= i < |points| ensures Dist2(points[i], p) >= d.radius * d.radius {
      if Dist2(points[i], p) < d.radius * d.radius {
        TooCloseIsInWindow(d, p, points[i]);
        IndexExists(d, points[i]);
        assert InWindow(d, p, CellX(d, points[i]), CellY(d, points[i]));
      }
    }
  }

  /** A point far from all others lands in an empty cell, so `push` overwrites nothing. */
  lemma PushRegisters(d: Params, grid: seq<int>, points: seq<Point>, p: Point)
    requires d.Valid() && Registered(d, grid, points) && d.Inside(p) && Far(points, p, d.radius)
    ensures 0 <= Index(d, p) < |grid| && grid[Index(d, p)] == -1
    ensures Registered(d, grid[Index(d, p) := |points|], points + [p])
  {
    IndexExists(d, p);
    var c := Index(d, p);
    if grid[c] >= 0 {
      IndexTells(d, p, points[grid[c]]);
    }
    var after := points + [p];
    assert forall i :: 0 <= i < |after| ==> after[i] == if i < |points| then points[i] else p;
  }

  function Min(a: int, b: int): int { if a <= b then a else b }

  function Max(a: int, b: int): int { if a >= b then a else b }

  /** The locals of poissonDisc that its inner functions share. */
  class Sampler {
    const d: Params
    const rng: Rng
    const cell: real
    const gw: int
    const gh: int
    const grid: array<int>
    var points: seq<Point>
    var active: seq<nat>

    ghost predicate Valid()
      reads this, grid
    {
      && d.Valid() && cell == d.Cell() && gw == d.GridWidth() && gh == d.GridHeight()
      && Registered(d, grid[..], points)
    }

    constructor (d: Params, rng: Rng)
      requires d.Valid()
      ensures Valid() && this.d == d && this.rng == rng && fresh(grid)
      ensures points == [] && active == []
    {
      var c := d.radius / d.sqrt2;
      this.d, this.rng, cell := d, rng, c;
      gw, gh := Ceil(d.width / c), Ceil(d.height / c);
      grid := new int[Ceil(d.height / c) * Ceil(d.width / c)](_ => -1);
      points, active := [], [];
    }

    /** The clamps of the source are kept here and shown to be no-ops. */
    method GridIndex(p: Point) returns (i: int)
      requires Valid() && d.Inside(p)
      ensures i == Index(d, p) && 0 <= i < grid.Length
    {
      i := Min(gh - 1, (p.y / cell).Floor) * gw + Min(gw - 1, (p.x / cell).Floor);
      IndexExists(d, p);
    }

    method CellClear(p: Point, xx: int, yy: int) returns (clear: bool)
      requires Valid() && InWindow(d, p, xx, yy)
      ensures clear ==> Clear(d, grid[..], points, p, xx, yy)
      ensures !clear ==> !Far(points, p, d.radius)
    {
      RowMajor(gw, gh, xx, yy);
      var idx := grid[yy * gw + xx];
      assert idx == grid[..][At(d, xx, yy)];
      if idx < 0 {
        return true;
      }
      var q := points[idx];
      var dx, dy := q.x - p.x, q.y - p.y;
      clear := dx * dx + dy * dy >= d.radius * d.radius;
      assert clear <==> Dist2(points[idx], p) >= d.radius * d.radius;
    }

    method FarEnough(p: Point) returns (far: bool)
      requires Valid() && d.Inside(p)
      ensures far <==> Far(points, p, d.radius)
    {
      var gx, gy := Min(gw - 1, (p.x / cell).Floor), Min(gh - 1, (p.y / cell).Floor);
      IndexExists(d, p);
      var yy := Max(0, gy - 2);
      while yy <= Min(gh - 1, gy + 2)
        invariant Max(0, gy - 2) <= yy
        invariant forall x, y :: InWindow(d, p, x, y) && y < yy ==> Clear(d, grid[..], points, p, x, y)
        decreases gh - yy
      {
        var xx := Max(0, gx - 2);
        while xx <= Min(gw - 1, gx + 2)
          invariant Max(0, gx - 2) <= xx
          invariant forall x :: InWindow(d, p, x, yy) && x < xx ==> Clear(d, grid[..], points, p, x, yy)
          decreases gw - xx
        {
          var clear := CellClear(p, xx, yy);
          if !clear {
            return false;
          }
          xx := xx + 1;
        }
        yy := yy + 1;
      }
      WindowSuffices(d, grid[..], points, p);
      far := true;
    }

    method Push(p: Point)
      requires Valid() && d.Inside(p) && Far(points, p, d.radius)
      modifies this, grid
      ensures Valid()
      ensures points == old(points) + [p] && active == old(active) + [|old(points)|]
    {
      PushRegisters(d, grid[..], points, p);
      var i := GridIndex(p);
      grid[i] := |points|;
      active := active + [|points|];
      points := points + [p];
      assert grid[..] == old(grid[..])[i := |old(points)|];
    }

    method Draw(origin: Point) returns (cand: Point)
      modifies rng
      ensures cand == Candidate(d, rng.words, old(rng.pos), origin) && rng.pos == old(rng.pos) + 2
    {
      var angle := rng.Range(0.0, d.trig.twoPi);
      var dist := rng.Range(d.radius, d.radius * 2.0);
      cand := Polar(d.trig, origin, angle, dist);
    }

    /** The two tests on a candidate, and `push` when it passes both. */
    method Offer(cand: Point) returns (placed: bool)
      requires Valid()
      modifies this, grid
      ensures Valid()
      ensures placed <==> d.Inside(cand) && Far(old(points), cand, d.radius)
      ensures points == old(points) + (if placed then [cand] else [])
      ensures active == old(active) + (if placed then [|old(points)|] else [])
    {
      if cand.x < 0.0 || cand.x >= d.width || cand.y < 0.0 || cand.y >= d.height {
        return false;
      }
      placed := FarEnough(cand);
      if placed {
        Push(cand);
      }
    }

    /** The k attempts of one iteration around `origin`; `a` is what the plain algorithm does. */
    method Attempts(origin: Point) returns (placed: bool, ghost a: Attempt)
      requires Valid()
      modifies this, grid, rng
      ensures Valid()
      ensures a == TryPlace(d, rng.words, old(points), origin, old(rng.pos), 0)
      ensures placed == a.Placed? && rng.pos == a.pos
      ensures placed ==> points == old(points) + [a.p] && active == old(active) + [|old(points)|]
      ensures !placed ==> points == old(points) && active == old(active)
      ensures placed <==> !AllFail(d, rng.words, old(points), origin, old(rng.pos), 0)
      ensures placed ==> exists j: nat :: FirstPass(d, rng.words, old(points), origin, old(rng.pos), 0, j)
                           && a.p == Nth(d, rng.words, old(rng.pos), origin, j) && rng.pos == old(rng.pos) + 2 * (j + 1)
    {
      a := TryPlace(d, rng.words, points, origin, rng.pos, 0);
      AttemptsExactly(d, rng.words, points, origin, rng.pos);
      placed := false;
      var i := 0;
      while i < d.k
        invariant 0 <= i && Valid() && points == old(points) && active == old(active)
        invariant TryPlace(d, rng.words, points, origin, rng.pos, i) == a
      {
        var cand := Draw(origin);
        placed := Offer(cand);
        if placed {
          return;
        }
        i := i + 1;
      }
    }

    /** The first point. */
    method Begin()
      requires Valid() && points == [] && active == []
      modifies this, grid, rng
      ensures Valid()
      ensures Loop(points, active, rng.pos) == Start(d, rng.words, old(rng.pos))
    {
      RangeBounds(rng.words, rng.pos, 0.0, d.width);
      RangeBounds(rng.words, rng.pos + 1, 0.0, d.height);
      var x := rng.Range(0.0, d.width);
      var y := rng.Range(0.0, d.height);
      Push(Point(x, y));
    }

    /** Swap-remove from the active list. */
    method Drop(slot: nat)
      requires Valid() && slot < |active|
      modifies this`active
      ensures Valid() && active == old(active)[slot := old(active)[|old(active)| - 1]][..|old(active)| - 1]
    {
      active := active[slot := active[|active| - 1]];
      active := active[..|active| - 1];
    }

    /** One iteration of the main loop. */
    method Advance()
      requires Valid() && active != []
      requires forall i :: 0 <= i < |active| ==> active[i] < |points|
      modifies this, grid, rng
      ensures Valid()
      ensures forall i :: 0 <= i < |old(active)| ==> old(active)[i] < |old(points)|
      ensures Loop(points, active, rng.pos)
           == Poisson.Step(d, rng.words, Loop(old(points), old(active), old(rng.pos)))
    {
      var slot := rng.Int(|active|);
      ghost var before: State := Loop(points, active, old(rng.pos));
      var placed, a := Attempts(points[active[slot]]);
      assert a == AttemptAt(d, rng.words, before);
      if !placed {
        Drop(slot);
      }
      assert Loop(points, active, rng.pos) == Settle(before, slot, a);
    }
  }

  /** The grid program returns what the plain algorithm returns on the same words, consumes the
      same words, and runs its main loop exactly 2 * |points| - 1 times. */
  method Fill(d: Params, rng: Rng) returns (points: seq<Point>, iterations: nat)
    requires d.Valid()
    modifies rng
    ensures points == Sample(d, rng.words, old(rng.pos)).points
    ensures rng.pos == Sample(d, rng.words, old(rng.pos)).pos
    ensures iterations == 2 * |points| - 1
  {
    ghost var start := rng.pos;
    var t := new Sampler(d, rng);
    t.Begin();
    iterations := 0;
    RunWithinCapacity(d, rng.words, start, 0);
    while |t.active| > 0
      invariant t.Valid() && t.d == d && t.rng == rng && fresh(t) && fresh(t.grid)
      invariant Loop(t.points, t.active, rng.pos) == Run(d, rng.words, start, iterations)
      invariant iterations == 2 * |t.points| - |t.active| - 1
      invariant |t.points| <= d.Capacity()
      decreases d.Capacity() - |t.points|, |t.active|
    {
      t.Advance();
      iterations := iterations + 1;
      RunWithinCapacity(d, rng.words, start, iterations);
    }
    points := t.points;
    SampleReached(d, rng.words, start, iterations);
  }

  lemma RunWithinCapacity(d: Params, words: Words, pos: nat, n: nat)
    requires d.Valid()
    ensures |Run(d, words, pos, n).points| <= d.Capacity()
  {
    RunIsGood(d, words, pos, n);
    PackingBound(d, Run(d, words, pos, n));
  }

  lemma SampleReached(d: Params, words: Words, pos: nat, n: nat)
    requires d.Valid() && Run(d, words, pos, n).active == []
    requires n == Run(d, words, pos, n).Age()
    ensures Sample(d, words, pos) == Run(d, words, pos, n)
  {
    RunWithinCapacity(d, words, pos, n);
    IterateSettles(Stepper(d, words), Start(d, words, pos), n, 2 * d.Capacity());
  }

  /** What poissonDisc promises, for every stream of words: between 1 and gw * gh points, all in
      the rectangle, any two at least `radius` apart, each but the first within [radius,
      2 * radius) of an earlier one. */
  lemma SampleIsPoissonDisc(d: Params, words: Words, pos: nat)
    requires d.Valid()
    ensures var points := Sample(d, words, pos).points;
            && 1 <= |points| <= d.Capacity()
            && (forall i :: 0 <= i < |points| ==> d.Inside(points[i]))
            && Separated(points, d.radius)
            && (forall i :: 1 <= i < |points| ==> Anchored(points, i, d.radius))
  {
    Terminates(d, words, pos);
  }
}
