/** The background grid of poissonDisc: cells so small that two points of one cell would be too
    close, and a window so wide that a point outside it cannot be too close. */
module PoissonGrid {
  import opened Common
  import opened Iteration
  import opened SeededRng
  import opened Poisson

  // ------------------------------------------------------------- geometry

  function CellX(d: Params, p: Point): int
    requires d.Valid()
  {
    (p.x / d.Cell()).Floor
  }

  function CellY(d: Params, p: Point): int
    requires d.Valid()
  {
    (p.y / d.Cell()).Floor
  }

  /** A coordinate inside the rectangle falls in an existing column, so the clamps of the
      program never change an index. */
  lemma ColumnExists(v: real, size: real, c: real)
    requires c > 0.0 && 0.0 <= v < size
    ensures 0 <= (v / c).Floor < Ceil(size / c)
  {
  }

  lemma ColumnGap(v: real, w: real, gap: real, c: real)
    requires c > 0.0
    ensures v - w < gap * c <==> v / c - w / c < gap
  {
  }

  /** Coordinates less than two cells apart are at most two columns apart; coordinates of one
      column are less than a cell apart. */
  lemma ColumnsNear(v: real, w: real, c: real)
    requires c > 0.0
    ensures -(2.0 * c) < v - w < 2.0 * c ==> -2 <= (v / c).Floor - (w / c).Floor <= 2
    ensures (v / c).Floor == (w / c).Floor ==> -c < v - w < c
  {
    ColumnGap(v, w, 2.0, c);
    ColumnGap(w, v, 2.0, c);
    ColumnGap(v, w, 1.0, c);
    ColumnGap(w, v, 1.0, c);
  }

  lemma SquareBelow(u: real, r: real)
    requires r > 0.0
    ensures -r < u < r <==> u * u < r * r
  {
  }

  /** Too close means: at most two columns and two rows apart. */
  lemma TooCloseIsInWindow(d: Params, p: Point, q: Point)
    requires d.Valid() && Dist2(q, p) < d.radius * d.radius
    ensures -2 <= CellX(d, q) - CellX(d, p) <= 2
    ensures -2 <= CellY(d, q) - CellY(d, p) <= 2
  {
    var c, r := d.Cell(), d.radius;
    var dx, dy := q.x - p.x, q.y - p.y;
    assert dx * dx >= 0.0 && dy * dy >= 0.0;
    SquareBelow(dx, r);
    SquareBelow(dy, r);
    SquareBelow(r, 2.0 * c);
    assert (2.0 * c) * (2.0 * c) == 2.0 * (r * r);
    ProductPositive(r, r);
    ColumnsNear(q.x, p.x, c);
    ColumnsNear(q.y, p.y, c);
  }

  /** Two points of one cell are too close. */
  lemma SameCellIsTooClose(d: Params, p: Point, q: Point)
    requires d.Valid() && CellX(d, p) == CellX(d, q) && CellY(d, p) == CellY(d, q)
    ensures Dist2(q, p) < d.radius * d.radius
  {
    var c := d.Cell();
    ColumnsNear(q.x, p.x, c);
    ColumnsNear(q.y, p.y, c);
    SquareBelow(q.x - p.x, c);
    SquareBelow(q.y - p.y, c);
  }

  /** The place of column `x`, row `y` in the grid array. */
  function At(d: Params, x: int, y: int): int
    requires d.Valid()
  {
    y * d.GridWidth() + x
  }

  function Index(d: Params, p: Point): int
    requires d.Valid()
  {
    At(d, CellX(d, p), CellY(d, p))
  }

  lemma RowMajor(w: int, h: int, x: int, y: int)
    requires 0 <= x < w && 0 <= y < h
    ensures 0 <= y * w + x < h * w
  {
    assert y * w <= (h - 1) * w;
  }

  lemma AtLeastOneRow(k: int, w: int)
    requires k >= 1 && w > 0
    ensures k * w >= w
  {
  }

  lemma RowMajorDistinct(w: int, x: int, y: int, x': int, y': int)
    requires 0 <= x < w && 0 <= x' < w && y * w + x == y' * w + x'
    ensures x == x' && y == y'
  {
    if y > y' {
      assert (y - y') * w == y * w - y' * w;
      AtLeastOneRow(y - y', w);
    } else if y < y' {
      assert (y' - y) * w == y' * w - y * w;
      AtLeastOneRow(y' - y, w);
    }
  }

  lemma IndexExists(d: Params, p: Point)
    requires d.Valid() && d.Inside(p)
    ensures 0 <= CellX(d, p) < d.GridWidth() && 0 <= CellY(d, p) < d.GridHeight()
    ensures 0 <= Index(d, p) < d.Capacity()
  {
    ColumnExists(p.x, d.width, d.Cell());
    ColumnExists(p.y, d.height, d.Cell());
    RowMajor(d.GridWidth(), d.GridHeight(), CellX(d, p), CellY(d, p));
  }

  lemma IndexTells(d: Params, p: Point, q: Point)
    requires d.Valid() && d.Inside(p) && d.Inside(q) && Index(d, p) == Index(d, q)
    ensures CellX(d, p) == CellX(d, q) && CellY(d, p) == CellY(d, q)
    ensures Dist2(q, p) < d.radius * d.radius
  {
    IndexExists(d, p);
    IndexExists(d, q);
    RowMajorDistinct(d.GridWidth(), CellX(d, p), CellY(d, p), CellX(d, q), CellY(d, q));
    SameCellIsTooClose(d, p, q);
  }

  // -------------------------------------------------------------- capacity

  /** The numbers 0, ..., n - 1. */
  ghost function Upto(n: nat): (r: set<int>)
    ensures |r| == n && forall i :: i in r <==> 0 <= i < n
  {
    if n == 0 then {} else Upto(n - 1) + {n - 1}
  }

  lemma SubsetSize<T>(a: set<T>, b: set<T>)
    requires a <= b
    ensures |a| <= |b|
  {
    assert b == a + (b - a);
  }

  lemma {:induction false} DistinctSize(s: seq<int>)
    requires forall i, j :: 0 <= i < j < |s| ==> s[i] != s[j]
    ensures |set i | 0 <= i < |s| :: s[i]| == |s|
  {
    if s != [] {
      var last := |s| - 1;
      DistinctSize(s[..last]);
      var front := set i | 0 <= i < |s[..last]| :: s[..last][i];
      assert (set i | 0 <= i < |s| :: s[i]) == front + {s[last]};
    }
  }

  /** Separated points fall into different cells, so there are at most as many as cells. */
  lemma PackingBound(d: Params, s: State)
    requires d.Valid() && Good(d, s)
    ensures |s.points| <= d.Capacity()
  {
    var cells := seq(|s.points|, i requires 0 <= i < |s.points| => Index(d, s.points[i]));
    forall i, j | 0 <= i < j < |cells| ensures cells[i] != cells[j] {
      if cells[i] == cells[j] {
        IndexTells(d, s.points[j], s.points[i]);
      }
    }
    forall i | 0 <= i < |cells| ensures 0 <= cells[i] < d.Capacity() {
      IndexExists(d, s.points[i]);
    }
    DistinctSize(cells);
    SubsetSize(set i | 0 <= i < |cells| :: cells[i], Upto(d.Capacity()));
  }

  // ----------------------------------------------------- the plain result

  /** What the plain algorithm ends with; `Terminates` shows the bound is large enough. */
  function Sample(d: Params, words: Words, pos: nat): State
    requires d.Valid()
  {
    Run(d, words, pos, 2 * d.Capacity())
  }

  /** The first state without active points is reached at iteration 2 * |points| - 1 exactly. */
  lemma StopsExactly(d: Params, words: Words, pos: nat, n: nat)
    requires d.Valid() && Run(d, words, pos, n).active == []
    ensures var s := Run(d, words, pos, n);
            && 1 <= s.Age() <= n && Run(d, words, pos, s.Age()) == s
            && forall m: nat | m < s.Age() :: Run(d, words, pos, m).active != []
  {
    var step, start := Stepper(d, words), Start(d, words, pos);
    var s := Run(d, words, pos, n);
    RunIsGood(d, words, pos, n);
    forall m: nat | m < s.Age() ensures Run(d, words, pos, m).active != [] {
      RunIsGood(d, words, pos, m);
      if Run(d, words, pos, m).active == [] {
        IterateSettles(step, start, m, n);
      }
    }
    RunIsGood(d, words, pos, s.Age());
    if Run(d, words, pos, s.Age()).active != [] {
      IterateGrows(step, (t: State) => |t.points|, start, s.Age(), n);
    } else {
      IterateSettles(step, start, s.Age(), n);
    }
  }

  /** The plain algorithm stops for every stream of words, after 2 * |points| - 1 iterations. */
  lemma Terminates(d: Params, words: Words, pos: nat)
    requires d.Valid()
    ensures var s := Sample(d, words, pos);
            && s.active == [] && Good(d, s) && |s.points| <= d.Capacity()
            && Run(d, words, pos, 2 * |s.points| - 1) == s
            && forall m: nat | m < 2 * |s.points| - 1 :: Run(d, words, pos, m).active != []
  {
    var s := Sample(d, words, pos);
    RunIsGood(d, words, pos, 2 * d.Capacity());
    PackingBound(d, s);
    StopsExactly(d, words, pos, 2 * d.Capacity());
  }
}
