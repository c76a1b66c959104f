/** CurrentValue of internal/engine/scoring.go: the points a challenge is worth after a number of
    solves. float64 is modelled by exact reals. */
module Pricing {

  /** The scoring fields of a Challenge (internal/k8s/client.go). */
  datatype Scoring = Scoring(value: int, initial: int, decay: int, minimum: int, function_: string)

  /** math.Log2 on the positive integers: the only monotone function with these laws. */
  ghost predicate IsLog2(log2: nat -> real) {
    && log2(2) == 1.0
    && (forall a: nat, b: nat :: a > 0 && b > 0 ==> log2(a * b) == log2(a) + log2(b))
    && (forall a: nat, b: nat :: 0 < a <= b ==> log2(a) <= log2(b))
  }

  /** math.Round: halves go away from zero. */
  function Round(v: real): int {
    if v >= 0.0 then (v + 0.5).Floor else -((0.5 - v).Floor)
  }

  /** The value before any solve. */
  function Start(ch: Scoring): nat {
    if ch.initial > 0 then ch.initial else if ch.value > 0 then ch.value else 0
  }

  /** The value decay stops at. */
  function Least(ch: Scoring): int {
    if ch.minimum <= 0 then 1 else ch.minimum
  }

  /** What decay `d` takes off after `steps`. */
  function Loss(d: int, steps: real): real { d as real * steps }

  function Decayed(ch: Scoring, solves: nat, log2: nat -> real): real {
    if ch.function_ == "logarithmic"
    then Start(ch) as real - Loss(ch.decay, log2(solves + 1))
    else Start(ch) as real - Loss(ch.decay, solves as real)
  }

  function CurrentValue(ch: Scoring, solves: int, log2: nat -> real): int {
    if Start(ch) == 0 then 0
    else if ch.decay <= 0 || solves <= 0 then Start(ch)
    else
      var value := Decayed(ch, solves, log2);
      if value < Least(ch) as real then Least(ch) else Round(value)
  }

  // ------------------------------------------------------------ log2

  lemma {:induction false} Log2Bounds(log2: nat -> real, n: nat)
    requires IsLog2(log2)
    ensures log2(1) == 0.0
    ensures 0.0 <= log2(n + 1) <= n as real
  {
    assert log2(1 * 1) == log2(1) + log2(1);
    if n > 0 {
      Log2Bounds(log2, n - 1);
      assert log2(2 * n) == log2(2) + log2(n);
      assert log2(n + 1) <= log2(2 * n);
    }
  }

  lemma LossOrdered(k: int, a: real, b: real)
    requires k >= 0 && a <= b
    ensures Loss(k, a) <= Loss(k, b)
  {
  }

  lemma RoundOrdered(a: real, b: real)
    requires a <= b
    ensures Round(a) <= Round(b)
  {
  }

  lemma RoundExact(n: int)
    ensures Round(n as real) == n
  {
  }

  lemma DecayedOrdered(ch: Scoring, m: nat, n: nat, log2: nat -> real)
    requires IsLog2(log2) && ch.decay >= 0 && m <= n
    ensures Decayed(ch, n, log2) <= Decayed(ch, m, log2) <= Start(ch) as real
  {
    Log2Bounds(log2, m);
    LossOrdered(ch.decay, log2(m + 1), log2(n + 1));
    LossOrdered(ch.decay, 0.0, log2(m + 1));
    LossOrdered(ch.decay, m as real, n as real);
    LossOrdered(ch.decay, 0.0, m as real);
  }

  // ----------------------------------------------------------- the price

  /** A challenge whose floor does not exceed its start, or that has no decay at all. */
  predicate Sane(ch: Scoring) {
    Start(ch) == 0 || ch.decay <= 0 || Least(ch) <= Start(ch)
  }

  lemma PriceRange(ch: Scoring, n: int, log2: nat -> real)
    requires IsLog2(log2) && Sane(ch)
    ensures 0 <= CurrentValue(ch, n, log2) <= Start(ch)
    ensures ch.minimum <= Start(ch) ==> ch.minimum <= CurrentValue(ch, n, log2)
  {
  }

  lemma PriceDrops(ch: Scoring, m: int, n: int, log2: nat -> real)
    requires IsLog2(log2) && Sane(ch) && m <= n
    ensures CurrentValue(ch, n, log2) <= CurrentValue(ch, m, log2)
  {
    if Start(ch) > 0 && ch.decay > 0 && n > 0 {
      if m <= 0 {
        PriceRange(ch, n, log2);
      } else {
        DecayedOrdered(ch, m, n, log2);
        RoundExact(Least(ch));
        RoundOrdered(Decayed(ch, n, log2), Decayed(ch, m, log2));
        if Decayed(ch, m, log2) >= Least(ch) as real {
          RoundOrdered(Least(ch) as real, Decayed(ch, m, log2));
        }
      }
    }
  }

  /** "Decay" lowers the value exactly for the challenges that `Sane` describes: with a Minimum
      above the initial value the first solve RAISES it. */
  lemma DecayNeverRaises(ch: Scoring, log2: nat -> real)
    requires IsLog2(log2)
    ensures (forall m: int, n: int :: m <= n ==> CurrentValue(ch, n, log2) <= CurrentValue(ch, m, log2)) <==> Sane(ch)
  {
    if Sane(ch) {
      forall m: int, n: int | m <= n ensures CurrentValue(ch, n, log2) <= CurrentValue(ch, m, log2) {
        PriceDrops(ch, m, n, log2);
      }
    } else {
      DecayedOrdered(ch, 0, 1, log2);
      assert CurrentValue(ch, 1, log2) == Least(ch) > Start(ch) == CurrentValue(ch, 0, log2);
    }
  }

  /** At equal parameters logarithmic decay is never below linear decay. */
  lemma LogarithmicAboveLinear(ch: Scoring, n: int, log2: nat -> real)
    requires IsLog2(log2)
    ensures CurrentValue(ch.(function_ := "linear"), n, log2) <= CurrentValue(ch.(function_ := "logarithmic"), n, log2)
  {
    var a, b := ch.(function_ := "linear"), ch.(function_ := "logarithmic");
    if Start(ch) > 0 && ch.decay > 0 && n > 0 {
      Log2Bounds(log2, n);
      LossOrdered(ch.decay, log2(n + 1), n as real);
      var lin, log := Decayed(a, n, log2), Decayed(b, n, log2);
      assert lin == Start(ch) as real - Loss(ch.decay, n as real);
      assert log == Start(ch) as real - Loss(ch.decay, log2(n + 1));
      RoundOrdered(lin, log);
      if log >= Least(ch) as real {
        RoundOrdered(Least(ch) as real, log);
        RoundExact(Least(ch));
      }
    }
  }

  /** Linear decay is strict until the floor: two counts give one price only if they are equal or
      the floor had been reached at the first. */
  lemma LinearPriceTells(ch: Scoring, m: nat, n: nat, log2: nat -> real)
    requires IsLog2(log2) && Sane(ch) && Start(ch) > 0 && ch.decay > 0 && ch.function_ != "logarithmic" && m <= n
    ensures CurrentValue(ch, m, log2) == CurrentValue(ch, n, log2)
            <==> m == n || CurrentValue(ch, m, log2) == Least(ch)
  {
    StaleLinearPrice(ch, m, n, log2);
    LinearValue(ch, m, log2);
  }

  lemma MoreDecay(d: int, m: int, n: int)
    requires d > 0 && m < n
    ensures d * m < d * n
  {
  }

  /** The challenges that have one price: worth nothing, without decay, or with the floor at the
      start. */
  predicate FixedPrice(ch: Scoring) {
    Start(ch) == 0 || ch.decay <= 0 || Least(ch) == Start(ch)
  }

  /** One price for all solve counts is the same as one price for the first two. */
  lemma FixedPriceTells(ch: Scoring, n: int, log2: nat -> real)
    requires IsLog2(log2)
    ensures FixedPrice(ch) ==> CurrentValue(ch, n, log2) == Start(ch)
    ensures FixedPrice(ch) <==> CurrentValue(ch, 1, log2) == CurrentValue(ch, 0, log2)
  {
    if Start(ch) > 0 && ch.decay > 0 {
      assert Decayed(ch, 1, log2) == (Start(ch) - ch.decay) as real;
      RoundExact(Start(ch) - ch.decay);
      RoundExact(Start(ch));
      if n > 0 {
        DecayedOrdered(ch, 0, n, log2);
      }
    }
  }

  /** Linear decay, whatever the floor: the price at a count read too early is the price at the
      present count exactly when the count is the present one, the price is fixed, or the floor
      had been reached at the count read. */
  lemma StaleLinearPrice(ch: Scoring, m: nat, n: nat, log2: nat -> real)
    requires ch.function_ != "logarithmic" && m <= n
    ensures CurrentValue(ch, m, log2) == CurrentValue(ch, n, log2) <==>
            m == n || FixedPrice(ch) || (m >= 1 && ch.decay * m >= Start(ch) - Least(ch))
  {
    if Start(ch) > 0 && ch.decay > 0 {
      LinearValue(ch, m, log2);
      LinearValue(ch, n, log2);
      if m < n {
        MoreDecay(ch.decay, m, n);
      }
    }
  }

  lemma LinearValue(ch: Scoring, n: nat, log2: nat -> real)
    requires Start(ch) > 0 && ch.decay > 0 && ch.function_ != "logarithmic"
    ensures CurrentValue(ch, n, log2) ==
            var v := Start(ch) - ch.decay * n; if n > 0 && v < Least(ch) then Least(ch) else v
  {
    assert ch.decay as real * n as real == (ch.decay * n) as real;
    RoundExact(Start(ch) - ch.decay * n);
  }

  // -------------------------------------------------- the price, in numbers

  /** The price after `n` solves, from the fields of the challenge: the initial value (Value, if
      Initial is not set) until the first solve and without decay; then the initial value less the
      decay times n, or times log2(n + 1), to the nearest integer, ties going up, but never below
      Minimum (1, if it is not set). */
  lemma PriceExactly(ch: Scoring, n: int, log2: nat -> real)
    ensures var price := CurrentValue(ch, n, log2);
            var initial := if ch.initial > 0 then ch.initial else ch.value;
            var minimum := if ch.minimum > 0 then ch.minimum else 1;
            if initial <= 0 then price == 0
            else if ch.decay <= 0 || n <= 0 then price == initial
            else
              var steps := if ch.function_ == "logarithmic" then log2(n + 1) else n as real;
              var value := initial as real - ch.decay as real * steps;
              if value < minimum as real then price == minimum
              else price as real - 0.5 <= value < price as real + 0.5
  {
    if Start(ch) > 0 && ch.decay > 0 && n > 0 {
      var steps := if ch.function_ == "logarithmic" then log2(n + 1) else n as real;
      LossIs(ch.decay, steps);
      PriceAfter(ch, n, log2, steps);
    }
  }

  lemma PriceAfter(ch: Scoring, n: nat, log2: nat -> real, steps: real)
    requires Start(ch) > 0 && ch.decay > 0 && n > 0
    requires steps == if ch.function_ == "logarithmic" then log2(n + 1) else n as real
    ensures var price, value := CurrentValue(ch, n, log2), Start(ch) as real - Loss(ch.decay, steps);
            if value < Least(ch) as real then price == Least(ch)
            else price as real - 0.5 <= value < price as real + 0.5
  {
    var value := Start(ch) as real - Loss(ch.decay, steps);
    assert Decayed(ch, n, log2) == value;
    RoundNearest(value, Least(ch));
  }

  lemma LossIs(d: int, steps: real)
    ensures Loss(d, steps) == d as real * steps
  {
  }

  lemma RoundNearest(v: real, least: int)
    requires least > 0
    ensures v >= least as real ==> Round(v) as real - 0.5 <= v < Round(v) as real + 0.5
  {
  }

  function Pow2(j: nat): (p: nat)
    ensures p >= 1
  {
    if j == 0 then 1 else 2 * Pow2(j - 1)
  }

  lemma {:induction false} Log2OfPow2(log2: nat -> real, j: nat)
    requires IsLog2(log2)
    ensures log2(Pow2(j)) == j as real
  {
    if j == 0 {
      Log2Bounds(log2, 0);
    } else {
      Log2OfPow2(log2, j - 1);
      assert log2(2 * Pow2(j - 1)) == log2(2) + log2(Pow2(j - 1));
    }
  }

  lemma {:induction false} Pow2Grows(i: nat, j: nat)
    requires i <= j
    ensures Pow2(i) <= Pow2(j)
  {
    if i < j {
      Pow2Grows(i, j - 1);
    }
  }

  /** Logarithmic decay takes the full amount off at each doubling: after 2^j - 1 solves the price
      has dropped j times, down to the floor. */
  lemma DoublingPrice(ch: Scoring, j: nat, log2: nat -> real)
    requires IsLog2(log2) && ch.function_ == "logarithmic" && ch.initial > 0 && ch.decay > 0 && j >= 1
    ensures CurrentValue(ch, Pow2(j) - 1, log2) ==
            var minimum := if ch.minimum > 0 then ch.minimum else 1;
            if ch.initial - ch.decay * j < minimum then minimum else ch.initial - ch.decay * j
  {
    Pow2Grows(1, j);
    Log2OfPow2(log2, j);
    PriceAtDoubling(ch, Pow2(j) - 1, j, log2);
  }

  lemma PriceAtDoubling(ch: Scoring, n: nat, j: nat, log2: nat -> real)
    requires n >= 1 && log2(n + 1) == j as real
    requires ch.function_ == "logarithmic" && ch.initial > 0 && ch.decay > 0
    ensures CurrentValue(ch, n, log2) ==
            var minimum := if ch.minimum > 0 then ch.minimum else 1;
            if ch.initial - ch.decay * j < minimum then minimum else ch.initial - ch.decay * j
  {
    WholeLoss(ch.decay, j);
    RoundExact(ch.initial - ch.decay * j);
    assert Decayed(ch, n, log2) == (ch.initial - ch.decay * j) as real;
  }

  lemma WholeLoss(d: int, j: nat)
    ensures Loss(d, j as real) == (d * j) as real
  {
    assert d as real * j as real == (d * j) as real;
  }

  /** So it drops at every doubling until the floor. */
  lemma DoublingDrops(ch: Scoring, i: nat, j: nat, log2: nat -> real)
    requires IsLog2(log2) && ch.function_ == "logarithmic" && ch.initial > 0 && ch.decay > 0 && 1 <= i < j
    ensures CurrentValue(ch, Pow2(j) - 1, log2) < CurrentValue(ch, Pow2(i) - 1, log2)
            <==> CurrentValue(ch, Pow2(i) - 1, log2) > Least(ch)
  {
    DoublingPrice(ch, i, log2);
    DoublingPrice(ch, j, log2);
    MoreDecay(ch.decay, i, j);
  }
}
