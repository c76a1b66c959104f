/** The seeded generator behind every random decision of the world
    (frontend/src/world/gen/rng.ts): FNV-1a over the code units of the seed, splitmix64 to
    expand it, xoshiro128** to draw 32-bit words.

    Everything downstream draws through class `Rng`, which reads an ARBITRARY stream of words;
    results proved about it hold for every stream, the xoshiro one included.

    Loops over machine words are stated with `Fold` and `Iterate` over a first-class round
    function, so that each proof reasons either about one round or about the loop, never both. */
module SeededRng {
  import opened Iteration

  /** A string as JavaScript sees it: UTF-16 code units. */
  type Text = seq<bv16>

  type Word = w: int | 0 <= w < 0x1_0000_0000

  /** `words(i)` is the i-th 32-bit word a generator produces. */
  type Words = nat -> Word

  // ------------------------------------------------------- word operations
  //
  // Each operation comes with the operation that undoes it. The lemmas state the round trips on
  // function terms only; the bit-level fact is proved on its own in the lemma before.

  function Xor32(a: bv32, b: bv32): bv32 { a ^ b }

  function Xor64(a: bv64, b: bv64): bv64 { a ^ b }

  lemma XorTwice32(a: bv32, b: bv32)
    ensures Xor32(Xor32(a, b), b) == a && Xor32(a, Xor32(a, b)) == b
  {
  }

  lemma XorTwice64(a: bv64, b: bv64)
    ensures Xor64(Xor64(a, b), b) == a && Xor64(a, Xor64(a, b)) == b
  {
  }

  function XorShift30(z: bv64): bv64 { z ^ (z >> 30) }

  function UnXorShift30(z: bv64): bv64 { z ^ (z >> 30) ^ (z >> 60) }

  function XorShift27(z: bv64): bv64 { z ^ (z >> 27) }

  function UnXorShift27(z: bv64): bv64 { z ^ (z >> 27) ^ (z >> 54) }

  function XorShift31(z: bv64): bv64 { z ^ (z >> 31) }

  function UnXorShift31(z: bv64): bv64 { z ^ (z >> 31) ^ (z >> 62) }

  lemma XorShiftBits(z: bv64)
    ensures UnXorShift30(z ^ (z >> 30)) == z
    ensures UnXorShift27(z ^ (z >> 27)) == z
    ensures UnXorShift31(z ^ (z >> 31)) == z
  {
  }

  lemma XorShiftUndone(z: bv64)
    ensures UnXorShift30(XorShift30(z)) == z
    ensures UnXorShift27(XorShift27(z)) == z
    ensures UnXorShift31(XorShift31(z)) == z
  {
    XorShiftBits(z);
  }

  function TimesA(z: bv64): bv64 { z * 0xbf58476d1ce4e5b9 }

  function UnTimesA(z: bv64): bv64 { z * 0x96de1b173f119089 }

  function TimesB(z: bv64): bv64 { z * 0x94d049bb133111eb }

  function UnTimesB(z: bv64): bv64 { z * 0x319642b2d24d8ec3 }

  function TimesFnv32(z: bv32): bv32 { z * 0x01000193 }

  function UnTimesFnv32(z: bv32): bv32 { z * 0x359c449b }

  function TimesFnv64(z: bv64): bv64 { z * 0x100000001b3 }

  function UnTimesFnv64(z: bv64): bv64 { z * 0xce965057aff6957b }

  lemma TimesBits(z: bv64, w: bv32)
    ensures UnTimesA(z * 0xbf58476d1ce4e5b9) == z
    ensures UnTimesB(z * 0x94d049bb133111eb) == z
    ensures UnTimesFnv64(z * 0x100000001b3) == z
    ensures UnTimesFnv32(w * 0x01000193) == w
  {
  }

  /** Odd multipliers have an inverse modulo a power of two. */
  lemma TimesUndone(z: bv64, w: bv32)
    ensures UnTimesA(TimesA(z)) == z
    ensures UnTimesB(TimesB(z)) == z
    ensures UnTimesFnv64(TimesFnv64(z)) == z
    ensures UnTimesFnv32(TimesFnv32(w)) == w
  {
    TimesBits(z, w);
  }

  lemma WideningKeepsApart(a: bv16, b: bv16)
    requires a != b
    ensures a as bv32 != b as bv32 && a as bv64 != b as bv64
  {
  }

  // ---------------------------------------------------------------- FNV-1a

  function Fnv32Round(h: bv32, u: bv16): bv32 {
    TimesFnv32(Xor32(h, u as bv32))
  }

  function Fnv64Round(h: bv64, u: bv16): bv64 {
    TimesFnv64(Xor64(h, u as bv64))
  }

  function Fnv32(s: Text): bv32 { Fold(Fnv32Round, 0x811c9dc5, s) }

  function Fnv64(s: Text): bv64 { Fold(Fnv64Round, 0xcbf29ce484222325, s) }

  /** The loop shared by fnv1a and fnv1a64. */
  method HashText<H>(round: (H, bv16) -> H, offset: H, s: Text) returns (h: H)
    ensures h == Fold(round, offset, s)
  {
    h := offset;
    for i := 0 to |s|
      invariant Fold(round, h, s[i..]) == Fold(round, offset, s)
    {
      assert s[i..][1..] == s[i + 1..];
      h := round(h, s[i]);
    }
  }

  lemma RoundsUndone(h: bv32, k: bv64, u: bv16)
    ensures Xor32(UnTimesFnv32(Fnv32Round(h, u)), u as bv32) == h
    ensures Xor32(h, UnTimesFnv32(Fnv32Round(h, u))) == u as bv32
    ensures Xor64(UnTimesFnv64(Fnv64Round(k, u)), u as bv64) == k
    ensures Xor64(k, UnTimesFnv64(Fnv64Round(k, u))) == u as bv64
  {
    TimesUndone(Xor64(k, u as bv64), Xor32(h, u as bv32));
    XorTwice32(h, u as bv32);
    XorTwice64(k, u as bv64);
  }

  /** One FNV-1a round is a bijection of the accumulator: its multiplier is odd. */
  lemma FnvLossless()
    ensures Lossless(Fnv32Round)
    ensures Lossless(Fnv64Round)
  {
    forall h, k, u | Fnv32Round(h, u) == Fnv32Round(k, u) ensures h == k {
      RoundsUndone(h, 0, u);
      RoundsUndone(k, 0, u);
    }
    forall h, u, v | Fnv32Round(h, u) == Fnv32Round(h, v) ensures u == v {
      RoundsUndone(h, 0, u);
      RoundsUndone(h, 0, v);
      if u != v { WideningKeepsApart(u, v); }
    }
    forall h, k, u | Fnv64Round(h, u) == Fnv64Round(k, u) ensures h == k {
      RoundsUndone(0, h, u);
      RoundsUndone(0, k, u);
    }
    forall h, u, v | Fnv64Round(h, u) == Fnv64Round(h, v) ensures u == v {
      RoundsUndone(0, h, u);
      RoundsUndone(0, h, v);
      if u != v { WideningKeepsApart(u, v); }
    }
  }

  /** Equal-length texts that differ in exactly one code unit never collide. */
  lemma FnvOneUnitApart(s: Text, i: nat, u: bv16)
    requires i < |s| && s[i] != u
    ensures Fnv32(s) != Fnv32(s[i := u])
    ensures Fnv64(s) != Fnv64(s[i := u])
  {
    FnvLossless();
    FoldOneApart(Fnv32Round, 0x811c9dc5, s, i, u);
    FoldOneApart(Fnv64Round, 0xcbf29ce484222325, s, i, u);
  }

  // ------------------------------------------------------------ splitmix64

  /** splitmix64 advances its state by an odd constant. */
  function Advance(state: bv64): bv64 { state + 0x9e3779b97f4a7c15 }

  function Retreat(state: bv64): bv64 { state - 0x9e3779b97f4a7c15 }

  lemma AdvanceUndone(state: bv64)
    ensures Retreat(Advance(state)) == state
    ensures Advance(state) != state
  {
  }

  /** The output function of splitmix64, applied to the already advanced state. */
  function Mix(state: bv64): bv64 {
    XorShift31(TimesB(XorShift27(TimesA(XorShift30(state)))))
  }

  function Unmix(value: bv64): bv64 {
    UnXorShift30(UnTimesA(UnXorShift27(UnTimesB(UnXorShift31(value)))))
  }

  /** splitmix64's output function loses nothing: `Unmix` recovers the state. */
  lemma MixRoundTrip(state: bv64)
    ensures Unmix(Mix(state)) == state
  {
    var a := XorShift30(state);
    var b := TimesA(a);
    var c := XorShift27(b);
    var d := TimesB(c);
    XorShiftUndone(d);
    TimesUndone(c, 0);
    XorShiftUndone(b);
    TimesUndone(a, 0);
    XorShiftUndone(state);
  }

  // ----------------------------------------------------------- xoshiro128**

  datatype XState = XState(s0: bv32, s1: bv32, s2: bv32, s3: bv32)

  function Rotl7(x: bv32): bv32 { (x << 7) | (x >> 25) }

  function Rotl11(x: bv32): bv32 { (x << 11) | (x >> 21) }

  function Rotl21(x: bv32): bv32 { (x << 21) | (x >> 11) }

  function Shl9(x: bv32): bv32 { x << 9 }

  function UnXorShl9(u: bv32): bv32 { u ^ (u << 9) ^ (u << 18) ^ (u << 27) }

  function Scramble(x: bv32): bv32 {
    Rotl7(x * 5) * 9
  }

  function Output(s: XState): bv32 { Scramble(s.s1) }

  function Step(s: XState): XState {
    var t := Shl9(s.s1);
    var s2 := Xor32(s.s2, s.s0);
    var s3 := Xor32(s.s3, s.s1);
    var s1 := Xor32(s.s1, s2);
    var s0 := Xor32(s.s0, s3);
    XState(s0, s1, Xor32(s2, t), Rotl11(s3))
  }

  function Unstep(s: XState): XState {
    var a := Rotl21(s.s3);
    var s0 := Xor32(s.s0, a);
    var s1 := UnXorShl9(Xor32(s.s1, s.s2));
    XState(s0, s1, Xor32(Xor32(s1, s.s1), s0), Xor32(a, s1))
  }

  lemma RotlUndone(x: bv32)
    ensures Rotl21(Rotl11(x)) == x
  {
  }

  lemma ShlBits(x: bv32)
    ensures UnXorShl9(x ^ (x << 9)) == x
  {
  }

  lemma XorShlBits(x: bv32)
    ensures UnXorShl9(Xor32(x, x << 9)) == x
  {
    ShlBits(x);
  }

  lemma XorShlUndone(x: bv32)
    ensures UnXorShl9(Xor32(x, Shl9(x))) == x
  {
    XorShlBits(x);
  }

  lemma XorChain(a: bv32, b: bv32, c: bv32)
    ensures Xor32(Xor32(a, b), Xor32(b, c)) == Xor32(a, c)
  {
  }

  /** The xoshiro128** transition is invertible: two different states never fall together. */
  lemma StepRoundTrip(s: XState)
    ensures Unstep(Step(s)) == s
  {
    var s2, s3 := Xor32(s.s2, s.s0), Xor32(s.s3, s.s1);
    RotlUndone(s3);
    XorShlUndone(s.s1);
    XorChain(s.s1, s2, Shl9(s.s1));
    XorTwice32(s.s0, s3);
    XorTwice32(s.s1, s2);
    XorTwice32(s.s2, s.s0);
    XorTwice32(s.s3, s.s1);
  }

  const ZERO: XState := XState(0, 0, 0, 0)

  lemma ZeroIsStuck()
    ensures Step(ZERO) == ZERO
  {
  }

  function StateAt(s: XState, n: nat): XState { Iterate(Step, s, n) }

  /** A generator never enters the all-zero state xoshiro cannot leave, and generators that
      start in different states are in different states after every number of draws. */
  lemma StatesStayApart(s: XState, t: XState, n: nat)
    ensures StateAt(s, n) == StateAt(t, n) <==> s == t
    ensures StateAt(s, n) == ZERO <==> s == ZERO
  {
    forall a, b | Step(a) == Step(b) ensures a == b {
      StepRoundTrip(a);
      StepRoundTrip(b);
    }
    ZeroIsStuck();
    IterateSettles(Step, ZERO, 0, n);
    IterateStaysApart(Step, s, t, n);
    IterateStaysApart(Step, s, ZERO, n);
  }

  // --------------------------------------------------------------- createRng

  /** The text that is hashed: seed and stream label, separated by a NUL unit. */
  function StreamKey(seed: Text, stream: Text): Text {
    seed + [0] + stream
  }

  function Low(v: bv64): bv32 { (v & 0xffff_ffff) as bv32 }

  function High(v: bv64): bv32 { ((v >> 32) & 0xffff_ffff) as bv32 }

  function Join(low: bv32, high: bv32): bv64 { ((high as bv64) << 32) | (low as bv64) }

  lemma HalvesDetermine(v: bv64)
    ensures Join(Low(v), High(v)) == v
  {
  }

  /** The four words of two splitmix64 steps that start at `hash`. */
  function ExpandWith(advance: bv64 -> bv64, mix: bv64 -> bv64, hash: bv64): XState {
    var first, second := mix(advance(hash)), mix(advance(advance(hash)));
    XState(Low(first), High(first), Low(second), High(second))
  }

  function Expand(hash: bv64): XState { ExpandWith(Advance, Mix, hash) }

  /** The seeding loop of createRng. */
  method DrawWords(advance: bv64 -> bv64, mix: bv64 -> bv64, hash: bv64) returns (words: seq<bv32>)
    ensures |words| == 4 && XState(words[0], words[1], words[2], words[3]) == ExpandWith(advance, mix, hash)
  {
    var sm := hash;
    words := [];
    while |words| < 4
      invariant |words| == 0 || |words| == 2 || |words| == 4
      invariant |words| == 0 ==> sm == hash
      invariant |words| == 2 ==> sm == advance(hash) && words == [Low(mix(sm)), High(mix(sm))]
      invariant |words| == 4 ==> XState(words[0], words[1], words[2], words[3]) == ExpandWith(advance, mix, hash)
      decreases 4 - |words|
    {
      sm := advance(sm);
      var value := mix(sm);
      words := words + [Low(value), High(value)];
    }
  }

  function InitialState(seed: Text, stream: Text): XState {
    Expand(Fnv64(StreamKey(seed, stream)))
  }

  /** What a generator in state `start` draws, word by word. */
  function DrawnFrom(start: XState): nat -> bv32 {
    (n: nat) => Output(StateAt(start, n))
  }

  /** The hash can be read back from the expanded state. */
  lemma ExpandRoundTrip(hash: bv64)
    ensures var s := Expand(hash); Retreat(Unmix(Join(s.s0, s.s1))) == hash
    ensures var s := Expand(hash); Unmix(Join(s.s2, s.s3)) == Advance(Advance(hash))
  {
    HalvesDetermine(Mix(Advance(hash)));
    HalvesDetermine(Mix(Advance(Advance(hash))));
    MixRoundTrip(Advance(hash));
    MixRoundTrip(Advance(Advance(hash)));
    AdvanceUndone(hash);
  }

  /** splitmix64 never hands xoshiro four zero words, so the guard of createRng that would
      replace s0 is dead code. */
  lemma ExpandNeverZero(hash: bv64)
    ensures Expand(hash) != ZERO
  {
  }

  /** Streams of one seed whose labels differ in one code unit (neighbouring chunks, say) are
      never in the same generator state after the same number of draws, and never stuck at zero. */
  lemma NeighbouringStreamsNeverCoincide(seed: Text, stream: Text, i: nat, u: bv16, n: nat)
    requires i < |stream| && stream[i] != u
    ensures StateAt(InitialState(seed, stream), n) != StateAt(InitialState(seed, stream[i := u]), n)
    ensures StateAt(InitialState(seed, stream), n) != ZERO
  {
    var key, other := StreamKey(seed, stream), StreamKey(seed, stream[i := u]);
    assert other == key[|seed| + 1 + i := u];
    FnvOneUnitApart(key, |seed| + 1 + i, u);
    ExpandRoundTrip(Fnv64(key));
    ExpandRoundTrip(Fnv64(other));
    ExpandNeverZero(Fnv64(key));
    StatesStayApart(InitialState(seed, stream), InitialState(seed, stream[i := u]), n);
  }

  /** The closure state of createRng, and how many words it has drawn. */
  class Xoshiro {
    ghost const start: XState
    var s0: bv32
    var s1: bv32
    var s2: bv32
    var s3: bv32
    ghost var drawn: nat

    ghost function State(): XState
      reads this
    {
      XState(s0, s1, s2, s3)
    }

    ghost predicate Valid()
      reads this
    {
      State() == StateAt(start, drawn)
    }

    constructor (seed: Text, stream: Text)
      ensures Valid() && drawn == 0 && start == InitialState(seed, stream)
    {
      var hash := HashText(Fnv64Round, 0xcbf29ce484222325, StreamKey(seed, stream));
      var words := DrawWords(Advance, Mix, hash);
      start, drawn := XState(words[0], words[1], words[2], words[3]), 0;
      s0, s1, s2, s3 := words[0], words[1], words[2], words[3];
      if words == [0, 0, 0, 0] {
        ExpandNeverZero(hash);
        assert false; // the fallback word of the source is never needed
      }
    }

    /** The transition, on the state alone. */
    method Move() returns (w: bv32)
      modifies this`s0, this`s1, this`s2, this`s3
      ensures w == Output(old(State())) && State() == Step(old(State()))
    {
      w := Scramble(s1);
      var t := Shl9(s1);
      s2 := Xor32(s2, s0);
      s3 := Xor32(s3, s1);
      s1 := Xor32(s1, s2);
      s0 := Xor32(s0, s3);
      s2 := Xor32(s2, t);
      s3 := Rotl11(s3);
    }

    /** The words drawn one after the other. */
    method Uint32() returns (w: bv32)
      requires Valid()
      modifies this
      ensures Valid() && drawn == old(drawn) + 1
      ensures w == DrawnFrom(start)(old(drawn))
    {
      w := Move();
      drawn := drawn + 1;
    }
  }

  // ---------------------------------------------------- draws from any stream

  const TWO32: real := 4294967296.0

  function UnitAt(words: Words, pos: nat): (u: real)
    ensures 0.0 <= u < 1.0
  {
    words(pos) as real / TWO32
  }

  function RangeAt(words: Words, pos: nat, lo: real, hi: real): real {
    lo + (hi - lo) * UnitAt(words, pos)
  }

  function IntAt(words: Words, pos: nat, n: int): (k: int)
    ensures if n <= 0 then k == 0 else 0 <= k < n
  {
    if n <= 0 then 0 else words(pos) % n
  }

  /** How many words `int(n)` consumes: none when the bound is not positive. */
  function IntCost(n: int): nat {
    if n <= 0 then 0 else 1
  }

  lemma RangeBounds(words: Words, pos: nat, lo: real, hi: real)
    ensures lo < hi ==> lo <= RangeAt(words, pos, lo, hi) < hi
    ensures lo == hi ==> RangeAt(words, pos, lo, hi) == lo
  {
    var span, u := hi - lo, UnitAt(words, pos);
    if lo < hi {
      FractionBelow(span, u);
      calc {
        RangeAt(words, pos, lo, hi);
        lo + span * u;
      <
        lo + span;
        hi;
      }
    } else if lo == hi {
      assert span * u == 0.0;
    }
  }

  lemma FractionBelow(a: real, u: real)
    requires a > 0.0 && 0.0 <= u < 1.0
    ensures 0.0 <= a * u < a
  {
  }

  class Rng {
    const words: Words
    var pos: nat

    constructor (words: Words)
      ensures this.words == words && pos == 0
    {
      this.words := words;
      pos := 0;
    }

    method Next() returns (u: real)
      modifies this
      ensures u == UnitAt(words, old(pos)) && pos == old(pos) + 1
    {
      u := words(pos) as real / TWO32;
      pos := pos + 1;
    }

    method Range(lo: real, hi: real) returns (v: real)
      modifies this
      ensures v == RangeAt(words, old(pos), lo, hi) && pos == old(pos) + 1
    {
      var u := Next();
      v := lo + (hi - lo) * u;
    }

    method Int(n: int) returns (k: int)
      modifies this
      ensures k == IntAt(words, old(pos), n) && pos == old(pos) + IntCost(n)
    {
      if n <= 0 {
        k := 0;
      } else {
        k := words(pos) % n;
        pos := pos + 1;
      }
    }
  }
}
