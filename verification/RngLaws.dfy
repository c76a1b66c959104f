/** The generator of frontend/src/world/gen/rng.ts, pinned to the published values of the algorithms
    it names, and what its draws are of the words. */
module RngLaws {
  import opened Iteration
  import opened SeededRng

  // ------------------------------------------------------- published values

  const A: Text := [97]
  const FOOBAR: Text := [102, 111, 111, 98, 97, 114]

  lemma FoldCons<S, T>(round: (S, T) -> S, h: S, x: T, rest: seq<T>)
    ensures Fold(round, h, [x] + rest) == Fold(round, round(h, x), rest)
    ensures Fold(round, h, []) == h
  {
    assert ([x] + rest)[1..] == rest;
  }

  /** The test vectors "", "a" and "foobar" of draft-eastlake-fnv, appendix C. */
  lemma Fnv32Vectors()
    ensures Fnv32([]) == 0x811c9dc5 && Fnv32(A) == 0xe40c292c && Fnv32(FOOBAR) == 0xbf9cf968
  {
    FoldCons(Fnv32Round, 0x811c9dc5, 97, []);
    assert A == [97] + [];
    Foobar32();
  }

  lemma Foobar32()
    ensures Fnv32(FOOBAR) == 0xbf9cf968
  {
    var h1 := Fnv32Round(0x811c9dc5, 102);
    var h2 := Fnv32Round(h1, 111);
    var h3 := Fnv32Round(h2, 111);
    var h4 := Fnv32Round(h3, 98);
    var h5 := Fnv32Round(h4, 97);
    FoldCons(Fnv32Round, 0x811c9dc5, 102, [111, 111, 98, 97, 114]);
    FoldCons(Fnv32Round, h1, 111, [111, 98, 97, 114]);
    FoldCons(Fnv32Round, h2, 111, [98, 97, 114]);
    FoldCons(Fnv32Round, h3, 98, [97, 114]);
    FoldCons(Fnv32Round, h4, 97, [114]);
    FoldCons(Fnv32Round, h5, 114, []);
  }

  lemma Fnv64Vectors()
    ensures Fnv64([]) == 0xcbf29ce484222325 && Fnv64(A) == 0xaf63dc4c8601ec8c
  {
    FoldCons(Fnv64Round, 0xcbf29ce484222325, 97, []);
    assert A == [97] + [];
  }

  /** The first outputs of splitmix64 from state 0. */
  lemma SplitMixVectors()
    ensures Mix(Advance(0)) == 0xe220a8397b1dcdaf
    ensures Mix(Advance(Advance(0))) == 0x6e789e6aa1b965f4
  {
  }

  /** The first outputs of xoshiro128** from state (1, 2, 3, 4). */
  lemma XoshiroVectors()
    ensures var s := XState(1, 2, 3, 4);
            && Output(s) == 11520 && Output(Step(s)) == 0
            && Output(Step(Step(s))) == 5927040 && Output(Step(Step(Step(s)))) == 70819200
  {
    var s := XState(1, 2, 3, 4);
    assert Step(s) == XState(7, 0, 1026, 12288);
    assert Step(Step(s)) == XState(12295, 1029, 1029, 25165824);
  }

  // ------------------------------------------------------------------ draws

  function Unscramble(w: bv32): bv32 {
    var x := w * 0x38e38e39;
    ((x >> 7) | (x << 25)) * 0xcccccccd
  }

  lemma ScrambleBits(x: bv32)
    ensures Unscramble(Rotl7(x * 5) * 9) == x
  {
  }

  /** Scrambling loses nothing: every 32-bit word is drawn from exactly one value of s1. */
  lemma ScrambleRoundTrip(x: bv32)
    ensures Unscramble(Scramble(x)) == x
  {
    ScrambleBits(x);
  }

  /** next is the word over 2^32, and range goes evenly from lo up to hi. */
  lemma RangeIsEven(words: Words, pos: nat, lo: real, hi: real)
    ensures UnitAt(words, pos) * 4294967296.0 == words(pos) as real
    ensures (RangeAt(words, pos, lo, hi) - lo) * 4294967296.0 == (hi - lo) * words(pos) as real
  {
    Evenly(hi - lo, UnitAt(words, pos), words(pos) as real);
  }

  lemma Evenly(span: real, u: real, w: real)
    requires u * 4294967296.0 == w
    ensures (span * u) * 4294967296.0 == span * w
  {
  }

  // ------------------------------------------------------------- stream keys

  lemma FirstNul(seed: Text, stream: Text)
    requires 0 !in seed
    ensures var k := StreamKey(seed, stream);
            |seed| < |k| && k[|seed|] == 0 && k[..|seed|] == seed && k[|seed| + 1..] == stream
            && forall i :: 0 <= i < |seed| ==> k[i] != 0
  {
  }

  /** Seeds without a NUL unit and streams can be read back from what is hashed: no two pairs have
      one key. */
  lemma StreamKeyTells(seed: Text, stream: Text, seed': Text, stream': Text)
    requires 0 !in seed && 0 !in seed'
    ensures StreamKey(seed, stream) == StreamKey(seed', stream') <==> seed == seed' && stream == stream'
  {
    FirstNul(seed, stream);
    FirstNul(seed', stream');
  }
}
