/** The permutation table of createNoise2D (frontend/src/world/gen/noise.ts): how it is shuffled,
    and how the noise function looks lattice corners up in it. */
module Noise {
  import opened Common
  import opened SeededRng

  function Swap<T>(p: seq<T>, i: nat, j: nat): seq<T>
    requires i < |p| && j < |p|
  {
    p[i := p[j]][j := p[i]]
  }

  /** Fisher-Yates from position `i` down, with the choice of position `k` in `choices[k]`. */
  function Shuffle<T>(p: seq<T>, i: nat, choices: seq<nat>): (r: seq<T>)
    requires i < |p| == |choices| && Legal(choices)
    ensures |r| == |p|
    decreases i
  {
    if i == 0 then p else Shuffle(Swap(p, i, choices[i]), i - 1, choices)
  }

  /** Position k may be exchanged with any position up to itself. */
  ghost predicate Legal(choices: seq<nat>) {
    forall k :: 0 <= k < |choices| ==> choices[k] <= k
  }

  lemma SwapPermutes<T>(p: seq<T>, i: nat, j: nat)
    requires i < |p| && j < |p|
    ensures multiset(Swap(p, i, j)) == multiset(p)
  {
  }

  lemma SwapDistinct<T>(p: seq<T>, i: nat, j: nat)
    requires i < |p| && j < |p| && Distinct(p)
    ensures Distinct(Swap(p, i, j))
  {
  }

  /** The result is a permutation of what was shuffled, and positions after `i` are final. */
  lemma {:induction false} ShufflePermutes<T>(p: seq<T>, i: nat, choices: seq<nat>)
    requires i < |p| == |choices| && Legal(choices)
    ensures multiset(Shuffle(p, i, choices)) == multiset(p)
    ensures forall k :: i < k < |p| ==> Shuffle(p, i, choices)[k] == p[k]
    ensures i > 0 ==> Shuffle(p, i, choices)[i] == p[choices[i]]
    decreases i
  {
    if i > 0 {
      SwapPermutes(p, i, choices[i]);
      ShufflePermutes(Swap(p, i, choices[i]), i - 1, choices);
    }
  }

  /** Different choices give different permutations ... */
  lemma {:induction false} ShuffleInjective<T>(p: seq<T>, i: nat, a: seq<nat>, b: seq<nat>)
    requires i < |p| == |a| == |b| && Legal(a) && Legal(b) && Distinct(p)
    requires Shuffle(p, i, a) == Shuffle(p, i, b)
    ensures forall k :: 1 <= k <= i ==> a[k] == b[k]
    decreases i
  {
    if i > 0 {
      ShufflePermutes(p, i, a);
      ShufflePermutes(p, i, b);
      assert p[a[i]] == p[b[i]];
      SwapDistinct(p, i, a[i]);
      ShuffleInjective(Swap(p, i, a[i]), i - 1, a, b);
    }
  }

  /** ... and every permutation is the result of some choices: the shuffle is fair whenever the
      choices are. */
  lemma {:induction false} ShuffleSurjective<T>(p: seq<T>, i: nat, goal: seq<T>) returns (choices: seq<nat>)
    requires i < |p| == |goal| && multiset(goal) == multiset(p)
    requires forall k :: i < k < |p| ==> goal[k] == p[k]
    ensures |choices| == |p| && Legal(choices) && Shuffle(p, i, choices) == goal
    decreases i
  {
    if i == 0 {
      choices := seq(|p|, _ => 0);
      HeadsEqual(p, goal);
    } else {
      var j := FindIn(p, i, goal);
      SwapPermutes(p, i, j);
      var rest := ShuffleSurjective(Swap(p, i, j), i - 1, goal);
      choices := rest[i := j];
      ChoicesAbove(Swap(p, i, j), i - 1, rest, choices);
    }
  }

  /** Where two permutations of one multiset agree from `i + 1` on, their fronts are permutations
      of each other. */
  lemma FrontsEqual<T>(p: seq<T>, goal: seq<T>, i: nat)
    requires i < |p| == |goal| && multiset(goal) == multiset(p)
    requires forall k :: i < k < |p| ==> goal[k] == p[k]
    ensures multiset(p[..i + 1]) == multiset(goal[..i + 1])
  {
    assert p == p[..i + 1] + p[i + 1..] && goal == goal[..i + 1] + goal[i + 1..];
    assert p[i + 1..] == goal[i + 1..];
    Cancel(multiset(p[..i + 1]), multiset(goal[..i + 1]), multiset(p[i + 1..]));
  }

  lemma Cancel<T>(a: multiset<T>, b: multiset<T>, c: multiset<T>)
    requires a + c == b + c
    ensures a == b
  {
    forall x ensures a[x] == b[x] {
      assert (a + c)[x] == (b + c)[x];
    }
  }

  lemma HeadsEqual<T>(p: seq<T>, goal: seq<T>)
    requires 0 < |p| == |goal| && multiset(goal) == multiset(p)
    requires forall k :: 0 < k < |p| ==> goal[k] == p[k]
    ensures p == goal
  {
    FrontsEqual(p, goal, 0);
    assert p[..1] == [p[0]] && goal[..1] == [goal[0]];
    assert goal[0] in multiset(p[..1]);
  }

  lemma FindIn<T>(p: seq<T>, i: nat, goal: seq<T>) returns (j: nat)
    requires i < |p| == |goal| && multiset(goal) == multiset(p)
    requires forall k :: i < k < |p| ==> goal[k] == p[k]
    ensures j <= i && p[j] == goal[i]
  {
    FrontsEqual(p, goal, i);
    assert goal[..i + 1][i] == goal[i];
    assert goal[i] in multiset(p[..i + 1]);
    j :| 0 <= j < i + 1 && p[..i + 1][j] == goal[i];
  }

  /** Choices above `i` are never looked at. */
  lemma {:induction false} ChoicesAbove<T>(p: seq<T>, i: nat, a: seq<nat>, b: seq<nat>)
    requires i < |p| == |a| == |b| && Legal(a) && Legal(b) && forall k :: 0 <= k <= i ==> a[k] == b[k]
    ensures Shuffle(p, i, a) == Shuffle(p, i, b)
    decreases i
  {
    if i > 0 {
      ChoicesAbove(Swap(p, i, a[i]), i - 1, a, b);
    }
  }

  // --------------------------------------------------------------- the table

  /** The choice drawn for position `k` of `n`: the last position comes first. */
  function DrawnAt(words: Words, pos: nat, n: nat, k: nat): (j: nat)
    requires k < n
    ensures j <= k
  {
    if k == 0 then 0 else IntAt(words, pos + n - 1 - k, k + 1)
  }

  function Drawn(words: Words, pos: nat, n: nat): (c: seq<nat>)
    ensures |c| == n && Legal(c) && forall k :: 0 <= k < n ==> c[k] == DrawnAt(words, pos, n, k)
  {
    seq(n, k requires 0 <= k < n => DrawnAt(words, pos, n, k))
  }

  /** A whole sequence shuffled with the next words of a stream. */
  function Shuffled<T>(p: seq<T>, words: Words, pos: nat): (r: seq<T>)
    requires p != []
    ensures |r| == |p|
  {
    Shuffle(p, |p| - 1, Drawn(words, pos, |p|))
  }

  function Identity(): (p: seq<int>)
    ensures |p| == 256 && Distinct(p) && forall k :: 0 <= k < 256 ==> p[k] == k
  {
    seq(256, k => k)
  }

  /** Each of 0, ..., 255 once, and then all of it again. */
  ghost predicate IsTable(perm: seq<int>) {
    && |perm| == 512
    && multiset(perm[..256]) == multiset(Identity())
    && (forall k :: 0 <= k < 256 ==> perm[k + 256] == perm[k])
    && (forall k :: 0 <= k < 512 ==> 0 <= perm[k] <= 255)
  }

  method BuildTable(rng: Rng) returns (perm: array<int>)
    modifies rng
    ensures fresh(perm) && IsTable(perm[..])
    ensures perm[..256] == Shuffled(Identity(), rng.words, old(rng.pos)) && rng.pos == old(rng.pos) + 255
  {
    var p := new int[256](k => k);
    assert p[..] == Identity();
    FisherYates(rng, p);
    ghost var shuffled := p[..];
    ShufflePermutes(Identity(), |Identity()| - 1, Drawn(rng.words, old(rng.pos), |Identity()|));
    perm := Doubled(p);
    TableFrom(shuffled, perm[..]);
  }

  method Doubled(p: array<int>) returns (perm: array<int>)
    requires p.Length == 256
    ensures fresh(perm) && perm.Length == 512
    ensures forall k :: 0 <= k < 512 ==> perm[k] == p[k % 256]
  {
    perm := new int[512];
    for i := 0 to 512
      invariant forall m :: 0 <= m < i ==> perm[m] == p[m % 256]
    {
      perm[i] := p[i % 256];
    }
  }

  method Exchange<T>(p: array<T>, i: nat, j: nat)
    requires i < p.Length && j < p.Length
    modifies p
    ensures p[..] == Swap(old(p[..]), i, j)
  {
    var tmp := p[i];
    p[i] := p[j];
    p[j] := tmp;
  }

  /** The word drawn when the loop stands at `i` is the choice for position `i`. */
  method Choose(rng: Rng, ghost start: nat, n: nat, i: nat) returns (j: nat)
    requires 0 < i < n && rng.pos == start + n - 1 - i
    modifies rng
    ensures j == Drawn(rng.words, start, n)[i] && j <= i && rng.pos == start + n - i
  {
    j := rng.Int(i + 1);
    assert j == DrawnAt(rng.words, start, n, i);
  }

  /** The shuffle in place, for a table of any size. */
  method FisherYates<T>(rng: Rng, p: array<T>)
    requires p.Length > 0
    modifies rng, p
    ensures p[..] == Shuffled(old(p[..]), rng.words, old(rng.pos)) && rng.pos == old(rng.pos) + p.Length - 1
  {
    ghost var start, goal := rng.pos, Shuffled(p[..], rng.words, rng.pos);
    var i := p.Length - 1;
    while i > 0
      invariant 0 <= i < p.Length && rng.pos == start + p.Length - 1 - i
      invariant Shuffle(p[..], i, Drawn(rng.words, start, p.Length)) == goal
    {
      var j := Choose(rng, start, p.Length, i);
      Exchange(p, i, j);
      i := i - 1;
    }
  }

  lemma TableFrom(p: seq<int>, perm: seq<int>)
    requires |p| == 256 && |perm| == 512 && multiset(p) == multiset(Identity())
    requires forall k :: 0 <= k < 512 ==> perm[k] == p[k % 256]
    ensures IsTable(perm) && perm[..256] == p
  {
    assert perm[..256] == p;
    forall k | 0 <= k < 512 ensures 0 <= perm[k] <= 255 {
      EntriesAreBytes(p, k % 256);
    }
    forall k | 0 <= k < 256 ensures perm[k + 256] == perm[k] {
      assert (k + 256) % 256 == k;
    }
  }

  lemma EntriesAreBytes(p: seq<int>, k: nat)
    requires multiset(p) == multiset(Identity()) && k < |p|
    ensures 0 <= p[k] <= 255
  {
    assert p[k] in multiset(p);
    assert p[k] in Identity();
  }

  /** The words that make the shuffle choose `choices`. */
  function WordsFor(choices: seq<nat>, pos: nat): Words
    requires |choices| <= 0x1_0000_0000 && Legal(choices)
  {
    (n: nat) =>
      var k := pos + |choices| - 1 - n;
      if 0 <= k < |choices| then choices[k] else 0
  }

  lemma WordsChoose(choices: seq<nat>, pos: nat)
    requires 0 < |choices| <= 0x1_0000_0000 && Legal(choices)
    ensures Drawn(WordsFor(choices, pos), pos, |choices|) == choices
  {
    var words, n := WordsFor(choices, pos), |choices|;
    forall k | 0 <= k < n ensures DrawnAt(words, pos, n, k) == choices[k] {
      WordChooses(choices, pos, k);
    }
  }

  lemma WordChooses(choices: seq<nat>, pos: nat, k: nat)
    requires k < |choices| <= 0x1_0000_0000 && Legal(choices)
    ensures DrawnAt(WordsFor(choices, pos), pos, |choices|, k) == choices[k]
  {
    SmallRemainder(choices[k], k + 1);
    assert WordsFor(choices, pos)(pos + |choices| - 1 - k) == choices[k];
  }

  lemma SmallRemainder(x: nat, n: nat)
    requires x < n
    ensures x % n == x
  {
  }

  /** Every permutation of 0, ..., 255 is the table of some stream of words. */
  lemma EveryTableIsDrawn(goal: seq<int>, pos: nat) returns (words: Words)
    requires |goal| == 256 && multiset(goal) == multiset(Identity())
    ensures Shuffled(Identity(), words, pos) == goal
  {
    var choices := ShuffleSurjective(Identity(), 255, goal);
    words := WordsFor(choices, pos);
    WordsChoose(choices, pos);
  }

  // ------------------------------------------------------------------ lookups

  /** `n & 255` of a 32-bit conversion, for every integer, negative ones included. */
  function LowByte(n: int): (b: nat)
    ensures b < 256
  {
    n % 256
  }

  /** The hash of lattice point (i, j): what the noise field is a function of there. */
  function Corner(perm: seq<int>, i: int, j: int): int
    requires IsTable(perm)
  {
    perm[LowByte(i) + perm[LowByte(j)]]
  }

  /** The program's lookups for the corner at offset (di, dj) of cell (i, j). */
  function Lookup(perm: seq<int>, i: int, j: int, di: nat, dj: nat): int
    requires IsTable(perm) && di <= 1 && dj <= 1
  {
    perm[LowByte(i) + di + perm[LowByte(j) + dj]]
  }

  /** For every cell all nested lookups stay inside the 512 entries, and give the hash of the
      lattice point itself: cells that share a corner agree on its gradient. */
  lemma LookupIsCorner(perm: seq<int>, i: int, j: int, di: nat, dj: nat)
    requires IsTable(perm) && di <= 1 && dj <= 1
    ensures 0 <= LowByte(j) + dj < 512 && 0 <= LowByte(i) + di + perm[LowByte(j) + dj] < 512
    ensures Lookup(perm, i, j, di, dj) == Corner(perm, i + di, j + dj)
    ensures Corner(perm, i, j) == perm[i % 256 + perm[j % 256]] == Corner(perm, i + 256, j) == Corner(perm, i, j + 256)
  {
  }
}
