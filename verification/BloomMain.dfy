/** The whole program: the set bits are counted, and the count decides which reconstruction runs. */
module BloomMain {
  import BloomCounts
  import opened Arithmetic
  import opened Bitmaps
  import opened BloomArithmetic
  import opened BloomInversion
  import opened BloomRuns

  /** M as main prepares it for the branch it takes: empty, or with every vertex in it. */
  ghost predicate Prepared(c: Search, on: bool, start: Probed) {
    if on then start == Probed({}, {}, 0) else forall x | 1 <= x < c.nVertices :: x in start.accepted
  }

  /** Fewer than half of the bits of the filter are set. */
  ghost predicate Sparse(c: Search) { |BloomCounts.OnesIn(c, 0, Words(c))| < c.vectSize / 2 }

  /** A run of main: the threads of countOnes have exited, and then those of the reconstruction that the test
      of totalOnes chooses. */
  ghost predicate MainRun(c: Search, counts: seq<BloomCounts.State>, start: Probed, run: seq<State>) {
    && Valid(c) && BloomCounts.Run(c, counts) && BloomCounts.AllExited(counts[|counts| - 1])
    && var on := counts[|counts| - 1].total < c.vectSize / 2;
       Prepared(c, on, start) && Run(c, on, start, run) && AllExited(run[|run| - 1])
  }

  /** main takes reconstruct1 exactly if the filter is sparse. Its vertices are exactly those in the filter if
      and only if it is, or there are no aliases. */
  lemma MainIsExact(c: Search, counts: seq<BloomCounts.State>, start: Probed, run: seq<State>)
    requires MainRun(c, counts, start, run)
    ensures Vertices(c, run[|run| - 1].table.accepted) == BruteForce(c) <==> Sparse(c) || NoAliases(c)
  {
    BloomCounts.EndOfRun(c, counts);
    if Sparse(c) {
      ReconstructOnes(c, run);
    } else {
      ReconstructZeros(c, start, run);
    }
  }

  /** It writes behind M if and only if the filter is not sparse and some zero bit leads there. */
  lemma MainOverruns(c: Search, counts: seq<BloomCounts.State>, start: Probed, run: seq<State>)
    requires MainRun(c, counts, start, run)
    ensures forall k | 0 <= k < 3 :: c.hashes[k].m > 0
    ensures run[|run| - 1].overrun <==> !Sparse(c) && Strays(c)
  {
    BloomCounts.EndOfRun(c, counts);
    RunOverruns(c, Sparse(c), start, run);
  }

  // ---- Two inputs that show it -----------------------------------------------------------------------------

  /** The n numbers from lo on. */
  function Numbers(lo: int, n: nat): (xs: set<int>)
    ensures |xs| == n && forall x :: x in xs <==> lo <= x < lo + n
  {
    if n == 0 then {} else Numbers(lo, n - 1) + {lo + n - 1}
  }

  /** A filter that is not sparse is sent to reconstruct0, with all bits of M set by setM. */
  lemma DenseRun(c: Search) returns (counts: seq<BloomCounts.State>, start: Probed, run: seq<State>)
    requires Valid(c) && !Sparse(c)
    ensures MainRun(c, counts, start, run) && start.accepted == Numbers(0, Bits(c))
  {
    counts := BloomCounts.SomeRun(c);
    BloomCounts.EndOfRun(c, counts);
    start := Probed({}, Numbers(0, Bits(c)), 0);
    CeilDivCovers(if c.nVertices > 0 then c.nVertices else 0, NUM_BITS, TableWords(c.nVertices));
    run := SomeRun(c, false, start);
  }

  /** All hashes are the remainder modulo m. */
  ghost predicate Remainder(c: Search, m: int) {
    m > 0 && |c.hashes| == 3 && forall k | 0 <= k < 3 :: c.hashes[k] == Hash(1, 0, m)
  }

  lemma SmallFilter(c: Search)
    requires Remainder(c, 2) && c.nVertices == 4 && c.vectSize == 3 && c.ones == {0, 1}
    ensures Valid(c) && !Sparse(c) && Words(c) == 1
  {
    assert BloomCounts.OnesIn(c, 0, 1) == {0, 1};
  }

  lemma TwoHasAlias(c: Search)
    requires Remainder(c, 2) && Valid(c) && c.nVertices == 4 && c.ones == {0, 1} && Words(c) == 1
    ensures 2 in BruteForce(c) && Swept(c, 2)
  {
    assert HashOf(Hash(1, 0, 2), 2) == 0;
    assert Alias(c, 0, 2, 2);
    AliasedIsSwept(c, 2);
  }

  /** A modulus one below the length of the filter is enough to lose a vertex: with the hash x mod 2
      three times, both bits set and three filter bits, vertex 2 is in the filter, but a run of main ends
      without it. */
  lemma AliasExample(c: Search) returns (counts: seq<BloomCounts.State>, start: Probed, run: seq<State>)
    requires c == Search(seq(3, _ => Hash(1, 0, 2)), 4, 3, {0, 1})
    ensures MainRun(c, counts, start, run) && start.accepted == Numbers(0, Bits(c))
    ensures 2 in BruteForce(c) && 2 !in run[|run| - 1].table.accepted
  {
    SmallFilter(c);
    TwoHasAlias(c);
    counts, start, run := DenseRun(c);
    BloomCounts.EndOfRun(c, counts);
    ZerosKeep(c, start, run, 2);
  }

  lemma HalfFilter(c: Search)
    requires Remainder(c, 40) && c.nVertices == 32 && c.vectSize == 40 && c.ones == Numbers(1, 20)
    ensures Valid(c) && !Sparse(c) && Words(c) == 2 && Bits(c) == 32
  {
    assert BloomCounts.OnesIn(c, 0, 2) == c.ones;
  }

  lemma FortyOvershoots(h: Hash)
    requires h == Hash(1, 0, 40)
    ensures Overshoots(h, 0, 32, 40)
  {
    DivUnique(40, h.m, 1, 0);
    DivUnique(0, h.m, 0, 0);
  }

  lemma FortyIsStray(c: Search)
    requires Remainder(c, 40) && c.nVertices == 32 && c.vectSize == 40 && c.ones == Numbers(1, 20)
    requires Words(c) == 2 && Bits(c) == 32
    ensures Strays(c)
  {
    FortyOvershoots(c.hashes[0]);
    assert Stray(c, 0, 0, 40);
  }

  /** Below the modulus every vertex is its own hash. */
  lemma OwnHash(h: Hash, x: int)
    requires h == Hash(1, 0, 40) && 0 <= x < 40
    ensures HashOf(h, x) == x
  {
    DivUnique(x, h.m, 0, x);
  }

  lemma OverrunningRun(c: Search) returns (counts: seq<BloomCounts.State>, start: Probed, run: seq<State>)
    requires Valid(c) && !Sparse(c) && (forall k | 0 <= k < 3 :: c.hashes[k].m > 0) && Strays(c)
    ensures MainRun(c, counts, start, run) && run[|run| - 1].overrun
  {
    counts, start, run := DenseRun(c);
    MainOverruns(c, counts, start, run);
  }

  /** The filter of 40 bits that holds the vertices 1 to 20, with the hash x mod 40 three times: M has one word
      for the 32 vertices, and from the zero bit 0 a run of main clears bit 40. */
  lemma OverrunExample(c: Search) returns (counts: seq<BloomCounts.State>, start: Probed, run: seq<State>)
    requires c == Search(seq(3, _ => Hash(1, 0, 40)), 32, 40, Numbers(1, 20))
    ensures MainRun(c, counts, start, run) && run[|run| - 1].overrun && Bits(c) == 32
    ensures forall x | x in c.ones :: HashOf(Hash(1, 0, 40), x) == x
  {
    HalfFilter(c);
    FortyIsStray(c);
    counts, start, run := OverrunningRun(c);
    forall x | x in c.ones ensures HashOf(Hash(1, 0, 40), x) == x {
      OwnHash(Hash(1, 0, 40), x);
    }
  }
}
