/** Worker threads that take the words of the filter from a shared cursor and process them, and what
    is in M when all of them have exited. One reconstruct call is one step. */
module BloomRuns {
  import opened Bitmaps
  import opened BloomArithmetic
  import opened BloomInversion
  import opened Runs
  import opened Sums

  /** The search: the hashes, the vertices, the length of the filter and the bits that are set in it. */
  datatype Search = Search(hashes: seq<Hash>, nVertices: int, vectSize: int, ones: set<int>)

  ghost predicate Valid(c: Search) {
    ValidHashes(c.hashes, c.vectSize)
  }

  /** The number of bits of M. */
  function Bits(c: Search): nat { NUM_BITS * TableWords(c.nVertices) }

  /** The number of words the cursor runs over. */
  function Words(c: Search): int { CeilDiv(c.vectSize, NUM_BITS) }

  ghost function WordHits(c: Search, on: bool, loc: int): set<int>
    requires Valid(c)
  {
    Hits(c.hashes, c.nVertices, c.ones, on, loc * NUM_BITS, (loc + 1) * NUM_BITS)
  }

  /** Processing the word by reconstruct0 writes behind M. */
  ghost predicate WordOverruns(c: Search, loc: int)
    requires Valid(c)
  {
    OverrunsIn(c.hashes, c.nVertices, Bits(c), c.ones, loc * NUM_BITS, (loc + 1) * NUM_BITS)
  }

  /** What one call of reconstruct1 (on) or reconstruct0 (off) does to checked, M and numMemberships. */
  ghost function Apply(c: Search, on: bool, xs: set<int>, t: Probed): Probed
    requires Valid(c)
  {
    if on then ProbeSet(c.hashes, c.ones, xs, t) else t.(accepted := t.accepted - xs)
  }

  datatype Phase = Fetching | Working(loc: nat) | Exited

  /** done lists the words that have been processed, overrun tells whether some write was behind M. */
  datatype State = State(nextLoc: nat, phases: seq<Phase>, done: seq<nat>, table: Probed, overrun: bool)

  ghost predicate Init(start: Probed, s: State) {
    && s.nextLoc == 0 && s.done == [] && s.table == start && !s.overrun
    && forall t | 0 <= t < |s.phases| :: s.phases[t] == Fetching
  }

  /** A thread takes the next word under the lock, or exits; then it processes the word it took. */
  ghost function Step(c: Search, on: bool, s: State, t: nat): State
    requires Valid(c) && t < |s.phases|
  {
    match s.phases[t]
    case Fetching =>
      if s.nextLoc < Words(c)
      then s.(nextLoc := s.nextLoc + 1, phases := s.phases[t := Working(s.nextLoc)])
      else s.(phases := s.phases[t := Exited])
    case Working(loc) =>
      s.(phases := s.phases[t := Fetching], done := s.done + [loc],
         table := Apply(c, on, WordHits(c, on, loc), s.table),
         overrun := s.overrun || (!on && WordOverruns(c, loc)))
    case Exited => s
  }

  ghost predicate Next(c: Search, on: bool, s: State, s': State)
    requires Valid(c)
  {
    exists t: nat :: t < |s.phases| && s.phases[t] != Exited && s' == Step(c, on, s, t)
  }

  ghost predicate Run(c: Search, on: bool, start: Probed, run: seq<State>)
    requires Valid(c)
  {
    IsRun((s: State) => Init(start, s), (s: State, s': State) => Next(c, on, s, s'), run)
  }

  ghost predicate AllExited(s: State) { |s.phases| > 0 && forall t | 0 <= t < |s.phases| :: s.phases[t] == Exited }

  // ---- Each word exactly once ------------------------------------------------------------------

  ghost function HitsOf(c: Search, on: bool, locs: seq<nat>): set<int>
    requires Valid(c)
  {
    if locs == [] then {} else HitsOf(c, on, locs[..|locs| - 1]) + WordHits(c, on, locs[|locs| - 1])
  }

  ghost predicate Once(c: Search, s: State) {
    && (forall i, j | 0 <= i < j < |s.done| :: s.done[i] != s.done[j])
    && (forall i | 0 <= i < |s.done| :: s.done[i] < s.nextLoc)
    && (forall t | 0 <= t < |s.phases| && s.phases[t].Working? ::
        s.phases[t].loc < s.nextLoc && s.phases[t].loc !in s.done)
    && (forall t, u | 0 <= t < u < |s.phases| && s.phases[t].Working? && s.phases[u].Working? ::
          s.phases[t].loc != s.phases[u].loc)
    && (forall k: nat | k < s.nextLoc :: k in s.done || Working(k) in s.phases)
    && (s.nextLoc == 0 || s.nextLoc <= Words(c))
    && (Exited in s.phases ==> s.nextLoc >= Words(c))
  }

  ghost predicate Inv(c: Search, on: bool, start: Probed, s: State)
    requires Valid(c)
  {
    && Once(c, s) && s.table == Apply(c, on, HitsOf(c, on, s.done), start)
    && (s.overrun <==> !on && SomeOverruns(c, s.done))
  }

  ghost predicate SomeOverruns(c: Search, locs: seq<nat>)
    requires Valid(c)
  {
    exists k | 0 <= k < |locs| :: WordOverruns(c, locs[k])
  }

  lemma OneMoreWord(c: Search, locs: seq<nat>, loc: nat)
    requires Valid(c)
    ensures SomeOverruns(c, locs + [loc]) <==> SomeOverruns(c, locs) || WordOverruns(c, loc)
  {
    var longer := locs + [loc];
    assert longer[|locs|] == loc;
    if k :| 0 <= k < |locs| && WordOverruns(c, locs[k]) {
      assert longer[k] == locs[k];
    }
  }

  lemma OnceKept(c: Search, on: bool, s: State, t: nat)
    requires Valid(c) && Once(c, s) && t < |s.phases| && s.phases[t] != Exited
    ensures Once(c, Step(c, on, s, t))
  {
    var s' := Step(c, on, s, t);
    forall k: nat | k < s'.nextLoc
      ensures k in s'.done || Working(k) in s'.phases
    {
      if k < s.nextLoc && k !in s.done {
        var u :| 0 <= u < |s.phases| && s.phases[u] == Working(k);
        if u == t {
          assert s'.done[|s.done|] == k;
        } else {
          assert s'.phases[u] == Working(k);
        }
      } else if k == s.nextLoc {
        assert s'.phases[t] == Working(k);
      }
    }
  }

  lemma InvKept(c: Search, on: bool, start: Probed, s: State, t: nat)
    requires Valid(c) && Inv(c, on, start, s) && t < |s.phases| && s.phases[t] != Exited
    ensures Inv(c, on, start, Step(c, on, s, t))
  {
    OnceKept(c, on, s, t);
    var s' := Step(c, on, s, t);
    if s.phases[t].Working? {
      assert s'.done[..|s'.done| - 1] == s.done;
      ApplyTwice(c, on, HitsOf(c, on, s.done), WordHits(c, on, s.phases[t].loc), start);
      OneMoreWord(c, s.done, s.phases[t].loc);
    }
  }

  lemma ApplyTwice(c: Search, on: bool, xs: set<int>, ys: set<int>, t: Probed)
    requires Valid(c)
    ensures Apply(c, on, ys, Apply(c, on, xs, t)) == Apply(c, on, xs + ys, t)
  {
    if on {
      ProbeSetTwice(c.hashes, c.ones, xs, ys, t);
    } else {
      assert (t.accepted - xs) - ys == t.accepted - (xs + ys);
    }
  }

  lemma {:induction false} HitsOfIs(c: Search, on: bool, locs: seq<nat>, x: int)
    requires Valid(c)
    ensures x in HitsOf(c, on, locs) <==> exists k | 0 <= k < |locs| :: x in WordHits(c, on, locs[k])
  {
    if locs != [] {
      HitsOfIs(c, on, locs[..|locs| - 1], x);
      if x in HitsOf(c, on, locs[..|locs| - 1]) {
        var k :| 0 <= k < |locs| - 1 && x in WordHits(c, on, locs[..|locs| - 1][k]);
        assert x in WordHits(c, on, locs[k]);
      }
      if k :| 0 <= k < |locs| && x in WordHits(c, on, locs[k]) {
        if k < |locs| - 1 {
          assert locs[..|locs| - 1][k] == locs[k];
        }
      }
    }
  }

  // ---- What the hits are -----------------------------------------------------------------------

  lemma {:induction false} PreimagesIs(hashes: seq<Hash>, n: int, i: int, on: bool, k: nat, x: int)
    requires AllValid(hashes) && k <= |hashes|
    ensures x in Preimages(hashes, n, i, on, k) <==> exists j | 0 <= j < k :: x in Reached(hashes[j], n, i, on)
  {
    if k > 0 {
      PreimagesIs(hashes, n, i, on, k - 1, x);
    }
  }

  /** x is a hit of bit i: some hash relates it to that bit. */
  ghost predicate HitBy(c: Search, on: bool, i: int, x: int)
    requires Valid(c)
  {
    (i in c.ones) == on && exists j | 0 <= j < |c.hashes| :: x in Reached(c.hashes[j], c.nVertices, i, on)
  }

  /** For a vertex that means that it solves one of the hashes for the bit. */
  lemma VertexHit(c: Search, on: bool, i: int, x: int)
    requires Valid(c) && 1 <= x < c.nVertices
    ensures HitBy(c, on, i, x) <==> (i in c.ones) == on && exists j | 0 <= j < |c.hashes| :: Solves(c.hashes[j], i, x)
  {
    forall j | 0 <= j < |c.hashes|
      ensures x in Reached(c.hashes[j], c.nVertices, i, on) <==> Solves(c.hashes[j], i, x)
    {
      if x in Beyond(c.hashes[j], i, c.nVertices) {
        BeyondIs(c.hashes[j], i, c.nVertices, x);
      }
    }
  }

  lemma {:induction false} HitsIs(c: Search, on: bool, lo: int, hi: int, x: int)
    requires Valid(c)
    ensures x in Hits(c.hashes, c.nVertices, c.ones, on, lo, hi) <==> exists i | lo <= i < hi :: HitBy(c, on, i, x)
    decreases hi - lo
  {
    if lo < hi {
      HitsIs(c, on, lo, hi - 1, x);
      PreimagesIs(c.hashes, c.nVertices, hi - 1, on, |c.hashes|, x);
      assert HitBy(c, on, hi - 1, x)
        <==> (hi - 1 in c.ones) == on && exists j | 0 <= j < |c.hashes| ::
            x in Reached(c.hashes[j], c.nVertices, hi - 1, on);
    }
  }

  ghost function AllHits(c: Search, on: bool): set<int>
    requires Valid(c)
  {
    Hits(c.hashes, c.nVertices, c.ones, on, 0, Words(c) * NUM_BITS)
  }

  /** Processing every word once, in any order, meets all hits. */
  lemma HitInList(c: Search, on: bool, locs: seq<nat>, i: nat, x: int) returns (k: nat)
    requires Valid(c) && (forall k: nat :: k in locs <==> k < Words(c)) && i < Words(c) * NUM_BITS && HitBy(c, on, i, x)
    ensures k < |locs| && x in WordHits(c, on, locs[k])
  {
    assert i / NUM_BITS in locs;
    k :| 0 <= k < |locs| && locs[k] == i / NUM_BITS;
    HitsIs(c, on, locs[k] * NUM_BITS, (locs[k] + 1) * NUM_BITS, x);
  }

  lemma OrderIrrelevant(c: Search, on: bool, locs: seq<nat>)
    requires Valid(c) && forall k: nat :: k in locs <==> k < Words(c)
    ensures HitsOf(c, on, locs) == AllHits(c, on)
  {
    forall x ensures x in HitsOf(c, on, locs) <==> x in AllHits(c, on) {
      HitsOfIs(c, on, locs, x);
      HitsIs(c, on, 0, Words(c) * NUM_BITS, x);
      if k :| 0 <= k < |locs| && x in WordHits(c, on, locs[k]) {
        assert locs[k] in locs;
        var i := WordHit(c, on, locs[k], x);
      }
      if i: nat :| 0 <= i < Words(c) * NUM_BITS && HitBy(c, on, i, x) {
        var k := HitInList(c, on, locs, i, x);
      }
    }
  }

  lemma WordHit(c: Search, on: bool, loc: nat, x: int) returns (i: int)
    requires Valid(c) && x in WordHits(c, on, loc) && loc < Words(c)
    ensures 0 <= i < Words(c) * NUM_BITS && HitBy(c, on, i, x)
  {
    HitsIs(c, on, loc * NUM_BITS, (loc + 1) * NUM_BITS, x);
    i :| loc * NUM_BITS <= i < (loc + 1) * NUM_BITS && HitBy(c, on, i, x);
  }

  /** Some zero bit of the words makes reconstruct0 write behind M. */
  ghost predicate Overrunning(c: Search)
    requires Valid(c)
  {
    OverrunsIn(c.hashes, c.nVertices, Bits(c), c.ones, 0, Words(c) * NUM_BITS)
  }

  lemma AllWordsOverrun(c: Search, locs: seq<nat>)
    requires Valid(c) && forall k: nat :: k in locs <==> k < Words(c)
    ensures SomeOverruns(c, locs) <==> Overrunning(c)
  {
    if k :| 0 <= k < |locs| && WordOverruns(c, locs[k]) {
      assert locs[k] in locs;
      var i :| locs[k] * NUM_BITS <= i < (locs[k] + 1) * NUM_BITS
        && i !in c.ones && BitOverruns(c.hashes, c.nVertices, Bits(c), i);
      assert 0 <= i < Words(c) * NUM_BITS;
    }
    if i :| 0 <= i < Words(c) * NUM_BITS && i !in c.ones && BitOverruns(c.hashes, c.nVertices, Bits(c), i) {
      assert i / NUM_BITS in locs;
      var k :| 0 <= k < |locs| && locs[k] == i / NUM_BITS;
      assert WordOverruns(c, locs[k]);
    }
  }

  /** When all threads have exited, every word was processed exactly once and the outcome does not
      depend on the order in which that happened. */
  lemma EndOfRun(c: Search, on: bool, start: Probed, run: seq<State>)
    requires Valid(c) && Run(c, on, start, run) && AllExited(run[|run| - 1])
    ensures var s := run[|run| - 1];
            && (forall i, j | 0 <= i < j < |s.done| :: s.done[i] != s.done[j])
            && (forall k: nat :: k in s.done <==> k < Words(c))
            && s.table == Apply(c, on, AllHits(c, on), start)
            && (s.overrun <==> !on && Overrunning(c))
  {
    var init, next := (s: State) => Init(start, s), (s: State, s': State) => Next(c, on, s, s');
    var inv := (s: State) => Inv(c, on, start, s);
    forall s | Init(start, s) ensures Inv(c, on, start, s) {
      ApplyNothing(c, on, start);
    }
    forall s, s' | Inv(c, on, start, s) && Next(c, on, s, s') ensures Inv(c, on, start, s') {
      var t: nat :| t < |s.phases| && s.phases[t] != Exited && s' == Step(c, on, s, t);
      InvKept(c, on, start, s, t);
    }
    Invariance(init, next, inv, run, |run| - 1);
    var s := run[|run| - 1];
    assert s.phases[0] == Exited;
    OrderIrrelevant(c, on, s.done);
    AllWordsOverrun(c, s.done);
  }

  lemma ApplyNothing(c: Search, on: bool, t: Probed)
    requires Valid(c)
    ensures Apply(c, on, {}, t) == t
  {
    ProbeNothing(c.hashes, c.ones, t);
  }

  // ---- Termination -----------------------------------------------------------------------------------

  function PhaseWork(f: Phase): int { match f case Fetching => 1 case Working(_) => 2 case Exited => 0 }

  ghost function WorkLeft(c: Search, s: State): int {
    2 * (if s.nextLoc < Words(c) then Words(c) - s.nextLoc else 0) + Sum(PhaseWork, s.phases)
  }

  lemma WorkDrops(c: Search, on: bool, s: State, t: nat)
    requires Valid(c) && t < |s.phases| && s.phases[t] != Exited
    ensures WorkLeft(c, Step(c, on, s, t)) < WorkLeft(c, s)
  {
    SumUpdate(PhaseWork, s.phases, t, Step(c, on, s, t).phases[t]);
  }

  lemma {:induction false} WorkSpent(c: Search, on: bool, start: Probed, run: seq<State>, i: nat)
    requires Valid(c) && Run(c, on, start, run) && i < |run|
    ensures i + WorkLeft(c, run[i]) <= WorkLeft(c, run[0])
  {
    if i > 0 {
      WorkSpent(c, on, start, run, i - 1);
      assert Next(c, on, run[i - 1], run[i]);
      var t: nat :| t < |run[i - 1].phases| && run[i - 1].phases[t] != Exited && run[i] == Step(c, on, run[i - 1], t);
      WorkDrops(c, on, run[i - 1], t);
    }
  }

  /** Some thread can go on until all have exited, and every run ends after at most two steps per word and
      one per thread. */
  lemma RunsEnd(c: Search, on: bool, start: Probed, run: seq<State>, i: nat)
    requires Valid(c) && Run(c, on, start, run) && i < |run|
    ensures i <= 2 * (if Words(c) > 0 then Words(c) else 0) + |run[0].phases|
    ensures (forall t | 0 <= t < |run[i].phases| :: run[i].phases[t] == Exited) || exists s' :: Next(c, on, run[i], s')
  {
    WorkSpent(c, on, start, run, i);
    SumNonNegative(PhaseWork, run[i].phases);
    SumBounds(PhaseWork, run[0].phases, 1, 1);
    if t: nat :| t < |run[i].phases| && run[i].phases[t] != Exited {
      assert Next(c, on, run[i], Step(c, on, run[i], t));
    }
  }

  lemma {:induction false} OneThread(c: Search, on: bool, start: Probed, run: seq<State>) returns (whole: seq<State>)
    requires Valid(c) && Run(c, on, start, run) && |run[|run| - 1].phases| == 1
    ensures Run(c, on, start, whole) && AllExited(whole[|whole| - 1])
    decreases WorkLeft(c, run[|run| - 1])
  {
    var s := run[|run| - 1];
    if s.phases[0] == Exited {
      whole := run;
    } else {
      WorkDrops(c, on, s, 0);
      SumNonNegative(PhaseWork, s.phases);
      assert Next(c, on, s, Step(c, on, s, 0));
      RunGrows((s: State) => Init(start, s), (s: State, s': State) => Next(c, on, s, s'), run, Step(c, on, s, 0));
      whole := OneThread(c, on, start, run + [Step(c, on, s, 0)]);
    }
  }

  /** Such a run exists: a single thread goes on until it exits. */
  lemma SomeRun(c: Search, on: bool, start: Probed) returns (run: seq<State>)
    requires Valid(c)
    ensures Run(c, on, start, run) && AllExited(run[|run| - 1])
  {
    run := OneThread(c, on, start, [State(0, [Fetching], [], start, false)]);
  }

  // ---- Against brute force ------------------------------------------------------------------------

  /** The vertices whose three bits are all set. */
  ghost function BruteForce(c: Search): set<int>
    requires Valid(c)
  {
    set x | 1 <= x < c.nVertices && IsIn(c.hashes, c.ones, x)
  }

  lemma HashInFilter(c: Search, k: int, x: int)
    requires Valid(c) && 0 <= k < 3 && x >= 1
    ensures 0 <= HashOf(c.hashes[k], x) < Words(c) * NUM_BITS && Solves(c.hashes[k], HashOf(c.hashes[k], x), x)
  {
    assert ValidHash(c.hashes[k]);
    SolvesOwn(c.hashes[k], x);
    CeilDivCovers(c.vectSize, NUM_BITS, Words(c));
  }

  /** reconstruct1 started with M and checked empty finds exactly the vertices that are in the filter,
      and looks up as many as there are different candidates. */
  lemma ReconstructOnes(c: Search, run: seq<State>)
    requires Valid(c)
    requires Run(c, true, Probed({}, {}, 0), run) && AllExited(run[|run| - 1])
    ensures var t := run[|run| - 1].table;
            t.accepted == BruteForce(c) && t.checked == AllHits(c, true) && t.lookups == |t.checked|
  {
    EndOfRun(c, true, Probed({}, {}, 0), run);
    var hits := AllHits(c, true);
    assert hits - {} == hits;
    forall x
      ensures x in Accepted(c.hashes, c.ones, hits) <==> x in BruteForce(c)
    {
      HitsIs(c, true, 0, Words(c) * NUM_BITS, x);
      if x in BruteForce(c) {
        var i := HashOf(c.hashes[0], x);
        HashInFilter(c, 0, x);
        VertexHit(c, true, i, x);
      }
    }
  }

  /** Zero bit i, at or beyond the modulus of hash k, stands for vertex x too: it is the hash of x plus a
      multiple of the modulus, and the loop over count does reach x from it. */
  predicate Alias(c: Search, k: int, i: int, x: int)
    requires |c.hashes| == 3 && 0 <= k < 3 && c.hashes[k].m > 0
  {
    var h := c.hashes[k];
    h.m <= i && i !in c.ones && i % h.m == HashOf(h, x) && i <= h.a * x + h.b
  }

  /** No vertex that is in the filter has an alias. The loop over the bits goes on to the end of the last
      word, so it does look there. */
  ghost predicate NoAliases(c: Search)
    requires Valid(c)
  {
    forall x | x in BruteForce(c) :: !Aliased(c, x)
  }

  predicate Aliased(c: Search, x: int)
    requires |c.hashes| == 3 && forall k | 0 <= k < 3 :: c.hashes[k].m > 0
  {
    exists k, i | 0 <= k < 3 && 0 <= i < Words(c) * NUM_BITS :: Alias(c, k, i, x)
  }

  ghost function Vertices(c: Search, m: set<int>): set<int> {
    set x | x in m && 1 <= x < c.nVertices
  }

  /** A vertex in the filter is reached from a zero bit exactly if it has an alias there. */
  lemma AliasIsHit(c: Search, i: int, x: int)
    requires Valid(c) && 0 <= i < Words(c) * NUM_BITS && x in BruteForce(c)
    ensures c.hashes[0].m > 0 && c.hashes[1].m > 0 && c.hashes[2].m > 0
    ensures HitBy(c, false, i, x) <==> exists k | 0 <= k < 3 :: Alias(c, k, i, x)
  {
    VertexHit(c, false, i, x);
    forall k | 0 <= k < 3
      ensures c.hashes[k].m > 0 && (i !in c.ones ==> (Solves(c.hashes[k], i, x) <==> Alias(c, k, i, x)))
    {
      assert ValidHash(c.hashes[k]);
      SolvesIs(c.hashes[k], i, x);
    }
  }

  /** Bits that are no vertices: cleared if the last sample of some loop hits them. */
  ghost predicate Swept(c: Search, x: int)
    requires Valid(c)
  {
    exists i | 0 <= i < Words(c) * NUM_BITS :: HitBy(c, false, i, x)
  }

  lemma ZerosKeep(c: Search, start: Probed, run: seq<State>, x: int)
    requires Valid(c) && Run(c, false, start, run) && AllExited(run[|run| - 1])
    ensures x in run[|run| - 1].table.accepted <==> x in start.accepted && !Swept(c, x)
  {
    EndOfRun(c, false, start, run);
    HitsIs(c, false, 0, Words(c) * NUM_BITS, x);
  }

  lemma OutsideSwept(c: Search, x: int)
    requires Valid(c) && x < 1
    ensures !Swept(c, x)
  {
    forall i, j | 0 <= i < Words(c) * NUM_BITS && 0 <= j < |c.hashes|
      ensures x !in Reached(c.hashes[j], c.nVertices, i, false)
    {
      if x in Beyond(c.hashes[j], i, c.nVertices) {
        BeyondIs(c.hashes[j], i, c.nVertices, x);
      }
    }
  }

  /** reconstruct0 started with every vertex in M never keeps a vertex that is not in the filter. It keeps
      all that are exactly if there are no aliases. Bit 0, which setM sets, always stays. */
  lemma ReconstructZeros(c: Search, start: Probed, run: seq<State>)
    requires Valid(c) && (forall x | 1 <= x < c.nVertices :: x in start.accepted)
    requires Run(c, false, start, run) && AllExited(run[|run| - 1])
    ensures var m := run[|run| - 1].table.accepted;
            && Vertices(c, m) <= BruteForce(c)
            && (Vertices(c, m) == BruteForce(c) <==> NoAliases(c))
            && (forall x :: x in m <==> x in start.accepted && !Swept(c, x))
            && (0 in m <==> 0 in start.accepted)
  {
    var m := run[|run| - 1].table.accepted;
    forall x ensures x in m <==> x in start.accepted && !Swept(c, x) {
      ZerosKeep(c, start, run, x);
    }
    OutsideSwept(c, 0);
    forall x | x in Vertices(c, m) ensures IsIn(c.hashes, c.ones, x) {
      KeptIsIn(c, x);
    }
    forall x | x in BruteForce(c) ensures Aliased(c, x) <==> x !in m {
      AliasedIsSwept(c, x);
    }
  }

  lemma AliasedIsSwept(c: Search, x: int)
    requires Valid(c) && x in BruteForce(c)
    ensures Aliased(c, x) <==> Swept(c, x)
  {
    forall k | 0 <= k < 3 ensures c.hashes[k].m > 0 {
      assert ValidHash(c.hashes[k]);
    }
    if Aliased(c, x) {
      var k, i :| 0 <= k < 3 && 0 <= i < Words(c) * NUM_BITS && Alias(c, k, i, x);
      AliasIsHit(c, i, x);
    }
    if Swept(c, x) {
      var i :| 0 <= i < Words(c) * NUM_BITS && HitBy(c, false, i, x);
      AliasIsHit(c, i, x);
    }
  }

  lemma KeptIsIn(c: Search, x: int)
    requires Valid(c) && 1 <= x < c.nVertices && !Swept(c, x)
    ensures IsIn(c.hashes, c.ones, x)
  {
    forall k | 0 <= k < 3
      ensures HashOf(c.hashes[k], x) in c.ones
    {
      var i := HashOf(c.hashes[k], x);
      HashInFilter(c, k, x);
      VertexHit(c, false, i, x);
      assert !HitBy(c, false, i, x);
    }
  }

  /** The two reconstructions give the same vertices exactly if there are no aliases. */
  lemma ReconstructionsAgree(c: Search, start: Probed, zeros: seq<State>, ones: seq<State>)
    requires Valid(c) && (forall x | 1 <= x < c.nVertices :: x in start.accepted)
    requires Run(c, false, start, zeros) && AllExited(zeros[|zeros| - 1])
    requires Run(c, true, Probed({}, {}, 0), ones) && AllExited(ones[|ones| - 1])
    ensures Vertices(c, zeros[|zeros| - 1].table.accepted) == ones[|ones| - 1].table.accepted <==> NoAliases(c)
  {
    ReconstructZeros(c, start, zeros);
    ReconstructOnes(c, ones);
  }

  /** There are none if every modulus covers all bits of the words of the filter. */
  lemma FullModuliHaveNoAliases(c: Search)
    requires Valid(c) && forall k | 0 <= k < 3 :: c.hashes[k].m >= Words(c) * NUM_BITS
    ensures NoAliases(c)
  {
  }

  // ---- Writes behind the words of M ---------------------------------------------------------------------

  /** From zero bit i the loop over count of hash k ends with x, which lies behind M. */
  predicate Stray(c: Search, k: int, i: int, x: int)
    requires |c.hashes| == 3 && 0 <= k < 3 && c.hashes[k].m > 0
  {
    i !in c.ones && x >= Bits(c) && Overshoots(c.hashes[k], i, c.nVertices, x)
  }

  /** No x far from the vertices and the bits has to be looked at. */
  predicate Strays(c: Search)
    requires |c.hashes| == 3 && forall k | 0 <= k < 3 :: c.hashes[k].m > 0
  {
    exists k, i, x | 0 <= k < 3 && 0 <= i < Words(c) * NUM_BITS
                     && Bits(c) <= x < c.nVertices + c.vectSize + Words(c) * NUM_BITS :: Stray(c, k, i, x)
  }

  lemma OverrunsAreStrays(c: Search)
    requires Valid(c)
    ensures forall k | 0 <= k < 3 :: c.hashes[k].m > 0
    ensures Overrunning(c) <==> Strays(c)
  {
    forall k | 0 <= k < 3 ensures ValidHash(c.hashes[k]) && c.hashes[k].m <= c.vectSize {
    }
    if Overrunning(c) {
      var i :| 0 <= i < Words(c) * NUM_BITS && i !in c.ones && BitOverruns(c.hashes, c.nVertices, Bits(c), i);
      var k :| 0 <= k < 3 && Overruns(c.hashes[k], c.nVertices, Bits(c), i);
      var x := LastSample(c.hashes[k], i, c.nVertices);
      BeyondOvershoots(c.hashes[k], i, c.nVertices, x);
      OvershootsNear(c.hashes[k], i, c.nVertices, x);
      assert Stray(c, k, i, x);
    }
    if Strays(c) {
      var k, i, x :| 0 <= k < 3 && 0 <= i < Words(c) * NUM_BITS
        && Bits(c) <= x < c.nVertices + c.vectSize + Words(c) * NUM_BITS && Stray(c, k, i, x);
      StrayOverruns(c, k, i, x);
    }
  }

  lemma StrayOverruns(c: Search, k: int, i: int, x: int)
    requires Valid(c) && 0 <= k < 3 && 0 <= i < Words(c) * NUM_BITS
    requires ValidHash(c.hashes[k]) && Stray(c, k, i, x)
    ensures Overrunning(c)
  {
    BeyondOvershoots(c.hashes[k], i, c.nVertices, x);
    assert Overruns(c.hashes[k], c.nVertices, Bits(c), i);
    assert BitOverruns(c.hashes, c.nVertices, Bits(c), i);
  }

  /** A run of reconstruct0 writes behind M exactly if, from some zero bit, the loop of some hash ends with
      a number whose bit M does not have. A run of reconstruct1 never does. */
  lemma RunOverruns(c: Search, on: bool, start: Probed, run: seq<State>)
    requires Valid(c) && Run(c, on, start, run) && AllExited(run[|run| - 1])
    ensures forall k | 0 <= k < 3 :: c.hashes[k].m > 0
    ensures run[|run| - 1].overrun <==> !on && Strays(c)
  {
    EndOfRun(c, on, start, run);
    OverrunsAreStrays(c);
  }

  // ---- The calls themselves ------------------------------------------------------------------------------

  /** The search that the globals describe. */
  ghost function SearchOf(inv: Inverter): Search
    requires inv.Valid()
    reads inv.vector
  {
    Search(inv.hashes, inv.nVertices, inv.vectSize, Members(inv.vector))
  }

  lemma HitsJoin(c: Search, on: bool, lo: int, mid: int, hi: int)
    requires Valid(c) && lo <= mid <= hi
    ensures Hits(c.hashes, c.nVertices, c.ones, on, lo, hi)
         == Hits(c.hashes, c.nVertices, c.ones, on, lo, mid) + Hits(c.hashes, c.nVertices, c.ones, on, mid, hi)
  {
    forall x
      ensures x in Hits(c.hashes, c.nVertices, c.ones, on, lo, hi)
         <==> x in Hits(c.hashes, c.nVertices, c.ones, on, lo, mid)
              || x in Hits(c.hashes, c.nVertices, c.ones, on, mid, hi)
    {
      HitsIs(c, on, lo, hi, x);
      HitsIs(c, on, lo, mid, x);
      HitsIs(c, on, mid, hi, x);
    }
  }

  /** What the call for one more word clears, and whether it writes behind M. */
  lemma WordNext(c: Search, loc: int, start: set<int>, m: set<int>, m': set<int>, before: bool, wild: bool)
    requires Valid(c) && loc >= 0
    requires m == start - Hits(c.hashes, c.nVertices, c.ones, false, 0, loc * NUM_BITS)
    requires m' == m - WordHits(c, false, loc)
    requires before <==> OverrunsIn(c.hashes, c.nVertices, Bits(c), c.ones, 0, loc * NUM_BITS)
    requires wild <==> WordOverruns(c, loc)
    ensures m' == start - Hits(c.hashes, c.nVertices, c.ones, false, 0, (loc + 1) * NUM_BITS)
    ensures before || wild <==> OverrunsIn(c.hashes, c.nVertices, Bits(c), c.ones, 0, (loc + 1) * NUM_BITS)
  {
    HitsJoin(c, false, 0, loc * NUM_BITS, (loc + 1) * NUM_BITS);
  }

  /** reconstruct0_thread on its own: the calls for all words. */
  method ReconstructAll(inv: Inverter) returns (overrun: bool)
    requires inv.Valid() && inv.M.Length0 == TableWords(inv.nVertices)
    modifies inv.M
    ensures Valid(SearchOf(inv)) && SearchOf(inv) == old(SearchOf(inv))
    ensures Members(inv.M) == old(Members(inv.M)) - AllHits(SearchOf(inv), false)
    ensures forall k | 0 <= k < 3 :: inv.hashes[k].m > 0
    ensures overrun <==> Strays(SearchOf(inv))
  {
    ghost var c, start := SearchOf(inv), Members(inv.M);
    var loc := 0;
    overrun := false;
    while loc < CeilDiv(inv.vectSize, NUM_BITS)
      invariant 0 <= loc && (loc == 0 || loc <= Words(c)) && SearchOf(inv) == c
      invariant Members(inv.M) == start - Hits(c.hashes, c.nVertices, c.ones, false, 0, loc * NUM_BITS)
      invariant overrun <==> OverrunsIn(c.hashes, c.nVertices, Bits(c), c.ones, 0, loc * NUM_BITS)
    {
      ghost var m, before := Members(inv.M), overrun;
      var wild := inv.Reconstruct0(loc);
      WordNext(c, loc, start, m, Members(inv.M), before, wild);
      overrun := overrun || wild;
      loc := loc + 1;
    }
    OverrunsAreStrays(c);
  }
}
