/** Inverting a Bloom filter: the vertices whose three hash bits are all set, found either by
    removing the preimages of the zero bits or by filtering the preimages of the one bits. Worker
    threads share the words of the filter out through a cursor. */
module BloomInversion {
  import opened Bitmaps
  import opened BloomArithmetic

  ghost predicate ValidHashes(hashes: seq<Hash>, vectSize: int) {
    && |hashes| == 3
    && forall k | 0 <= k < 3 :: ValidHash(hashes[k]) && hashes[k].m <= vectSize
  }

  /** The samples that the loops of reconstruct1 (on) or reconstruct0 (off) act on for one hash. */
  ghost function Reached(h: Hash, n: int, i: int, on: bool): set<int>
    requires ValidHash(h)
  {
    if on then Solutions(h, i, n) else Solutions(h, i, n) + Beyond(h, i, n)
  }

  ghost predicate AllValid(hashes: seq<Hash>) { forall k | 0 <= k < |hashes| :: ValidHash(hashes[k]) }

  /** Those of the first k hashes for bit i. */
  ghost function Preimages(hashes: seq<Hash>, n: int, i: int, on: bool, k: nat): set<int>
    requires AllValid(hashes) && k <= |hashes|
  {
    if k == 0 then {} else Preimages(hashes, n, i, on, k - 1) + Reached(hashes[k - 1], n, i, on)
  }

  /** The samples that some hash relates to a bit in [lo, hi) whose value is on. */
  ghost function Hits(hashes: seq<Hash>, n: int, ones: set<int>, on: bool, lo: int, hi: int): set<int>
    requires AllValid(hashes)
    decreases hi - lo
  {
    if hi <= lo then {}
    else
      Hits(hashes, n, ones, on, lo, hi - 1)
      + (if (hi - 1 in ones) == on then Preimages(hashes, n, hi - 1, on, |hashes|) else {})
  }

  /** is_in, which belongs to the filter and is not shown: all hash bits of x are set. */
  predicate IsIn(hashes: seq<Hash>, ones: set<int>, x: int)
    requires forall k | 0 <= k < |hashes| :: hashes[k].m > 0
  {
    forall k | 0 <= k < |hashes| :: HashOf(hashes[k], x) in ones
  }

  /** The number of words of M and checked. */
  function TableWords(nVertices: int): nat { if nVertices > 0 then CeilDiv(nVertices, NUM_BITS) else 0 }

  /** The loop over count in reconstruct0 writes behind M, which has the given number of bits. */
  predicate Overruns(h: Hash, n: int, bits: int, i: int)
    requires ValidHash(h)
  {
    Exact(h, i, n) && LastSample(h, i, n) >= bits
  }

  ghost predicate BitOverruns(hashes: seq<Hash>, n: int, bits: int, i: int)
    requires AllValid(hashes)
  {
    exists k | 0 <= k < |hashes| :: Overruns(hashes[k], n, bits, i)
  }

  /** Some zero bit in [lo, hi) makes it do so. */
  ghost predicate OverrunsIn(hashes: seq<Hash>, n: int, bits: int, ones: set<int>, lo: int, hi: int)
    requires AllValid(hashes)
  {
    exists i | lo <= i < hi :: i !in ones && BitOverruns(hashes, n, bits, i)
  }

  class Inverter {
    const hashes: seq<Hash>
    const nVertices: int
    const vectSize: int
    const vector: array2<bool>
    const M: array2<bool>
    const checked: array2<bool>
    var numMemberships: int

    ghost predicate Valid() {
      && ValidHashes(hashes, vectSize)
      && vector.Length1 == M.Length1 == checked.Length1 == NUM_BITS
      && vector != M && vector != checked && M != checked
      && CeilDiv(vectSize, NUM_BITS) <= vector.Length0
      && nVertices <= NUM_BITS * M.Length0 && nVertices <= NUM_BITS * checked.Length0
    }

    /** The words of the globals as main allocates them. */
    constructor (hashes: seq<Hash>, nVertices: int, vectSize: int, vector: array2<bool>)
      requires ValidHashes(hashes, vectSize)
      requires vector.Length1 == NUM_BITS && vector.Length0 == vectSize / NUM_BITS + 1
      ensures Valid() && fresh(M) && fresh(checked) && Members(checked) == {} && numMemberships == 0
      ensures this.hashes == hashes && this.nVertices == nVertices && this.vectSize == vectSize && this.vector == vector
      ensures M.Length0 == checked.Length0 == TableWords(nVertices)
    {
      this.hashes, this.nVertices, this.vectSize, this.vector := hashes, nVertices, vectSize, vector;
      var size := TableWords(nVertices);
      M := new bool[size, NUM_BITS]((i, j) => false);
      checked := new bool[size, NUM_BITS]((i, j) => false);
      numMemberships := 0;
    }

    /** The loop over count in reconstruct0. Its last sample is not below nVertices; if it is exact, it is
        cleared too, and overrun tells whether that is a write behind the words of M. */
    method ClearSolutions(h: Hash, i: int) returns (overrun: bool)
      requires Valid() && ValidHash(h)
      modifies M
      ensures Members(M) == old(Members(M)) - Reached(h, nVertices, i, false)
      ensures overrun <==> Overruns(h, nVertices, NUM_BITS * M.Length0, i)
    {
      var sample, count := 0, 0;
      overrun := false;
      while sample < nVertices
        invariant 0 <= count
        invariant if count == 0 then sample == 0
            else nVertices >= 1 && sample == TruncDiv(Numerator(h, i, count - 1), h.a)
        invariant count > 0 && sample >= nVertices ==> count - 1 == LastRound(h, i, nVertices)
        invariant overrun <==>
                    count > 0 && sample >= nVertices && Overruns(h, nVertices, NUM_BITS * M.Length0, i)
        invariant Members(M) == old(Members(M)) - Found(h, i, nVertices, count)
                                - (if count > 0 && sample >= nVertices then Beyond(h, i, nVertices) else {})
        decreases count == 0, Left(h, i, nVertices, count)
      {
        Shrinks(h, i, nVertices, count);
        StopsAt(h, i, nVertices, count);
        var divisible := DividesNumerator(h, i, count);
        if divisible {
          sample := TruncDiv(Numerator(h, i, count), h.a);
          if sample > 0 {
            if sample < NUM_BITS * M.Length0 {
              ResetLocation(sample, M);
            } else {
              overrun := true;
            }
          }
        }
        sample := TruncDiv(Numerator(h, i, count), h.a);
        count := count + 1;
      }
      FoundAll(h, i, nVertices, count);
    }

    /** Clears from M every sample that some hash relates to a zero bit of word loc. */
    method Reconstruct0(loc: nat) returns (overrun: bool)
      requires Valid() && loc < vector.Length0
      modifies M
      ensures Members(M) == old(Members(M))
                            - Hits(hashes, nVertices, Members(vector), false, loc * NUM_BITS, (loc + 1) * NUM_BITS)
      ensures overrun <==> OverrunsIn(hashes, nVertices, NUM_BITS * M.Length0, Members(vector),
                                      loc * NUM_BITS, (loc + 1) * NUM_BITS)
    {
      ghost var ones, start := Members(vector), Members(M);
      var i := loc * NUM_BITS;
      overrun := false;
      while i < (loc + 1) * NUM_BITS
        invariant loc * NUM_BITS <= i <= (loc + 1) * NUM_BITS && Members(vector) == ones
        invariant Members(M) == start - Hits(hashes, nVertices, ones, false, loc * NUM_BITS, i)
        invariant overrun <==> OverrunsIn(hashes, nVertices, NUM_BITS * M.Length0, ones, loc * NUM_BITS, i)
      {
        ghost var m, before := Members(M), overrun;
        var wild := ClearIfZero(loc, i);
        overrun := overrun || wild;
        ClearNext(hashes, nVertices, NUM_BITS * M.Length0, ones, loc * NUM_BITS, i,
                  start, m, Members(M), before, overrun);
        i := i + 1;
      }
    }

    /** The test of one bit in reconstruct0. */
    method ClearIfZero(loc: nat, i: int) returns (overrun: bool)
      requires Valid() && loc < vector.Length0 && loc * NUM_BITS <= i < (loc + 1) * NUM_BITS
      modifies M
      ensures Members(M) ==
                old(Members(M)) - if i in Members(vector) then {} else Preimages(hashes, nVertices, i, false, 3)
      ensures overrun <==> i !in Members(vector) && BitOverruns(hashes, nVertices, NUM_BITS * M.Length0, i)
    {
      BitAt(vector, loc, i);
      overrun := false;
      if !vector[loc, i % NUM_BITS] {
        overrun := ClearBit(i);
      }
    }

    /** The loop over h in reconstruct0. */
    method ClearBit(i: int) returns (overrun: bool)
      requires Valid()
      modifies M
      ensures Members(M) == old(Members(M)) - Preimages(hashes, nVertices, i, false, 3)
      ensures overrun <==> BitOverruns(hashes, nVertices, NUM_BITS * M.Length0, i)
    {
      var h := 0;
      overrun := false;
      while h < 3
        invariant 0 <= h <= 3
        invariant Members(M) == old(Members(M)) - Preimages(hashes, nVertices, i, false, h)
        invariant overrun <==> exists k | 0 <= k < h :: Overruns(hashes[k], nVertices, NUM_BITS * M.Length0, i)
      {
        var wild := ClearSolutions(hashes[h], i);
        overrun := overrun || wild;
        h := h + 1;
      }
    }

    /** Stands for is_in(sample, a). */
    method Lookup(x: int) returns (r: bool)
      requires Valid() && x >= 1
      ensures r <==> IsIn(hashes, Members(vector), x)
    {
      r := true;
      var k := 0;
      while k < 3
        invariant 0 <= k <= 3
        invariant r <==> forall j | 0 <= j < k :: HashOf(hashes[j], x) in Members(vector)
      {
        assert ValidHash(hashes[k]);
        CeilDivCovers(vectSize, NUM_BITS, vector.Length0);
        var bit := CheckLocation(HashOf(hashes[k], x), vector);
        r := r && bit;
        k := k + 1;
      }
    }

    /** One sample of reconstruct1: look it up unless it was probed before. */
    method Probe(sample: int) returns (added: bool)
      requires Valid() && 0 < sample < nVertices
      modifies M, checked
      ensures added <==> sample !in old(Members(checked))
      ensures Members(checked) == old(Members(checked)) + {sample}
      ensures Members(M) == old(Members(M)) + if added && IsIn(hashes, Members(vector), sample) then {sample} else {}
    {
      added := false;
      var known := CheckLocation(sample, checked);
      if !known {
        SetLocation(sample, checked);
        added := true;
        var member := Lookup(sample);
        if member {
          SetLocation(sample, M);
        }
      }
    }

    /** One round of the loop over count in reconstruct1. */
    method ProbeRound(h: Hash, i: int, count: int, localCount: int) returns (sample: int, localCount': int)
      requires Valid() && ValidHash(h)
      modifies M, checked
      ensures sample == TruncDiv(Numerator(h, i, count), h.a)
      ensures Probed(Members(checked), Members(M), localCount')
              == ProbeOnce(hashes, Members(vector), h, i, nVertices, count,
                           Probed(old(Members(checked)), old(Members(M)), localCount))
    {
      localCount' := localCount;
      sample := TruncDiv(Numerator(h, i, count), h.a);
      if Numerator(h, i, count) % h.a == 0 {
        if sample > 0 && sample < nVertices {
          var added := Probe(sample);
          if added {
            localCount' := localCount' + 1;
          }
        }
      }
    }

    /** The loop over count in reconstruct1: probe the solutions that were not probed before. */
    method ProbeSolutions(h: Hash, i: int, localCount: int) returns (localCount': int)
      requires Valid() && ValidHash(h)
      modifies M, checked
      ensures Probed(Members(checked), Members(M), localCount')
              == ProbeSet(hashes, Members(vector), Solutions(h, i, nVertices),
                          Probed(old(Members(checked)), old(Members(M)), localCount))
    {
      localCount' := localCount;
      ghost var start := Probed(Members(checked), Members(M), localCount);
      var sample, count := 0, 0;
      while sample < nVertices
        invariant 0 <= count
        invariant if count == 0 then sample == 0
            else nVertices >= 1 && sample == TruncDiv(Numerator(h, i, count - 1), h.a)
        invariant Probed(Members(checked), Members(M), localCount')
                  == ProbeRounds(hashes, Members(vector), h, i, nVertices, count, start)
        decreases count == 0, Left(h, i, nVertices, count)
      {
        Shrinks(h, i, nVertices, count);
        sample, localCount' := ProbeRound(h, i, count, localCount');
        count := count + 1;
      }
      ProbeRoundsIs(hashes, Members(vector), h, i, nVertices, count, start);
      FoundAll(h, i, nVertices, count);
    }

    /** The loop over h in reconstruct1. */
    method ProbePreimages(i: int, localCount: int) returns (localCount': int)
      requires Valid()
      modifies M, checked
      ensures Probed(Members(checked), Members(M), localCount')
              == ProbeSet(hashes, Members(vector), Preimages(hashes, nVertices, i, true, 3),
                          Probed(old(Members(checked)), old(Members(M)), localCount))
    {
      localCount' := localCount;
      ghost var start := Probed(Members(checked), Members(M), localCount);
      ProbeNothing(hashes, Members(vector), start);
      var h := 0;
      while h < 3
        invariant 0 <= h <= 3
        invariant Probed(Members(checked), Members(M), localCount')
                  == ProbeSet(hashes, Members(vector), Preimages(hashes, nVertices, i, true, h), start)
      {
        localCount' := ProbeSolutions(hashes[h], i, localCount');
        ProbeSetTwice(hashes, Members(vector), Preimages(hashes, nVertices, i, true, h),
            Solutions(hashes[h], i, nVertices), start);
        h := h + 1;
      }
    }

    /** The test of one bit in reconstruct1. */
    method ProbeBit(loc: nat, i: int, localCount: int) returns (localCount': int)
      requires Valid() && loc < vector.Length0 && loc * NUM_BITS <= i < (loc + 1) * NUM_BITS
      modifies M, checked
      ensures Probed(Members(checked), Members(M), localCount')
              == ProbeSet(hashes, Members(vector),
                           if i in Members(vector) then Preimages(hashes, nVertices, i, true, 3) else {},
                          Probed(old(Members(checked)), old(Members(M)), localCount))
    {
      localCount' := localCount;
      var v := vector[loc, i % NUM_BITS];
      BitAt(vector, loc, i);
      if v {
        localCount' := ProbePreimages(i, localCount);
      } else {
        ProbeNothing(hashes, Members(vector), Probed(Members(checked), Members(M), localCount));
      }
    }

    /** The loop over i in reconstruct1. */
    method ProbeWord(loc: nat) returns (localCount: int)
      requires Valid() && loc < vector.Length0
      modifies M, checked
      ensures Probed(Members(checked), Members(M), localCount)
              == ProbeSet(hashes, Members(vector),
                          Hits(hashes, nVertices, Members(vector), true, loc * NUM_BITS, (loc + 1) * NUM_BITS),
                          Probed(old(Members(checked)), old(Members(M)), 0))
    {
      localCount := 0;
      ghost var ones, start := Members(vector), Probed(Members(checked), Members(M), 0);
      var i := loc * NUM_BITS;
      ProbeNothing(hashes, ones, start);
      while i < (loc + 1) * NUM_BITS
        invariant loc * NUM_BITS <= i <= (loc + 1) * NUM_BITS
        invariant Probed(Members(checked), Members(M), localCount)
                  == ProbeSet(hashes, ones, Hits(hashes, nVertices, ones, true, loc * NUM_BITS, i), start)
      {
        localCount := ProbeBit(loc, i, localCount);
        ProbeNext(hashes, nVertices, ones, loc * NUM_BITS, i, start, Probed(Members(checked), Members(M), localCount));
        i := i + 1;
      }
    }

    /** Looks up every vertex that some hash relates to a one bit of word loc. */
    method Reconstruct1(loc: nat)
      requires Valid() && loc < vector.Length0
      modifies M, checked, this
      ensures Probed(Members(checked), Members(M), numMemberships)
              == ProbeSet(hashes, Members(vector),
                          Hits(hashes, nVertices, Members(vector), true, loc * NUM_BITS, (loc + 1) * NUM_BITS),
                          old(Probed(Members(checked), Members(M), numMemberships)))
    {
      var localCount := ProbeWord(loc);
      numMemberships := numMemberships + localCount;
    }
  }

  lemma HitsNext(hashes: seq<Hash>, n: int, ones: set<int>, on: bool, lo: int, i: int)
    requires lo <= i && AllValid(hashes)
    ensures Hits(hashes, n, ones, on, lo, i + 1)
            == Hits(hashes, n, ones, on, lo, i)
               + if (i in ones) == on then Preimages(hashes, n, i, on, |hashes|) else {}
  {
  }

  /** The probes of one more bit, after those of the bits before it. */
  lemma ProbeNext(hashes: seq<Hash>, n: int, ones: set<int>, lo: int, i: int, start: Probed, t: Probed)
    requires lo <= i && AllValid(hashes) && |hashes| == 3
    requires t == ProbeSet(hashes, ones, if i in ones then Preimages(hashes, n, i, true, 3) else {},
                           ProbeSet(hashes, ones, Hits(hashes, n, ones, true, lo, i), start))
    ensures t == ProbeSet(hashes, ones, Hits(hashes, n, ones, true, lo, i + 1), start)
  {
    var more := if i in ones then Preimages(hashes, n, i, true, 3) else {};
    ProbeSetTwice(hashes, ones, Hits(hashes, n, ones, true, lo, i), more, start);
    HitsNext(hashes, n, ones, true, lo, i);
  }

  /** What the test of one more bit clears, and whether it writes behind M. */
  lemma ClearNext(hashes: seq<Hash>, n: int, bits: int, ones: set<int>, lo: int, i: int,
                  start: set<int>, m: set<int>, m': set<int>, before: bool, after: bool)
    requires lo <= i && AllValid(hashes) && |hashes| == 3
    requires m == start - Hits(hashes, n, ones, false, lo, i)
    requires m' == m - if i in ones then {} else Preimages(hashes, n, i, false, 3)
    requires before <==> OverrunsIn(hashes, n, bits, ones, lo, i)
    requires after <==> before || (i !in ones && BitOverruns(hashes, n, bits, i))
    ensures m' == start - Hits(hashes, n, ones, false, lo, i + 1)
    ensures after <==> OverrunsIn(hashes, n, bits, ones, lo, i + 1)
  {
    HitsNext(hashes, n, ones, false, lo, i);
    Minus(start, Hits(hashes, n, ones, false, lo, i), if i in ones then {} else Preimages(hashes, n, i, false, 3));
  }

  lemma BitAt(words: array2<bool>, loc: int, i: int)
    requires words.Length1 == NUM_BITS && 0 <= loc < words.Length0
    requires loc * NUM_BITS <= i < (loc + 1) * NUM_BITS
    ensures words[loc, i % NUM_BITS] <==> i in Members(words)
  {
    assert i / NUM_BITS == loc;
  }

  /** What probing changes: the probed candidates, the accepted ones and how many were looked up. */
  datatype Probed = Probed(checked: set<int>, accepted: set<int>, lookups: int)

  ghost function ProbeOne(hashes: seq<Hash>, ones: set<int>, x: int, t: Probed): Probed
    requires forall k | 0 <= k < |hashes| :: hashes[k].m > 0
  {
    if x in t.checked then t
    else Probed(t.checked + {x}, t.accepted + (if IsIn(hashes, ones, x) then {x} else {}), t.lookups + 1)
  }

  /** One round: its sample is probed if it is exact and in range. */
  ghost function ProbeOnce(hashes: seq<Hash>, ones: set<int>, h: Hash, i: int, n: int, c: int, t: Probed): Probed
    requires (forall k | 0 <= k < |hashes| :: hashes[k].m > 0) && h.a > 0
  {
    var y := Numerator(h, i, c);
    if y % h.a == 0 && 0 < TruncDiv(y, h.a) < n then ProbeOne(hashes, ones, TruncDiv(y, h.a), t) else t
  }

  ghost function ProbeRounds(hashes: seq<Hash>, ones: set<int>, h: Hash, i: int, n: int, count: nat, t: Probed): Probed
    requires (forall k | 0 <= k < |hashes| :: hashes[k].m > 0) && h.a > 0
  {
    if count == 0 then t
    else ProbeOnce(hashes, ones, h, i, n, count - 1, ProbeRounds(hashes, ones, h, i, n, count - 1, t))
  }

  ghost function ProbeSet(hashes: seq<Hash>, ones: set<int>, xs: set<int>, t: Probed): Probed
    requires forall k | 0 <= k < |hashes| :: hashes[k].m > 0
  {
    Probed(t.checked + xs, t.accepted + Accepted(hashes, ones, xs - t.checked), t.lookups + |xs - t.checked|)
  }

  /** Probing the sample of one more round, if it is exact and in range, is probing the set with it. */
  lemma ProbeRoundIs(hashes: seq<Hash>, ones: set<int>, h: Hash, i: int, n: int, c: int, earlier: set<int>, t: Probed)
    requires (forall k | 0 <= k < |hashes| :: hashes[k].m > 0) && h.a > 0
    ensures ProbeOnce(hashes, ones, h, i, n, c, ProbeSet(hashes, ones, earlier, t))
            == ProbeSet(hashes, ones, earlier + Sampled(h, i, n, c), t)
  {
    if Sampled(h, i, n, c) == {} {
      assert earlier + {} == earlier;
    } else {
      ProbeSetAdd(hashes, ones, earlier, TruncDiv(Numerator(h, i, c), h.a), t);
    }
  }

  lemma ProbeFound(hashes: seq<Hash>, ones: set<int>, h: Hash, i: int, n: int, c: nat, t: Probed, t': Probed)
    requires (forall k | 0 <= k < |hashes| :: hashes[k].m > 0) && h.a > 0
    requires t' == ProbeSet(hashes, ones, Found(h, i, n, c), t)
    ensures ProbeOnce(hashes, ones, h, i, n, c, t') == ProbeSet(hashes, ones, Found(h, i, n, c + 1), t)
  {
    ProbeRoundIs(hashes, ones, h, i, n, c, Found(h, i, n, c), t);
  }

  /** Probing round by round is probing the set of samples. */
  lemma {:induction false} ProbeRoundsIs(hashes: seq<Hash>, ones: set<int>, h: Hash, i: int, n: int, count: nat,
                                         t: Probed)
    requires (forall k | 0 <= k < |hashes| :: hashes[k].m > 0) && h.a > 0
    ensures ProbeRounds(hashes, ones, h, i, n, count, t) == ProbeSet(hashes, ones, Found(h, i, n, count), t)
  {
    if count > 0 {
      ProbeRoundsIs(hashes, ones, h, i, n, count - 1, t);
      ProbeFound(hashes, ones, h, i, n, count - 1, t, ProbeRounds(hashes, ones, h, i, n, count - 1, t));
    } else {
      ProbeNothing(hashes, ones, t);
    }
  }

  /** Probing one set and then another is probing their union. */
  lemma ProbeSetTwice(hashes: seq<Hash>, ones: set<int>, xs: set<int>, ys: set<int>, t: Probed)
    requires forall k | 0 <= k < |hashes| :: hashes[k].m > 0
    ensures ProbeSet(hashes, ones, ys, ProbeSet(hashes, ones, xs, t)) == ProbeSet(hashes, ones, xs + ys, t)
  {
    var first, second := xs - t.checked, ys - (t.checked + xs);
    assert (xs + ys) - t.checked == first + second;
    assert Accepted(hashes, ones, first + second) == Accepted(hashes, ones, first) + Accepted(hashes, ones, second);
  }

  lemma ProbeSetAdd(hashes: seq<Hash>, ones: set<int>, xs: set<int>, x: int, t: Probed)
    requires forall k | 0 <= k < |hashes| :: hashes[k].m > 0
    ensures ProbeOne(hashes, ones, x, ProbeSet(hashes, ones, xs, t)) == ProbeSet(hashes, ones, xs + {x}, t)
  {
    ProbeOneIs(hashes, ones, x, ProbeSet(hashes, ones, xs, t));
    ProbeSetTwice(hashes, ones, xs, {x}, t);
  }

  lemma ProbeNothing(hashes: seq<Hash>, ones: set<int>, t: Probed)
    requires forall k | 0 <= k < |hashes| :: hashes[k].m > 0
    ensures ProbeSet(hashes, ones, {}, t) == t
  {
    assert {} - t.checked == {};
  }

  lemma ProbeOneIs(hashes: seq<Hash>, ones: set<int>, x: int, t: Probed)
    requires forall k | 0 <= k < |hashes| :: hashes[k].m > 0
    ensures ProbeOne(hashes, ones, x, t) == ProbeSet(hashes, ones, {x}, t)
  {
    if x in t.checked {
      assert {x} - t.checked == {};
    } else {
      assert {x} - t.checked == {x};
    }
  }

  /** The test of reconstruct0, done on remainders, is a test of the exact numerator. */
  method DividesNumerator(h: Hash, i: int, count: nat) returns (r: bool)
    requires ValidHash(h)
    ensures r <==> Numerator(h, i, count) % h.a == 0
  {
    r := TruncMod(TruncMod(i - h.b, h.a) + TruncMod(count * h.m, h.a), h.a) == 0;
    SplitTest(i - h.b, count * h.m, h.a);
  }

  /** How far the numerator is from passing the last vertex. */
  function Left(h: Hash, i: int, n: int, count: int): int { h.a * n + h.m - Numerator(h, i, count) }

  /** The loop over count makes progress towards samples beyond the vertices. */
  lemma Shrinks(h: Hash, i: int, n: int, count: nat)
    requires ValidHash(h) && n >= 1
    ensures Left(h, i, n, count + 1) < Left(h, i, n, count)
    ensures count > 0 && TruncDiv(Numerator(h, i, count - 1), h.a) < n ==> Left(h, i, n, count) > 0
  {
    if count > 0 {
      AtLeast(Numerator(h, i, count - 1), h.a, n);
      assert Numerator(h, i, count) == Numerator(h, i, count - 1) + h.m;
    }
    assert Numerator(h, i, count + 1) == Numerator(h, i, count) + h.m;
  }

  /** A round of the loop in reconstruct0 is the last one, or its sample is a vertex or too small. */
  lemma StopsAt(h: Hash, i: int, n: int, count: nat)
    requires ValidHash(h) && n >= 1 && (count == 0 || TruncDiv(Numerator(h, i, count - 1), h.a) < n)
    ensures count <= LastRound(h, i, n)
    ensures TruncDiv(Numerator(h, i, count), h.a) >= n <==> count == LastRound(h, i, n)
  {
    RoundTest(h, i, n, count);
    if count > 0 {
      RoundTest(h, i, n, count - 1);
    }
  }

  lemma Minus(xs: set<int>, ys: set<int>, zs: set<int>)
    ensures xs - (ys + zs) == (xs - ys) - zs
  {
  }

  ghost function Accepted(hashes: seq<Hash>, ones: set<int>, xs: set<int>): set<int>
    requires forall k | 0 <= k < |hashes| :: hashes[k].m > 0
  {
    set x | x in xs && IsIn(hashes, ones, x)
  }
}
