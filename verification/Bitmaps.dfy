/** Bit sets kept in arrays of words. A word is its NUM_BITS bits: word & (1 << off) reads bit off,
    word | (1 << off) sets it and word & ~(1 << off) clears it. */
module Bitmaps {
  const NUM_BITS: int := 32

  /** The values whose bits are set. */
  ghost function Members(words: array2<bool>): set<int>
    requires words.Length1 == NUM_BITS
    reads words
  {
    set v | 0 <= v < NUM_BITS * words.Length0 && words[v / NUM_BITS, v % NUM_BITS]
  }

  method CheckLocation(value: int, words: array2<bool>) returns (r: bool)
    requires words.Length1 == NUM_BITS && 0 <= value < NUM_BITS * words.Length0
    ensures r <==> value in Members(words)
  {
    var loc := value / NUM_BITS;
    var off := value % NUM_BITS;
    r := false;
    if words[loc, off] {
      r := true;
    }
  }

  method SetLocation(value: int, words: array2<bool>)
    requires words.Length1 == NUM_BITS && 0 <= value < NUM_BITS * words.Length0
    modifies words
    ensures Members(words) == old(Members(words)) + {value}
  {
    var loc := value / NUM_BITS;
    var off := value % NUM_BITS;
    words[loc, off] := true;
  }

  method ResetLocation(value: int, words: array2<bool>)
    requires words.Length1 == NUM_BITS && 0 <= value < NUM_BITS * words.Length0
    modifies words
    ensures Members(words) == old(Members(words)) - {value}
  {
    var loc := value / NUM_BITS;
    var off := value % NUM_BITS;
    words[loc, off] := false;
  }

  /** setM and resetM: every word becomes all ones, or zero. */
  method Fill(words: array2<bool>, bit: bool)
    requires words.Length1 == NUM_BITS
    modifies words
    ensures forall v | 0 <= v < NUM_BITS * words.Length0 :: v in Members(words) <==> bit
  {
    var i := 0;
    while i < words.Length0
      invariant 0 <= i <= words.Length0
      invariant forall k, j | 0 <= k < i && 0 <= j < NUM_BITS :: words[k, j] == bit
    {
      forall j | 0 <= j < NUM_BITS {
        words[i, j] := bit;
      }
      i := i + 1;
    }
  }
}
