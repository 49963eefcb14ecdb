/** The fixed 512-bit, three-hash Bloom filter that prefilters blacklist lookups. */
module BloomFilters {

  /** Eight 64-bit words. */
  type Words = w: seq<bv64> | |w| == 8 witness [0, 0, 0, 0, 0, 0, 0, 0]

  const EMPTY: Words := [0, 0, 0, 0, 0, 0, 0, 0]

  /** One round of 32-bit FNV-1a; `bv32` multiplication wraps. */
  function Mix(h: bv32, byte: bv8): bv32 { (h ^ (byte as bv32)) * 0x0100_0193 }

  function Start(seed: bv32): bv32 { 0x811c_9dc5 ^ (seed * 0x0100_0193) }

  function Hash(key: seq<bv8>, seed: bv32): bv32 {
    if key == [] then Start(seed) else Mix(Hash(key[..|key| - 1], seed), key[|key| - 1])
  }

  function BitOf(key: seq<bv8>, seed: bv32): (bit: bv32)
    ensures bit < 512
  {
    Hash(key, seed) % 512
  }

  /** `bit / 64`, as an index. */
  function WordIndex(bit: bv32): (i: nat)
    requires bit < 512
    ensures i < 8
  {
    if bit < 64 then 0 else if bit < 128 then 1 else if bit < 192 then 2 else if bit < 256 then 3
    else if bit < 320 then 4 else if bit < 384 then 5 else if bit < 448 then 6 else 7
  }

  function Mask(bit: bv32): bv64 { 1 << ((bit % 64) as bv64) }

  function SetBit(w: Words, bit: bv32): Words
    requires bit < 512
  {
    w[WordIndex(bit) := w[WordIndex(bit)] | Mask(bit)]
  }

  predicate TestBit(w: Words, bit: bv32)
    requires bit < 512
  {
    w[WordIndex(bit)] & Mask(bit) != 0
  }

  function InsertSeeds(w: Words, key: seq<bv8>, seeds: seq<bv32>): Words {
    if seeds == [] then w
    else SetBit(InsertSeeds(w, key, seeds[..|seeds| - 1]), BitOf(key, seeds[|seeds| - 1]))
  }

  function Insert(w: Words, key: seq<bv8>): Words { InsertSeeds(w, key, [0, 1, 2]) }

  predicate MayContain(w: Words, key: seq<bv8>) {
    TestBit(w, BitOf(key, 0)) && TestBit(w, BitOf(key, 1)) && TestBit(w, BitOf(key, 2))
  }

  lemma OrMask(x: bv64, a: bv32, b: bv32)
    ensures (x | Mask(a)) & Mask(b) != 0 <==> x & Mask(b) != 0 || a % 64 == b % 64
  {
  }

  lemma SameBit(a: bv32, b: bv32)
    requires a < 512 && b < 512
    ensures a == b <==> WordIndex(a) == WordIndex(b) && a % 64 == b % 64
  {
  }

  lemma SetBitOtherWord(w: Words, bit: bv32, other: bv32)
    requires bit < 512 && other < 512
    requires WordIndex(bit) != WordIndex(other)
    ensures TestBit(SetBit(w, bit), other) == TestBit(w, other)
  {
    assert SetBit(w, bit)[WordIndex(other)] == w[WordIndex(other)];
  }

  lemma SetBitSameWord(w: Words, bit: bv32, other: bv32)
    requires bit < 512 && other < 512
    requires WordIndex(bit) == WordIndex(other)
    ensures TestBit(SetBit(w, bit), other) <==> TestBit(w, other) || bit % 64 == other % 64
  {
    assert SetBit(w, bit)[WordIndex(other)] == w[WordIndex(other)] | Mask(bit);
    OrMask(w[WordIndex(other)], bit, other);
  }

  /** Setting a bit sets that bit and no other. */
  lemma SetBitExact(w: Words, bit: bv32, other: bv32)
    requires bit < 512 && other < 512
    ensures TestBit(SetBit(w, bit), other) <==> TestBit(w, other) || other == bit
  {
    SameBit(bit, other);
    if WordIndex(bit) == WordIndex(other) {
      SetBitSameWord(w, bit, other);
    } else {
      SetBitOtherWord(w, bit, other);
    }
  }

  lemma {:induction false} InsertSeedsExact(w: Words, key: seq<bv8>, seeds: seq<bv32>, bit: bv32)
    requires bit < 512
    ensures TestBit(InsertSeeds(w, key, seeds), bit)
      <==> TestBit(w, bit) || exists i :: 0 <= i < |seeds| && bit == BitOf(key, seeds[i])
  {
    if seeds != [] {
      var before, last := seeds[..|seeds| - 1], seeds[|seeds| - 1];
      InsertSeedsExact(w, key, before, bit);
      SetBitExact(InsertSeeds(w, key, before), BitOf(key, last), bit);
      assert forall i :: 0 <= i < |before| ==> before[i] == seeds[i];
    }
  }

  /** After an insertion the filter holds exactly the old bits and the three bits of the key. */
  lemma InsertExact(w: Words, key: seq<bv8>, bit: bv32)
    requires bit < 512
    ensures TestBit(Insert(w, key), bit)
      <==> TestBit(w, bit) || bit == BitOf(key, 0) || bit == BitOf(key, 1) || bit == BitOf(key, 2)
  {
    var seeds: seq<bv32> := [0, 1, 2];
    InsertSeedsExact(w, key, seeds, bit);
    assert seeds[0] == 0 && seeds[1] == 1 && seeds[2] == 2;
  }

  /** No false negatives: an inserted key is found, and insertions never lose a key. */
  lemma NoFalseNegatives(w: Words, key: seq<bv8>, other: seq<bv8>)
    ensures MayContain(Insert(w, key), key)
    ensures MayContain(w, other) ==> MayContain(Insert(w, key), other)
  {
    InsertExact(w, key, BitOf(key, 0));
    InsertExact(w, key, BitOf(key, 1));
    InsertExact(w, key, BitOf(key, 2));
    InsertExact(w, key, BitOf(other, 0));
    InsertExact(w, key, BitOf(other, 1));
    InsertExact(w, key, BitOf(other, 2));
  }

  /** The published test vectors of 32-bit FNV-1a, for the unseeded hash. */
  lemma KnownHashes()
    ensures Hash([], 0) == 0x811c_9dc5
    ensures Hash([0x61], 0) == 0xe40c_292c
    ensures Hash([0x66, 0x6f], 0) == 0x6222_e842
  {
    assert Hash([0x61][..0], 0) == Start(0);
    assert [0x66, 0x6f][..1] == [0x66] && Hash([0x66][..0], 0) == Start(0);
    assert Hash([0x66], 0) == Mix(Start(0), 0x66);
  }

  class BloomFilter512 {
    var bits: array<bv64>

    ghost predicate Valid()
      reads this
    {
      bits.Length == 8
    }

    constructor ()
      ensures Valid() && fresh(bits) && bits[..] == EMPTY
    {
      bits := new bv64[8](_ => 0);
    }

    method HashBytes(key: seq<bv8>, seed: bv32) returns (h: bv32)
      ensures h == Hash(key, seed)
    {
      h := Start(seed);
      for i := 0 to |key|
        invariant h == Hash(key[..i], seed)
      {
        assert key[..i + 1][..i] == key[..i];
        h := Mix(h, key[i]);
      }
      assert key[..|key|] == key;
    }

    method SetBitAt(bit: bv32)
      requires Valid() && bit < 512
      modifies bits
      ensures bits[..] == SetBit(old(bits[..]), bit)
    {
      var word := WordIndex(bit);
      bits[word] := bits[word] | (1 << ((bit % 64) as bv64));
    }

    method AddHash(key: seq<bv8>, seed: bv32)
      requires Valid()
      modifies bits
      ensures bits[..] == SetBit(old(bits[..]), BitOf(key, seed))
    {
      var h := HashBytes(key, seed);
      SetBitAt(h % 512);
    }

    method Add(key: seq<bv8>)
      requires Valid()
      modifies bits
      ensures bits[..] == Insert(old(bits[..]), key)
    {
      var seeds: seq<bv32> := [0, 1, 2];
      for i := 0 to 3
        invariant bits[..] == InsertSeeds(old(bits[..]), key, seeds[..i])
      {
        assert seeds[..i + 1][..i] == seeds[..i];
        AddHash(key, seeds[i]);
      }
      assert seeds[..3] == seeds;
    }
  }
}
