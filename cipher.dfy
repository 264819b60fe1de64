/** The key-derived byte cipher of `EncodeTransform` / `DecodeTransform`.

    Encoding a window of `count` bytes shuffles it once per 4-byte key group,
    then XORs every byte with the cyclic key byte, then adds the cyclic key
    byte modulo 256. Decoding subtracts, XORs, and undoes the shuffles in
    reverse group order. */
module Cipher {
  import opened Bytes
  import opened FisherYates

  /** `sizeof(int)`: the key is read in groups of this many bytes. */
  const GroupSize: nat := 4

  /** `encryptionKey[index] << sizeof(char) * 8 - 1`: the byte promoted to
      `int` and shifted left by 16 - 1 = 15 bits, that is multiplied by
      2^15; a byte so shifted stays a non-negative 32-bit `int`. */
  function GroupSeed(b: Byte): (seed: int)
    ensures 0 <= seed < 0x8000_0000
  {
    b * 0x8000
  }

  /** The test at the top of the seed loop: `index` closes a key group. */
  predicate IsGroupEnd(index: nat, keyLength: nat)
  {
    (index + 1) % GroupSize == 0 || index + 1 == keyLength
  }

  /** The value of `seed` when the seed loop reaches `index`: the shifted
      previous key byte, or the initial 0. The test runs before the
      assignment, so a group ending at `index` is shuffled with this value. */
  function SeedBefore(key: seq<Byte>, index: nat): int
    requires index <= |key|
  {
    if index == 0 then 0 else GroupSeed(key[index - 1])
  }

  /** The seeds used at the group ends among key indices 0 .. n - 1, in order. */
  function SeedsUpTo(key: seq<Byte>, n: nat): seq<int>
    requires n <= |key|
  {
    if n == 0 then []
    else SeedsUpTo(key, n - 1) + (if IsGroupEnd(n - 1, |key|) then [SeedBefore(key, n - 1)] else [])
  }

  /** The seed schedule of a key: one seed per key group, in key order. */
  function Seeds(key: seq<Byte>): seq<int>
  {
    SeedsUpTo(key, |key|)
  }

  /** The key index that closes group g: 4g + 3, or the last index for a
      final short group. */
  function GroupEnd(g: nat, keyLength: nat): nat
    requires keyLength > 0
  {
    if GroupSize * g + 3 < keyLength - 1 then GroupSize * g + 3 else keyLength - 1
  }

  lemma {:induction false} SeedsBeforeLastIndex(key: seq<Byte>, n: nat)
    requires n < |key|
    ensures |SeedsUpTo(key, n)| == n / GroupSize
    ensures forall g :: 0 <= g < n / GroupSize ==> SeedsUpTo(key, n)[g] == SeedBefore(key, GroupSize * g + 3)
  {
    if n > 0 {
      SeedsBeforeLastIndex(key, n - 1);
    }
  }

  /** The schedule has exactly one seed per group, ⌈|key| / 4⌉ in all, and
      group g is shuffled with the shifted byte just before its last index
      (0 for a one-byte key). */
  lemma SeedSchedule(key: seq<Byte>)
    requires |key| > 0
    ensures |Seeds(key)| == (|key| + GroupSize - 1) / GroupSize
    ensures forall g :: 0 <= g < |Seeds(key)| ==> Seeds(key)[g] == SeedBefore(key, GroupEnd(g, |key|))
  {
    SeedsBeforeLastIndex(key, |key| - 1);
  }

  /** The key byte paired with data index i: the key is cycled. */
  function KeyAt(key: seq<Byte>, i: nat): Byte
    requires |key| > 0
  {
    key[i % |key|]
  }

  /** Every byte XORed with the cyclic key byte. */
  function KeyXor(s: seq<Byte>, key: seq<Byte>): (r: seq<Byte>)
    requires |key| > 0
    ensures |r| == |s|
  {
    seq(|s|, i requires 0 <= i < |s| => XorByte(s[i], KeyAt(key, i)))
  }

  /** Every byte plus the cyclic key byte, wrapping modulo 256. */
  function KeyAdd(s: seq<Byte>, key: seq<Byte>): (r: seq<Byte>)
    requires |key| > 0
    ensures |r| == |s|
  {
    seq(|s|, i requires 0 <= i < |s| => AddByte(s[i], KeyAt(key, i)))
  }

  /** Every byte minus the cyclic key byte, wrapping modulo 256. */
  function KeySub(s: seq<Byte>, key: seq<Byte>): (r: seq<Byte>)
    requires |key| > 0
    ensures |r| == |s|
  {
    seq(|s|, i requires 0 <= i < |s| => SubByte(s[i], KeyAt(key, i)))
  }

  /** One shuffle per seed, in schedule order. */
  function ShuffledAll(rng: Sampler, s: seq<Byte>, seeds: seq<int>): (r: seq<Byte>)
    ensures |r| == |s|
  {
    if seeds == [] then s
    else Shuffled(rng, seeds[|seeds| - 1], ShuffledAll(rng, s, seeds[..|seeds| - 1]))
  }

  /** The window after the seed loop has passed key indices 0 .. n - 1. */
  function ShuffledUpTo(rng: Sampler, s: seq<Byte>, key: seq<Byte>, n: nat): (r: seq<Byte>)
    requires n <= |key|
    ensures |r| == |s|
  {
    if n == 0 then s
    else
      var prev := ShuffledUpTo(rng, s, key, n - 1);
      if IsGroupEnd(n - 1, |key|) then Shuffled(rng, SeedBefore(key, n - 1), prev) else prev
  }

  /** Passing an index that closes a group adds its seed's shuffle. */
  lemma ShuffledUpToGroupEnd(rng: Sampler, s: seq<Byte>, key: seq<Byte>, n: nat)
    requires 0 < n <= |key| && IsGroupEnd(n - 1, |key|)
    requires ShuffledUpTo(rng, s, key, n - 1) == ShuffledAll(rng, s, SeedsUpTo(key, n - 1))
    ensures ShuffledUpTo(rng, s, key, n) == ShuffledAll(rng, s, SeedsUpTo(key, n))
  {
    var done := SeedsUpTo(key, n - 1);
    assert SeedsUpTo(key, n) == done + [SeedBefore(key, n - 1)];
    ShuffledAllAppend(rng, s, done, SeedBefore(key, n - 1));
  }

  /** Passing any other index changes nothing. */
  lemma ShuffledUpToInside(rng: Sampler, s: seq<Byte>, key: seq<Byte>, n: nat)
    requires 0 < n <= |key| && !IsGroupEnd(n - 1, |key|)
    requires ShuffledUpTo(rng, s, key, n - 1) == ShuffledAll(rng, s, SeedsUpTo(key, n - 1))
    ensures ShuffledUpTo(rng, s, key, n) == ShuffledAll(rng, s, SeedsUpTo(key, n))
  {
    var done := SeedsUpTo(key, n - 1);
    assert SeedsUpTo(key, n) == done + [];
    assert done + [] == done;
  }

  /** Shuffling index by index is shuffling once per seed of the schedule. */
  lemma {:induction false} ShuffledUpToSchedule(rng: Sampler, s: seq<Byte>, key: seq<Byte>, n: nat)
    requires n <= |key|
    ensures ShuffledUpTo(rng, s, key, n) == ShuffledAll(rng, s, SeedsUpTo(key, n))
  {
    if n > 0 {
      ShuffledUpToSchedule(rng, s, key, n - 1);
      if IsGroupEnd(n - 1, |key|) {
        ShuffledUpToGroupEnd(rng, s, key, n);
      } else {
        ShuffledUpToInside(rng, s, key, n);
      }
    }
  }

  lemma ShuffledAllAppend(rng: Sampler, s: seq<Byte>, seeds: seq<int>, seed: int)
    ensures ShuffledAll(rng, s, seeds + [seed]) == Shuffled(rng, seed, ShuffledAll(rng, s, seeds))
  {
    assert (seeds + [seed])[..|seeds|] == seeds;
  }

  /** One reverse shuffle per seed, from the last seed back to the first. */
  function UnshuffledAll(rng: Sampler, s: seq<Byte>, seeds: seq<int>): (r: seq<Byte>)
    ensures |r| == |s|
    decreases |seeds|
  {
    if seeds == [] then s
    else UnshuffledAll(rng, Unshuffled(rng, seeds[|seeds| - 1], s), seeds[..|seeds| - 1])
  }

  /** What `EncodeTransform` makes of a window. */
  function EncodeBlock(rng: Sampler, key: seq<Byte>, s: seq<Byte>): (r: seq<Byte>)
    requires |key| > 0
    ensures |r| == |s|
  {
    KeyAdd(KeyXor(ShuffledAll(rng, s, Seeds(key)), key), key)
  }

  /** What `DecodeTransform` makes of a window. */
  function DecodeBlock(rng: Sampler, key: seq<Byte>, s: seq<Byte>): (r: seq<Byte>)
    requires |key| > 0
    ensures |r| == |s|
  {
    UnshuffledAll(rng, KeyXor(KeySub(s, key), key), Seeds(key))
  }

  /** The same key byte returns every |key| data bytes. */
  lemma KeyCycles(key: seq<Byte>, i: nat)
    requires |key| > 0
    ensures KeyAt(key, i + |key|) == KeyAt(key, i)
  {
    DivModUnique(i + |key|, |key|, i / |key| + 1, i % |key|);
  }

  lemma KeyXorTwice(s: seq<Byte>, key: seq<Byte>)
    requires |key| > 0
    ensures KeyXor(KeyXor(s, key), key) == s
  {
    var once := KeyXor(s, key);
    forall i | 0 <= i < |s|
      ensures KeyXor(once, key)[i] == s[i]
    {
      XorByteTwice(s[i], KeyAt(key, i));
    }
  }

  lemma KeySubUndoesKeyAdd(s: seq<Byte>, key: seq<Byte>)
    requires |key| > 0
    ensures KeySub(KeyAdd(s, key), key) == s
  {
    var added := KeyAdd(s, key);
    forall i | 0 <= i < |s|
      ensures KeySub(added, key)[i] == s[i]
    {
      SubUndoesAdd(s[i], KeyAt(key, i));
    }
  }

  lemma KeyAddUndoesKeySub(s: seq<Byte>, key: seq<Byte>)
    requires |key| > 0
    ensures KeyAdd(KeySub(s, key), key) == s
  {
    var subtracted := KeySub(s, key);
    forall i | 0 <= i < |s|
      ensures KeyAdd(subtracted, key)[i] == s[i]
    {
      AddUndoesSub(s[i], KeyAt(key, i));
    }
  }

  lemma {:induction false} UnshuffledAllUndoes(rng: Sampler, s: seq<Byte>, seeds: seq<int>)
    ensures UnshuffledAll(rng, ShuffledAll(rng, s, seeds), seeds) == s
    decreases |seeds|
  {
    if seeds != [] {
      var init := seeds[..|seeds| - 1];
      UnshuffleShuffle(rng, seeds[|seeds| - 1], ShuffledAll(rng, s, init));
      UnshuffledAllUndoes(rng, s, init);
    }
  }

  lemma {:induction false} ShuffledAllUndoes(rng: Sampler, s: seq<Byte>, seeds: seq<int>)
    ensures ShuffledAll(rng, UnshuffledAll(rng, s, seeds), seeds) == s
    decreases |seeds|
  {
    if seeds != [] {
      var init := seeds[..|seeds| - 1];
      var last := seeds[|seeds| - 1];
      ShuffledAllUndoes(rng, Unshuffled(rng, last, s), init);
      ShuffleUnshuffle(rng, last, s);
    }
  }

  lemma {:induction false} ShuffledAllPermutes(rng: Sampler, s: seq<Byte>, seeds: seq<int>)
    ensures multiset(ShuffledAll(rng, s, seeds)) == multiset(s)
    decreases |seeds|
  {
    if seeds != [] {
      var init := seeds[..|seeds| - 1];
      ShuffledAllPermutes(rng, s, init);
      ShuffledPermutes(rng, seeds[|seeds| - 1], ShuffledAll(rng, s, init));
    }
  }

  /** Decoding with the key that encoded a window restores it, whatever the
      window's length (0, shorter than the key, or longer). */
  lemma DecodeEncode(rng: Sampler, key: seq<Byte>, s: seq<Byte>)
    requires |key| > 0
    ensures DecodeBlock(rng, key, EncodeBlock(rng, key, s)) == s
  {
    var shuffled := ShuffledAll(rng, s, Seeds(key));
    var masked := KeyXor(shuffled, key);
    KeySubUndoesKeyAdd(masked, key);
    KeyXorTwice(shuffled, key);
    UnshuffledAllUndoes(rng, s, Seeds(key));
  }

  /** And every window is the encoding of its decoding: encoding is a
      bijection on windows of each length. */
  lemma EncodeDecode(rng: Sampler, key: seq<Byte>, s: seq<Byte>)
    requires |key| > 0
    ensures EncodeBlock(rng, key, DecodeBlock(rng, key, s)) == s
  {
    var unmasked := KeyXor(KeySub(s, key), key);
    ShuffledAllUndoes(rng, unmasked, Seeds(key));
    KeyXorTwice(KeySub(s, key), key);
    KeyAddUndoesKeySub(s, key);
  }

  /** Quotient and remainder are unique. */
  lemma DivModUnique(a: nat, n: nat, q: nat, r: nat)
    requires n > 0 && r < n && a == q * n + r
    ensures a / n == q && a % n == r
  {
    var q0, r0 := a / n, a % n;
    assert a == q0 * n + r0;
    var d := q - q0;
    assert d * n == r0 - r by {
      assert q * n - q0 * n == d * n;
    }
    if d > 0 {
      MulAtLeast(d, n);
    } else if d < 0 {
      MulAtLeast(-d, n);
    }
  }

  lemma MulAtLeast(d: int, n: int)
    requires d >= 1 && n > 0
    ensures d * n >= n
  {
    assert (d - 1) * n >= 0;
  }

  /** The key index after a step of the cyclic loops: one more, or back to 0. */
  lemma NextKeyIndex(d: nat, n: nat)
    requires n > 0
    ensures (d + 1) % n == if d % n + 1 == n then 0 else d % n + 1
  {
    if d % n + 1 == n {
      DivModUnique(d + 1, n, d / n + 1, 0);
    } else {
      DivModUnique(d + 1, n, d / n, d % n + 1);
    }
  }

  /** The XOR loops of both transforms: `data[dataIndex] ^= key[keyIndex]`
      with `keyIndex` wrapping to 0 at the key's length. */
  method XorKeyStream(data: array<Byte>, count: nat, key: seq<Byte>)
    requires count <= data.Length && |key| > 0
    modifies data
    ensures data[..count] == KeyXor(old(data[..count]), key)
    ensures data[count..] == old(data[count..])
  {
    var dataIndex, keyIndex := 0, 0;
    while dataIndex < count
      invariant dataIndex <= count && keyIndex <= |key|
      invariant (if keyIndex == |key| then 0 else keyIndex) == dataIndex % |key|
      invariant forall i :: 0 <= i < dataIndex ==> data[i] == XorByte(old(data[i]), KeyAt(key, i))
      invariant forall i :: dataIndex <= i < data.Length ==> data[i] == old(data[i])
    {
      if keyIndex >= |key| {
        keyIndex := 0;
      }
      data[dataIndex] := XorByte(data[dataIndex], key[keyIndex]);
      NextKeyIndex(dataIndex, |key|);
      dataIndex, keyIndex := dataIndex + 1, keyIndex + 1;
    }
  }

  /** The addition loop of `EncodeTransform`: `data[dataIndex] += key[keyIndex]`. */
  method AddKeyStream(data: array<Byte>, count: nat, key: seq<Byte>)
    requires count <= data.Length && |key| > 0
    modifies data
    ensures data[..count] == KeyAdd(old(data[..count]), key)
    ensures data[count..] == old(data[count..])
  {
    var dataIndex, keyIndex := 0, 0;
    while dataIndex < count
      invariant dataIndex <= count && keyIndex <= |key|
      invariant (if keyIndex == |key| then 0 else keyIndex) == dataIndex % |key|
      invariant forall i :: 0 <= i < dataIndex ==> data[i] == AddByte(old(data[i]), KeyAt(key, i))
      invariant forall i :: dataIndex <= i < data.Length ==> data[i] == old(data[i])
    {
      if keyIndex >= |key| {
        keyIndex := 0;
      }
      data[dataIndex] := AddByte(data[dataIndex], key[keyIndex]);
      NextKeyIndex(dataIndex, |key|);
      dataIndex, keyIndex := dataIndex + 1, keyIndex + 1;
    }
  }

  /** The subtraction loop of `DecodeTransform`: `data[dataIndex] -= key[keyIndex]`. */
  method SubtractKeyStream(data: array<Byte>, count: nat, key: seq<Byte>)
    requires count <= data.Length && |key| > 0
    modifies data
    ensures data[..count] == KeySub(old(data[..count]), key)
    ensures data[count..] == old(data[count..])
  {
    var dataIndex, keyIndex := 0, 0;
    while dataIndex < count
      invariant dataIndex <= count && keyIndex <= |key|
      invariant (if keyIndex == |key| then 0 else keyIndex) == dataIndex % |key|
      invariant forall i :: 0 <= i < dataIndex ==> data[i] == SubByte(old(data[i]), KeyAt(key, i))
      invariant forall i :: dataIndex <= i < data.Length ==> data[i] == old(data[i])
    {
      if keyIndex >= |key| {
        keyIndex := 0;
      }
      data[dataIndex] := SubByte(data[dataIndex], key[keyIndex]);
      NextKeyIndex(dataIndex, |key|);
      dataIndex, keyIndex := dataIndex + 1, keyIndex + 1;
    }
  }

  /** The seed loop of `EncodeTransform`: at every group end the window is
      shuffled with the seed left by the previous key byte; the `seed = 0`
      after the shuffle is overwritten at once. */
  method ShuffleByKey(data: array<Byte>, count: nat, key: seq<Byte>, rng: Sampler)
    requires count <= data.Length
    modifies data
    ensures data[..count] == ShuffledAll(rng, old(data[..count]), Seeds(key))
    ensures data[count..] == old(data[count..])
  {
    ghost var window := data[..count];
    var seed := 0;
    var index := 0;
    while index < |key|
      invariant index <= |key|
      invariant seed == SeedBefore(key, index)
      invariant data[..count] == ShuffledUpTo(rng, window, key, index)
      invariant data[count..] == old(data[count..])
    {
      if (index + 1) % GroupSize == 0 || index + 1 == |key| {
        Shuffle(data, count, seed, rng);
        seed := 0;
      }
      assert data[..count] == ShuffledUpTo(rng, window, key, index + 1);
      seed := GroupSeed(key[index]);
      index := index + 1;
    }
    ShuffledUpToSchedule(rng, window, key, |key|);
  }

  /** The seed loop of `DecodeTransform`: the same seeds as the encoder's,
      collected into `listOfSeeds`. */
  method CollectSeeds(key: seq<Byte>) returns (listOfSeeds: seq<int>)
    ensures listOfSeeds == Seeds(key)
  {
    listOfSeeds := [];
    var seed := 0;
    var index := 0;
    while index < |key|
      invariant index <= |key|
      invariant seed == SeedBefore(key, index)
      invariant listOfSeeds == SeedsUpTo(key, index)
    {
      if (index + 1) % GroupSize == 0 || index + 1 == |key| {
        listOfSeeds := listOfSeeds + [seed];
        seed := 0;
      }
      seed := GroupSeed(key[index]);
      index := index + 1;
    }
  }

  /** The last loop of `DecodeTransform`: one reverse shuffle per seed, from
      the last seed back to the first. */
  method ReverseShuffleAll(data: array<Byte>, count: nat, listOfSeeds: seq<int>, rng: Sampler)
    requires count <= data.Length
    modifies data
    ensures data[..count] == UnshuffledAll(rng, old(data[..count]), listOfSeeds)
    ensures data[count..] == old(data[count..])
  {
    ghost var masked := data[..count];
    var g := |listOfSeeds| - 1;
    assert listOfSeeds[..g + 1] == listOfSeeds;
    while g >= 0
      invariant -1 <= g < |listOfSeeds|
      invariant UnshuffledAll(rng, data[..count], listOfSeeds[..g + 1]) == UnshuffledAll(rng, masked, listOfSeeds)
      invariant data[count..] == old(data[count..])
    {
      ghost var before := data[..count];
      ghost var pending := listOfSeeds[..g + 1];
      assert pending[|pending| - 1] == listOfSeeds[g];
      assert pending[..|pending| - 1] == listOfSeeds[..g];
      assert UnshuffledAll(rng, before, pending)
          == UnshuffledAll(rng, Unshuffled(rng, listOfSeeds[g], before), listOfSeeds[..g]);
      ReverseShuffle(data, count, listOfSeeds[g], rng);
      g := g - 1;
    }
    assert listOfSeeds[..g + 1] == [];
  }

  /** `EncodeTransform(data, dataCount, encryptionKey)`. An empty key makes
      the source index `key[0]` out of range for a non-empty window, so the
      key must not be empty. */
  method EncodeTransform(data: array<Byte>, count: nat, key: seq<Byte>, rng: Sampler)
    requires count <= data.Length && |key| > 0
    modifies data
    ensures data[..count] == EncodeBlock(rng, key, old(data[..count]))
    ensures data[count..] == old(data[count..])
  {
    ShuffleByKey(data, count, key, rng);
    XorKeyStream(data, count, key);
    AddKeyStream(data, count, key);
  }

  /** `DecodeTransform(data, dataCount, encryptionKey)`: subtract, XOR, collect
      the seed list, and reverse-shuffle with it from the last seed back. */
  method DecodeTransform(data: array<Byte>, count: nat, key: seq<Byte>, rng: Sampler)
    requires count <= data.Length && |key| > 0
    modifies data
    ensures data[..count] == DecodeBlock(rng, key, old(data[..count]))
    ensures data[count..] == old(data[count..])
  {
    SubtractKeyStream(data, count, key);
    XorKeyStream(data, count, key);
    var listOfSeeds := CollectSeeds(key);
    ReverseShuffleAll(data, count, listOfSeeds, rng);
  }
}
