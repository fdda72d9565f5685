/** The 32-bit FNV-1a hash that picks a shard for a poll id, both in the vote buffer and in
    the sender. A string is a byte string: one character per byte. */
module Hashing {
  const WORD := 0x1_0000_0000

  type Word = h: int | 0 <= h < WORD

  type Byte = b: int | 0 <= b < 256

  function XorBytes(a: Byte, b: Byte): Byte {
    ((a as bv8) ^ (b as bv8)) as int
  }

  // Exclusive or with a byte touches the low eight bits only.
  function XorByte(h: Word, c: char): Word {
    (h / 256) * 256 + XorBytes(h % 256, c as int % 256)
  }

  function Mix(h: Word, c: char): Word {
    XorByte(h, c) * 16777619 % WORD
  }

  function Fnv1a(id: string): Word {
    if id == "" then 2166136261 else Mix(Fnv1a(id[..|id| - 1]), id[|id| - 1])
  }

  function ShardOf(id: string, shards: nat): (i: nat)
    requires shards > 0
    ensures i < shards
  {
    Fnv1a(id) % shards
  }

  lemma HashMore(id: string, c: char)
    ensures Fnv1a(id + [c]) == Mix(Fnv1a(id), c)
  {
    assert (id + [c])[..|id|] == id;
  }

  /** Published values of the hash. */
  lemma KnownHashes()
    ensures Fnv1a("") == 0x811C9DC5
    ensures Fnv1a("a") == 0xE40C292C
    ensures Fnv1a("fo") == 0x6222E842
    ensures ShardOf("a", 64) == 44 && ShardOf("fo", 4) == 2
  {
    hide Fnv1a, Mix;
    EmptyHash();
    HashMore("", 'a');
    assert "" + ['a'] == "a";
    HashMore("", 'f');
    assert "" + ['f'] == "f";
    HashMore("f", 'o');
    assert "f" + ['o'] == "fo";
    KnownSteps();
  }

  lemma EmptyHash()
    ensures Fnv1a("") == 2166136261
  {
  }

  // A step whose exclusive or is known.
  lemma MixOf(h: Word, c: char, low: Byte)
    requires XorBytes(h % 256, c as int % 256) == low
    ensures Mix(h, c) == (h / 256 * 256 + low) * 16777619 % 0x1_0000_0000
  {
    hide XorBytes;
  }

  lemma KnownSteps()
    ensures Mix(0x811C9DC5, 'a') == 0xE40C292C
    ensures Mix(0x811C9DC5, 'f') == 0xE30C2799
    ensures Mix(0xE30C2799, 'o') == 0x6222E842
  {
    hide XorBytes, Mix;
    KnownXors();
    MixOf(0x811C9DC5, 'a', 0xA4);
    MixOf(0x811C9DC5, 'f', 0xA3);
    MixOf(0xE30C2799, 'o', 0xF6);
  }

  lemma KnownXors()
    ensures XorBytes(0xC5, 0x61) == 0xA4 && XorBytes(0xC5, 0x66) == 0xA3 && XorBytes(0x99, 0x6F) == 0xF6
  {
  }

  method HashLoop(id: string) returns (h: Word)
    ensures h == Fnv1a(id)
  {
    h := 2166136261;
    for i := 0 to |id|
      invariant h == Fnv1a(id[..i])
    {
      assert id[..i + 1][..i] == id[..i];
      h := Mix(h, id[i]);
    }
    assert id[..|id|] == id;
  }
}
