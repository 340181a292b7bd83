/** Bytes, little-endian words, and a flat memory. */
module Bytes {
  type byte = x: int | 0 <= x < 256

  function Pow256(n: nat): (p: nat)
    ensures p > 0
  {
    if n == 0 then 1 else 256 * Pow256(n - 1)
  }

  function Encode(v: nat, n: nat): (s: seq<byte>)
    ensures |s| == n
  {
    if n == 0 then [] else [v % 256] + Encode(v / 256, n - 1)
  }

  function Decode(s: seq<byte>): nat {
    if s == [] then 0 else s[0] + 256 * Decode(s[1..])
  }

  /** A word survives being written out and read back. */
  lemma {:induction false} DecodeEncode(v: nat, n: nat)
    requires v < Pow256(n)
    ensures Decode(Encode(v, n)) == v
  {
    if n > 0 {
      DecodeEncode(v / 256, n - 1);
    }
  }

  const WORD: nat := 8
  const TWO32: nat := 0x1_0000_0000
  const TWO64: nat := 0x1_0000_0000_0000_0000

  lemma WordRange()
    ensures Pow256(WORD) == TWO64
  {
    assert Pow256(4) == 0x1_0000_0000;
    assert Pow256(6) == 0x1_0000_0000_0000;
  }

  // ----- memory -----

  type Memory = seq<byte>

  function Load(mem: Memory, a: nat): nat
    requires a + WORD <= |mem|
  {
    Decode(mem[a..a + WORD])
  }

  function Store(mem: Memory, a: nat, v: nat): (r: Memory)
    requires a + WORD <= |mem|
    ensures |r| == |mem|
  {
    mem[..a] + Encode(v, WORD) + mem[a + WORD..]
  }

  /** The two memories hold the same bytes from `lo` up to `hi`. */
  ghost predicate Same(mem: Memory, mem': Memory, lo: nat, hi: nat) {
    |mem| == |mem'| && forall i | lo <= i < hi && i < |mem| :: mem[i] == mem'[i]
  }

  lemma LoadStored(mem: Memory, a: nat, v: nat)
    requires a + WORD <= |mem| && v < TWO64
    ensures Load(Store(mem, a, v), a) == v
  {
    assert Store(mem, a, v)[a..a + WORD] == Encode(v, WORD);
    WordRange();
    DecodeEncode(v, WORD);
  }

  lemma StoreElsewhere(mem: Memory, a: nat, v: nat)
    requires a + WORD <= |mem|
    ensures Same(mem, Store(mem, a, v), 0, a) && Same(mem, Store(mem, a, v), a + WORD, |mem|)
  {
  }

  lemma LoadSame(mem: Memory, mem': Memory, a: nat)
    requires a + WORD <= |mem| && Same(mem, mem', a, a + WORD)
    ensures Load(mem, a) == Load(mem', a)
  {
    assert mem[a..a + WORD] == mem'[a..a + WORD];
  }
}
