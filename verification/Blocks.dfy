/** The raw material of the disk: 512-byte blocks, and the two ways the kernel
    looks inside one: as an array of 32-bit little-endian words (log header,
    indirect block) and as an array of bits (free map). */
module Blocks {
  import opened Common

  const BSIZE: nat := 512
  const WPB: nat := BSIZE / 4          // 32-bit words in a block
  const BPB: nat := BSIZE * 8          // bits in a block

  type Byte = b: int | 0 <= b < 256
  type Block = s: seq<Byte> | |s| == BSIZE witness seq(BSIZE, _ => 0)

  function ZeroBlock(): (z: Block)
  {
    seq(BSIZE, _ => 0)
  }

  // ----- words -----

  /** The number whose bytes are bs, least significant first. */
  function Number(bs: seq<Byte>): (w: nat)
  {
    if bs == [] then 0 else bs[0] + 0x100 * Number(bs[1..])
  }

  /** The n low bytes of w, least significant first. */
  function Octets(w: nat, n: nat): (bs: seq<Byte>)
    ensures |bs| == n
  {
    if n == 0 then [] else [w % 0x100] + Octets(w / 0x100, n - 1)
  }

  lemma {:induction false} NumberFits(bs: seq<Byte>)
    ensures Number(bs) < Pow2(8 * |bs|)
  {
    if bs != [] {
      NumberFits(bs[1..]);
      Pow2Byte(|bs| - 1);
    }
  }

  lemma Pow2Byte(n: nat)
    ensures Pow2(8 * n + 8) == 0x100 * Pow2(8 * n)
  {
    var p := 8 * n;
    assert Pow2(p + 2) == 4 * Pow2(p);
    assert Pow2(p + 4) == 4 * Pow2(p + 2);
    assert Pow2(p + 6) == 4 * Pow2(p + 4);
    assert Pow2(p + 8) == 4 * Pow2(p + 6);
  }

  lemma {:induction false} NumberOfOctets(w: nat, n: nat)
    requires w < Pow2(8 * n)
    ensures Number(Octets(w, n)) == w
  {
    if n > 0 {
      Pow2Byte(n - 1);
      NumberOfOctets(w / 0x100, n - 1);
      assert Octets(w, n)[1..] == Octets(w / 0x100, n - 1);
    }
  }

  lemma WordLimit()
    ensures Pow2(32) == UINT_LIMIT
  {
    Pow2Byte(0);
    Pow2Byte(1);
    Pow2Byte(2);
    Pow2Byte(3);
  }

  function Word(s: Block, i: nat): (w: nat)
    requires i < WPB
    ensures w < UINT_LIMIT
  {
    WordLimit();
    NumberFits(s[4*i..4*i+4]);
    Number(s[4*i..4*i+4])
  }

  function SetWord(s: Block, i: nat, w: nat): (r: Block)
    requires i < WPB && w < UINT_LIMIT
  {
    s[..4*i] + Octets(w, 4) + s[4*i+4..]
  }

  /** Storing a word and reading it back: the word itself and no other. */
  lemma WordOfSetWord(s: Block, i: nat, w: nat, j: nat)
    requires i < WPB && j < WPB && w < UINT_LIMIT
    ensures Word(SetWord(s, i, w), j) == if i == j then w else Word(s, j)
  {
    var r := SetWord(s, i, w);
    if i == j {
      WordLimit();
      NumberOfOctets(w, 4);
      assert r[4*i..4*i+4] == Octets(w, 4);
    } else {
      assert r[4*j..4*j+4] == s[4*j..4*j+4];
    }
  }

  lemma ZeroWord(i: nat)
    requires i < WPB
    ensures Word(ZeroBlock(), i) == 0
  {
    ZeroNumber(ZeroBlock()[4*i..4*i+4]);
  }

  lemma {:induction false} ZeroNumber(bs: seq<Byte>)
    requires forall k | 0 <= k < |bs| :: bs[k] == 0
    ensures Number(bs) == 0
  {
    if bs != [] { ZeroNumber(bs[1..]); }
  }

  // ----- bits -----

  function Pow2(n: nat): (p: nat)
    ensures p > 0
  {
    if n == 0 then 1 else 2 * Pow2(n - 1)
  }

  /** Whether bit k of x is set. */
  predicate ByteBit(x: nat, k: nat)
  {
    if k == 0 then x % 2 == 1 else ByteBit(x / 2, k - 1)
  }

  /** x with bit k set. */
  function ByteSet(x: nat, k: nat): (y: nat)
    decreases k
  {
    if k == 0 then x / 2 * 2 + 1 else 2 * ByteSet(x / 2, k - 1) + x % 2
  }

  /** x with bit k cleared. */
  function ByteClear(x: nat, k: nat): (y: nat)
    decreases k
  {
    if k == 0 then x / 2 * 2 else 2 * ByteClear(x / 2, k - 1) + x % 2
  }

  lemma {:induction false} ByteSetBit(x: nat, k: nat, j: nat)
    ensures ByteBit(ByteSet(x, k), j) == (j == k || ByteBit(x, j))
  {
    if k > 0 && j > 0 {
      ByteSetBit(x / 2, k - 1, j - 1);
      assert ByteSet(x, k) / 2 == ByteSet(x / 2, k - 1);
    }
  }

  lemma {:induction false} ByteClearBit(x: nat, k: nat, j: nat)
    ensures ByteBit(ByteClear(x, k), j) == (j != k && ByteBit(x, j))
  {
    if k > 0 && j > 0 {
      ByteClearBit(x / 2, k - 1, j - 1);
      assert ByteClear(x, k) / 2 == ByteClear(x / 2, k - 1);
    }
  }

  /** Setting or clearing bit k < n of an n-bit number leaves an n-bit number. */
  lemma {:induction false} ByteOpsFit(x: nat, k: nat, n: nat)
    requires k < n && x < Pow2(n)
    ensures ByteSet(x, k) < Pow2(n) && ByteClear(x, k) < Pow2(n)
  {
    if k > 0 {
      ByteOpsFit(x / 2, k - 1, n - 1);
    }
  }

  lemma ByteFits(x: Byte, k: nat)
    requires k < 8
    ensures ByteSet(x, k) < 256 && ByteClear(x, k) < 256
  {
    assert Pow2(8) == 256 by {
      assert Pow2(2) == 4;
      assert Pow2(4) == 16;
      assert Pow2(6) == 64;
    }
    ByteOpsFit(x, k, 8);
  }

  predicate Bit(s: Block, i: nat)
    requires i < BPB
  {
    ByteBit(s[i / 8], i % 8)
  }

  lemma ZeroBit(i: nat)
    requires i < BPB
    ensures !Bit(ZeroBlock(), i)
  {
    ZeroByteBit(i % 8);
  }

  lemma {:induction false} ZeroByteBit(k: nat)
    ensures !ByteBit(0, k)
  {
    if k > 0 { ZeroByteBit(k - 1); }
  }

  function SetBit(s: Block, i: nat): (r: Block)
    requires i < BPB
    ensures forall j :: 0 <= j < BPB ==> Bit(r, j) == (j == i || Bit(s, j))
  {
    ByteFits(s[i / 8], i % 8);
    assert forall j :: 0 <= j < 8 ==> ByteBit(ByteSet(s[i / 8], i % 8), j) == (j == i % 8 || ByteBit(s[i / 8], j)) by {
      forall j | 0 <= j < 8 { ByteSetBit(s[i / 8], i % 8, j); }
    }
    s[i / 8 := ByteSet(s[i / 8], i % 8)]
  }

  function ClearBit(s: Block, i: nat): (r: Block)
    requires i < BPB
    ensures forall j :: 0 <= j < BPB ==> Bit(r, j) == (j != i && Bit(s, j))
  {
    ByteFits(s[i / 8], i % 8);
    assert forall j :: 0 <= j < 8 ==>
        ByteBit(ByteClear(s[i / 8], i % 8), j) == (j != i % 8 && ByteBit(s[i / 8], j)) by {
      forall j | 0 <= j < 8 { ByteClearBit(s[i / 8], i % 8, j); }
    }
    s[i / 8 := ByteClear(s[i / 8], i % 8)]
  }
}
