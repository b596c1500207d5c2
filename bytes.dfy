/**
 * Bytes and their bits, shared by the firmware's payload layouts and the
 * host client's codec.
 */
module Bytes {

  /** A C# `byte`, a C `uint8_t`. */
  type Byte = b: int | 0 <= b < 0x100

  /** C#'s unchecked `(byte)x`: the low eight bits of a two's-complement int. */
  function ByteOf(x: int): (b: Byte)
    ensures 0 <= x < 0x100 ==> b == x
    ensures (b - x) % 0x100 == 0
  {
    x % 0x100
  }

  /** The contents of a fresh C# `byte[n]`: all zero. */
  function Zeros(n: nat): (z: seq<Byte>)
    ensures |z| == n
    ensures forall i :: 0 <= i < n ==> z[i] == 0
  {
    seq(n, _ => 0)
  }

  function Pow2(n: nat): (p: nat)
    ensures p >= 1
  {
    if n == 0 then 1 else 2 * Pow2(n - 1)
  }

  /** The n low binary digits of x, least significant first. */
  function Bits(x: nat, n: nat): (bs: seq<bool>)
    ensures |bs| == n
  {
    if n == 0 then [] else [x % 2 == 1] + Bits(x / 2, n - 1)
  }

  /** The number whose binary digits, least significant first, are bs. */
  function FromBits(bs: seq<bool>): (x: nat)
    ensures x < Pow2(|bs|)
  {
    if bs == [] then 0 else (if bs[0] then 1 else 0) + 2 * FromBits(bs[1..])
  }

  lemma {:induction false} BitsOfFromBits(bs: seq<bool>)
    ensures Bits(FromBits(bs), |bs|) == bs
  {
    if bs != [] {
      BitsOfFromBits(bs[1..]);
      assert bs == [bs[0]] + bs[1..];
    }
  }

  /** A number is zero exactly when none of its binary digits is set. */
  lemma {:induction false} FromBitsZero(bs: seq<bool>)
    ensures FromBits(bs) == 0 <==> forall k :: 0 <= k < |bs| ==> !bs[k]
  {
    if bs != [] {
      FromBitsZero(bs[1..]);
      assert forall k :: 1 <= k < |bs| ==> bs[k] == bs[1..][k - 1];
    }
  }

  lemma {:induction false} BitsOfZero(n: nat)
    ensures forall k :: 0 <= k < n ==> !Bits(0, n)[k]
  {
    if n > 0 {
      BitsOfZero(n - 1);
      assert forall k :: 1 <= k < n ==> Bits(0, n)[k] == Bits(0, n - 1)[k - 1];
    }
  }

  /** The binary digits of `1 << i`: only digit i is set. */
  lemma {:induction false} BitsOfPow2(i: nat, n: nat)
    requires i < n
    ensures forall k :: 0 <= k < n ==> Bits(Pow2(i), n)[k] == (k == i)
  {
    if i == 0 {
      BitsOfZero(n - 1);
      assert forall k :: 1 <= k < n ==> Bits(1, n)[k] == Bits(0, n - 1)[k - 1];
    } else {
      BitsOfPow2(i - 1, n - 1);
      assert Pow2(i) == 2 * Pow2(i - 1);
      assert forall k :: 1 <= k < n ==> Bits(Pow2(i), n)[k] == Bits(Pow2(i - 1), n - 1)[k - 1];
    }
  }

  /** Shifting a one left by i places gives 2^i, for every shift within a byte. */
  lemma {:induction false} ShiftIsPow2(i: nat)
    requires i < 8
    ensures ((1 as bv8) << i) as int == Pow2(i)
  {
    if i > 0 {
      ShiftIsPow2(i - 1);
      assert (1 as bv8) << i == ((1 as bv8) << (i - 1)) << 1;
    }
  }

  /** C#'s `1 << i` for a bit position of a byte. */
  function Mask(i: nat): (m: Byte)
    requires i < 8
    ensures m == Pow2(i)
  {
    ShiftIsPow2(i);
    ((1 as bv8) << i) as int
  }

  /** Bit i of b (0 is the least significant). */
  predicate BitSet(b: Byte, i: nat)
    requires i < 8
  {
    Bits(b, 8)[i]
  }

  /** C#'s `x & y` on two bytes. */
  function BitAnd(x: Byte, y: Byte): Byte
  {
    var xs := Bits(x, 8);
    var ys := Bits(y, 8);
    FromBits(seq(8, k requires 0 <= k < 8 => xs[k] && ys[k]))
  }

  /** The client's mask test `(b & (1 << i)) != 0` asks exactly whether bit i is set. */
  lemma {:induction false} MaskTest(b: Byte, i: nat)
    requires i < 8
    ensures BitAnd(b, Mask(i)) != 0 <==> BitSet(b, i)
  {
    BitsOfPow2(i, 8);
    var bb, bm := Bits(b, 8), Bits(Pow2(i), 8);
    var both := seq(8, k requires 0 <= k < 8 => bb[k] && bm[k]);
    FromBitsZero(both);
    assert both[i] == bb[i];
  }

  /** `b ^ (1 << j)`: b with bit j inverted. */
  function FlipBit(b: Byte, j: nat): Byte
    requires j < 8
  {
    var bs := Bits(b, 8);
    FromBits(bs[j := !bs[j]])
  }

  /** Flipping bit j of a byte changes bit j and no other bit. */
  lemma {:induction false} FlipBitOnly(b: Byte, i: nat, j: nat)
    requires i < 8 && j < 8
    ensures BitSet(FlipBit(b, j), i) == if i == j then !BitSet(b, i) else BitSet(b, i)
  {
    var bs := Bits(b, 8);
    BitsOfFromBits(bs[j := !bs[j]]);
  }

  /** The byte whose bits 0 to |f|-1 are the flags f and whose other bits are clear. */
  function PackBits(f: seq<bool>): (b: Byte)
    requires |f| <= 8
    ensures forall i :: 0 <= i < |f| ==> BitSet(b, i) == f[i]
    ensures forall i :: |f| <= i < 8 ==> !BitSet(b, i)
  {
    var bs := f + seq(8 - |f|, _ => false);
    BitsOfFromBits(bs);
    FromBits(bs)
  }
}
