/**
 * Byte-level building blocks of the KomaHub wire format as the host client
 * reads and writes them (software/KomaHub/KomaHub/KomaHubHID.cs).
 *
 * The client turns every wire quantity into a float by dividing by ten. The
 * model keeps the undivided integer instead: a value `v` here stands for
 * `v / 10` in the client (tenths of a degree, an ampere, a volt, ...).
 */
module Fields {

  import opened Bytes
  import opened UsbCommands

  // ---------------------------------------------------------------------
  // 16-bit fields

  /** The unsigned little-endian word (lo, hi): `(hi << 8) + lo`. */
  function LeUInt16(lo: Byte, hi: Byte): (v: int)
    ensures 0 <= v < 0x1_0000
  {
    hi * 256 + lo
  }

  /** `v >> 8` and `v & 0xFF` recover the two bytes of the word. */
  lemma LeUInt16Bytes(lo: Byte, hi: Byte)
    ensures LeUInt16(lo, hi) / 256 == hi && LeUInt16(lo, hi) % 256 == lo
  {
  }

  const Int16Min := -0x8000
  const Int16Max := 0x7FFF

  /**
   * `readInt16Float(a, b)` in tenths: the little-endian word (a, b) read as
   * a 16-bit two's-complement number.
   */
  function ReadInt16(a: Byte, b: Byte): (v: int)
    ensures Int16Min <= v <= Int16Max
    ensures v < 0 <==> b >= 0x80
  {
    var value := a + b * 256;
    if value >= 32768 then -(65536 - value) else value
  }

  /** The reading is the unsigned word, less 2^16 when the sign bit (bit 7 of b) is set. */
  lemma ReadInt16TwosComplement(a: Byte, b: Byte)
    ensures b < 0x80 ==> ReadInt16(a, b) == LeUInt16(a, b)
    ensures b >= 0x80 ==> ReadInt16(a, b) == LeUInt16(a, b) - 0x1_0000
  {
  }

  /** The two's-complement little-endian bytes of a 16-bit value, as a sender writes them. */
  function WriteInt16(v: int): (bytes: (Byte, Byte))
    requires Int16Min <= v <= Int16Max
  {
    var raw := v % 0x1_0000;
    (raw % 256, raw / 256)
  }

  lemma {:induction false} Int16RoundTrip(v: int)
    requires Int16Min <= v <= Int16Max
    ensures ReadInt16(WriteInt16(v).0, WriteInt16(v).1) == v
  {
    var raw := v % 0x1_0000;
    assert LeUInt16(WriteInt16(v).0, WriteInt16(v).1) == raw;
  }

  /** Every pair of bytes is the encoding of the value it decodes to. */
  lemma {:induction false} Int16Canonical(a: Byte, b: Byte)
    ensures WriteInt16(ReadInt16(a, b)) == (a, b)
  {
    var raw := LeUInt16(a, b);
    assert ReadInt16(a, b) % 0x1_0000 == raw;
  }

  /** The three readings the wire format is known by. */
  lemma Int16Extremes()
    ensures ReadInt16(0xFF, 0x7F) == 32767
    ensures ReadInt16(0x00, 0x80) == -32768
    ensures ReadInt16(0x00, 0x00) == 0
  {
  }

  // ---------------------------------------------------------------------
  // 32-bit field

  /** The unsigned little-endian reading of four bytes. */
  function LeUInt32(a: Byte, b: Byte, c: Byte, d: Byte): (u: int)
    ensures 0 <= u < 0x1_0000_0000
  {
    a + 0x100 * b + 0x1_0000 * c + 0x100_0000 * d
  }

  /** C#'s unchecked 32-bit `int` arithmetic: the two's-complement value congruent to x. */
  function WrapInt32(x: int): (r: int)
    ensures -0x8000_0000 <= r < 0x8000_0000
    ensures (r - x) % 0x1_0000_0000 == 0
  {
    var m := x % 0x1_0000_0000;
    if m >= 0x8000_0000 then m - 0x1_0000_0000 else m
  }

  /**
   * `readUInt32Float(a, b, c, d)` in tenths: the unsigned little-endian value
   * while the top byte is below 0x80, and that value minus 2^32 (a negative
   * number) from there on. ReadUInt32IsIntArithmetic shows that this is what
   * the client's unchecked `int` sum computes.
   */
  function ReadUInt32(a: Byte, b: Byte, c: Byte, d: Byte): (v: int)
    ensures -0x8000_0000 <= v < 0x8000_0000
    ensures d < 0x80 ==> v == LeUInt32(a, b, c, d)
    ensures d >= 0x80 ==> v == LeUInt32(a, b, c, d) - 0x1_0000_0000
  {
    var u := LeUInt32(a, b, c, d);
    if u >= 0x8000_0000 then u - 0x1_0000_0000 else u
  }

  /**
   * The client sums the four weighted bytes in a C# `int`; only the term
   * `d * 256 * 256 * 256` can leave the 32-bit range, and unchecked addition
   * and multiplication are exact modulo 2^32, so the sum it computes is the
   * 32-bit wrap of the exact sum, which is ReadUInt32.
   */
  lemma ReadUInt32IsIntArithmetic(a: Byte, b: Byte, c: Byte, d: Byte)
    ensures ReadUInt32(a, b, c, d) == WrapInt32(a + b * 256 + c * 256 * 256 + d * 256 * 256 * 256)
  {
  }

  /** A top byte of 0x80 or more reads as a negative frequency. */
  lemma ReadUInt32Wraps()
    ensures ReadUInt32(0x00, 0x00, 0x00, 0x80) == -0x8000_0000
    ensures ReadUInt32(0xFF, 0xFF, 0xFF, 0xFF) == -1
    ensures ReadUInt32(0xFF, 0xFF, 0xFF, 0x7F) == 0x7FFF_FFFF
  {
  }

  /** The little-endian bytes of a 32-bit two's-complement value, as a sender writes them. */
  function WriteInt32(v: int): (bytes: seq<Byte>)
    requires -0x8000_0000 <= v < 0x8000_0000
  {
    var raw := v % 0x1_0000_0000;
    var q1 := raw / 0x100;
    var q2 := q1 / 0x100;
    [raw % 0x100, q1 % 0x100, q2 % 0x100, q2 / 0x100]
  }

  lemma {:induction false} Int32RoundTrip(v: int)
    requires -0x8000_0000 <= v < 0x8000_0000
    ensures var w := WriteInt32(v); ReadUInt32(w[0], w[1], w[2], w[3]) == v
  {
    var raw := v % 0x1_0000_0000;
    var q1 := raw / 0x100;
    var q2 := q1 / 0x100;
    assert raw == raw % 0x100 + 0x100 * q1;
    assert q1 == q1 % 0x100 + 0x100 * q2;
    assert q2 == q2 % 0x100 + 0x100 * (q2 / 0x100);
    var w := WriteInt32(v);
    assert LeUInt32(w[0], w[1], w[2], w[3]) == raw;
    assert w[3] < 0x80 <==> v >= 0;
  }

  // ---------------------------------------------------------------------
  // Output names

  /** The 16-byte name field: the first 16 name bytes, zero-padded. */
  function PadName(name: seq<Byte>): (field: seq<Byte>)
    ensures |field| == NameLength
    ensures forall i :: 0 <= i < NameLength ==> field[i] == if i < |name| then name[i] else 0
  {
    if |name| >= NameLength then name[..NameLength] else name + Zeros(NameLength - |name|)
  }

  /** `TrimEnd('\0')`: the longest prefix of s that does not end in a NUL byte. */
  function TrimNuls(s: seq<Byte>): (t: seq<Byte>)
    ensures t <= s
    ensures t == [] || t[|t| - 1] != 0
    ensures forall i :: |t| <= i < |s| ==> s[i] == 0
  {
    if s != [] && s[|s| - 1] == 0 then TrimNuls(s[..|s| - 1]) else s
  }

  /** The contract of TrimNuls determines its result. */
  lemma {:induction false} TrimNulsUnique(s: seq<Byte>, t: seq<Byte>)
    requires t <= s
    requires t == [] || t[|t| - 1] != 0
    requires forall i :: |t| <= i < |s| ==> s[i] == 0
    ensures TrimNuls(s) == t
  {
    var u := TrimNuls(s);
    assert |t| > 0 ==> s[|t| - 1] == t[|t| - 1];
    assert |u| > 0 ==> s[|u| - 1] == u[|u| - 1];
    assert |u| == |t|;
  }

  /**
   * Padding a name into the 16-byte field and trimming the field gives back
   * the name cut to 16 bytes, less its trailing NULs.
   */
  lemma {:induction false} TrimPadName(name: seq<Byte>)
    ensures TrimNuls(PadName(name)) == TrimNuls(if |name| <= NameLength then name else name[..NameLength])
  {
    var cut := if |name| <= NameLength then name else name[..NameLength];
    var t := TrimNuls(cut);
    TrimNulsUnique(PadName(name), t);
  }

  /** A name of at most 16 bytes that does not end in NUL survives the round trip unchanged. */
  lemma {:induction false} NameRoundTrip(name: seq<Byte>)
    requires |name| <= NameLength
    requires name == [] || name[|name| - 1] != 0
    ensures TrimNuls(PadName(name)) == name
  {
    TrimPadName(name);
    TrimNulsUnique(name, name);
  }
}
