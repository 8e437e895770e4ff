/** Fixed-width fields inside byte vectors, in the little-endian layout of the hosts the program runs on. */
module Bytes {
  import opened Wrappers

  newtype byte = b: int | 0 <= b < 256

  /** Exclusive or of the lowest bits, least significant bit first. */
  function XorBits(a: nat, b: nat, bits: nat): (r: nat)
    ensures r < Pow2(bits)
  {
    if bits == 0 then 0
    else (if a % 2 == b % 2 then 0 else 1) + 2 * XorBits(a / 2, b / 2, bits - 1)
  }

  function Pow2(n: nat): (p: nat)
    ensures p > 0
  {
    if n == 0 then 1 else 2 * Pow2(n - 1)
  }

  function Xor(a: byte, b: byte): byte {
    assert Pow2(8) == 256;
    XorBits(a as nat, b as nat, 8) as byte
  }

  lemma {:induction false} XorBitsCancel(a: nat, b: nat, bits: nat)
    requires b < Pow2(bits)
    ensures XorBits(XorBits(a, b, bits), a, bits) == b
  {
    if bits > 0 {
      var r := XorBits(a / 2, b / 2, bits - 1);
      XorBitsCancel(a / 2, b / 2, bits - 1);
      assert XorBits(a, b, bits) / 2 == r;
    }
  }

  lemma XorCancels(a: byte, b: byte)
    ensures Xor(Xor(a, b), a) == b
  {
    assert Pow2(8) == 256;
    XorBitsCancel(a as nat, b as nat, 8);
  }

  /** A bit of a number, by its place. */
  function Bit(n: nat, k: nat): nat {
    (n / Pow2(k)) % 2
  }

  lemma HalfOf(n: nat, m: nat)
    requires m > 0
    ensures n / (2 * m) == (n / 2) / m
  {
    var q, r := n / (2 * m), n % (2 * m);
    assert n == (2 * m) * q + r;
    assert n / 2 == m * q + r / 2 by {
      assert (2 * m) * q == 2 * (m * q);
    }
    DivideExact(m, q, r / 2);
  }

  lemma DivideExact(m: nat, q: nat, r: nat)
    requires r < m
    ensures (m * q + r) / m == q
  {
    var d := (m * q + r) / m;
    assert m * q + r == m * d + (m * q + r) % m;
    if d > q {
      MultipleApart(m, q, d);
    } else if d < q {
      MultipleApart(m, d, q);
    }
  }

  lemma MultipleApart(m: nat, a: nat, b: nat)
    requires a < b
    ensures m * a + m <= m * b
  {
    var d := b - a - 1;
    assert m * (a + 1 + d) == m * a + m + m * d;
  }

  lemma BitAbove(n: nat, k: nat)
    requires k > 0
    ensures Bit(n, k) == Bit(n / 2, k - 1)
  {
    HalfOf(n, Pow2(k - 1));
  }

  lemma LowestBit(n: nat)
    ensures Bit(n, 0) == n % 2
  {
    assert Pow2(0) == 1;
  }

  lemma XorBitsHalf(a: nat, b: nat, bits: nat)
    requires bits > 0
    ensures XorBits(a, b, bits) % 2 == (if a % 2 == b % 2 then 0 else 1)
    ensures XorBits(a, b, bits) / 2 == XorBits(a / 2, b / 2, bits - 1)
  {
  }

  lemma {:induction false} XorBitsBit(a: nat, b: nat, bits: nat, k: nat)
    requires k < bits
    ensures Bit(XorBits(a, b, bits), k) == if Bit(a, k) == Bit(b, k) then 0 else 1
  {
    hide XorBits, Bit, Pow2;
    var n := XorBits(a, b, bits);
    XorBitsHalf(a, b, bits);
    if k > 0 {
      XorBitsBit(a / 2, b / 2, bits - 1, k - 1);
      BitAbove(n, k);
      BitAbove(a, k);
      BitAbove(b, k);
    } else {
      LowestBit(n);
      LowestBit(a);
      LowestBit(b);
    }
  }

  predicate BitSet(b: byte, k: nat) {
    Bit(b as nat, k) == 1
  }

  /** Exclusive or, bit by bit: a bit of the result is set exactly if the two bits differ. */
  lemma XorBit(a: byte, b: byte, k: nat)
    requires k < 8
    ensures BitSet(Xor(a, b), k) <==> BitSet(a, k) != BitSet(b, k)
  {
    assert Pow2(8) == 256;
    XorBitsBit(a as nat, b as nat, 8, k);
  }

  lemma {:induction false} XorBitsZero(a: nat, b: nat, bits: nat)
    requires a < Pow2(bits) && b < Pow2(bits)
    ensures XorBits(a, b, bits) == 0 <==> a == b
  {
    if bits > 0 {
      XorBitsZero(a / 2, b / 2, bits - 1);
    }
  }

  /** It is zero exactly for equal bytes. */
  lemma XorZero(a: byte, b: byte)
    ensures Xor(a, b) == 0 <==> a == b
  {
    assert Pow2(8) == 256;
    XorBitsZero(a as nat, b as nat, 8);
  }

  const U32: nat := 0x1_0000_0000
  const U64: nat := 0x1_0000_0000_0000_0000

  function Pow256(width: nat): (p: nat)
    ensures p > 0
  {
    if width == 0 then 1 else 256 * Pow256(width - 1)
  }

  lemma Pow256Widths()
    ensures Pow256(4) == U32
    ensures Pow256(8) == U64
  {
    assert Pow256(2) == 0x1_0000;
    assert Pow256(4) == 256 * (256 * Pow256(2));
    assert Pow256(6) == 256 * (256 * Pow256(4));
    assert Pow256(8) == 256 * (256 * Pow256(6));
  }

  /** The bytes of a field of the given width; higher bits of n are cut off. */
  function LittleEndian(n: nat, width: nat): (bytes: seq<byte>)
    ensures |bytes| == width
  {
    if width == 0 then [] else [(n % 256) as byte] + LittleEndian(n / 256, width - 1)
  }

  function FromLittleEndian(bytes: seq<byte>): nat {
    if bytes == [] then 0 else bytes[0] as nat + 256 * FromLittleEndian(bytes[1..])
  }

  /** The k-th byte of a field is the k-th digit of the number to base 256, the lowest first. */
  lemma {:induction false} LittleEndianByte(n: nat, width: nat, k: nat)
    requires k < width
    ensures LittleEndian(n, width)[k] as nat == (n / Pow256(k)) % 256
  {
    if k > 0 {
      LittleEndianByte(n / 256, width - 1, k - 1);
      DigitOf(n, Pow256(k - 1));
      assert LittleEndian(n, width)[k] == LittleEndian(n / 256, width - 1)[k - 1];
    }
  }

  lemma DigitOf(n: nat, m: nat)
    requires m > 0
    ensures n / (256 * m) == (n / 256) / m
    ensures (n % (256 * m)) / 256 == (n / 256) % m && (n % (256 * m)) % 256 == n % 256
  {
    var q, r := n / (256 * m), n % (256 * m);
    assert n == 256 * (m * q) + r by {
      assert (256 * m) * q == 256 * (m * q);
    }
    assert n / 256 == m * q + r / 256;
    DivideExact(m, q, r / 256);
  }

  /** The digits of a number do not depend on those above. */
  lemma {:induction false} CutField(n: nat, width: nat)
    ensures LittleEndian(n % Pow256(width), width) == LittleEndian(n, width)
  {
    if width > 0 {
      DigitOf(n, Pow256(width - 1));
      CutField(n / 256, width - 1);
    }
  }

  lemma {:induction false} FieldRoundTrip(n: nat, width: nat)
    requires n < Pow256(width)
    ensures FromLittleEndian(LittleEndian(n, width)) == n
  {
    if width > 0 {
      FieldRoundTrip(n / 256, width - 1);
      assert LittleEndian(n, width)[1..] == LittleEndian(n / 256, width - 1);
    }
  }

  lemma {:induction false} FieldBounded(bytes: seq<byte>)
    ensures FromLittleEndian(bytes) < Pow256(|bytes|)
  {
    if bytes != [] {
      FieldBounded(bytes[1..]);
    }
  }

  /** A string of bytes lies at an offset of a container. */
  predicate Occurs(s: seq<byte>, container: seq<byte>, offset: nat) {
    offset + |s| <= |container| && container[offset..offset + |s|] == s
  }

  lemma OccursSplit(a: seq<byte>, b: seq<byte>, container: seq<byte>, offset: nat)
    requires Occurs(a + b, container, offset)
    ensures Occurs(a, container, offset) && Occurs(b, container, offset + |a|)
  {
    var both := container[offset..offset + |a + b|];
    assert both[..|a|] == a && both[|a|..] == b;
  }

  /** What a read at an offset gives: the field, or nothing where the source throws. */
  function Field(container: seq<byte>, offset: nat, width: nat): (field: Option<nat>)
    ensures field.Some? ==> offset + width <= |container|
  {
    if offset >= |container| || offset + width > |container| then None
    else Some(FromLittleEndian(container[offset..offset + width]))
  }

  /** A field is read back from wherever its bytes lie. */
  lemma FieldAt(n: nat, width: nat, container: seq<byte>, offset: nat)
    requires 0 < width && n < Pow256(width)
    requires Occurs(LittleEndian(n, width), container, offset)
    ensures Field(container, offset, width) == Some(n)
  {
    FieldRoundTrip(n, width);
  }

  function U32Field(n: nat): (bytes: seq<byte>)
    ensures |bytes| == 4
  {
    LittleEndian(n % U32, 4)
  }

  function U64Field(n: nat): (bytes: seq<byte>)
    ensures |bytes| == 8
  {
    LittleEndian(n % U64, 8)
  }

  /** The bytes of a field, the lowest first; a number too large for it keeps its low bytes. */
  lemma U32FieldByte(n: nat, k: nat)
    requires k < 4
    ensures U32Field(n)[k] as nat == (n / Pow256(k)) % 256
  {
    hide LittleEndian;
    Pow256Widths();
    CutField(n, 4);
    LittleEndianByte(n, 4, k);
  }

  lemma U64FieldByte(n: nat, k: nat)
    requires k < 8
    ensures U64Field(n)[k] as nat == (n / Pow256(k)) % 256
  {
    hide LittleEndian;
    Pow256Widths();
    CutField(n, 8);
    LittleEndianByte(n, 8, k);
  }

  lemma U32FieldAt(n: nat, container: seq<byte>, offset: nat)
    requires n < U32 && Occurs(U32Field(n), container, offset)
    ensures Field(container, offset, 4) == Some(n)
  {
    hide LittleEndian;
    Pow256Widths();
    FieldAt(n, 4, container, offset);
  }

  lemma U64FieldAt(n: nat, container: seq<byte>, offset: nat)
    requires n < U64 && Occurs(U64Field(n), container, offset)
    ensures Field(container, offset, 8) == Some(n)
  {
    hide LittleEndian;
    Pow256Widths();
    FieldAt(n, 8, container, offset);
  }

  method AppendU32(container: seq<byte>, value: nat) returns (extended: seq<byte>)
    ensures extended == container + U32Field(value)
  {
    hide LittleEndian;
    extended := container + LittleEndian(value % U32, 4);
  }

  method AppendU64(container: seq<byte>, value: nat) returns (extended: seq<byte>)
    ensures extended == container + U64Field(value)
  {
    hide LittleEndian;
    extended := container + LittleEndian(value % U64, 8);
  }

  method ReadBytesOf(container: seq<byte>, offset: nat, width: nat) returns (next: nat, outValue: Option<nat>)
    ensures outValue == Field(container, offset, width)
    ensures outValue.Some? ==> next == offset + width <= |container|
  {
    if offset >= |container| || offset + width > |container| {
      return offset, None;
    }
    next, outValue := offset + width, Some(FromLittleEndian(container[offset..offset + width]));
  }
}
