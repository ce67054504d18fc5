/** Bytes, the network (big-endian) integers the wire formats use, and byte-wise exclusive or. */
module Bytes {

  type Byte = x: int | 0 <= x < 256

  type Bytes = seq<Byte>

  const TWO_16 := 0x1_0000
  const TWO_64 := 0x1_0000_0000_0000_0000

  datatype Option<+T> = None | Some(value: T)

  function Min(a: int, b: int): int {
    if a <= b then a else b
  }

  function Max(a: int, b: int): int {
    if a <= b then b else a
  }

  /** 256 to the power n: the number of values n bytes can hold. */
  function Span(n: nat): (r: nat)
    ensures r > 0
  {
    if n == 0 then 1 else 256 * Span(n - 1)
  }

  /** The last n base-256 digits of v, most significant first. */
  function BigEndian(n: nat, v: nat): (b: Bytes)
    ensures |b| == n
  {
    if n == 0 then [] else BigEndian(n - 1, v / 256) + [v % 256]
  }

  /** The number a byte string spells, most significant byte first. */
  function Number(b: Bytes): nat {
    if b == [] then 0 else 256 * Number(b[..|b| - 1]) + b[|b| - 1]
  }

  lemma {:induction false} NumberOfBigEndian(n: nat, v: nat)
    requires v < Span(n)
    ensures Number(BigEndian(n, v)) == v
  {
    if n > 0 {
      NumberOfBigEndian(n - 1, v / 256);
      assert BigEndian(n, v)[..n - 1] == BigEndian(n - 1, v / 256);
    }
  }

  lemma {:induction false} NumberBounded(b: Bytes)
    ensures Number(b) < Span(|b|)
  {
    if b != [] {
      NumberBounded(b[..|b| - 1]);
    }
  }

  lemma Span8()
    ensures Span(2) == TWO_16 && Span(8) == TWO_64
  {
    assert Span(4) == 0x1_0000_0000;
    assert Span(6) == 0x1_0000_0000_0000;
  }

  /** Two and eight byte fields, as both wire formats use them. */
  lemma FieldRoundTrip(v: nat)
    ensures v < TWO_16 ==> Number(BigEndian(2, v)) == v
    ensures v < TWO_64 ==> Number(BigEndian(8, v)) == v
  {
    Span8();
    if v < TWO_16 {
      NumberOfBigEndian(2, v);
    }
    if v < TWO_64 {
      NumberOfBigEndian(8, v);
    }
  }

  lemma Number2(b: Bytes)
    requires |b| == 2
    ensures Number(b) == 256 * (b[0] as int) + b[1]
  {
    assert b[..1][..0] == [];
    assert Number(b[..1]) == 256 * Number(b[..1][..0]) + b[0];
  }

  /** Exclusive or of the low n bits of a and b. */
  function XorBits(n: nat, a: nat, b: nat): (r: nat)
    ensures r < Power2(n)
  {
    if n == 0 then 0
    else 2 * XorBits(n - 1, a / 2, b / 2) + (if a % 2 == b % 2 then 0 else 1)
  }

  function Power2(n: nat): nat {
    if n == 0 then 1 else 2 * Power2(n - 1)
  }

  function Xor(a: Byte, b: Byte): Byte {
    assert Power2(8) == 256;
    XorBits(8, a, b)
  }

  /** The k-th binary digit, from the lowest. */
  function Bit(x: nat, k: nat): bool {
    if k == 0 then x % 2 == 1 else Bit(x / 2, k - 1)
  }

  /** A digit of the exclusive or is set exactly if it differs in the two. */
  lemma {:induction false} XorBit(n: nat, a: nat, b: nat, k: nat)
    requires k < n
    ensures Bit(XorBits(n, a, b), k) <==> Bit(a, k) != Bit(b, k)
    decreases n
  {
    var x := XorBits(n, a, b);
    assert x / 2 == XorBits(n - 1, a / 2, b / 2);
    if k > 0 {
      XorBit(n - 1, a / 2, b / 2, k - 1);
    }
  }

  lemma {:induction false} XorBitsTwice(n: nat, a: nat, b: nat)
    requires a < Power2(n)
    ensures XorBits(n, XorBits(n, a, b), b) == a
  {
    if n > 0 {
      var x := XorBits(n, a, b);
      assert x / 2 == XorBits(n - 1, a / 2, b / 2);
      XorBitsTwice(n - 1, a / 2, b / 2);
    }
  }

  lemma XorTwice(a: Byte, b: Byte)
    ensures Xor(Xor(a, b), b) == a
  {
    assert Power2(8) == 256;
    XorBitsTwice(8, a, b);
  }

  /** The concatenation of a list of byte strings. */
  function Flatten(parts: seq<Bytes>): Bytes {
    if parts == [] then [] else parts[0] + Flatten(parts[1..])
  }

  /** Bytes behind a slice do not change it. */
  lemma SliceStays(b: Bytes, more: Bytes, i: nat, j: nat)
    requires i <= j <= |b|
    ensures (b + more)[i..j] == b[i..j] && (b + more)[..j] == b[..j]
  {
  }
}
