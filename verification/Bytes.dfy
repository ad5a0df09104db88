/** Bytes, big-endian integers and byte-wise exclusive or, as the OSCORE helper uses them. */
module Bytes {

  type Byte = x: int | 0 <= x < 256

  datatype Option<+T> = None | Some(value: T)

  /** The number a byte string spells, most significant byte first. */
  function BigEndian(bytes: seq<Byte>): nat {
    if bytes == [] then 0 else BigEndian(bytes[..|bytes| - 1]) * 256 + bytes[|bytes| - 1]
  }

  /** The low `length` bytes of a number, most significant byte first. */
  function ToBytes(value: nat, length: nat): (bytes: seq<Byte>)
    ensures |bytes| == length
  {
    if length == 0 then [] else ToBytes(value / 256, length - 1) + [value % 256]
  }

  function Pow256(n: nat): (p: nat)
    ensures p > 0
  {
    if n == 0 then 1 else 256 * Pow256(n - 1)
  }

  lemma Pow256Values()
    ensures Pow256(4) == 0x1_0000_0000
    ensures Pow256(5) == 0x100_0000_0000
    ensures Pow256(8) == 0x1_0000_0000_0000_0000
  {
    assert Pow256(1) == 256;
    assert Pow256(2) == 65536;
    assert Pow256(3) == 16777216;
    assert Pow256(4) == 0x1_0000_0000;
    assert Pow256(5) == 0x100_0000_0000;
    assert Pow256(6) == 0x1_0000_0000_0000;
    assert Pow256(7) == 0x100_0000_0000_0000;
  }

  /** What `encode` writes, `integer` reads back, as long as it fits. */
  lemma {:induction false} EncodedIntegerReadsBack(value: nat, length: nat)
    requires value < Pow256(length)
    ensures BigEndian(ToBytes(value, length)) == value
  {
    if length > 0 {
      EncodedIntegerReadsBack(value / 256, length - 1);
      var bytes := ToBytes(value, length);
      assert bytes[..|bytes| - 1] == ToBytes(value / 256, length - 1);
    }
  }

  /** And every byte string is the encoding of the number it spells. */
  lemma {:induction false} ReadIntegerEncodesBack(bytes: seq<Byte>)
    ensures BigEndian(bytes) < Pow256(|bytes|)
    ensures ToBytes(BigEndian(bytes), |bytes|) == bytes
  {
    if bytes != [] {
      ReadIntegerEncodesBack(bytes[..|bytes| - 1]);
      assert bytes == bytes[..|bytes| - 1] + [bytes[|bytes| - 1]];
    }
  }

  /** `integer` in store.c: shift in one byte at a time. */
  method Integer(bytes: array<Byte>, start: nat, length: nat) returns (result: nat)
    requires start + length <= bytes.Length
    ensures result == BigEndian(bytes[start..start + length])
  {
    result := 0;
    for index := 0 to length
      invariant result == BigEndian(bytes[start..start + index])
    {
      assert bytes[start..start + index + 1][..index] == bytes[start..start + index];
      result := result * 256 + bytes[start + index];
    }
  }

  /** `encode` in store.c: fill the field from its last byte to its first. */
  method Encode(bytes: array<Byte>, start: nat, value: nat, length: nat)
    requires start + length <= bytes.Length
    modifies bytes
    ensures bytes[..] == old(bytes[..start]) + ToBytes(value, length) + old(bytes[start + length..])
  {
    var rest: nat, index: nat := value, length;
    while index > 0
      invariant index <= length
      invariant bytes[..start + index] == old(bytes[..start + index])
      invariant ToBytes(value, length) == ToBytes(rest, index) + bytes[start + index..start + length]
      invariant bytes[start + length..] == old(bytes[start + length..])
    {
      ghost var before := bytes[start + index..start + length];
      bytes[start + index - 1] := rest % 256;
      assert bytes[start + index - 1..start + length] == [rest % 256] + before;
      assert bytes[..start + index - 1] == old(bytes[..start + index])[..start + index - 1];
      rest := rest / 256;
      index := index - 1;
    }
    assert bytes[..] == bytes[..start] + bytes[start..start + length] + bytes[start + length..];
  }

  /** Exclusive or of the low `bits` bits. */
  function XorBits(a: nat, b: nat, bits: nat): nat {
    if bits == 0 then 0 else (a + b) % 2 + 2 * XorBits(a / 2, b / 2, bits - 1)
  }

  function Pow2(n: nat): (p: nat)
    ensures p > 0
  {
    if n == 0 then 1 else 2 * Pow2(n - 1)
  }

  lemma {:induction false} XorBitsInRange(a: nat, b: nat, bits: nat)
    ensures XorBits(a, b, bits) < Pow2(bits)
  {
    if bits > 0 { XorBitsInRange(a / 2, b / 2, bits - 1); }
  }

  function Xor(a: Byte, b: Byte): Byte {
    XorBitsInRange(a, b, 8);
    assert Pow2(8) == 256 by { assert Pow2(4) == 16; assert Pow2(6) == 64; }
    XorBits(a, b, 8)
  }

  lemma {:induction false} XorBitsCancels(a: nat, b: nat, c: nat, bits: nat)
    requires XorBits(a, b, bits) == XorBits(a, c, bits)
    requires b < Pow2(bits) && c < Pow2(bits)
    ensures b == c
  {
    if bits > 0 {
      hide XorBits, Pow2;
      XorBitsSplit(a, b, bits);
      XorBitsSplit(a, c, bits);
      var x, y := XorBits(a / 2, b / 2, bits - 1), XorBits(a / 2, c / 2, bits - 1);
      BitAndRest((a + b) % 2, x, (a + c) % 2, y);
      XorBitsCancels(a / 2, b / 2, c / 2, bits - 1);
      SameParity(a, b, c);
    }
  }

  lemma XorBitsSplit(a: nat, b: nat, bits: nat)
    requires bits > 0 && b < Pow2(bits)
    ensures XorBits(a, b, bits) == (a + b) % 2 + 2 * XorBits(a / 2, b / 2, bits - 1)
    ensures b / 2 < Pow2(bits - 1)
  {
  }

  lemma BitAndRest(p: nat, x: nat, q: nat, y: nat)
    requires p < 2 && q < 2 && p + 2 * x == q + 2 * y
    ensures p == q && x == y
  {
  }

  lemma SameParity(a: nat, b: nat, c: nat)
    requires (a + b) % 2 == (a + c) % 2 && b / 2 == c / 2
    ensures b == c
  {
  }

  /** Masking with a fixed byte loses nothing. */
  lemma XorCancels(a: Byte, b: Byte, c: Byte)
    requires Xor(a, b) == Xor(a, c)
    ensures b == c
  {
    assert Pow2(8) == 256 by { assert Pow2(4) == 16; assert Pow2(6) == 64; }
    XorBitsCancels(a, b, c, 8);
  }
}
