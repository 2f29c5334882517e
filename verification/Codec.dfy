/** Signed integers of fixed width as big-endian bytes in two's complement. */
module Codec {
  import opened Powers

  newtype byte = x: int | 0 <= x < 256

  datatype Width = I8 | I16 | I32 | I64

  function Size(w: Width): nat {
    match w
    case I8 => 1
    case I16 => 2
    case I32 => 4
    case I64 => 8
  }

  /** 256 to the power `n`. */
  function Pow256(n: nat): (p: nat)
    ensures p > 0 && (n > 0 ==> p % 2 == 0)
  {
    if n == 0 then 1 else 256 * Pow256(n - 1)
  }

  predicate InRange(w: Width, val: int) {
    2 * val < Pow256(Size(w)) && 0 <= 2 * val + Pow256(Size(w))
  }

  /** The sizes and ranges of the widths. */
  lemma Widths(v: int)
    ensures Size(I8) == 1 && (InRange(I8, v) <==> -0x80 <= v < 0x80)
    ensures Size(I16) == 2 && (InRange(I16, v) <==> -0x8000 <= v < 0x8000)
    ensures Size(I32) == 4 && (InRange(I32, v) <==> -0x8000_0000 <= v < 0x8000_0000)
    ensures Size(I64) == 8 && (InRange(I64, v) <==> -0x8000_0000_0000_0000 <= v < 0x8000_0000_0000_0000)
  {
    assert Pow256(2) == 256 * Pow256(1) && Pow256(3) == 256 * Pow256(2) && Pow256(4) == 256 * Pow256(3);
    assert Pow256(5) == 256 * Pow256(4) && Pow256(6) == 256 * Pow256(5) && Pow256(7) == 256 * Pow256(6);
    assert Pow256(8) == 256 * Pow256(7);
  }

  /** The `n` low bytes of a natural, the highest first. */
  function BigEndian(u: nat, n: nat): (bytes: seq<byte>)
    ensures |bytes| == n
  {
    if n == 0 then [] else BigEndian(u / 256, n - 1) + [(u % 256) as byte]
  }

  function FromBigEndian(bytes: seq<byte>): (u: nat)
    ensures u < Pow256(|bytes|)
  {
    if bytes == [] then 0
    else 256 * FromBigEndian(bytes[..|bytes| - 1]) + bytes[|bytes| - 1] as nat
  }

  function Encode(w: Width, val: int): (bytes: seq<byte>)
    requires InRange(w, val)
    ensures |bytes| == Size(w)
  {
    BigEndian(if val < 0 then val + Pow256(Size(w)) else val, Size(w))
  }

  function Decode(w: Width, bytes: seq<byte>): (val: int)
    requires |bytes| == Size(w)
    ensures InRange(w, val)
  {
    var u := FromBigEndian(bytes);
    if 2 * u < Pow256(Size(w)) then u else u - Pow256(Size(w))
  }

  lemma {:induction false} FromBigEndianOfBigEndian(u: nat, n: nat)
    requires u < Pow256(n)
    ensures FromBigEndian(BigEndian(u, n)) == u
  {
    if n > 0 {
      FromBigEndianOfBigEndian(u / 256, n - 1);
      assert BigEndian(u, n)[..n - 1] == BigEndian(u / 256, n - 1);
    }
  }

  lemma {:induction false} BigEndianOfFromBigEndian(bytes: seq<byte>)
    ensures BigEndian(FromBigEndian(bytes), |bytes|) == bytes
  {
    if bytes != [] {
      var n := |bytes| - 1;
      BigEndianOfFromBigEndian(bytes[..n]);
      assert FromBigEndian(bytes) / 256 == FromBigEndian(bytes[..n]);
      assert bytes == bytes[..n] + [bytes[n]];
    }
  }

  /** The highest byte comes first: byte `i` has the weight of the bytes after it. */
  lemma {:induction false} BigEndianDigit(u: nat, n: nat, i: nat)
    requires i < n
    ensures BigEndian(u, n)[i] as nat == u / Pow256(n - 1 - i) % 256
  {
    if i == n - 1 {
      assert u / Pow256(0) == u;
    } else {
      BigEndianDigit(u / 256, n - 1, i);
      var p := Pow256(n - 2 - i);
      assert Pow256(n - 1 - i) == 256 * p;
      DivDiv(u, p);
    }
  }

  lemma DivDiv(u: nat, p: nat)
    requires p > 0
    ensures u / 256 / p == u / (256 * p)
  {
    var q, r := u / 256 / p, u / 256 % p;
    assert u == 256 * (q * p + r) + u % 256;
    assert 256 * (q * p) == q * (256 * p);
    assert u == q * (256 * p) + (256 * r + u % 256);
    DivModUnique(u, q, 256 * r + u % 256, 256 * p);
  }

  lemma LastByte(bytes: seq<byte>, low: byte)
    ensures FromBigEndian(bytes + [low]) == 256 * FromBigEndian(bytes) + low as nat
    ensures Pow256(|bytes| + 1) == 256 * Pow256(|bytes|) && FromBigEndian([]) == 0 && Pow256(0) == 1
  {
    assert (bytes + [low])[..|bytes|] == bytes;
  }

  lemma Shifted(h: nat, p: nat, l: nat, b: nat)
    ensures 256 * (h * p + l) + b == h * (256 * p) + (256 * l + b)
  {
    assert 256 * (h * p) == h * (256 * p);
  }

  /** A wide number is its high bytes, shifted, and its low bytes. */
  lemma {:induction false} FromBigEndianOfConcat(high: seq<byte>, low: seq<byte>)
    ensures FromBigEndian(high + low) == FromBigEndian(high) * Pow256(|low|) + FromBigEndian(low)
  {
    hide FromBigEndian, Pow256;
    LastByte([], 0);
    if low == [] {
      assert high + low == high;
    } else {
      var n := |low| - 1;
      FromBigEndianOfConcat(high, low[..n]);
      LastByte(low[..n], low[n]);
      LastByte(high + low[..n], low[n]);
      assert low == low[..n] + [low[n]];
      assert high + low == high + low[..n] + [low[n]];
      Shifted(FromBigEndian(high), Pow256(n), FromBigEndian(low[..n]), low[n] as nat);
    }
  }

  /** In two's complement a value and the natural with the same bytes differ by the modulus exactly if
      the value is negative. */
  lemma TwosComplement(w: Width, val: int)
    requires InRange(w, val)
    ensures FromBigEndian(Encode(w, val)) == if val < 0 then val + Pow256(Size(w)) else val
  {
    FromBigEndianOfBigEndian(if val < 0 then val + Pow256(Size(w)) else val, Size(w));
  }

  /** Decoding inverts encoding on all values of the width. */
  lemma DecodeOfEncode(w: Width, val: int)
    requires InRange(w, val)
    ensures Decode(w, Encode(w, val)) == val
  {
    hide Pow256, FromBigEndian, BigEndian;
    FromBigEndianOfBigEndian(if val < 0 then val + Pow256(Size(w)) else val, Size(w));
  }

  /** Encoding inverts decoding on all byte strings of the width. */
  lemma EncodeOfDecode(w: Width, bytes: seq<byte>)
    requires |bytes| == Size(w)
    ensures Encode(w, Decode(w, bytes)) == bytes
  {
    hide Pow256, FromBigEndian, BigEndian;
    BigEndianOfFromBigEndian(bytes);
  }

  /** A value and what follows it can be read off again. */
  lemma EncodeIsPrefixFree(w: Width, x: int, y: int, r: seq<byte>, s: seq<byte>)
    requires InRange(w, x) && InRange(w, y) && Encode(w, x) + r == Encode(w, y) + s
    ensures x == y && r == s
  {
    DecodeOfEncode(w, x);
    DecodeOfEncode(w, y);
    assert Encode(w, x) == (Encode(w, x) + r)[..Size(w)] == Encode(w, y);
    assert r == (Encode(w, x) + r)[Size(w)..] == s;
  }
}
