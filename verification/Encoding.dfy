/**
 Integer keys as eight big-endian bytes (types/types.go), and the byte order in
 which the database keeps them.
 */
module Encoding {

  type Byte = x: int | 0 <= x < 256

  type Bytes = seq<Byte>

  /** A data key: exactly eight bytes. */
  type Key = b: Bytes | |b| == 8 witness [0, 0, 0, 0, 0, 0, 0, 0]

  const KEY_BYTES: nat := 8

  const TWO_63: int := 0x8000_0000_0000_0000
  const TWO_64: int := 0x1_0000_0000_0000_0000

  /** The low `width` bytes of `u`, most significant first. */
  function BigEndian(u: nat, width: nat): (b: Bytes)
    ensures |b| == width
  {
    if width == 0 then [] else BigEndian(u / 256, width - 1) + [u % 256]
  }

  /** The number that a big-endian byte string denotes. */
  function FromBigEndian(b: Bytes): nat {
    if b == [] then 0 else 256 * FromBigEndian(b[..|b| - 1]) + b[|b| - 1]
  }

  /** A Go int. */
  type Int = n: int | -TWO_63 <= n < TWO_63

  /** Go's uint64(n): a negative n counts down from 2^64. */
  function Unsigned(n: int): nat
    requires n >= -TWO_63
  {
    if n < 0 then n + TWO_64 else n
  }

  /** Go's PutUint64 of uint64(n); only the low eight bytes of a larger number would be kept. */
  function IntToBytes(n: int): Key
    requires n >= -TWO_63
  {
    BigEndian(Unsigned(n), KEY_BYTES)
  }

  /** Go's Uint64 followed by int(u): the upper half of the range is negative. */
  function BytesToInt(b: Bytes): Int
    requires |b| >= 8
  {
    var u := FromBigEndian(b[..8]);
    assert u < TWO_64 by {
      Pow256Eight();
      EncodeDecode(b[..8]);
    }
    if u < TWO_63 then u else u - TWO_64
  }

  /** The byte-wise order of bytes.Compare. */
  predicate Less(a: Bytes, b: Bytes) {
    b != [] && (a == [] || a[0] < b[0] || (a[0] == b[0] && Less(a[1..], b[1..])))
  }

  predicate AtMost(a: Bytes, b: Bytes) {
    a == b || Less(a, b)
  }

  function Pow256(k: nat): nat {
    if k == 0 then 1 else 256 * Pow256(k - 1)
  }

  lemma {:induction false} Pow256Eight()
    ensures Pow256(8) == TWO_64
  {
    assert Pow256(1) == 256;
    assert Pow256(2) == 65536;
    assert Pow256(4) == 256 * (256 * Pow256(2));
    assert Pow256(6) == 256 * (256 * Pow256(4));
    assert Pow256(8) == 256 * (256 * Pow256(6));
  }

  lemma {:induction false} DecodeEncode(u: nat, width: nat)
    requires u < Pow256(width)
    ensures FromBigEndian(BigEndian(u, width)) == u
  {
    if width > 0 {
      DecodeEncode(u / 256, width - 1);
      assert BigEndian(u, width)[..width - 1] == BigEndian(u / 256, width - 1);
    }
  }

  /** Decoding undoes encoding for every Go int, negative ones included. */
  lemma {:induction false} RoundTrip(n: Int)
    ensures BytesToInt(IntToBytes(n)) == n
  {
    Pow256Eight();
    DecodeEncode(Unsigned(n), KEY_BYTES);
    assert IntToBytes(n)[..8] == IntToBytes(n);
  }

  lemma {:induction false} EncodeDecode(b: Bytes)
    ensures FromBigEndian(b) < Pow256(|b|)
    ensures BigEndian(FromBigEndian(b), |b|) == b
  {
    if b != [] {
      var p := b[..|b| - 1];
      EncodeDecode(p);
      assert FromBigEndian(b) / 256 == FromBigEndian(p);
      assert FromBigEndian(b) % 256 == b[|b| - 1];
    }
  }

  /** Every eight-byte key is the encoding of the Go int it decodes to. */
  lemma {:induction false} RoundTripKey(k: Key)
    ensures IntToBytes(BytesToInt(k)) == k
  {
    Pow256Eight();
    EncodeDecode(k);
    assert k[..8] == k;
    assert Unsigned(BytesToInt(k)) == FromBigEndian(k);
  }

  /** The bytes of a key are the digits of the number, or of 2^64 more when it is negative, highest first. */
  lemma {:induction false} KeyDigits(n: Int)
    ensures var b: seq<int> := IntToBytes(n);
            0x100_0000_0000_0000 * b[0] + 0x1_0000_0000_0000 * b[1] + 0x100_0000_0000 * b[2] + 0x1_0000_0000 * b[3]
            + 0x100_0000 * b[4] + 0x1_0000 * b[5] + 0x100 * b[6] + b[7]
            == if n < 0 then n + 0x1_0000_0000_0000_0000 else n
  {
    Pow256Eight();
    DecodeEncode(Unsigned(n), KEY_BYTES);
    var b := IntToBytes(n);
    assert FromBigEndian(b[..0]) == 0;
    forall i | 0 < i <= 8 ensures FromBigEndian(b[..i]) == 256 * FromBigEndian(b[..i - 1]) + b[i - 1] {
      assert b[..i][..i - 1] == b[..i - 1];
    }
    assert b[..8] == b;
  }

  /** The two strings agree before position i, where `a` has a smaller byte or ends. */
  predicate FirstDifference(a: Bytes, b: Bytes, i: nat) {
    i <= |a| && i < |b| && a[..i] == b[..i] && (i < |a| ==> a[i] < b[i])
  }

  /** The recursive comparison decides by the first position at which the strings differ. */
  lemma {:induction false} LessIff(a: Bytes, b: Bytes)
    ensures Less(a, b) <==> exists i: nat :: FirstDifference(a, b, i)
  {
    if a != [] && b != [] && a[0] == b[0] {
      LessIff(a[1..], b[1..]);
      forall i: nat ensures FirstDifference(a[1..], b[1..], i) <==> FirstDifference(a, b, i + 1) {
        if i < |a| && i < |b| {
          assert a[..i + 1] == [a[0]] + a[1..][..i] && b[..i + 1] == [b[0]] + b[1..][..i];
        }
      }
      forall i: nat | FirstDifference(a, b, i) ensures Less(a, b) {
        assert FirstDifference(a[1..], b[1..], i - 1);
      }
    } else if b != [] && (a == [] || a[0] < b[0]) {
      assert FirstDifference(a, b, 0);
    } else {
      forall i: nat | 0 < i <= |a| && i < |b| ensures a[..i][0] == a[0] && b[..i][0] == b[0] {}
    }
  }

  lemma {:induction false} LessSnoc(p: Bytes, x: Byte, q: Bytes, y: Byte)
    requires |p| == |q|
    ensures Less(p + [x], q + [y]) <==> Less(p, q) || (p == q && x < y)
  {
    if p == [] {
      assert q == [];
    } else {
      assert (p + [x])[1..] == p[1..] + [x];
      assert (q + [y])[1..] == q[1..] + [y];
      LessSnoc(p[1..], x, q[1..], y);
      assert p == [p[0]] + p[1..] && q == [q[0]] + q[1..];
    }
  }

  lemma {:induction false} BigEndianOrder(u: nat, v: nat, width: nat)
    requires u < Pow256(width) && v < Pow256(width)
    ensures Less(BigEndian(u, width), BigEndian(v, width)) <==> u < v
    ensures BigEndian(u, width) == BigEndian(v, width) <==> u == v
  {
    DecodeEncode(u, width);
    DecodeEncode(v, width);
    if width > 0 {
      BigEndianOrder(u / 256, v / 256, width - 1);
      LessSnoc(BigEndian(u / 256, width - 1), u % 256, BigEndian(v / 256, width - 1), v % 256);
    }
  }

  /**
   The byte order of two keys is the order of the unsigned values: numeric order
   on indexes below 2^63 and among negative ones, which sort after all others.
   */
  lemma {:induction false} KeyOrder(a: Int, b: Int)
    ensures Less(IntToBytes(a), IntToBytes(b)) <==> Unsigned(a) < Unsigned(b)
    ensures IntToBytes(a) == IntToBytes(b) <==> a == b
    ensures (a < 0 <==> b < 0) ==> (Less(IntToBytes(a), IntToBytes(b)) <==> a < b)
    ensures b < 0 <= a ==> Less(IntToBytes(a), IntToBytes(b))
  {
    Pow256Eight();
    BigEndianOrder(Unsigned(a), Unsigned(b), KEY_BYTES);
  }

  lemma {:induction false} LessIrreflexive(a: Bytes)
    ensures !Less(a, a)
  {
    if a != [] {
      LessIrreflexive(a[1..]);
    }
  }

  lemma {:induction false} LessTransitive(a: Bytes, b: Bytes, c: Bytes)
    requires Less(a, b) && Less(b, c)
    ensures Less(a, c)
  {
    if a != [] && a[0] == b[0] && b[0] == c[0] {
      LessTransitive(a[1..], b[1..], c[1..]);
    }
  }

  lemma {:induction false} LessTotal(a: Bytes, b: Bytes)
    ensures Less(a, b) || a == b || Less(b, a)
  {
    if a != [] && b != [] && a[0] == b[0] {
      LessTotal(a[1..], b[1..]);
      assert a == [a[0]] + a[1..] && b == [b[0]] + b[1..];
    }
  }
}
