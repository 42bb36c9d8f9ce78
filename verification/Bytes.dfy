/** Bytes, fixed-width integers and their two byte orders. */
module Bytes {

  type Byte = b: int | 0 <= b < 256

  const U32_LIMIT: nat := 0x1_0000_0000
  const U64_LIMIT: nat := 0x1_0000_0000_0000_0000

  type U64 = n: nat | n < 0x1_0000_0000_0000_0000

  /** A SHA-256 digest, an execution-layer block hash or the little-endian form of a U256. */
  type Bytes32 = s: seq<Byte> | |s| == 32 witness seq(32, _ => 0)

  /** Rust's `a + b` on u64 in a build without overflow checks. */
  function WrapU64(n: nat): (r: U64)
    ensures n < U64_LIMIT ==> r == n
  {
    n % U64_LIMIT
  }

  function Power256(w: nat): (p: nat)
    ensures p > 0
  {
    if w == 0 then 1 else 256 * Power256(w - 1)
  }

  /** `n.to_be_bytes()` cut to the lowest `w` bytes. */
  function BigEndian(n: nat, w: nat): (s: seq<Byte>)
    ensures |s| == w
  {
    if w == 0 then [] else BigEndian(n / 256, w - 1) + [n % 256]
  }

  function FromBigEndian(s: seq<Byte>): nat {
    if s == [] then 0 else FromBigEndian(s[..|s| - 1]) * 256 + s[|s| - 1]
  }

  /** `n.to_le_bytes()` cut to the lowest `w` bytes. */
  function LittleEndian(n: nat, w: nat): (s: seq<Byte>)
    ensures |s| == w
  {
    if w == 0 then [] else [n % 256] + LittleEndian(n / 256, w - 1)
  }

  function FromLittleEndian(s: seq<Byte>): nat {
    if s == [] then 0 else s[0] + 256 * FromLittleEndian(s[1..])
  }

  lemma Widths()
    ensures Power256(4) == U32_LIMIT
    ensures Power256(8) == U64_LIMIT
  {
    assert Power256(2) == 0x1_0000;
    assert Power256(4) == U32_LIMIT;
    assert Power256(6) == 0x1_0000_0000_0000;
  }

  lemma {:induction false} BigEndianRoundTrip(n: nat, w: nat)
    requires n < Power256(w)
    ensures FromBigEndian(BigEndian(n, w)) == n
  {
    if w > 0 {
      BigEndianRoundTrip(n / 256, w - 1);
      assert BigEndian(n, w)[..w - 1] == BigEndian(n / 256, w - 1);
    }
  }

  lemma {:induction false} BigEndianOnto(s: seq<Byte>)
    ensures FromBigEndian(s) < Power256(|s|)
    ensures BigEndian(FromBigEndian(s), |s|) == s
  {
    if s != [] {
      BigEndianOnto(s[..|s| - 1]);
      assert s == s[..|s| - 1] + [s[|s| - 1]];
    }
  }

  lemma {:induction false} LittleEndianRoundTrip(n: nat, w: nat)
    requires n < Power256(w)
    ensures FromLittleEndian(LittleEndian(n, w)) == n
  {
    if w > 0 {
      LittleEndianRoundTrip(n / 256, w - 1);
      assert LittleEndian(n, w)[1..] == LittleEndian(n / 256, w - 1);
    }
  }

  lemma {:induction false} LittleEndianOnto(s: seq<Byte>)
    ensures FromLittleEndian(s) < Power256(|s|)
    ensures LittleEndian(FromLittleEndian(s), |s|) == s
  {
    if s != [] {
      LittleEndianOnto(s[1..]);
      assert s == [s[0]] + s[1..];
    }
  }

  /** A four-byte little-endian field holds `n` exactly when it was written from `n` and `n` fits. */
  lemma FourBytes(s: seq<Byte>, n: nat)
    requires |s| == 4
    ensures FromLittleEndian(s) == n <==> (s == LittleEndian(n, 4) && n < U32_LIMIT)
  {
    Widths();
    LittleEndianOnto(s);
    if n < U32_LIMIT {
      LittleEndianRoundTrip(n, 4);
    }
  }

  /** A four-byte big-endian field: the length prefix of a block. */
  lemma FourBytesBig(s: seq<Byte>, n: nat)
    requires |s| == 4
    ensures FromBigEndian(s) == n <==> (s == BigEndian(n, 4) && n < U32_LIMIT)
  {
    Widths();
    BigEndianOnto(s);
    if n < U32_LIMIT {
      BigEndianRoundTrip(n, 4);
    }
  }

  lemma U64Bytes(n: U64)
    ensures FromBigEndian(BigEndian(n, 8)) == n
    ensures FromLittleEndian(LittleEndian(n, 8)) == n
  {
    Widths();
    BigEndianRoundTrip(n, 8);
    LittleEndianRoundTrip(n, 8);
  }

  /** Any eight bytes are a u64 in either order. */
  lemma EightBytes(s: seq<Byte>)
    requires |s| == 8
    ensures FromLittleEndian(s) < U64_LIMIT && LittleEndian(FromLittleEndian(s), 8) == s
    ensures FromBigEndian(s) < U64_LIMIT && BigEndian(FromBigEndian(s), 8) == s
  {
    Widths();
    LittleEndianOnto(s);
    BigEndianOnto(s);
  }

  /** The derived `Ord` of a byte array: at the first difference the smaller byte wins. */
  predicate Less(a: seq<Byte>, b: seq<Byte>)
    requires |a| == |b|
  {
    a != [] && (a[0] < b[0] || (a[0] == b[0] && Less(a[1..], b[1..])))
  }

  lemma {:induction false} LessOnConcat(a: seq<Byte>, b: seq<Byte>, p: seq<Byte>, q: seq<Byte>)
    requires |a| == |b| && |p| == |q|
    ensures Less(a + p, b + q) <==> (Less(a, b) || (a == b && Less(p, q)))
  {
    if a == [] {
      assert a + p == p && b + q == q;
    } else {
      LessOnConcat(a[1..], b[1..], p, q);
      assert (a + p)[1..] == a[1..] + p && (b + q)[1..] == b[1..] + q;
      assert a == [a[0]] + a[1..] && b == [b[0]] + b[1..];
    }
  }

  lemma {:induction false} LessIsIrreflexive(a: seq<Byte>)
    ensures !Less(a, a)
  {
    if a != [] { LessIsIrreflexive(a[1..]); }
  }

  /** Big-endian bytes are compared like the numbers they stand for. */
  lemma {:induction false} BigEndianOrder(m: nat, n: nat, w: nat)
    requires m < Power256(w) && n < Power256(w)
    ensures Less(BigEndian(m, w), BigEndian(n, w)) <==> m < n
  {
    if w > 0 {
      BigEndianOrder(m / 256, n / 256, w - 1);
      LessOnConcat(BigEndian(m / 256, w - 1), BigEndian(n / 256, w - 1), [m % 256], [n % 256]);
      BigEndianRoundTrip(m / 256, w - 1);
      BigEndianRoundTrip(n / 256, w - 1);
    }
  }
}
