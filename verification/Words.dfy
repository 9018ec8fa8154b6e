/**
 Bytes, 16 and 32 bit words in host memory of either byte order, and exclusive or.
 Words are naturals below 2^16 or 2^32, so that offsets and lengths stay plain integers.
 */
module Words {
  type byte = b: int | 0 <= b < 256
  type bytes = seq<byte>

  /** Byte order of the host. */
  datatype Endian = Big | Little

  function Join(high: nat, low: byte): (w: nat) {
    high * 256 + low
  }

  lemma JoinParts(high: nat, low: byte)
    ensures Join(high, low) / 256 == high && Join(high, low) % 256 == low
  {
  }

  function Be16(b: bytes): (w: nat)
    requires |b| == 2
    ensures w < 0x10000
  {
    Join(b[0], b[1])
  }

  function Be32(b: bytes): (w: nat)
    requires |b| == 4
    ensures w < 0x1_0000_0000
  {
    Join(Join(Join(b[0], b[1]), b[2]), b[3])
  }

  function Bytes16(w: nat): (b: bytes)
    requires w < 0x10000
    ensures |b| == 2 && Be16(b) == w
  {
    [w / 256, w % 256]
  }

  function Bytes32(w: nat): (b: bytes)
    requires w < 0x1_0000_0000
    ensures |b| == 4 && Be32(b) == w
  {
    [w / 256 / 256 / 256, w / 256 / 256 % 256, w / 256 % 256, w % 256]
  }

  lemma Bytes32OfBe32(b: bytes)
    requires |b| == 4
    ensures Bytes32(Be32(b)) == b
  {
    JoinParts(Join(Join(b[0], b[1]), b[2]), b[3]);
    JoinParts(Join(b[0], b[1]), b[2]);
    JoinParts(b[0], b[1]);
  }

  function Reverse4(b: bytes): (r: bytes)
    requires |b| == 4
    ensures |r| == 4
  {
    [b[3], b[2], b[1], b[0]]
  }

  /** The value of a 32 bit field as the host reads it. */
  function Load32(b: bytes, host: Endian): (w: nat)
    requires |b| == 4
    ensures w < 0x1_0000_0000
  {
    if host.Big? then Be32(b) else Be32(Reverse4(b))
  }

  /** What byte order means: the weight of each byte of a field. */
  lemma LoadWeighs(b: bytes, host: Endian)
    requires |b| == 4
    ensures Load32(b, host) ==
      var b0, b1, b2, b3 := b[0] as int, b[1] as int, b[2] as int, b[3] as int;
      if host.Big? then b0 * 0x100_0000 + b1 * 0x1_0000 + b2 * 0x100 + b3
      else b3 * 0x100_0000 + b2 * 0x1_0000 + b1 * 0x100 + b0
  {
  }

  /** The bytes of a host value in memory. */
  function Store32(w: nat, host: Endian): (b: bytes)
    requires w < 0x1_0000_0000
    ensures |b| == 4
  {
    if host.Big? then Bytes32(w) else Reverse4(Bytes32(w))
  }

  /** htonl, which is also ntohl. */
  function Htonl(w: nat, host: Endian): (r: nat)
    requires w < 0x1_0000_0000
    ensures r < 0x1_0000_0000
  {
    if host.Big? then w else Be32(Reverse4(Bytes32(w)))
  }

  /** ntohl of a loaded field is its big-endian value on every host. */
  lemma NetworkLoad(b: bytes, host: Endian)
    requires |b| == 4
    ensures Htonl(Load32(b, host), host) == Be32(b)
  {
    Bytes32OfBe32(Reverse4(b));
  }

  /** htonl of a value lies in memory in network order on every host. */
  lemma NetworkStore(w: nat, host: Endian)
    requires w < 0x1_0000_0000
    ensures Store32(Htonl(w, host), host) == Bytes32(w)
  {
    Bytes32OfBe32(Reverse4(Bytes32(w)));
  }

  // ---------------------------------------------------------------- exclusive or

  function Pow2(n: nat): (p: nat)
    ensures p > 0
  {
    if n == 0 then 1 else 2 * Pow2(n - 1)
  }

  /** Exclusive or of the lowest n bits. */
  function Xor(n: nat, x: nat, y: nat): (r: nat)
    ensures r < Pow2(n)
  {
    if n == 0 then 0 else 2 * Xor(n - 1, x / 2, y / 2) + (x + y) % 2
  }

  /** Bit i of x, counted from the lowest. */
  function Bit(x: nat, i: nat): (b: nat)
    ensures b < 2
    decreases i
  {
    if i == 0 then x % 2 else Bit(x / 2, i - 1)
  }

  /** Each of the n low bits of the result is set exactly where the operands differ, and no other bit is. */
  lemma {:induction false} XorBits(n: nat, x: nat, y: nat, i: nat)
    ensures Bit(Xor(n, x, y), i) == 1 <==> i < n && Bit(x, i) != Bit(y, i)
    decreases n
  {
    if n == 0 {
      NoBits(i);
    } else {
      var r := Xor(n - 1, x / 2, y / 2);
      Halves(r, (x + y) % 2);
      if i == 0 {
        OddSum(x, y);
      } else {
        XorBits(n - 1, x / 2, y / 2, i - 1);
      }
    }
  }

  lemma OddSum(x: nat, y: nat)
    ensures (x + y) % 2 == 1 <==> x % 2 != y % 2
  {
  }

  lemma {:induction false} NoBits(i: nat)
    ensures Bit(0, i) == 0
  {
    if i == 0 {
    } else {
      NoBits(i - 1);
    }
  }

  lemma {:induction false} XorZero(n: nat, x: nat)
    requires x < Pow2(n)
    ensures Xor(n, x, 0) == x
  {
    if n == 0 {
    } else {
      XorZero(n - 1, x / 2);
    }
  }

  lemma {:induction false} XorSelf(n: nat, x: nat)
    ensures Xor(n, x, x) == 0
  {
    if n == 0 {
    } else {
      XorSelf(n - 1, x / 2);
    }
  }

  lemma {:induction false} XorCommutes(n: nat, x: nat, y: nat)
    ensures Xor(n, x, y) == Xor(n, y, x)
  {
    if n == 0 {
    } else {
      XorCommutes(n - 1, x / 2, y / 2);
    }
  }

  lemma Halves(r: nat, e: nat)
    requires e < 2
    ensures (2 * r + e) / 2 == r && (2 * r + e) % 2 == e
  {
  }

  lemma FlipTwice(x: nat, y: nat, r: nat)
    ensures (2 * r + (x + y) % 2 + y) % 2 == x % 2
  {
  }

  /** Masking twice with the same word gives the value back. */
  lemma {:induction false} XorTwice(n: nat, x: nat, y: nat)
    requires x < Pow2(n)
    ensures Xor(n, Xor(n, x, y), y) == x
  {
    if n == 0 {
    } else {
      XorTwice(n - 1, x / 2, y / 2);
      var r := Xor(n - 1, x / 2, y / 2);
      Halves(r, (x + y) % 2);
      FlipTwice(x, y, r);
    }
  }

  /** The n low bits of b below a. */
  function Below(n: nat, a: nat, b: nat): nat {
    if n == 0 then a else 2 * Below(n - 1, a, b / 2) + b % 2
  }

  /** The lowest bit of an exclusive or with attached low parts, and what remains above it. */
  lemma LowestBit(a: nat, b: nat, c: nat, d: nat, n: nat)
    requires n > 0
    ensures Below(n, a, b) / 2 == Below(n - 1, a, b / 2) && Below(n, c, d) / 2 == Below(n - 1, c, d / 2)
    ensures (Below(n, a, b) + Below(n, c, d)) % 2 == (b + d) % 2
  {
    Halves(Below(n - 1, a, b / 2), b % 2);
    Halves(Below(n - 1, c, d / 2), d % 2);
    SameParity(Below(n, a, b), Below(n, c, d), b, d);
  }

  /** Exclusive or works on high and low parts separately. */
  lemma {:induction false} XorSplits(m: nat, n: nat, a: nat, b: nat, c: nat, d: nat)
    ensures Xor(m + n, Below(n, a, b), Below(n, c, d)) == Below(n, Xor(m, a, c), Xor(n, b, d))
  {
    if n == 0 {
    } else {
      XorSplits(m, n - 1, a, b / 2, c, d / 2);
      LowestBit(a, b, c, d, n);
      Halves(Xor(n - 1, b / 2, d / 2), (b + d) % 2);
    }
  }

  lemma SameParity(x: nat, y: nat, b: nat, d: nat)
    requires x % 2 == b % 2 && y % 2 == d % 2
    ensures (x + y) % 2 == (b + d) % 2
  {
  }

  lemma Doubled(a: nat, p: nat)
    ensures a * (2 * p) == 2 * (a * p)
  {
  }

  lemma {:induction false} BelowIsSum(n: nat, a: nat, b: nat)
    requires b < Pow2(n)
    ensures Below(n, a, b) == a * Pow2(n) + b
  {
    if n == 0 {
    } else {
      BelowIsSum(n - 1, a, b / 2);
      Doubled(a, Pow2(n - 1));
    }
  }

  lemma BelowIsJoin(a: nat, b: byte)
    ensures Below(8, a, b) == Join(a, b)
  {
    Powers();
    BelowIsSum(8, a, b);
  }

  lemma XorJoin(m: nat, a: nat, b: byte, c: nat, d: byte)
    ensures Xor(m + 8, Join(a, b), Join(c, d)) == Join(Xor(m, a, c), Xor8(b, d))
  {
    XorSplits(m, 8, a, b, c, d);
    BelowIsJoin(a, b);
    BelowIsJoin(c, d);
    BelowIsJoin(Xor(m, a, c), Xor8(b, d));
  }

  lemma Powers()
    ensures Pow2(8) == 256 && Pow2(16) == 0x10000 && Pow2(32) == 0x1_0000_0000
  {
    assert Pow2(4) == 16;
    assert Pow2(8) == 256;
    assert Pow2(12) == 4096;
    assert Pow2(16) == 65536;
    assert Pow2(20) == 1048576;
    assert Pow2(24) == 16777216;
    assert Pow2(28) == 268435456;
  }

  function Xor8(x: byte, y: byte): (r: byte) {
    Powers();
    Xor(8, x, y)
  }

  function Xor16(x: nat, y: nat): (r: nat)
    ensures r < 0x10000
  {
    Powers();
    Xor(16, x, y)
  }

  function Xor32(x: nat, y: nat): (r: nat)
    ensures r < 0x1_0000_0000
  {
    Powers();
    Xor(32, x, y)
  }

  function XorBytes(a: bytes, b: bytes): (r: bytes)
    requires |a| == |b| == 4
    ensures |r| == 4
  {
    [Xor8(a[0], b[0]), Xor8(a[1], b[1]), Xor8(a[2], b[2]), Xor8(a[3], b[3])]
  }

  /** A 32 bit exclusive or is one of each byte. */
  lemma XorByByte(a: bytes, b: bytes)
    requires |a| == |b| == 4
    ensures Xor32(Be32(a), Be32(b)) == Be32(XorBytes(a, b))
  {
    XorJoin(8, a[0], a[1], b[0], b[1]);
    XorJoin(16, Join(a[0], a[1]), a[2], Join(b[0], b[1]), b[2]);
    XorJoin(24, Join(Join(a[0], a[1]), a[2]), a[3], Join(Join(b[0], b[1]), b[2]), b[3]);
  }

  lemma XorBytesReversed(a: bytes, b: bytes)
    requires |a| == |b| == 4
    ensures XorBytes(Reverse4(a), Reverse4(b)) == Reverse4(XorBytes(a, b))
  {
  }
}
