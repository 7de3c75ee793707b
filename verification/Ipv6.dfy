/**
 Matching an address against a network prefix, byte by byte with a mask for the last bits. Its
 partner is the definition of section 2.3 of RFC 4291: the leftmost bits of the two 128-bit numbers agree.
 */
module Ipv6 {
  import opened Prelude

  /** `n >> k` */
  function Shr(n: nat, k: nat): nat
    decreases k
  {
    if k == 0 then n else Shr(n / 2, k - 1)
  }

  /** `n << k` */
  function Shl(n: nat, k: nat): nat {
    if k == 0 then n else 2 * Shl(n, k - 1)
  }

  /** The bytes of an address as one number, the first byte highest. */
  function Number(s: Bytes): nat {
    if s == [] then 0 else Shl(Number(s[..|s| - 1]), 8) + s[|s| - 1]
  }

  /** `b & (0xFF << low)`: the bits from `low` on. */
  function Masked(b: byte, low: nat): nat {
    Shl(Shr(b, low), low)
  }

  /** `is_ipv6_prefix` */
  predicate IsPrefix(address: Bytes, network: Bytes, bits: nat)
    requires |address| == 16 && |network| == 16 && bits <= 128
  {
    var whole, remaining := bits / 8, bits % 8;
    if address[..whole] != network[..whole] then false
    else if remaining == 0 then true
    else Masked(address[whole], 8 - remaining) == Masked(network[whole], 8 - remaining)
  }

  lemma {:induction false} ShrAdd(n: nat, j: nat, k: nat)
    ensures Shr(n, j + k) == Shr(Shr(n, j), k)
    decreases j
  {
    if j > 0 {
      ShrAdd(n / 2, j - 1, k);
    }
  }

  /** Shifting right by fewer bits than the left part was shifted up keeps the two parts apart. */
  lemma {:induction false} ShrParts(h: nat, b: nat, k: nat, t: nat)
    requires t <= k
    ensures Shr(Shl(h, k) + b, t) == Shl(h, k - t) + Shr(b, t)
    decreases t
  {
    if t > 0 {
      assert (2 * Shl(h, k - 1) + b) / 2 == Shl(h, k - 1) + b / 2;
      ShrParts(h, b / 2, k - 1, t - 1);
    }
  }

  lemma {:induction false} ShrBound(b: nat, k: nat, t: nat)
    requires t <= k && b < Shl(1, k)
    ensures Shr(b, t) < Shl(1, k - t)
    decreases t
  {
    if t > 0 {
      ShrBound(b / 2, k - 1, t - 1);
    }
  }

  /** The two parts are determined by the whole. */
  lemma {:induction false} PartsUnique(h: nat, g: nat, x: nat, y: nat, k: nat)
    requires x < Shl(1, k) && y < Shl(1, k)
    ensures Shl(h, k) + x == Shl(g, k) + y <==> h == g && x == y
    decreases k
  {
    if k > 0 && Shl(h, k) + x == Shl(g, k) + y {
      var a, b := Shl(h, k - 1), Shl(g, k - 1);
      assert a + x / 2 == b + y / 2 && x % 2 == y % 2;
      PartsUnique(h, g, x / 2, y / 2, k - 1);
    }
  }

  lemma {:induction false} ByteBound(b: byte)
    ensures b < Shl(1, 8)
  {
    assert Shl(1, 1) == 2;
    assert Shl(1, 3) == 8;
    assert Shl(1, 5) == 32;
    assert Shl(1, 7) == 128;
  }

  lemma {:induction false} ShlInjective(m: nat, n: nat, k: nat)
    ensures Shl(m, k) == Shl(n, k) <==> m == n
  {
    if k > 0 {
      ShlInjective(m, n, k - 1);
    }
  }

  /** Shifting out whole bytes drops them. */
  lemma {:induction false} DropBytes(s: Bytes, m: nat)
    requires m <= |s|
    ensures Shr(Number(s), 8 * m) == Number(s[..|s| - m])
    decreases m
  {
    if m == 0 {
      assert s[..|s|] == s;
    } else {
      var t, b := s[..|s| - 1], s[|s| - 1];
      DropByte(Number(t), b);
      ShrAdd(Number(s), 8, 8 * (m - 1));
      DropBytes(t, m - 1);
      assert t[..|t| - (m - 1)] == s[..|s| - m];
    }
  }

  lemma {:induction false} DropByte(h: nat, b: byte)
    ensures Shr(Shl(h, 8) + b, 8) == h
  {
    ByteBound(b);
    ShrParts(h, b, 8, 8);
    ShrBound(b, 8, 8);
  }

  lemma {:induction false} NumberInjective(a: Bytes, b: Bytes)
    requires |a| == |b|
    ensures Number(a) == Number(b) <==> a == b
  {
    if a != [] {
      var n := |a| - 1;
      NumberInjective(a[..n], b[..n]);
      ByteBound(a[n]);
      ByteBound(b[n]);
      PartsUnique(Number(a[..n]), Number(b[..n]), a[n], b[n], 8);
      assert a == a[..n] + [a[n]] && b == b[..n] + [b[n]];
    }
  }

  /** Shifting out part of a byte leaves the bytes before it and the byte's upper bits. */
  lemma {:induction false} DropBits(h: nat, g: nat, b: byte, c: byte, t: nat)
    requires t <= 8
    ensures Shr(Shl(h, 8) + b, t) == Shr(Shl(g, 8) + c, t) <==> h == g && Shr(b, t) == Shr(c, t)
  {
    ByteBound(b);
    ByteBound(c);
    ShrParts(h, b, 8, t);
    ShrParts(g, c, 8, t);
    ShrBound(b, 8, t);
    ShrBound(c, 8, t);
    PartsUnique(h, g, Shr(b, t), Shr(c, t), 8 - t);
  }

  /** What remains when `m` whole bytes and `t` bits of the byte before them are shifted out. */
  lemma {:induction false} DropToByte(s: Bytes, m: nat, t: nat, k: nat)
    requires m < |s| && k == 8 * m + t
    ensures var n := |s| - 1 - m; Shr(Number(s), k) == Shr(Shl(Number(s[..n]), 8) + s[n], t)
  {
    var n := |s| - 1 - m;
    ShrAdd(Number(s), 8 * m, t);
    DropBytes(s, m);
    assert s[..n + 1][..n] == s[..n];
  }

  lemma {:induction false} PartByteExactly(a: Bytes, b: Bytes, m: nat, t: nat, k: nat)
    requires |a| == |b| && m < |a| && t <= 8 && k == 8 * m + t
    ensures var n := |a| - 1 - m;
            Shr(Number(a), k) == Shr(Number(b), k) <==> a[..n] == b[..n] && Masked(a[n], t) == Masked(b[n], t)
  {
    var n := |a| - 1 - m;
    DropToByte(a, m, t, k);
    DropToByte(b, m, t, k);
    DropMasked(a[..n], b[..n], a[n], b[n], t);
  }

  lemma {:induction false} DropMasked(p: Bytes, q: Bytes, b: byte, c: byte, t: nat)
    requires |p| == |q| && t <= 8
    ensures Shr(Shl(Number(p), 8) + b, t) == Shr(Shl(Number(q), 8) + c, t) <==> p == q && Masked(b, t) == Masked(c, t)
  {
    DropBits(Number(p), Number(q), b, c, t);
    NumberInjective(p, q);
    ShlInjective(Shr(b, t), Shr(c, t), t);
  }

  lemma {:induction false} WholeBytesExactly(a: Bytes, b: Bytes, n: nat)
    requires |a| == |b| == 16 && n <= 16
    ensures Shr(Number(a), 128 - 8 * n) == Shr(Number(b), 128 - 8 * n) <==> a[..n] == b[..n]
  {
    DropBytes(a, 16 - n);
    DropBytes(b, 16 - n);
    NumberInjective(a[..n], b[..n]);
  }

  /** For every address, network and length, the byte-wise match holds exactly when the leftmost bits agree. */
  lemma {:induction false} PrefixExactly(address: Bytes, network: Bytes, bits: nat)
    requires |address| == 16 && |network| == 16 && bits <= 128
    ensures IsPrefix(address, network, bits) <==> Shr(Number(address), 128 - bits) == Shr(Number(network), 128 - bits)
  {
    if bits % 8 == 0 {
      WholeBytesExactly(address, network, bits / 8);
    } else {
      PartByteExactly(address, network, 15 - bits / 8, 8 - bits % 8, 128 - bits);
    }
  }

  // ----- A shift is a division by a power of two

  lemma {:induction false} MulLess(a: nat, b: nat, d: nat)
    requires a < b
    ensures a * d + d <= b * d
    decreases b
  {
    if a + 1 < b {
      MulLess(a, b - 1, d);
    }
  }

  lemma {:induction false} Quotient(n: nat, q: nat, d: nat, r: nat)
    requires n == q * d + r && r < d
    ensures n / d == q
  {
    var k := n / d;
    assert n == k * d + n % d;
    if k < q {
      MulLess(k, q, d);
    } else if q < k {
      MulLess(q, k, d);
    }
  }

  lemma {:induction false} ShiftIsDivision(n: nat, k: nat)
    ensures Shr(n, k) == n / PowerOfTwo(k)
    decreases k
  {
    if k > 0 {
      ShiftIsDivision(n / 2, k - 1);
      Halved(n, Shr(n, k), PowerOfTwo(k - 1));
    }
  }

  lemma {:induction false} Halved(n: nat, q: nat, d: nat)
    requires d > 0 && q == n / 2 / d
    ensures n / (2 * d) == q
  {
    var r := n / 2 % d;
    assert n / 2 == q * d + r;
    assert q * (2 * d) == 2 * (q * d);
    Quotient(n, q, 2 * d, 2 * r + n % 2);
  }
}
