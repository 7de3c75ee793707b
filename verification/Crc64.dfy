/**
 CRC-64/NVME as computed for S3 `x-amz-checksum-crc64nvme` headers: a reflected, bit-serial
 register that starts and ends complemented. A `u64` is modelled by its 64 bits, lowest first.

 Two results about the register loop: it is schoolbook polynomial division over GF(2), and it
 has the burst guarantee a 64-bit CRC is chosen for: two messages that differ, and differ only
 inside 64 consecutive bits, never share a checksum.
 */
module Crc64 {
  import opened Prelude

  type Word = s: seq<bool> | |s| == 64 witness Repeat(64, false)

  function Repeat(n: nat, b: bool): (r: seq<bool>)
    ensures |r| == n && forall k :: 0 <= k < n ==> r[k] == b
  {
    seq(n, _ => b)
  }

  /** The lowest `k` bits of `n`, lowest first. */
  function LowBits(n: nat, k: nat): (r: seq<bool>)
    ensures |r| == k
  {
    if k == 0 then [] else [n % 2 == 1] + LowBits(n / 2, k - 1)
  }

  function Value(bits: seq<bool>): (n: nat)
    ensures n < PowerOfTwo(|bits|)
  {
    if bits == [] then 0 else (if bits[0] then 1 else 0) + 2 * Value(bits[1..])
  }

  /** 0x9a6c9329ac4bc9b5, lowest byte first. */
  const REFLECTED_POLYNOMIAL: Word := Bits([0xb5, 0xc9, 0x4b, 0xac, 0x29, 0x93, 0x6c, 0x9a])

  const ZERO: Word := Repeat(64, false)

  const MAX: Word := Repeat(64, true)

  // ----- `u64` operators

  function Xor(a: Word, b: Word): Word {
    seq(64, k requires 0 <= k < 64 => a[k] != b[k])
  }

  function ShiftRight(c: Word): Word {
    c[1..] + [false]
  }

  function Not(c: Word): Word {
    seq(64, k requires 0 <= k < 64 => !c[k])
  }

  /** The bits of a byte, lowest first. */
  function ByteBits(b: byte): (r: seq<bool>)
    ensures |r| == 8
  {
    LowBits(b, 8)
  }

  function Bits(bytes: Bytes): (r: seq<bool>)
    ensures |r| == 8 * |bytes|
  {
    if bytes == [] then [] else ByteBits(bytes[0]) + Bits(bytes[1..])
  }

  function FromByte(b: byte): Word {
    ByteBits(b) + Repeat(56, false)
  }

  function ByteOf(t: seq<bool>): byte
    requires |t| == 8
  {
    assert PowerOfTwo(8) == 256;
    Value(t)
  }

  function BigEndian(c: Word): (r: Bytes)
    ensures |r| == 8
  {
    seq(8, i requires 0 <= i < 8 => ByteOf(c[56 - 8 * i..64 - 8 * i]))
  }

  // ----- The checksum loop

  /** One turn of the inner loop. */
  function Step(c: Word): Word {
    if c[0] then Xor(ShiftRight(c), REFLECTED_POLYNOMIAL) else ShiftRight(c)
  }

  function Steps(c: Word, n: nat): Word
    decreases n
  {
    if n == 0 then c else Steps(Step(c), n - 1)
  }

  /** The register after absorbing `bytes`, starting from `c`. */
  function Absorb(c: Word, bytes: Bytes): Word
    decreases |bytes|
  {
    if bytes == [] then c else Absorb(Steps(Xor(c, FromByte(bytes[0])), 8), bytes[1..])
  }

  function Checksum(bytes: Bytes): Bytes {
    BigEndian(Not(Absorb(MAX, bytes)))
  }

  method Turn(before: Word, b: byte) returns (checksum: Word)
    ensures checksum == Steps(Xor(before, FromByte(b)), 8)
  {
    checksum := Xor(before, FromByte(b));
    ghost var mixed := checksum;
    for k := 0 to 8
      invariant Steps(checksum, 8 - k) == Steps(mixed, 8)
    {
      checksum := Step(checksum);
    }
  }

  /** The two nested loops of the source; `Turn` is the body of the outer one. */
  method Crc64Nvme(bytes: Bytes) returns (r: Bytes)
    ensures r == Checksum(bytes)
    ensures |r| == 8 && Number(r) + Value(MessageRemainder(bytes)) == PowerOfTwo(64) - 1
  {
    var checksum := MAX;
    for i := 0 to |bytes|
      invariant Absorb(checksum, bytes[i..]) == Absorb(MAX, bytes)
    {
      checksum := Turn(checksum, bytes[i]);
      assert bytes[i..][1..] == bytes[i + 1..];
    }
    r := BigEndian(Not(checksum));
    ChecksumIsDivision(bytes);
  }

  // ----- Algebra of one step

  lemma {:induction false} StepLinear(x: Word, y: Word)
    ensures Step(Xor(x, y)) == Xor(Step(x), Step(y))
  {}

  /** The top bit of the polynomial is set, so it shows whether it was mixed in. */
  lemma {:induction false} PolynomialTop()
    ensures REFLECTED_POLYNOMIAL[63]
  {
    var low := [0xb5, 0xc9, 0x4b, 0xac, 0x29, 0x93, 0x6c, 0x9a];
    BitsSplit(low, 7);
    assert low[7..] == [0x9a];
    assert Bits([0x9a]) == ByteBits(0x9a);
    assert ByteBits(0x9a)[7];
  }

  lemma {:induction false} StepAt(x: Word, k: nat)
    requires k < 64
    ensures k < 63 ==> Step(x)[k] == (x[k + 1] != (x[0] && REFLECTED_POLYNOMIAL[k]))
    ensures k == 63 ==> Step(x)[k] == x[0]
  {
    PolynomialTop();
  }

  lemma {:induction false} StepInjective(x: Word, y: Word)
    requires Step(x) == Step(y)
    ensures x == y
  {
    StepAt(x, 63);
    StepAt(y, 63);
    forall k | 0 < k < 64
      ensures x[k] == y[k]
    {
      StepAt(x, k - 1);
      StepAt(y, k - 1);
    }
  }

  lemma {:induction false} StepsInjective(x: Word, y: Word, n: nat)
    requires Steps(x, n) == Steps(y, n)
    ensures x == y
    decreases n
  {
    if n > 0 {
      StepsInjective(Step(x), Step(y), n - 1);
      StepInjective(x, y);
    }
  }

  // ----- The same register, fed one bit at a time

  function AbsorbBits(c: Word, bits: seq<bool>): Word
    decreases |bits|
  {
    if bits == [] then c else AbsorbBits(Step(c[0 := c[0] != bits[0]]), bits[1..])
  }

  lemma {:induction false} AbsorbBitsAppend(c: Word, a: seq<bool>, b: seq<bool>)
    ensures AbsorbBits(c, a + b) == AbsorbBits(AbsorbBits(c, a), b)
    decreases |a|
  {
    if a == [] {
      assert a + b == b;
    } else {
      assert (a + b)[1..] == a[1..] + b;
      AbsorbBitsAppend(Step(c[0 := c[0] != a[0]]), a[1..], b);
    }
  }

  function Pad(bits: seq<bool>): Word
    requires |bits| <= 64
  {
    bits + Repeat(64 - |bits|, false)
  }

  lemma {:induction false} XorSwap(a: Word, b: Word, c: Word)
    ensures Xor(Xor(a, b), c) == Xor(Xor(a, c), b)
  {
  }

  lemma {:induction false} PadTail(bits: seq<bool>)
    requires 0 < |bits| <= 64
    ensures forall k :: 0 <= k < 63 ==> Pad(bits)[k + 1] == Pad(bits[1..])[k]
    ensures !Pad(bits[1..])[63]
  {
  }

  /** A word whose low bit is clear only moves down. */
  lemma {:induction false} StepPad(c: Word, bits: seq<bool>)
    requires 0 < |bits| <= 64
    ensures Step(Xor(c, Pad(bits))) == Xor(Step(c[0 := c[0] != bits[0]]), Pad(bits[1..]))
  {
    var low, rest := c[0 := c[0] != bits[0]], Pad(bits[1..]);
    PadTail(bits);
    assert Xor(c, Pad(bits))[0] == low[0];
    assert ShiftRight(Xor(c, Pad(bits))) == Xor(ShiftRight(low), rest);
    XorSwap(ShiftRight(low), rest, REFLECTED_POLYNOMIAL);
  }

  /** `n <= 64` single-bit turns equal one exclusive-or followed by `n` plain steps. */
  lemma {:induction false} AbsorbsAsWord(c: Word, bits: seq<bool>)
    requires |bits| <= 64
    ensures AbsorbBits(c, bits) == Steps(Xor(c, Pad(bits)), |bits|)
    decreases |bits|
  {
    if bits == [] {
      assert Xor(c, Pad(bits)) == c;
    } else {
      AbsorbsAsWord(Step(c[0 := c[0] != bits[0]]), bits[1..]);
      StepPad(c, bits);
    }
  }

  /** From one register value, two windows of up to 64 bits lead to the same value only if equal. */
  lemma {:induction false} WindowInjective(c: Word, x: seq<bool>, y: seq<bool>)
    requires |x| == |y| <= 64
    requires AbsorbBits(c, x) == AbsorbBits(c, y)
    ensures x == y
  {
    AbsorbsAsWord(c, x);
    AbsorbsAsWord(c, y);
    StepsInjective(Xor(c, Pad(x)), Xor(c, Pad(y)), |x|);
    forall k | 0 <= k < |x|
      ensures x[k] == y[k]
    {
      assert Xor(c, Pad(x))[k] == Xor(c, Pad(y))[k];
    }
  }

  /** Reading the same bits never merges two different register values. */
  lemma {:induction false} RegisterInjective(c: Word, d: Word, bits: seq<bool>)
    requires AbsorbBits(c, bits) == AbsorbBits(d, bits)
    ensures c == d
    decreases |bits|
  {
    if bits != [] {
      var x, y := c[0 := c[0] != bits[0]], d[0 := d[0] != bits[0]];
      RegisterInjective(Step(x), Step(y), bits[1..]);
      StepInjective(x, y);
      assert c == x[0 := x[0] != bits[0]] && d == y[0 := y[0] != bits[0]];
    }
  }

  /** The source's byte loop is the bit-serial register. */
  lemma {:induction false} BytesAreBits(c: Word, bytes: Bytes)
    ensures Absorb(c, bytes) == AbsorbBits(c, Bits(bytes))
    decreases |bytes|
  {
    if bytes != [] {
      var b := ByteBits(bytes[0]);
      AbsorbBitsAppend(c, b, Bits(bytes[1..]));
      AbsorbsAsWord(c, b);
      assert Pad(b) == FromByte(bytes[0]);
      BytesAreBits(Steps(Xor(c, FromByte(bytes[0])), 8), bytes[1..]);
    }
  }

  // ----- Polynomial division

  /** `s` with its first 64 coefficients mixed with `w`. */
  function MixHead(s: seq<bool>, w: Word): (r: seq<bool>)
    requires |s| >= 64
    ensures |r| == |s|
  {
    seq(|s|, k requires 0 <= k < |s| => if k < 64 then s[k] != w[k] else s[k])
  }

  /**
   Schoolbook division over GF(2): `s` lists the coefficients of the dividend, highest degree
   first, and `low` those of a monic divisor of degree 64 below its leading term.
   */
  function Remainder(s: seq<bool>, low: Word): Word
    requires |s| >= 64
    decreases |s|
  {
    if |s| == 64 then s
    else Remainder(if s[0] then MixHead(s[1..], low) else s[1..], low)
  }

  /**
   The register holds the remainder of the message, followed by 64 zero coefficients and with the
   start value mixed into its first 64, divided by the CRC's generator polynomial.
   */
  lemma {:induction false} AbsorbIsDivision(c: Word, bits: seq<bool>)
    ensures AbsorbBits(c, bits) == Remainder(MixHead(bits + ZERO, c), REFLECTED_POLYNOMIAL)
    decreases |bits|
  {
    if bits == [] {
      assert MixHead(bits + ZERO, c) == c;
    } else {
      var s := MixHead(bits + ZERO, c);
      var next := Step(c[0 := c[0] != bits[0]]);
      assert (bits + ZERO)[1..] == bits[1..] + ZERO;
      assert s[0] == c[0 := c[0] != bits[0]][0];
      DivisionStep(c, bits);
      AbsorbIsDivision(next, bits[1..]);
    }
  }

  lemma {:induction false} DivisionStep(c: Word, bits: seq<bool>)
    requires bits != []
    ensures var s := MixHead(bits + ZERO, c);
            MixHead(bits[1..] + ZERO, Step(c[0 := c[0] != bits[0]]))
            == if s[0] then MixHead(s[1..], REFLECTED_POLYNOMIAL) else s[1..]
  {
    var x := c[0 := c[0] != bits[0]];
    assert MixHead(bits + ZERO, c)[0] == x[0];
    DropHead(c, bits, x);
    MixTwice(bits[1..] + ZERO, ShiftRight(x), REFLECTED_POLYNOMIAL);
  }

  lemma {:induction false} DropHead(c: Word, bits: seq<bool>, x: Word)
    requires bits != [] && x[1..] == c[1..]
    ensures MixHead(bits[1..] + ZERO, ShiftRight(x)) == MixHead(bits + ZERO, c)[1..]
  {
    var s, t := MixHead(bits + ZERO, c), MixHead(bits[1..] + ZERO, ShiftRight(x));
    forall k | 0 <= k < |t|
      ensures t[k] == s[1..][k]
    {
      assert (bits + ZERO)[k + 1] == (bits[1..] + ZERO)[k];
      assert k < 63 ==> ShiftRight(x)[k] == x[1..][k] == c[1..][k] == c[k + 1];
    }
  }

  lemma {:induction false} MixTwice(s: seq<bool>, v: Word, w: Word)
    requires |s| >= 64
    ensures MixHead(MixHead(s, v), w) == MixHead(s, Xor(v, w))
  {
    forall k | 0 <= k < |s|
      ensures MixHead(MixHead(s, v), w)[k] == MixHead(s, Xor(v, w))[k]
    {}
  }

  // ----- The checksum as a number

  /** The number that bytes denote in base 256, the first byte highest. */
  function Number(bytes: Bytes): nat {
    if bytes == [] then 0 else 256 * Number(bytes[..|bytes| - 1]) + bytes[|bytes| - 1]
  }

  lemma {:induction false} Doubled(p: nat, v: nat)
    ensures (2 * p) * v == 2 * (p * v)
  {
  }

  lemma {:induction false} ValueAppend(a: seq<bool>, b: seq<bool>)
    ensures Value(a + b) == Value(a) + PowerOfTwo(|a|) * Value(b)
  {
    if a == [] {
      assert a + b == b;
    } else {
      var p, v := PowerOfTwo(|a| - 1), Value(b);
      ValueAppend(a[1..], b);
      assert (a + b)[1..] == a[1..] + b;
      Doubled(p, v);
      assert PowerOfTwo(|a|) * v == 2 * (p * v);
    }
  }

  /** A byte below, 256 times the rest above. */
  lemma {:induction false} ValueOfByte(low: seq<bool>, high: seq<bool>)
    requires |low| == 8
    ensures Value(low + high) == Value(low) + 256 * Value(high)
  {
    ValueAppend(low, high);
    assert PowerOfTwo(8) == 256;
  }

  /** Words that differ in every bit add up to all ones. */
  lemma {:induction false} ComplementSum(a: seq<bool>, b: seq<bool>)
    requires |a| == |b| && forall k :: 0 <= k < |a| ==> a[k] != b[k]
    ensures Value(a) + Value(b) == PowerOfTwo(|a|) - 1
  {
    if a != [] {
      ComplementSum(a[1..], b[1..]);
    }
  }

  lemma {:induction false} NumberSnoc(bytes: Bytes, n: nat)
    requires n < |bytes|
    ensures Number(bytes[..n + 1]) == 256 * Number(bytes[..n]) + bytes[n]
  {
    assert bytes[..n + 1][..n] == bytes[..n];
  }

  lemma {:induction false} SplitAtByte(c: Word, lo: nat)
    requires lo + 8 <= 64
    ensures Value(c[lo..]) == Value(c[lo..lo + 8]) + 256 * Value(c[lo + 8..])
  {
    assert c[lo..] == c[lo..lo + 8] + c[lo + 8..];
    ValueOfByte(c[lo..lo + 8], c[lo + 8..]);
  }

  lemma {:induction false} BigEndianNext(c: Word, i: nat, lo: nat)
    requires i < 8 && lo == 56 - 8 * i && Number(BigEndian(c)[..i]) == Value(c[lo + 8..])
    ensures Number(BigEndian(c)[..i + 1]) == Value(c[lo..])
  {
    NumberSnoc(BigEndian(c), i);
    SplitAtByte(c, lo);
  }

  /** The first `n` bytes, big-endian, are the top `8 * n` bits. */
  lemma {:induction false} BigEndianTop(c: Word, n: nat)
    requires n <= 8
    ensures Number(BigEndian(c)[..n]) == Value(c[64 - 8 * n..])
  {
    if n > 0 {
      BigEndianTop(c, n - 1);
      BigEndianNext(c, n - 1, 64 - 8 * n);
    }
  }

  lemma {:induction false} BigEndianValue(c: Word)
    ensures Number(BigEndian(c)) == Value(c)
  {
    BigEndianTop(c, 8);
    assert BigEndian(c)[..8] == BigEndian(c) && c[0..] == c;
  }

  /** The remainder of a message, with 64 ones mixed into its head and 64 zeros behind it. */
  function MessageRemainder(bytes: Bytes): Word {
    Remainder(MixHead(Bits(bytes) + seq(64, _ => false), seq(64, _ => true)), REFLECTED_POLYNOMIAL)
  }

  lemma {:induction false} RegisterIsRemainder(bytes: Bytes)
    ensures Absorb(MAX, bytes) == MessageRemainder(bytes)
  {
    BytesAreBits(MAX, bytes);
    AbsorbIsDivision(MAX, Bits(bytes));
    assert ZERO == seq(64, _ => false);
    assert MAX == seq(64, _ => true);
  }

  lemma {:induction false} ComplementNumber(c: Word)
    ensures Number(BigEndian(Not(c))) + Value(c) == PowerOfTwo(64) - 1
  {
    BigEndianValue(Not(c));
    ComplementSum(Not(c), c);
  }

  /** As numbers, the checksum and the remainder of the division of the message add up to 2^64 - 1. */
  lemma {:induction false} ChecksumIsDivision(bytes: Bytes)
    ensures |Checksum(bytes)| == 8
    ensures Number(Checksum(bytes)) + Value(MessageRemainder(bytes)) == PowerOfTwo(64) - 1
  {
    RegisterIsRemainder(bytes);
    ComplementNumber(Absorb(MAX, bytes));
  }

  lemma {:induction false} AllOnes(bits: seq<bool>)
    requires forall k :: 0 <= k < |bits| ==> bits[k]
    ensures Value(bits) == PowerOfTwo(|bits|) - 1
  {
    if bits != [] {
      AllOnes(bits[1..]);
    }
  }

  lemma {:induction false} NumberZero(bytes: Bytes)
    requires Number(bytes) == 0
    ensures forall i :: 0 <= i < |bytes| ==> bytes[i] == 0
  {
    if bytes != [] {
      NumberZero(bytes[..|bytes| - 1]);
    }
  }

  lemma {:induction false} ZeroBytes(r: Bytes)
    requires |r| == 8 && Number(r) == 0
    ensures r == seq(8, _ => 0)
  {
    NumberZero(r);
  }

  lemma {:induction false} EmptyRemainder(bytes: Bytes)
    requires bytes == []
    ensures Value(MessageRemainder(bytes)) == PowerOfTwo(64) - 1
  {
    AllOnes(MixHead(Bits(bytes) + seq(64, _ => false), seq(64, _ => true)));
  }

  /** The empty message has the checksum zero. */
  lemma {:induction false} EmptyChecksum(bytes: Bytes)
    requires bytes == []
    ensures Checksum(bytes) == seq(8, _ => 0)
  {
    ChecksumIsDivision(bytes);
    EmptyRemainder(bytes);
    ZeroBytes(Checksum(bytes));
  }

  /** The number that bytes denote in base 256, the first byte lowest. */
  function LittleNumber(bytes: Bytes): nat {
    if bytes == [] then 0 else bytes[0] + 256 * LittleNumber(bytes[1..])
  }

  /** Bits are absorbed lowest first: a message's bits are those of its bytes as a little-endian number. */
  lemma {:induction false} BitsValue(bytes: Bytes)
    ensures Value(Bits(bytes)) == LittleNumber(bytes)
  {
    if bytes != [] {
      BitsValue(bytes[1..]);
      ValueOfByte(ByteBits(bytes[0]), Bits(bytes[1..]));
      assert PowerOfTwo(8) == 256;
      ValueOfLowBits(bytes[0], 8);
    }
  }

  lemma {:induction false} LittleCons(b: byte, rest: Bytes, n: nat)
    requires LittleNumber(rest) == n
    ensures LittleNumber([b] + rest) == b + 256 * n
  {
    assert ([b] + rest)[1..] == rest;
  }

  /** The generator polynomial is the one of the standard, reflected. */
  lemma {:induction false} PolynomialValue()
    ensures Value(REFLECTED_POLYNOMIAL) == 0x9a6c_9329_ac4b_c9b5
  {
    LittleCons(0x9a, [], 0);
    LittleCons(0x6c, [0x9a], 0x9a);
    LittleCons(0x93, [0x6c, 0x9a], 0x9a6c);
    LittleCons(0x29, [0x93, 0x6c, 0x9a], 0x9a6c_93);
    LittleCons(0xac, [0x29, 0x93, 0x6c, 0x9a], 0x9a6c_9329);
    LittleCons(0x4b, [0xac, 0x29, 0x93, 0x6c, 0x9a], 0x9a6c_9329_ac);
    LittleCons(0xc9, [0x4b, 0xac, 0x29, 0x93, 0x6c, 0x9a], 0x9a6c_9329_ac4b);
    LittleCons(0xb5, [0xc9, 0x4b, 0xac, 0x29, 0x93, 0x6c, 0x9a], 0x9a6c_9329_ac4b_c9);
    BitsValue([0xb5, 0xc9, 0x4b, 0xac, 0x29, 0x93, 0x6c, 0x9a]);
  }

  // ----- Error detection

  lemma {:induction false} ValueOfLowBits(n: nat, k: nat)
    requires n < PowerOfTwo(k)
    ensures Value(LowBits(n, k)) == n
  {
    if k > 0 {
      ValueOfLowBits(n / 2, k - 1);
      assert LowBits(n, k)[1..] == LowBits(n / 2, k - 1);
    }
  }

  lemma {:induction false} ValueInjective(x: seq<bool>, y: seq<bool>)
    requires |x| == |y| && Value(x) == Value(y)
    ensures x == y
  {
    if x != [] {
      ValueInjective(x[1..], y[1..]);
      assert x == [x[0]] + x[1..] && y == [y[0]] + y[1..];
    }
  }

  lemma {:induction false} BitsInjective(a: Bytes, b: Bytes)
    requires Bits(a) == Bits(b)
    ensures a == b
  {
    assert |a| == |b|;
    if a != [] {
      assert ByteBits(a[0]) == Bits(a)[..8] && Bits(a[1..]) == Bits(a)[8..];
      assert ByteBits(b[0]) == Bits(b)[..8] && Bits(b[1..]) == Bits(b)[8..];
      assert PowerOfTwo(8) == 256;
      ValueOfLowBits(a[0], 8);
      ValueOfLowBits(b[0], 8);
      BitsInjective(a[1..], b[1..]);
    }
  }

  lemma {:induction false} BigEndianInjective(x: Word, y: Word)
    requires BigEndian(x) == BigEndian(y)
    ensures x == y
  {
    forall k | 0 <= k < 64
      ensures x[k] == y[k]
    {
      var i := 7 - k / 8;
      var lo := 56 - 8 * i;
      assert BigEndian(x)[i] == BigEndian(y)[i];
      ValueInjective(x[lo..lo + 8], y[lo..lo + 8]);
      assert x[lo..lo + 8][k - lo] == y[lo..lo + 8][k - lo];
    }
  }

  lemma {:induction false} NotInjective(x: Word, y: Word)
    requires Not(x) == Not(y)
    ensures x == y
  {
    forall k | 0 <= k < 64
      ensures x[k] == y[k]
    {
      assert Not(x)[k] == Not(y)[k];
    }
  }

  /** Two messages agree outside the bits `lo .. lo + 64`, counted in the order they are absorbed. */
  ghost predicate DifferInBurst(a: Bytes, b: Bytes, lo: nat) {
    && |a| == |b|
    && forall i :: 0 <= i < 8 * |a| && !(lo <= i < lo + 64) ==> Bits(a)[i] == Bits(b)[i]
  }

  /** Every burst of at most 64 bits is detected, wherever it starts. */
  lemma {:induction false} BurstDetected(a: Bytes, b: Bytes, lo: nat)
    requires DifferInBurst(a, b, lo)
    requires a != b
    ensures Checksum(a) != Checksum(b)
  {
    if Checksum(a) == Checksum(b) {
      BigEndianInjective(Not(Absorb(MAX, a)), Not(Absorb(MAX, b)));
      NotInjective(Absorb(MAX, a), Absorb(MAX, b));
      BytesAreBits(MAX, a);
      BytesAreBits(MAX, b);
      SameRegisterSameBits(Bits(a), Bits(b), lo);
      BitsInjective(a, b);
    }
  }

  lemma {:induction false} SameRegisterSameWindow(head: seq<bool>, xs: seq<bool>, ys: seq<bool>, tail: seq<bool>)
    requires |xs| == |ys| <= 64
    requires AbsorbBits(MAX, head + xs + tail) == AbsorbBits(MAX, head + ys + tail)
    ensures xs == ys
  {
    var c := AbsorbBits(MAX, head);
    AbsorbBitsAppend(MAX, head + xs, tail);
    AbsorbBitsAppend(MAX, head + ys, tail);
    AbsorbBitsAppend(MAX, head, xs);
    AbsorbBitsAppend(MAX, head, ys);
    RegisterInjective(AbsorbBits(c, xs), AbsorbBits(c, ys), tail);
    WindowInjective(c, xs, ys);
  }

  lemma {:induction false} SameRegisterSameBits(x: seq<bool>, y: seq<bool>, lo: nat)
    requires |x| == |y|
    requires forall i :: 0 <= i < |x| && !(lo <= i < lo + 64) ==> x[i] == y[i]
    requires AbsorbBits(MAX, x) == AbsorbBits(MAX, y)
    ensures x == y
  {
    var from := if lo <= |x| then lo else |x|;
    var to := if lo + 64 <= |x| then lo + 64 else |x|;
    var head, tail := x[..from], x[to..];
    ThreeParts(x, from, to);
    ThreeParts(y, from, to);
    assert y[..from] == head;
    assert y[to..] == tail;
    SameRegisterSameWindow(head, x[from..to], y[from..to], tail);
  }

  lemma {:induction false} ThreeParts(x: seq<bool>, from: nat, to: nat)
    requires from <= to <= |x|
    ensures x == x[..from] + x[from..to] + x[to..]
  {}

  lemma {:induction false} BitsSplit(a: Bytes, k: nat)
    requires k <= |a|
    ensures Bits(a) == Bits(a[..k]) + Bits(a[k..])
  {
    if k == 0 {
      assert a[..0] == [] && a[0..] == a;
    } else {
      BitsSplit(a[1..], k - 1);
      assert a[1..][..k - 1] == a[..k][1..] && a[1..][k - 1..] == a[k..];
    }
  }

  lemma {:induction false} BytesBurst(a: Bytes, b: Bytes, from: nat, to: nat)
    requires |a| == |b| && from <= to <= |a| && to <= from + 8
    requires forall i :: 0 <= i < |a| && !(from <= i < to) ==> a[i] == b[i]
    ensures DifferInBurst(a, b, 8 * from)
  {
    assert a[..from] == b[..from];
    assert a[to..] == b[to..];
    BitsSplit(a, from);
    BitsSplit(b, from);
    BitsSplit(a, to);
    BitsSplit(b, to);
    forall i | 0 <= i < 8 * |a| && !(8 * from <= i < 8 * from + 64)
      ensures Bits(a)[i] == Bits(b)[i]
    {
      if i < 8 * from {
        assert Bits(a)[i] == Bits(a[..from])[i] && Bits(b)[i] == Bits(b[..from])[i];
      } else {
        assert Bits(a)[i] == Bits(a[to..])[i - 8 * to] && Bits(b)[i] == Bits(b[to..])[i - 8 * to];
      }
    }
  }

  /** In bytes: equal-length bodies that differ only inside eight consecutive bytes are told apart. */
  lemma {:induction false} EightByteWindowDetected(a: Bytes, b: Bytes, at: nat)
    requires |a| == |b| && a != b
    requires forall i :: 0 <= i < |a| && !(at <= i < at + 8) ==> a[i] == b[i]
    ensures Checksum(a) != Checksum(b)
  {
    var from := if at <= |a| then at else |a|;
    var to := if at + 8 <= |a| then at + 8 else |a|;
    BytesBurst(a, b, from, to);
    BurstDetected(a, b, 8 * from);
  }
}
