/**
 Fanout-256 hash tries for large directories: the construction of `directory_hamt.rs` into a
 list of nodes in which children come before their parent.
 */
module Hamt {
  import opened Prelude
  import opened Dag
  import Order

  const MAX_FILES: nat := 10_000

  function Fanout(): (n: nat)
    ensures n == 256
  {
    256
  }

  type Hash = h: seq<byte> | |h| == 8 witness [0, 0, 0, 0, 0, 0, 0, 0]

  datatype Entry = Entry(link: Link, hash: Hash)

  datatype ShardLink = File(link: Link) | Child(prefix: Bytes, index: nat)

  datatype Shard = Shard(bitmap: Bytes, links: seq<ShardLink>)

  datatype Error = HashCollision | BlockTooLarge

  function Name(l: ShardLink): Bytes {
    match l
    case File(link) => link.name
    case Child(prefix, _) => prefix
  }

  function HexDigit(d: nat): byte
    requires d < 16
  {
    if d < 10 then 48 + d else 55 + d
  }

  /** The bucket number as two upper-case hexadecimal digits. */
  function Prefix(b: byte): (p: Bytes)
    ensures |p| == 2
  {
    [HexDigit(b / 16), HexDigit(b % 16)]
  }

  /** A reader's view of one upper-case hexadecimal digit: '0' to '9' and 'A' to 'F', and nothing else. */
  function DigitValue(c: byte): (r: Option<nat>)
    ensures r.Some? ==> r.value < 16
  {
    if 48 <= c <= 57 then Some(c - 48)
    else if 65 <= c <= 70 then Some(c - 65 + 10)
    else None
  }

  /** The bucket number at the head of a link's name, if there is one. */
  function BucketOf(name: Bytes): Option<nat> {
    if |name| >= 2 && DigitValue(name[0]).Some? && DigitValue(name[1]).Some?
    then Some(16 * DigitValue(name[0]).value + DigitValue(name[1]).value)
    else None
  }

  lemma {:induction false} DigitReads(d: nat)
    requires d < 16
    ensures forall c: byte :: DigitValue(c) == Some(d) <==> c == HexDigit(d)
  {
  }

  /** The prefix of a bucket reads back as its number. */
  lemma {:induction false} PrefixReads(b: byte, rest: Bytes)
    ensures BucketOf(Prefix(b) + rest) == Some(b) && (Prefix(b) + rest)[2..] == rest
  {
    DigitReads(b / 16);
    DigitReads(b % 16);
    var name := Prefix(b) + rest;
    assert name[0] == HexDigit(b / 16) && name[1] == HexDigit(b % 16);
  }

  function Prefixed(b: byte, l: Link): Link {
    l.(name := Prefix(b) + l.name)
  }

  // ----- Buckets

  /** The entries whose hash has `b` at position `d`, in their original order. */
  function Group(es: seq<Entry>, d: nat, b: byte): (g: seq<Entry>)
    requires d < 8
  {
    if es == [] then []
    else
      var last := es[|es| - 1];
      Group(es[..|es| - 1], d, b) + if last.hash[d] == b then [last] else []
  }

  lemma {:induction false} GroupSnoc(es: seq<Entry>, e: Entry, d: nat, b: byte)
    requires d < 8
    ensures Group(es + [e], d, b) == Group(es, d, b) + if e.hash[d] == b then [e] else []
  {
    assert (es + [e])[..|es|] == es;
  }

  /** The occupied buckets below `b`, in increasing order. */
  function Occupied(es: seq<Entry>, d: nat, b: nat): (r: seq<byte>)
    requires d < 8 && b <= Fanout()
    ensures |r| <= b && forall k :: 0 <= k < |r| ==> r[k] < b
  {
    if b == 0 then []
    else Occupied(es, d, b - 1) + if Group(es, d, b - 1) != [] then [b - 1] else []
  }

  // ----- Bits of a byte

  predicate BitSet(x: nat, k: nat)
    decreases k
  {
    if k == 0 then x % 2 == 1 else BitSet(x / 2, k - 1)
  }

  /** `x | 1 << k` */
  function OrBit(x: nat, k: nat): nat
    decreases k
  {
    if k == 0 then (if x % 2 == 1 then x else x + 1) else 2 * OrBit(x / 2, k - 1) + x % 2
  }

  lemma {:induction false} OrBitSets(x: nat, k: nat, j: nat)
    ensures BitSet(OrBit(x, k), j) <==> j == k || BitSet(x, j)
    decreases k
  {
    if k > 0 {
      var y := OrBit(x / 2, k - 1);
      assert OrBit(x, k) / 2 == y && OrBit(x, k) % 2 == x % 2;
      if j > 0 {
        OrBitSets(x / 2, k - 1, j - 1);
      }
    }
  }

  lemma {:induction false} OrBitByte(x: byte, k: nat)
    requires k < 8
    ensures OrBit(x, k) < 256
  {
    OrBitBound(x, k, 8, 256);
  }

  lemma {:induction false} OrBitBound(x: nat, k: nat, n: nat, limit: nat)
    requires k < n && x < limit && limit == PowerOfTwo(n)
    ensures OrBit(x, k) < limit
    decreases k
  {
    var half := PowerOfTwo(n - 1);
    assert limit == 2 * half && x / 2 < half;
    if k > 0 {
      OrBitBound(x / 2, k - 1, n - 1, half);
      assert 2 * OrBit(x / 2, k - 1) + x % 2 < limit;
    }
  }

  lemma {:induction false} ZeroHasNoBits(k: nat)
    ensures !BitSet(0, k)
  {
    if k > 0 {
      ZeroHasNoBits(k - 1);
    }
  }

  function SetBit(x: byte, k: nat): byte
    requires k < 8
  {
    OrBitByte(x, k);
    OrBit(x, k)
  }

  // ----- The bitmap

  /** The 32-byte array after the buckets below `b` were visited. */
  function FullBitmap(es: seq<Entry>, d: nat, b: nat): (r: Bytes)
    requires d < 8 && b <= Fanout()
    ensures |r| == 32
  {
    if b == 0 then seq(32, _ => 0)
    else
      var before := FullBitmap(es, d, b - 1);
      if Group(es, d, b - 1) == [] then before
      else before[31 - (b - 1) / 8 := SetBit(before[31 - (b - 1) / 8], (b - 1) % 8)]
  }

  function StripZeros(s: Bytes): (r: Bytes)
    ensures |r| <= |s|
    ensures r == [] || r[0] != 0
  {
    if s == [] || s[0] != 0 then s else StripZeros(s[1..])
  }

  function Bitmap(es: seq<Entry>, d: nat): (r: Bytes)
    requires d < 8
    ensures |r| <= 32
  {
    StripZeros(FullBitmap(es, d, Fanout()))
  }

  /** Bit `c` of a big-endian bit string of any length. */
  predicate BitAt(m: Bytes, c: nat) {
    c / 8 < |m| && BitSet(m[|m| - 1 - c / 8], c % 8)
  }

  // ----- The construction

  /** `insert`: appends the shards for `es` to `nodes`; the last one is their root. */
  function Insert(es: seq<Entry>, d: nat, nodes: seq<Shard>): (r: Result<seq<Shard>, Error>)
    requires d <= 8
    ensures r.Ok? ==> nodes < r.value
    decreases 8 - d, 2, |es|
  {
    if d == 8 then Err(HashCollision)
    else
      match Fill(es, d, Fanout(), nodes)
      case Err(e) => Err(e)
      case Ok((below, links)) =>
        if |below| >= 8 * MAX_FILES then Err(BlockTooLarge)
        else Ok(below + [Shard(Bitmap(es, d), Order.Sort(links, Name))])
  }

  /** One bucket: nothing, its only file, or the root of the shards pushed for its group. */
  function Visit(es: seq<Entry>, d: nat, b: byte, nodes: seq<Shard>, links: seq<ShardLink>)
    : (r: Result<(seq<Shard>, seq<ShardLink>), Error>)
    requires d < 8
    ensures r.Ok? ==> nodes <= r.value.0
    decreases 8 - d, 0, |es|
  {
    var g := Group(es, d, b);
    if g == [] then Ok((nodes, links))
    else if |g| == 1 then Ok((nodes, links + [File(Prefixed(b, g[0].link))]))
    else
      match Insert(g, d + 1, nodes)
      case Err(e) => Err(e)
      case Ok(more) => Ok((more, links + [Child(Prefix(b), |more| - 1)]))
  }

  /** The loop over the buckets, once those below `b` were visited. */
  function Fill(es: seq<Entry>, d: nat, b: nat, nodes: seq<Shard>)
    : (r: Result<(seq<Shard>, seq<ShardLink>), Error>)
    requires d < 8 && b <= Fanout()
    ensures r.Ok? ==> nodes <= r.value.0
    decreases 8 - d, 1, b, |es|
  {
    if b == 0 then Ok((nodes, []))
    else
      match Fill(es, d, b - 1, nodes)
      case Err(e) => Err(e)
      case Ok((more, links)) => Visit(es, d, b - 1, more, links)
  }

  function Hashed(links: seq<Link>, hash: Bytes -> Hash): (es: seq<Entry>)
    ensures |es| == |links|
    ensures forall i :: 0 <= i < |es| ==> es[i] == Entry(links[i], hash(links[i].name))
  {
    seq(|links|, i requires 0 <= i < |links| => Entry(links[i], hash(links[i].name)))
  }

  function Shards(links: seq<Link>, hash: Bytes -> Hash): Result<seq<Shard>, Error> {
    Insert(Hashed(links, hash), 0, [])
  }
}
