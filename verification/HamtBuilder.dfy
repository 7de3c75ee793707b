/** The imperative trie builder: a shared node vector that every level of the recursion pushes to. */
module HamtBuilder {
  import opened Prelude
  import opened Dag
  import opened Hamt
  import Order

  /** `buckets` is the ordered map of the nonempty groups. */
  ghost predicate Distributed(buckets: map<byte, seq<Entry>>, entries: seq<Entry>, depth: nat)
    requires depth < 8
  {
    forall b: byte :: (if b in buckets then buckets[b] else []) == Group(entries, depth, b)
                      && (b in buckets <==> Group(entries, depth, b) != [])
  }

  /** `buckets.entry(b).or_default().push(entry)` */
  function Push(buckets: map<byte, seq<Entry>>, entry: Entry, depth: nat): map<byte, seq<Entry>>
    requires depth < 8
  {
    var b := entry.hash[depth];
    buckets[b := (if b in buckets then buckets[b] else []) + [entry]]
  }

  /** The first loop of `insert`: entries into an ordered map of buckets. */
  method Distribute(entries: seq<Entry>, depth: nat) returns (buckets: map<byte, seq<Entry>>)
    requires depth < 8
    ensures Distributed(buckets, entries, depth)
  {
    buckets := map[];
    for i := 0 to |entries|
      invariant Distributed(buckets, entries[..i], depth)
    {
      PushDistributes(buckets, entries[..i], entries[i], depth);
      assert entries[..i + 1] == entries[..i] + [entries[i]];
      buckets := Push(buckets, entries[i], depth);
    }
    assert entries[..|entries|] == entries;
  }

  lemma {:induction false} PushDistributes(buckets: map<byte, seq<Entry>>, es: seq<Entry>, e: Entry, d: nat)
    requires d < 8 && Distributed(buckets, es, d)
    ensures Distributed(Push(buckets, e, d), es + [e], d)
  {
    var after := Push(buckets, e, d);
    forall b: byte
      ensures (if b in after then after[b] else []) == Group(es + [e], d, b)
      ensures b in after <==> Group(es + [e], d, b) != []
    {
      GroupSnoc(es, e, d, b);
      assert (if b in buckets then buckets[b] else []) == Group(es, d, b);
    }
  }

  /** Position of the first nonzero byte, 32 when there is none. */
  method FirstNonzero(bits: array<byte>) returns (first: nat)
    requires bits.Length == 32
    ensures first <= 32
    ensures bits[first..] == StripZeros(bits[..])
  {
    first := 0;
    assert bits[0..] == bits[..];
    while first < 32 && bits[first] == 0
      invariant first <= 32
      invariant StripZeros(bits[first..]) == StripZeros(bits[..])
    {
      assert bits[first..][1..] == bits[first + 1..];
      first := first + 1;
    }
  }

  /** Sets the bit of an occupied bucket in place. */
  method Mark(ghost entries: seq<Entry>, ghost depth: nat, bucket: byte, bits: array<byte>)
    requires depth < 8 && Group(entries, depth, bucket) != []
    requires bits.Length == 32 && bits[..] == FullBitmap(entries, depth, bucket)
    modifies bits
    ensures bits[..] == FullBitmap(entries, depth, bucket + 1)
  {
    bits[31 - bucket / 8] := SetBit(bits[31 - bucket / 8], bucket % 8);
  }

  lemma {:induction false} FailureLasts(es: seq<Entry>, d: nat, b: nat, c: nat, nodes: seq<Shard>)
    requires d < 8 && b <= c <= Fanout() && Hamt.Fill(es, d, b, nodes).Err?
    ensures Hamt.Fill(es, d, c, nodes) == Hamt.Fill(es, d, b, nodes)
    decreases c
  {
    if b < c {
      FailureLasts(es, d, b, c - 1, nodes);
    }
  }

  /** What a level of the recursion leaves behind: the shared vector and its own result, or an error. */
  function Outcome<T>(nodes: seq<Shard>, r: Result<T, Error>): Result<(seq<Shard>, T), Error> {
    match r case Ok(x) => Ok((nodes, x)) case Err(e) => Err(e)
  }

  class Builder {
    var nodes: seq<Shard>

    constructor ()
      ensures nodes == []
    {
      nodes := [];
    }

    /** One bucket of the loop: its only file, or the root of the shards just pushed for it. */
    method Visit(ghost entries: seq<Entry>, group: seq<Entry>, depth: nat, bucket: byte, links: seq<ShardLink>)
      returns (r: Result<seq<ShardLink>, Error>)
      requires depth < 8 && group != [] && group == Group(entries, depth, bucket)
      modifies this
      ensures Outcome(nodes, r) == Hamt.Visit(entries, depth, bucket, old(nodes), links)
      decreases 8 - depth, 0
    {
      if |group| == 1 {
        r := Ok(links + [File(Prefixed(bucket, group[0].link))]);
      } else {
        var inner := Insert(group, depth + 1);
        r := match inner case Err(e) => Err(e) case Ok(index) => Ok(links + [Child(Prefix(bucket), index)]);
      }
    }

    /** One turn of the loop over the ordered map of buckets. */
    method Turn(entries: seq<Entry>, depth: nat, buckets: map<byte, seq<Entry>>, bits: array<byte>, bucket: byte,
                links: seq<ShardLink>) returns (r: Result<seq<ShardLink>, Error>)
      requires depth < 8 && Distributed(buckets, entries, depth)
      requires bits.Length == 32 && bits[..] == FullBitmap(entries, depth, bucket)
      modifies this, bits
      ensures Outcome(nodes, r) == Hamt.Visit(entries, depth, bucket, old(nodes), links)
      ensures bits[..] == FullBitmap(entries, depth, bucket + 1)
      decreases 8 - depth, 1
    {
      assert (if bucket in buckets then buckets[bucket] else []) == Group(entries, depth, bucket);
      if bucket in buckets {
        Mark(entries, depth, bucket, bits);
        r := Visit(entries, buckets[bucket], depth, bucket, links);
      } else {
        r := Ok(links);
      }
    }

    /** The loop over the ordered map of buckets; marks each one in `bits`. */
    method Fill(entries: seq<Entry>, depth: nat, buckets: map<byte, seq<Entry>>, bits: array<byte>)
      returns (r: Result<seq<ShardLink>, Error>)
      requires depth < 8 && Distributed(buckets, entries, depth)
      requires bits.Length == 32 && bits[..] == FullBitmap(entries, depth, 0)
      modifies this, bits
      ensures Outcome(nodes, r) == Hamt.Fill(entries, depth, Fanout(), old(nodes))
      ensures r.Ok? ==> bits[..] == FullBitmap(entries, depth, Fanout())
      decreases 8 - depth, 2
    {
      r := Ok([]);
      ghost var start := nodes;
      for bucket := 0 to Fanout()
        invariant bits[..] == FullBitmap(entries, depth, bucket)
        invariant r.Ok? && Hamt.Fill(entries, depth, bucket, start) == Outcome(nodes, r)
      {
        r := Turn(entries, depth, buckets, bits, bucket, r.value);
        if r.Err? {
          FailureLasts(entries, depth, bucket + 1, Fanout(), start);
          return;
        }
      }
    }

    /** `insert`: on success the vector has grown by the shards of `entries`, their root last. */
    method Insert(entries: seq<Entry>, depth: nat) returns (r: Result<nat, Error>)
      requires depth <= 8
      modifies this
      ensures (match r case Ok(_) => Ok(nodes) case Err(e) => Err(e)) == Hamt.Insert(entries, depth, old(nodes))
      ensures r.Ok? ==> r.value == |nodes| - 1
      decreases 8 - depth, 3
    {
      if depth == 8 {
        r := Err(HashCollision);
      } else {
        var buckets := Distribute(entries, depth);
        var bits := new byte[32](_ => 0);
        assert bits[..] == FullBitmap(entries, depth, 0);
        var filled := Fill(entries, depth, buckets, bits);
        if filled.Err? {
          r := Err(filled.error);
        } else {
          var links := Order.Sort(filled.value, Name);
          var first := FirstNonzero(bits);
          if |nodes| >= 8 * MAX_FILES {
            r := Err(BlockTooLarge);
          } else {
            nodes := nodes + [Shard(bits[first..], links)];
            r := Ok(|nodes| - 1);
          }
        }
      }
    }
  }

  /** `shards`: the node list of a directory, or why it cannot be built. */
  method BuildShards(links: seq<Link>, hash: Bytes -> Hash) returns (r: Result<seq<Shard>, Error>)
    ensures r == Shards(links, hash)
  {
    var builder := new Builder();
    var root := builder.Insert(Hashed(links, hash), 0);
    r := match root case Err(e) => Err(e) case Ok(_) => Ok(builder.nodes);
  }
}
