/** What a finished node list looks like, and that looking a name up in it is a map lookup. */
module HamtShape {
  import opened Prelude
  import opened Dag
  import opened Hamt
  import Order

  // ----- Groups and their members

  lemma {:induction false} GroupMembers(es: seq<Entry>, d: nat, b: byte)
    requires d < 8
    ensures forall e :: e in Group(es, d, b) <==> e in es && e.hash[d] == b
  {
    if es != [] {
      GroupMembers(es[..|es| - 1], d, b);
      assert es == es[..|es| - 1] + [es[|es| - 1]];
    }
  }

  // ----- The bitmap denotes the occupied buckets

  lemma {:induction false} SetBitAt(m: Bytes, b: byte, c: byte)
    requires |m| == 32
    ensures BitAt(m[31 - b / 8 := SetBit(m[31 - b / 8], b % 8)], c) <==> c == b || BitAt(m, c)
  {
    OrBitSets(m[31 - b / 8], b % 8, c % 8);
    assert b / 8 == c / 8 && b % 8 == c % 8 ==> b == c;
  }

  lemma {:induction false} FullBitmapStep(es: seq<Entry>, d: nat, b: byte, c: byte)
    requires d < 8
    ensures BitAt(FullBitmap(es, d, b + 1), c) <==> BitAt(FullBitmap(es, d, b), c) || (c == b && Group(es, d, b) != [])
  {
    if Group(es, d, b) != [] {
      SetBitAt(FullBitmap(es, d, b), b, c);
    }
  }

  lemma {:induction false} NoBitmapYet(es: seq<Entry>, d: nat, c: byte)
    requires d < 8
    ensures !BitAt(FullBitmap(es, d, 0), c)
  {
    ZeroHasNoBits(c % 8);
  }

  lemma {:induction false} FullBitmapAt(es: seq<Entry>, d: nat, b: nat, c: byte)
    requires d < 8 && b <= Fanout()
    ensures BitAt(FullBitmap(es, d, b), c) <==> c < b && Group(es, d, c) != []
    decreases b
  {
    if b == 0 {
      NoBitmapYet(es, d, c);
    } else {
      FullBitmapAt(es, d, b - 1, c);
      FullBitmapStep(es, d, b - 1, c);
    }
  }

  lemma {:induction false} StripKeepsBits(s: Bytes, c: nat)
    ensures BitAt(StripZeros(s), c) <==> BitAt(s, c)
  {
    if s != [] && s[0] == 0 {
      StripKeepsBits(s[1..], c);
      ZeroHasNoBits(c % 8);
    }
  }

  /** Bit `c` of a shard's bitmap is set exactly when bucket `c` is occupied. */
  lemma {:induction false} BitmapExact(es: seq<Entry>, d: nat, c: byte)
    requires d < 8
    ensures BitAt(Bitmap(es, d), c) <==> Group(es, d, c) != []
  {
    FullBitmapAt(es, d, Fanout(), c);
    StripKeepsBits(FullBitmap(es, d, Fanout()), c);
  }

  lemma {:induction false} NonzeroHasBit(x: nat, n: nat) returns (k: nat)
    requires 0 < x < PowerOfTwo(n)
    ensures k < n && BitSet(x, k)
    decreases n
  {
    if x % 2 == 1 {
      k := 0;
    } else {
      k := NonzeroHasBit(x / 2, n - 1);
      k := k + 1;
    }
  }

  /** No shorter bit string sets the same buckets. */
  lemma {:induction false} BitmapShortest(es: seq<Entry>, d: nat, other: Bytes)
    requires d < 8
    requires forall c: nat :: BitAt(other, c) <==> BitAt(Bitmap(es, d), c)
    ensures |Bitmap(es, d)| <= |other|
  {
    var m := Bitmap(es, d);
    if m != [] {
      var k := NonzeroHasBit(m[0], 8);
      var c := 8 * (|m| - 1) + k;
      assert BitAt(m, c);
      assert BitAt(other, c);
    }
  }

  // ----- Positions

  /** The number of set bits below `c`. */
  function Rank(m: Bytes, c: nat): nat {
    if c == 0 then 0 else Rank(m, c - 1) + if BitAt(m, c - 1) then 1 else 0
  }

  ghost predicate Denotes(m: Bytes, es: seq<Entry>, d: nat)
    requires d < 8
  {
    forall c: byte :: BitAt(m, c) <==> Group(es, d, c) != []
  }

  lemma {:induction false} RankCounts(m: Bytes, es: seq<Entry>, d: nat, c: nat)
    requires d < 8 && c <= Fanout() && Denotes(m, es, d)
    ensures Rank(m, c) == |Occupied(es, d, c)|
  {
    if c > 0 {
      RankCounts(m, es, d, c - 1);
      var last: byte := c - 1;
      assert BitAt(m, last) <==> Group(es, d, last) != [];
    }
  }

  lemma {:induction false} OccupiedPrefix(es: seq<Entry>, d: nat, b: nat, c: nat)
    requires d < 8 && b <= c <= Fanout()
    ensures Occupied(es, d, b) <= Occupied(es, d, c)
    decreases c
  {
    if b < c {
      OccupiedPrefix(es, d, b, c - 1);
    }
  }

  lemma {:induction false} OccupiedAscends(es: seq<Entry>, d: nat, b: nat)
    requires d < 8 && b <= Fanout()
    ensures forall i, j :: 0 <= i < j < |Occupied(es, d, b)| ==> Occupied(es, d, b)[i] < Occupied(es, d, b)[j]
    ensures forall i :: 0 <= i < |Occupied(es, d, b)| ==> Group(es, d, Occupied(es, d, b)[i]) != []
  {
    if b > 0 {
      OccupiedAscends(es, d, b - 1);
    }
  }

  /** An occupied bucket sits in the list of occupied buckets at the rank of its bit. */
  lemma {:induction false} OccupiedAtRank(es: seq<Entry>, d: nat, c: byte)
    requires d < 8 && Group(es, d, c) != []
    ensures var k := Rank(Bitmap(es, d), c);
            k < |Occupied(es, d, Fanout())| && Occupied(es, d, Fanout())[k] == c
  {
    forall x: byte
      ensures BitAt(Bitmap(es, d), x) <==> Group(es, d, x) != []
    {
      BitmapExact(es, d, x);
    }
    RankCounts(Bitmap(es, d), es, d, c);
    OccupiedPrefix(es, d, c + 1, Fanout());
  }

  // ----- The final sort

  lemma {:induction false} PrefixIncreases(b: byte, c: byte, x: Bytes, y: Bytes)
    requires b < c
    ensures Order.Leq(Prefix(b) + x, Prefix(c) + y)
    ensures BucketOf(Prefix(b) + x) == Some(b) && BucketOf(Prefix(c) + y) == Some(c)
  {
    PrefixReads(b, x);
    PrefixReads(c, y);
    var u, v := Prefix(b) + x, Prefix(c) + y;
    assert u[0] == HexDigit(b / 16) && v[0] == HexDigit(c / 16);
    if b / 16 == c / 16 {
      assert u[1..][0] == HexDigit(b % 16) && v[1..][0] == HexDigit(c % 16);
    }
  }

  /** Link `k` carries the prefix of the `k`-th occupied bucket below `b`. */
  ghost predicate Labelled(links: seq<ShardLink>, es: seq<Entry>, d: nat, b: nat)
    requires d < 8 && b <= Fanout()
  {
    && |links| == |Occupied(es, d, b)|
    && forall k :: 0 <= k < |links| ==>
         |Name(links[k])| >= 2 && Name(links[k])[..2] == Prefix(Occupied(es, d, b)[k])
  }

  lemma {:induction false} LabelledIsSorted(links: seq<ShardLink>, es: seq<Entry>, d: nat, b: nat)
    requires d < 8 && b <= Fanout() && Labelled(links, es, d, b)
    ensures Order.Sorted(links, Name)
  {
    OccupiedAscends(es, d, b);
    forall i, j | 0 <= i < j < |links|
      ensures Order.Leq(Name(links[i]), Name(links[j]))
    {
      var x, y := Name(links[i]), Name(links[j]);
      assert x == x[..2] + x[2..] && y == y[..2] + y[2..];
      PrefixIncreases(Occupied(es, d, b)[i], Occupied(es, d, b)[j], x[2..], y[2..]);
    }
  }

  // ----- The shape of a finished trie

  /** Link `l` stands for the group `g` of bucket `b`: its only file, or an earlier shard holding it. */
  ghost predicate LinkOk(nodes: seq<Shard>, l: ShardLink, g: seq<Entry>, d: nat, b: byte, below: nat)
    requires d < 8
    decreases 8 - d, 0, |g|
  {
    if |g| == 1 then l == File(Prefixed(b, g[0].link))
    else l.Child? && l.prefix == Prefix(b) && l.index < below && Represents(nodes, l.index, d + 1, g)
  }

  /** The k-th link belongs to the k-th occupied bucket below `b`, and there are no others. */
  ghost predicate LinksOk(nodes: seq<Shard>, links: seq<ShardLink>, es: seq<Entry>, d: nat, b: nat, below: nat)
    requires d < 8 && b <= Fanout()
    decreases 8 - d, 1, |es|
  {
    && |links| == |Occupied(es, d, b)|
    && forall k :: 0 <= k < |links| ==>
         LinkOk(nodes, links[k], Group(es, d, Occupied(es, d, b)[k]), d, Occupied(es, d, b)[k], below)
  }

  /** The shard at `i` is the root of a trie for `es`, whose hashes it reads from position `d` on. */
  ghost predicate Represents(nodes: seq<Shard>, i: nat, d: nat, es: seq<Entry>)
    decreases 8 - d, 2, |es|
  {
    && d < 8
    && i < |nodes|
    && nodes[i].bitmap == Bitmap(es, d)
    && LinksOk(nodes, nodes[i].links, es, d, Fanout(), i)
  }

  lemma {:induction false} RepresentsFrame(nodes: seq<Shard>, more: seq<Shard>, i: nat, d: nat, es: seq<Entry>)
    requires Represents(nodes, i, d, es) && nodes <= more
    ensures Represents(more, i, d, es)
    decreases 8 - d, 1
  {
    LinksFrame(nodes, more, nodes[i].links, es, d, Fanout(), i, i);
  }

  lemma {:induction false} LinksFrame(nodes: seq<Shard>, more: seq<Shard>, links: seq<ShardLink>, es: seq<Entry>,
                                      d: nat, b: nat, below: nat, bound: nat)
    requires d < 8 && b <= Fanout() && below <= bound && nodes <= more
    requires LinksOk(nodes, links, es, d, b, below)
    ensures LinksOk(more, links, es, d, b, bound)
    decreases 8 - d, 0
  {
    forall k | 0 <= k < |links|
      ensures LinkOk(more, links[k], Group(es, d, Occupied(es, d, b)[k]), d, Occupied(es, d, b)[k], bound)
    {
      var g := Group(es, d, Occupied(es, d, b)[k]);
      assert LinkOk(nodes, links[k], g, d, Occupied(es, d, b)[k], below);
      if |g| != 1 {
        RepresentsFrame(nodes, more, links[k].index, d + 1, g);
      }
    }
  }

  lemma {:induction false} LinksOkLabelled(
      nodes: seq<Shard>, links: seq<ShardLink>, es: seq<Entry>, d: nat, b: nat, below: nat)
    requires d < 8 && b <= Fanout() && LinksOk(nodes, links, es, d, b, below)
    ensures Labelled(links, es, d, b)
  {
    forall k | 0 <= k < |links|
      ensures |Name(links[k])| >= 2 && Name(links[k])[..2] == Prefix(Occupied(es, d, b)[k])
    {
      assert LinkOk(nodes, links[k], Group(es, d, Occupied(es, d, b)[k]), d, Occupied(es, d, b)[k], below);
    }
  }

  lemma {:induction false} LinksOkSnoc(
      nodes: seq<Shard>, links: seq<ShardLink>, l: ShardLink, es: seq<Entry>, d: nat, b: byte, below: nat)
    requires d < 8
    requires LinksOk(nodes, links, es, d, b, below)
    requires Group(es, d, b) != [] && LinkOk(nodes, l, Group(es, d, b), d, b, below)
    ensures LinksOk(nodes, links + [l], es, d, b + 1, below)
  {
    var all := links + [l];
    forall k | 0 <= k < |all|
      ensures LinkOk(nodes, all[k], Group(es, d, Occupied(es, d, b + 1)[k]), d, Occupied(es, d, b + 1)[k], below)
    {
      if k < |links| {
        assert LinkOk(nodes, links[k], Group(es, d, Occupied(es, d, b)[k]), d, Occupied(es, d, b)[k], below);
      }
    }
  }

  lemma {:induction false} GapShape(es: seq<Entry>, d: nat, b: byte, nodes: seq<Shard>, links: seq<ShardLink>)
    requires d < 8 && Group(es, d, b) == []
    requires LinksOk(nodes, links, es, d, b, |nodes|)
    ensures LinksOk(nodes, links, es, d, b + 1, |nodes|)
  {
    assert Occupied(es, d, b + 1) == Occupied(es, d, b);
  }

  lemma {:induction false} FileShape(es: seq<Entry>, d: nat, b: byte, nodes: seq<Shard>, links: seq<ShardLink>)
    requires d < 8 && |Group(es, d, b)| == 1
    requires LinksOk(nodes, links, es, d, b, |nodes|)
    ensures LinksOk(nodes, links + [File(Prefixed(b, Group(es, d, b)[0].link))], es, d, b + 1, |nodes|)
  {
    LinksOkSnoc(nodes, links, File(Prefixed(b, Group(es, d, b)[0].link)), es, d, b, |nodes|);
  }

  lemma {:induction false} ChildShape(
      es: seq<Entry>, d: nat, b: byte, nodes: seq<Shard>, links: seq<ShardLink>, more: seq<Shard>)
    requires d < 8 && |Group(es, d, b)| > 1 && nodes < more
    requires LinksOk(nodes, links, es, d, b, |nodes|)
    requires Represents(more, |more| - 1, d + 1, Group(es, d, b))
    ensures LinksOk(more, links + [Child(Prefix(b), |more| - 1)], es, d, b + 1, |more|)
  {
    LinksFrame(nodes, more, links, es, d, b, |nodes|, |more|);
    LinksOkSnoc(more, links, Child(Prefix(b), |more| - 1), es, d, b, |more|);
  }

  lemma {:induction false} SubtreeShape(es: seq<Entry>, d: nat, b: byte, nodes: seq<Shard>, links: seq<ShardLink>,
                                        more: seq<Shard>)
    requires d < 8 && |Group(es, d, b)| > 1 && LinksOk(nodes, links, es, d, b, |nodes|)
    requires Hamt.Insert(Group(es, d, b), d + 1, nodes) == Ok(more)
    ensures LinksOk(more, links + [Child(Prefix(b), |more| - 1)], es, d, b + 1, |more|)
    decreases 8 - d, 0, 0
  {
    InsertShape(Group(es, d, b), d + 1, nodes, more);
    ChildShape(es, d, b, nodes, links, more);
  }

  /** What one accepted visit did. */
  ghost predicate Visited(
      es: seq<Entry>, d: nat, b: byte, nodes: seq<Shard>, links: seq<ShardLink>, more: seq<Shard>,
      all: seq<ShardLink>)
    requires d < 8
  {
    var g := Group(es, d, b);
    if g == [] then more == nodes && all == links
    else if |g| == 1 then more == nodes && all == links + [File(Prefixed(b, g[0].link))]
    else Hamt.Insert(g, d + 1, nodes) == Ok(more) && all == links + [Child(Prefix(b), |more| - 1)]
  }

  /** The loop's last turn was an accepted visit. */
  lemma {:induction false} FillDoes(
      es: seq<Entry>, d: nat, b: byte, nodes: seq<Shard>, more: seq<Shard>, all: seq<ShardLink>)
    returns (below: seq<Shard>, links: seq<ShardLink>)
    requires d < 8 && Fill(es, d, b + 1, nodes) == Ok((more, all))
    ensures Fill(es, d, b, nodes) == Ok((below, links)) && Visited(es, d, b, below, links, more, all)
  {
    below, links := Fill(es, d, b, nodes).value.0, Fill(es, d, b, nodes).value.1;
  }

  lemma {:induction false} VisitShape(
      es: seq<Entry>, d: nat, b: byte, nodes: seq<Shard>, links: seq<ShardLink>, more: seq<Shard>,
      all: seq<ShardLink>)
    requires d < 8 && LinksOk(nodes, links, es, d, b, |nodes|)
    requires Visited(es, d, b, nodes, links, more, all)
    ensures LinksOk(more, all, es, d, b + 1, |more|)
    decreases 8 - d, 0, 1
  {
    var g := Group(es, d, b);
    if g == [] {
      GapShape(es, d, b, nodes, links);
    } else if |g| == 1 {
      FileShape(es, d, b, nodes, links);
    } else {
      SubtreeShape(es, d, b, nodes, links, more);
    }
  }

  lemma {:induction false} StartShape(es: seq<Entry>, d: nat, nodes: seq<Shard>)
    requires d < 8
    ensures Fill(es, d, 0, nodes) == Ok((nodes, [])) && LinksOk(nodes, [], es, d, 0, |nodes|)
  {
  }

  lemma {:induction false} FillShape(
      es: seq<Entry>, d: nat, b: nat, nodes: seq<Shard>, more: seq<Shard>, links: seq<ShardLink>)
    requires d < 8 && b <= Fanout() && Fill(es, d, b, nodes) == Ok((more, links))
    ensures LinksOk(more, links, es, d, b, |more|)
    decreases 8 - d, 1, b
  {
    if b == 0 {
      StartShape(es, d, nodes);
    } else {
      var c: byte := b - 1;
      var below, before := FillDoes(es, d, c, nodes, more, links);
      FillShape(es, d, c, nodes, below, before);
      VisitShape(es, d, c, below, before, more, links);
    }
  }

  /** Every accepted insertion ends in a well-formed trie for its entries; its sort changes nothing. */
  lemma {:induction false} InsertShape(es: seq<Entry>, d: nat, nodes: seq<Shard>, ns: seq<Shard>)
    requires d <= 8 && Hamt.Insert(es, d, nodes) == Ok(ns)
    ensures ns != [] && Represents(ns, |ns| - 1, d, es)
    decreases 8 - d, 2, 0
  {
    var (below, links) := Fill(es, d, Fanout(), nodes).value;
    FillShape(es, d, Fanout(), nodes, below, links);
    LinksOkLabelled(below, links, es, d, Fanout(), |below|);
    LabelledIsSorted(links, es, d, Fanout());
    Order.SortKeepsSorted(links, Name);
    LinksFrame(below, ns, links, es, d, Fanout(), |below|, |below|);
  }

  // ----- Lookup

  /** A reader's walk: test the bit, take the link at its rank, compare the prefix and the name. */
  function Walk(nodes: seq<Shard>, i: nat, d: nat, name: Bytes, hash: Hash): Option<Link>
    decreases 8 - d, |nodes|
  {
    if d >= 8 || i >= |nodes| || !BitAt(nodes[i].bitmap, hash[d]) then None
    else
      var k := Rank(nodes[i].bitmap, hash[d]);
      if k >= |nodes[i].links| then None
      else
        match nodes[i].links[k]
        case File(l) =>
          if BucketOf(l.name) == Some(hash[d]) && l.name[2..] == name then Some(l.(name := name)) else None
        case Child(p, j) =>
          if BucketOf(p) == Some(hash[d]) && |p| == 2 then Walk(nodes, j, d + 1, name, hash) else None
  }

  function Find(links: seq<Link>, name: Bytes): (r: Option<Link>)
    ensures r.Some? ==> r.value in links && r.value.name == name
    ensures r.None? ==> forall l :: l in links ==> l.name != name
  {
    if links == [] then None
    else if links[0].name == name then Some(links[0])
    else Find(links[1..], name)
  }

  /** The link for an occupied bucket is found at the rank of its bit. */
  lemma {:induction false} AtBucket(nodes: seq<Shard>, i: nat, d: nat, es: seq<Entry>, b: byte)
    requires Represents(nodes, i, d, es) && Group(es, d, b) != []
    ensures var k := Rank(nodes[i].bitmap, b);
            && BitAt(nodes[i].bitmap, b) && k < |nodes[i].links|
            && LinkOk(nodes, nodes[i].links[k], Group(es, d, b), d, b, i)
  {
    BitmapExact(es, d, b);
    OccupiedAtRank(es, d, b);
  }

  /** The walk comes to a file: it is found exactly under its own name. */
  lemma {:induction false} WalkAtFile(nodes: seq<Shard>, i: nat, d: nat, name: Bytes, hash: Hash, l: Link)
    requires d < 8 && i < |nodes| && BitAt(nodes[i].bitmap, hash[d])
    requires var k := Rank(nodes[i].bitmap, hash[d]);
             k < |nodes[i].links| && nodes[i].links[k] == File(Prefixed(hash[d], l))
    ensures Walk(nodes, i, d, name, hash) == if l.name == name then Some(l) else None
  {
    PrefixReads(hash[d], l.name);
  }

  /** The walk comes to a child: it goes on there. */
  lemma {:induction false} WalkAtChild(nodes: seq<Shard>, i: nat, d: nat, name: Bytes, hash: Hash)
    requires d < 8 && i < |nodes| && BitAt(nodes[i].bitmap, hash[d])
    requires var k := Rank(nodes[i].bitmap, hash[d]);
             && k < |nodes[i].links| && nodes[i].links[k].Child? && nodes[i].links[k].prefix == Prefix(hash[d])
    ensures var k := Rank(nodes[i].bitmap, hash[d]);
            Walk(nodes, i, d, name, hash) == Walk(nodes, nodes[i].links[k].index, d + 1, name, hash)
  {
    PrefixReads(hash[d], []);
    assert Prefix(hash[d]) + [] == Prefix(hash[d]);
  }

  lemma {:induction false} WalkFinds(
      nodes: seq<Shard>, i: nat, d: nat, es: seq<Entry>, name: Bytes, hash: Hash, e: Entry)
    requires Represents(nodes, i, d, es)
    requires e in es && e.link.name == name && e.hash == hash
    ensures Walk(nodes, i, d, name, hash) == Some(e.link)
    decreases 8 - d
  {
    var g := Group(es, d, hash[d]);
    assert e in g by { GroupMembers(es, d, hash[d]); }
    if |g| == 1 {
      assert g[0] == e;
      AloneHere(nodes, i, d, es, name, hash);
    } else {
      var j := BelowHere(nodes, i, d, es, name, hash);
      WalkFinds(nodes, j, d + 1, g, name, hash, e);
    }
  }

  /** The only entry of its bucket. */
  lemma {:induction false} AloneHere(
      nodes: seq<Shard>, i: nat, d: nat, es: seq<Entry>, name: Bytes, hash: Hash)
    requires Represents(nodes, i, d, es) && |Group(es, d, hash[d])| == 1
    ensures var l := Group(es, d, hash[d])[0].link;
            Walk(nodes, i, d, name, hash) == if l.name == name then Some(l) else None
  {
    AtBucket(nodes, i, d, es, hash[d]);
    WalkAtFile(nodes, i, d, name, hash, Group(es, d, hash[d])[0].link);
  }

  /** The shard below, for several entries of a bucket. */
  lemma {:induction false} BelowHere(
      nodes: seq<Shard>, i: nat, d: nat, es: seq<Entry>, name: Bytes, hash: Hash) returns (j: nat)
    requires Represents(nodes, i, d, es) && |Group(es, d, hash[d])| > 1
    ensures Represents(nodes, j, d + 1, Group(es, d, hash[d]))
    ensures Walk(nodes, i, d, name, hash) == Walk(nodes, j, d + 1, name, hash)
  {
    AtBucket(nodes, i, d, es, hash[d]);
    WalkAtChild(nodes, i, d, name, hash);
    j := nodes[i].links[Rank(nodes[i].bitmap, hash[d])].index;
  }

  lemma {:induction false} WalkMisses(nodes: seq<Shard>, i: nat, d: nat, es: seq<Entry>, name: Bytes, hash: Hash)
    requires Represents(nodes, i, d, es)
    requires forall e :: e in es ==> e.link.name != name
    ensures Walk(nodes, i, d, name, hash) == None
    decreases 8 - d
  {
    var b := hash[d];
    var g := Group(es, d, b);
    GroupMembers(es, d, b);
    if g == [] {
      BitmapExact(es, d, b);
    } else {
      if |g| == 1 {
        assert g[0] in g;
        AloneHere(nodes, i, d, es, name, hash);
      } else {
        var j := BelowHere(nodes, i, d, es, name, hash);
        WalkMisses(nodes, j, d + 1, g, name, hash);
      }
    }
  }

  lemma {:induction false} WalkIsFind(nodes: seq<Shard>, i: nat, links: seq<Link>, hash: Bytes -> Hash, name: Bytes)
    requires Represents(nodes, i, 0, Hashed(links, hash))
    ensures Walk(nodes, i, 0, name, hash(name)) == Find(links, name)
  {
    var es := Hashed(links, hash);
    match Find(links, name)
    case Some(l) =>
      var k :| 0 <= k < |links| && links[k] == l;
      assert es[k] in es;
      WalkFinds(nodes, i, 0, es, name, hash(name), es[k]);
    case None =>
      WalkMisses(nodes, i, 0, es, name, hash(name));
  }

  lemma {:induction false} ShardsShape(links: seq<Link>, hash: Bytes -> Hash)
    requires Shards(links, hash).Ok?
    ensures var nodes := Shards(links, hash).value;
            nodes != [] && Represents(nodes, |nodes| - 1, 0, Hashed(links, hash))
  {
    InsertShape(Hashed(links, hash), 0, [], Shards(links, hash).value);
  }

  /** A lookup from the root of a node list. */
  function Lookup(nodes: seq<Shard>, name: Bytes, hash: Bytes -> Hash): Option<Link> {
    if nodes == [] then None else Walk(nodes, |nodes| - 1, 0, name, hash(name))
  }

  /** The trie refines the flat directory: walking by hash bytes is looking the name up in the list. */
  lemma {:induction false} ShardsLookup(links: seq<Link>, hash: Bytes -> Hash, name: Bytes)
    requires Shards(links, hash).Ok?
    ensures Lookup(Shards(links, hash).value, name, hash) == Find(links, name)
  {
    ShardsShape(links, hash);
    RootLookup(Shards(links, hash).value, links, hash, name);
  }

  lemma {:induction false} RootLookup(nodes: seq<Shard>, links: seq<Link>, hash: Bytes -> Hash, name: Bytes)
    requires nodes != [] && Represents(nodes, |nodes| - 1, 0, Hashed(links, hash))
    ensures Lookup(nodes, name, hash) == Find(links, name)
  {
    WalkIsFind(nodes, |nodes| - 1, links, hash, name);
  }
}
