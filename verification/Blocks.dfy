/** Writing one directory: a plain block, or the blocks of its hash trie, children first. */
module Blocks {
  import opened Prelude
  import opened Dag
  import opened Hamt
  import opened HamtShape
  import opened HamtSize
  import opened DagPb
  import HamtBuilder
  import Order

  const MAX_DIRECTORY_BLOCK_BYTES: nat := 2 * 1024 * 1024
  const SHARD_THRESHOLD_BYTES: nat := 256 * 1024
  const MAX_MANIFEST_BYTES: nat := 64 * 1024 * 1024

  /** UnixFS Data { Type: Directory (1) } */
  const DIRECTORY_DATA: Bytes := [0x08, 0x01]

  datatype BuildError = PathConflict | InvalidManifest | TooLarge | Collision | KuboFailure

  /** What the builder takes from elsewhere: hashing, CID bytes, JSON payload lengths, RPC replies. */
  datatype Env = Env(
    hash: Bytes -> Hash,
    cidBytes: Cid -> Bytes,
    payload: Node -> nat,
    fileSize: Cid -> Option<nat>,
    parse: Bytes -> Option<Cid>)

  // ----- One block

  function PbLinks(env: Env, links: seq<Link>): (r: seq<PbLink>)
    ensures |r| == |links|
  {
    seq(|links|, i requires 0 <= i < |links| => PbLink(env.cidBytes(links[i].cid), links[i].name, links[i].size))
  }

  /** The length of the block as stored. */
  function BlockLen(env: Env, n: Node): nat {
    |EncodeNode(PbLinks(env, n.links), n.data)|
  }

  function Sizes(links: seq<Link>): nat {
    if links == [] then 0 else Sizes(links[..|links| - 1]) + links[|links| - 1].size
  }

  lemma {:induction false} TsizesAreSizes(env: Env, links: seq<Link>)
    ensures Tsizes(PbLinks(env, links)) == Sizes(links)
  {
    if links != [] {
      TsizesAreSizes(env, links[..|links| - 1]);
      assert PbLinks(env, links)[..|links| - 1] == PbLinks(env, links[..|links| - 1]);
    }
  }

  /** The size a parent records for a block: everything below it plus its own length. */
  function Cumulative(env: Env, n: Node): nat {
    Sizes(n.links) + BlockLen(env, n)
  }

  /** A block over 2 MiB, a payload over the limit, or a size sum over 64 bits. */
  predicate Oversized(env: Env, n: Node) {
    || Cumulative(env, n) > U64_MAX
    || BlockLen(env, n) > MAX_DIRECTORY_BLOCK_BYTES
    || env.payload(n) > MAX_MANIFEST_BYTES
  }

  /** A block and the size its parent records. */
  function Put(env: Env, n: Node): (r: Result<(Cid, nat), BuildError>)
    ensures r.Ok? ==> r.value == (Block(n), Sizes(n.links) + BlockLen(env, n))
  {
    if Oversized(env, n) then Err(TooLarge) else Ok((Block(n), Cumulative(env, n)))
  }

  method PutNode(env: Env, links: seq<Link>, data: Bytes) returns (r: Result<(Cid, nat), BuildError>)
    ensures r == Put(env, Node(data, links))
  {
    TsizesAreSizes(env, links);
    var size := BlockSize(PbLinks(env, links), data);
    var node := Node(data, links);
    if size.None? || size.value.0 > MAX_DIRECTORY_BLOCK_BYTES || env.payload(node) > MAX_MANIFEST_BYTES {
      return Err(TooLarge);
    }
    r := Ok((Block(node), size.value.1));
  }

  // ----- Shard metadata

  function ShardData(bitmap: Bytes): Bytes
    requires |bitmap| <= 32
  {
    [0x08, 0x05, 0x12, |bitmap|] + bitmap + [0x28, 0x22, 0x30, 0x80, 0x02]
  }

  /** A reader's view of UnixFS metadata: the bitmap of a fanout-256 Murmur3 shard, if it is one. */
  function ShardBitmap(data: Bytes): Option<Bytes> {
    if |data| >= 9 && data[..3] == [0x08, 0x05, 0x12] && data[3] == |data| - 9
       && data[|data| - 5..] == [0x28, 0x22, 0x30, 0x80, 0x02]
    then Some(data[4..|data| - 5])
    else None
  }

  lemma {:induction false} ShardDataRoundTrip(bitmap: Bytes)
    requires |bitmap| <= 32
    ensures ShardBitmap(ShardData(bitmap)) == Some(bitmap)
    ensures ShardData(bitmap) != DIRECTORY_DATA
  {
    var data := ShardData(bitmap);
    assert data[..3] == [0x08, 0x05, 0x12];
    assert data[4..|data| - 5] == bitmap;
    assert data[|data| - 5..] == [0x28, 0x22, 0x30, 0x80, 0x02];
  }

  /** The literal bytes are the protobuf message: Type 5, Data, hashType 0x22, fanout 256. */
  lemma {:induction false} ShardDataIsProtobuf(bitmap: Bytes)
    requires |bitmap| <= 32
    ensures ShardData(bitmap)
         == [0x08] + Varint(5) + Field(0x12, bitmap) + [0x28] + Varint(0x22) + [0x30] + Varint(256)
  {
    assert Varint(|bitmap|) == [|bitmap|];
    assert Varint(256) == [0x80, 0x02];
    assert ShardData(bitmap) == [0x08, 0x05] + ([0x12, |bitmap|] + bitmap) + [0x28, 0x22, 0x30, 0x80, 0x02];
  }

  // ----- The blocks of a trie

  function Attach(l: ShardLink, built: seq<(Cid, nat)>): Link
    requires TidyLink(l, |built|)
  {
    match l
    case File(link) => link
    case Child(prefix, index) => Link(prefix, built[index].0, built[index].1)
  }

  function AttachAll(links: seq<ShardLink>, built: seq<(Cid, nat)>): (r: seq<Link>)
    requires TidyLinks(links, |built|)
    ensures |r| == |links|
  {
    seq(|links|, k requires 0 <= k < |links| => Attach(links[k], built))
  }

  /** The block for shard `i`, once the shards before it are built. */
  function ShardNode(nodes: seq<Shard>, built: seq<(Cid, nat)>, i: nat): Node
    requires i < |nodes| && i <= |built| && Tidy(nodes)
  {
    Node(ShardData(nodes[i].bitmap), AttachAll(nodes[i].links, built[..i]))
  }

  /** `built` holds the CIDs and sizes of the first shards, `blocks` what was written for them. */
  ghost predicate Built(env: Env, nodes: seq<Shard>, built: seq<(Cid, nat)>, blocks: seq<Node>) {
    && Tidy(nodes) && |built| == |blocks| <= |nodes|
    && forall i :: 0 <= i < |built| ==> blocks[i] == ShardNode(nodes, built, i) && Put(env, blocks[i]) == Ok(built[i])
  }

  /** Some shard is too large to be written, after those before it were. */
  ghost predicate ShardOversized(env: Env, nodes: seq<Shard>) {
    Tidy(nodes) && exists built, blocks :: BlockedAt(env, nodes, built, blocks)
  }

  ghost predicate BlockedAt(env: Env, nodes: seq<Shard>, built: seq<(Cid, nat)>, blocks: seq<Node>) {
    Built(env, nodes, built, blocks) && |built| < |nodes| && Oversized(env, ShardNode(nodes, built, |built|))
  }

  /** The loop over the node list: every child was built before the shard that links it. */
  method PutNodes(env: Env, nodes: seq<Shard>) returns (r: Result<seq<(Cid, nat)>, BuildError>, blocks: seq<Node>)
    requires Tidy(nodes)
    ensures r.Ok? ==> |r.value| == |nodes| && Built(env, nodes, r.value, blocks)
    ensures r.Err? ==> r.error == TooLarge && ShardOversized(env, nodes)
  {
    blocks := [];
    var built: seq<(Cid, nat)> := [];
    for i := 0 to |nodes|
      invariant |built| == i && Built(env, nodes, built, blocks)
    {
      assert TidyLinks(nodes[i].links, i) && built[..i] == built;
      var attached := AttachLinks(nodes[i].links, built);
      var put := PutNode(env, attached, ShardData(nodes[i].bitmap));
      if put.Err? {
        assert BlockedAt(env, nodes, built, blocks);
        return Err(put.error), [];
      }
      BuiltSnoc(env, nodes, built, blocks, put.value);
      blocks := blocks + [Node(ShardData(nodes[i].bitmap), attached)];
      built := built + [put.value];
    }
    r := Ok(built);
  }

  /** The inner loop: children become links to the blocks already written. */
  method AttachLinks(links: seq<ShardLink>, built: seq<(Cid, nat)>) returns (r: seq<Link>)
    requires TidyLinks(links, |built|)
    ensures r == AttachAll(links, built)
  {
    r := [];
    for k := 0 to |links|
      invariant |r| == k && forall j :: 0 <= j < k ==> r[j] == Attach(links[j], built)
    {
      assert TidyLink(links[k], |built|);
      match links[k] {
        case File(link) => r := r + [link];
        case Child(prefix, index) =>
          r := r + [Link(prefix, built[index].0, built[index].1)];
      }
    }
  }

  lemma {:induction false} BuiltSnoc(
      env: Env, nodes: seq<Shard>, built: seq<(Cid, nat)>, blocks: seq<Node>, put: (Cid, nat))
    requires Built(env, nodes, built, blocks) && |built| < |nodes|
    requires Put(env, ShardNode(nodes, built, |built|)) == Ok(put)
    ensures Built(env, nodes, built + [put], blocks + [ShardNode(nodes, built, |built|)])
  {
    var more, log := built + [put], blocks + [ShardNode(nodes, built, |built|)];
    forall i | 0 <= i < |more|
      ensures log[i] == ShardNode(nodes, more, i) && Put(env, log[i]) == Ok(more[i])
    {
      assert more[..i] == built[..i];
    }
  }

  // ----- Reading the trie back from its blocks

  /** The walk of a DAG reader: by bit, rank, two-digit prefix and full name. */
  function DagWalk(c: Cid, d: nat, name: Bytes, hash: Hash): Option<Cid>
    decreases c, d
  {
    if c.Leaf? || d >= 8 then None
    else
      match ShardBitmap(c.node.data)
      case None => None
      case Some(bitmap) =>
        var k := Rank(bitmap, hash[d]);
        if !BitAt(bitmap, hash[d]) || k >= |c.node.links| then None
        else
          var l := c.node.links[k];
          if BucketOf(l.name) != Some(hash[d]) then None
          else if |l.name| == 2 then DagWalk(l.cid, d + 1, name, hash)
          else if l.name[2..] == name then Some(l.cid)
          else None
  }

  function CidOf(l: Option<Link>): Option<Cid> {
    match l case Some(link) => Some(link.cid) case None => None
  }

  /** Where the reader stops at a shard: no bit, or no link for it. */
  lemma {:induction false} StopsHere(
      nodes: seq<Shard>, built: seq<(Cid, nat)>, i: nat, d: nat, name: Bytes, hash: Hash)
    requires Tidy(nodes) && i < |nodes| && i <= |built|
    requires d < 8 ==> !BitAt(nodes[i].bitmap, hash[d]) || Rank(nodes[i].bitmap, hash[d]) >= |nodes[i].links|
    ensures DagWalk(Block(ShardNode(nodes, built, i)), d, name, hash) == CidOf(Walk(nodes, i, d, name, hash)) == None
  {
    ShardDataRoundTrip(nodes[i].bitmap);
  }

  /** One link further: a file ends the walk, a child goes on with it. */
  lemma {:induction false} GoesOnHere(
      nodes: seq<Shard>, built: seq<(Cid, nat)>, i: nat, d: nat, name: Bytes, hash: Hash, k: nat)
    requires Tidy(nodes) && i < |nodes| && i <= |built| && name != [] && d < 8
    requires BitAt(nodes[i].bitmap, hash[d]) && k == Rank(nodes[i].bitmap, hash[d]) < |nodes[i].links|
    requires nodes[i].links[k].Child? && nodes[i].links[k].index < i ==>
               var j := nodes[i].links[k].index;
               DagWalk(built[j].0, d + 1, name, hash) == CidOf(Walk(nodes, j, d + 1, name, hash))
    ensures DagWalk(Block(ShardNode(nodes, built, i)), d, name, hash) == CidOf(Walk(nodes, i, d, name, hash))
  {
    ShardDataRoundTrip(nodes[i].bitmap);
    AttachedLink(nodes, built, i, k);
  }

  lemma {:induction false} DagWalkIsWalk(env: Env, nodes: seq<Shard>, built: seq<(Cid, nat)>, blocks: seq<Node>,
                                         i: nat, d: nat, name: Bytes, hash: Hash)
    requires Built(env, nodes, built, blocks) && i < |built| && name != []
    ensures DagWalk(built[i].0, d, name, hash) == CidOf(Walk(nodes, i, d, name, hash))
    decreases i
  {
    assert built[i].0 == Block(ShardNode(nodes, built, i));
    if d < 8 && BitAt(nodes[i].bitmap, hash[d]) && Rank(nodes[i].bitmap, hash[d]) < |nodes[i].links| {
      var k := Rank(nodes[i].bitmap, hash[d]);
      if nodes[i].links[k].Child? && nodes[i].links[k].index < i {
        DagWalkIsWalk(env, nodes, built, blocks, nodes[i].links[k].index, d + 1, name, hash);
      }
      GoesOnHere(nodes, built, i, d, name, hash, k);
    } else {
      StopsHere(nodes, built, i, d, name, hash);
    }
  }

  lemma {:induction false} AttachedLink(nodes: seq<Shard>, built: seq<(Cid, nat)>, i: nat, k: nat)
    requires Tidy(nodes) && i < |nodes| && i <= |built| && k < |nodes[i].links|
    ensures match nodes[i].links[k]
            case File(link) => ShardNode(nodes, built, i).links[k] == link && |link.name| > 2
            case Child(prefix, j) =>
              && j < i && |prefix| == 2
              && ShardNode(nodes, built, i).links[k] == Link(prefix, built[j].0, built[j].1)
  {
    assert TidyLink(nodes[i].links[k], i);
  }

  /** Reading any name from the written trie is finding it in the directory's list of links. */
  lemma {:induction false} ShardedLookup(
      env: Env, links: seq<Link>, built: seq<(Cid, nat)>, blocks: seq<Node>, name: Bytes)
    requires Shards(links, env.hash).Ok? && name != []
    requires Built(env, Shards(links, env.hash).value, built, blocks)
    requires |built| == |Shards(links, env.hash).value| > 0
    ensures DagWalk(built[|built| - 1].0, 0, name, env.hash(name)) == CidOf(Find(links, name))
  {
    var nodes := Shards(links, env.hash).value;
    DagWalkIsWalk(env, nodes, built, blocks, |nodes| - 1, 0, name, env.hash(name));
    ShardsLookup(links, env.hash, name);
  }

  // ----- Conservation of sizes

  function Lens(env: Env): Node -> nat {
    (n: Node) => BlockLen(env, n)
  }

  function BlockLens(env: Env, blocks: seq<Node>): nat {
    SumOf(blocks, Lens(env))
  }

  function Weight(built: seq<(Cid, nat)>): nat -> nat {
    (i: nat) => if i < |built| then built[i].1 else 0
  }

  lemma {:induction false} AttachedSizes(links: seq<ShardLink>, built: seq<(Cid, nat)>, all: seq<(Cid, nat)>)
    requires TidyLinks(links, |built|) && built <= all
    ensures Sizes(AttachAll(links, built)) == LinksSize(links) + LinksWeight(links, Weight(all))
  {
    if links != [] {
      var front := links[..|links| - 1];
      AttachedSizes(front, built, all);
      assert AttachAll(links, built)[..|links| - 1] == AttachAll(front, built);
      assert TidyLink(links[|links| - 1], |built|);
    }
  }

  /** The size recorded for a shard: its files, its child shards, and its own length. */
  lemma {:induction false} ShardSize(env: Env, nodes: seq<Shard>, built: seq<(Cid, nat)>, blocks: seq<Node>, i: nat)
    requires Built(env, nodes, built, blocks) && i < |built|
    ensures var w := Weight(built);
            w(i) == LinksSize(nodes[i].links) + LinksWeight(nodes[i].links, w) + Lens(env)(blocks[i])
  {
    AttachedSizes(nodes[i].links, built[..i], built);
  }

  lemma {:induction false} SumsUpto(nodes: seq<Shard>, w: nat -> nat, n: nat)
    requires n < |nodes|
    ensures FileSizes(nodes[..n + 1]) == FileSizes(nodes[..n]) + LinksSize(nodes[n].links)
    ensures RefWeight(nodes[..n + 1], w) == RefWeight(nodes[..n], w) + LinksWeight(nodes[n].links, w)
    ensures RangeWeight(n + 1, w) == RangeWeight(n, w) + w(n)
  {
    assert nodes[..n + 1][..n] == nodes[..n];
  }

  lemma {:induction false} SizesAddUp(env: Env, nodes: seq<Shard>, built: seq<(Cid, nat)>, blocks: seq<Node>, n: nat)
    requires Built(env, nodes, built, blocks) && n <= |built|
    ensures RangeWeight(n, Weight(built))
         == FileSizes(nodes[..n]) + RefWeight(nodes[..n], Weight(built)) + SumOf(blocks[..n], Lens(env))
    decreases n
  {
    if n > 0 {
      var i := n - 1;
      SizesAddUp(env, nodes, built, blocks, i);
      ShardSize(env, nodes, built, blocks, i);
      SumsUpto(nodes, Weight(built), i);
      SumUpto(blocks, Lens(env), i);
    }
  }

  lemma {:induction false} LastWeight(built: seq<(Cid, nat)>)
    requires built != []
    ensures RangeWeight(|built|, Weight(built)) == RangeWeight(|built| - 1, Weight(built)) + built[|built| - 1].1
  {
  }

  lemma {:induction false} RootSize(env: Env, nodes: seq<Shard>, built: seq<(Cid, nat)>, blocks: seq<Node>)
    requires Built(env, nodes, built, blocks) && |built| == |nodes| > 0
    requires RefWeight(nodes, Weight(built)) == RangeWeight(|nodes| - 1, Weight(built))
    ensures built[|built| - 1].1 == FileSizes(nodes) + BlockLens(env, blocks)
  {
    var w := Weight(built);
    SizesAddUp(env, nodes, built, blocks, |nodes|);
    assert nodes[..|nodes|] == nodes && blocks[..|nodes|] == blocks;
    LastWeight(built);
    var all, files, refs := RangeWeight(|nodes|, w), FileSizes(nodes), RefWeight(nodes, w);
    var lens := SumOf(blocks, Lens(env));
    assert all == files + refs + lens;
  }

  /** The size of a trie: the files it links, each once, plus the lengths of all its blocks. */
  lemma {:induction false} ShardedConservation(env: Env, links: seq<Link>, built: seq<(Cid, nat)>, blocks: seq<Node>)
    requires Shards(links, env.hash).Ok?
    requires Built(env, Shards(links, env.hash).value, built, blocks)
    requires |built| == |Shards(links, env.hash).value| > 0
    ensures built[|built| - 1].1 == Sizes(links) + BlockLens(env, blocks)
  {
    ShardsLinkedOnce(links, env.hash, Weight(built));
    TotalIsSizes(links, env.hash);
    RootSize(env, Shards(links, env.hash).value, built, blocks);
  }

  lemma {:induction false} TotalIsSizes(links: seq<Link>, hash: Bytes -> Hash)
    ensures Total(Hashed(links, hash), SizeOf) == Sizes(links)
  {
    if links != [] {
      TotalIsSizes(links[..|links| - 1], hash);
      assert Hashed(links, hash)[..|links| - 1] == Hashed(links[..|links| - 1], hash);
    }
  }

  // ----- One directory, either way

  /** One path component below a block: a link of a plain directory, or a walk of a trie. */
  function StepInto(hash: Bytes -> Hash, c: Cid, name: Bytes): Option<Cid> {
    if c.Leaf? then None
    else if c.node.data == DIRECTORY_DATA then CidOf(Find(c.node.links, name))
    else DagWalk(c, 0, name, hash(name))
  }

  function LinkName(l: Link): Bytes {
    l.name
  }

  ghost predicate DistinctNames(links: seq<Link>) {
    Order.DistinctKeys(links, LinkName)
  }

  lemma {:induction false} InsertDistinct(xs: seq<Link>, x: Link)
    requires DistinctNames(xs) && forall l :: l in xs ==> l.name != x.name
    ensures DistinctNames(Order.Insert(xs, x, LinkName))
  {
    if xs != [] && !Order.Leq(LinkName(xs[|xs| - 1]), LinkName(x)) {
      var front, last := xs[..|xs| - 1], xs[|xs| - 1];
      InsertDistinct(front, x);
      var inner := Order.Insert(front, x, LinkName);
      forall i | 0 <= i < |inner|
        ensures inner[i].name != last.name
      {
        assert inner[i] in multiset(inner);
        assert inner[i] in front || inner[i] == x;
      }
    }
  }

  lemma {:induction false} InsertSizes(xs: seq<Link>, x: Link)
    ensures Sizes(Order.Insert(xs, x, LinkName)) == Sizes(xs) + x.size
  {
    var r := Order.Insert(xs, x, LinkName);
    if xs == [] || Order.Leq(LinkName(xs[|xs| - 1]), LinkName(x)) {
      assert r[..|xs|] == xs;
    } else {
      InsertSizes(xs[..|xs| - 1], x);
      assert r[..|r| - 1] == Order.Insert(xs[..|xs| - 1], x, LinkName);
    }
  }

  lemma {:induction false} SortKeepsLinks(xs: seq<Link>)
    requires DistinctNames(xs)
    ensures var r := Order.Sort(xs, LinkName);
            DistinctNames(r) && Sizes(r) == Sizes(xs)
  {
    if xs != [] {
      var front, last := xs[..|xs| - 1], xs[|xs| - 1];
      SortKeepsLinks(front);
      var inner := Order.Sort(front, LinkName);
      forall l | l in inner
        ensures l.name != last.name
      {
        assert l in multiset(inner);
        assert l in multiset(front);
      }
      InsertDistinct(inner, last);
      InsertSizes(inner, last);
    }
  }

  /** Sorting keeps the links and adds up to the same size. */
  lemma {:induction false} SortedLinks(unsorted: seq<Link>)
    requires DistinctNames(unsorted)
    ensures var links := Order.Sort(unsorted, LinkName);
            DistinctNames(links) && Sizes(links) == Sizes(unsorted) && (forall l :: l in links <==> l in unsorted)
  {
    var links := Order.Sort(unsorted, LinkName);
    SortKeepsLinks(unsorted);
    forall l
      ensures l in links <==> l in unsorted
    {
      assert l in links <==> l in multiset(links);
      assert l in unsorted <==> l in multiset(unsorted);
    }
  }

  /** Lists with the same links are sorted into the same list. */
  lemma {:induction false} SortsAlike(a: seq<Link>, b: seq<Link>)
    requires DistinctNames(a) && DistinctNames(b) && forall l :: l in a <==> l in b
    ensures Order.Sort(a, LinkName) == Order.Sort(b, LinkName)
  {
    SortedLinks(a);
    SortedLinks(b);
    Order.SortSorted(a, LinkName);
    Order.SortSorted(b, LinkName);
    Order.SortedUnique(Order.Sort(a, LinkName), Order.Sort(b, LinkName), LinkName);
  }

  lemma {:induction false} SameFind(a: seq<Link>, b: seq<Link>, name: Bytes)
    requires DistinctNames(a) && DistinctNames(b) && forall l :: l in a <==> l in b
    ensures Find(a, name) == Find(b, name)
  {
    var x, y := Find(a, name), Find(b, name);
    if x.Some? && y.Some? {
      var i :| 0 <= i < |b| && b[i] == x.value;
      var j :| 0 <= j < |b| && b[j] == y.value;
      assert i == j;
    }
  }

  /** Below `c`, one component resolves as in the list `links`. */
  ghost predicate Lists(hash: Bytes -> Hash, c: Cid, links: seq<Link>) {
    forall name: Bytes {:trigger StepInto(hash, c, name)} ::
      name != [] ==> StepInto(hash, c, name) == CidOf(Find(links, name))
  }

  lemma {:induction false} ShardedDirectory(env: Env, links: seq<Link>, built: seq<(Cid, nat)>, blocks: seq<Node>)
    requires Shards(links, env.hash).Ok?
    requires Built(env, Shards(links, env.hash).value, built, blocks)
    requires |built| == |Shards(links, env.hash).value| > 0
    ensures var root := built[|built| - 1];
            && Put(env, blocks[|blocks| - 1]) == Ok(root)
            && root.1 == Sizes(links) + BlockLens(env, blocks)
            && Lists(env.hash, root.0, links)
  {
    var nodes := Shards(links, env.hash).value;
    var root := built[|built| - 1];
    ShardedConservation(env, links, built, blocks);
    ShardDataRoundTrip(nodes[|nodes| - 1].bitmap);
    assert root.0 == Block(ShardNode(nodes, built, |nodes| - 1));
    forall name: Bytes | name != []
      ensures StepInto(env.hash, root.0, name) == CidOf(Find(links, name))
    {
      ShardedLookup(env, links, built, blocks, name);
    }
  }

  lemma {:induction false} ListsPermuted(hash: Bytes -> Hash, c: Cid, links: seq<Link>, unsorted: seq<Link>)
    requires Lists(hash, c, links)
    requires DistinctNames(links) && DistinctNames(unsorted) && forall l :: l in links <==> l in unsorted
    ensures Lists(hash, c, unsorted)
  {
    forall name: Bytes | name != []
      ensures StepInto(hash, c, name) == CidOf(Find(unsorted, name))
    {
      SameFind(links, unsorted, name);
    }
  }

  /** What a finished directory promises: lookups as in the list, and no byte lost or counted twice. */
  ghost predicate Finished(env: Env, links: seq<Link>, root: (Cid, nat), blocks: seq<Node>) {
    && Lists(env.hash, root.0, links)
    && root.1 == Sizes(links) + BlockLens(env, blocks)
    && blocks != [] && Put(env, blocks[|blocks| - 1]) == Ok(root)
  }

  // ----- What every written block is

  /** At most 2 MiB long, with a payload of at most 64 MiB, and with a size in its parent that fits 64 bits. */
  predicate Small(env: Env, n: Node) {
    var length := |EncodeNode(PbLinks(env, n.links), n.data)|;
    length <= 2_097_152 && env.payload(n) <= 67_108_864 && Sizes(n.links) + length <= 18_446_744_073_709_551_615
  }

  /** A block is written exactly when it is small; its size is that of its links plus its own length. */
  lemma {:induction false} PutExactly(env: Env, n: Node)
    ensures Put(env, n).Ok? <==> Small(env, n)
    ensures Put(env, n).Ok? ==>
              Put(env, n).value == (Block(n), Sizes(n.links) + |EncodeNode(PbLinks(env, n.links), n.data)|)
    ensures Put(env, n).Err? ==> Put(env, n).error == TooLarge
    ensures Oversized(env, n) <==> !Small(env, n)
  {
  }

  /** What is stored for a block decodes to the names, CIDs and sizes of its links, in order, and to its data. */
  lemma {:induction false} BlockReadsBack(env: Env, n: Node)
    ensures var decoded := DecodeNode(EncodeNode(PbLinks(env, n.links), n.data));
            && decoded.Some? && decoded.value.1 == n.data && |decoded.value.0| == |n.links|
            && forall i :: 0 <= i < |n.links| ==>
                 && decoded.value.0[i].name == n.links[i].name && decoded.value.0[i].tsize == n.links[i].size
                 && decoded.value.0[i].hash == env.cidBytes(n.links[i].cid)
  {
    NodeRoundTrip(PbLinks(env, n.links), n.data);
  }

  /** Every block is small and has its links in byte order. */
  ghost predicate WellMade(env: Env, blocks: seq<Node>) {
    forall i :: 0 <= i < |blocks| ==> Order.Sorted(blocks[i].links, LinkName) && Small(env, blocks[i])
  }

  lemma {:induction false} AttachedInOrder(links: seq<ShardLink>, built: seq<(Cid, nat)>)
    requires TidyLinks(links, |built|) && Order.Sorted(links, Name)
    ensures Order.Sorted(AttachAll(links, built), LinkName)
  {
    var all := AttachAll(links, built);
    forall k | 0 <= k < |all|
      ensures LinkName(all[k]) == Name(links[k])
    {
      assert TidyLink(links[k], |built|);
    }
  }

  lemma {:induction false} ShardsWellMade(env: Env, nodes: seq<Shard>, built: seq<(Cid, nat)>, blocks: seq<Node>)
    requires Built(env, nodes, built, blocks)
    ensures WellMade(env, blocks)
  {
    forall i | 0 <= i < |blocks|
      ensures Order.Sorted(blocks[i].links, LinkName) && Small(env, blocks[i])
    {
      AttachedInOrder(nodes[i].links, built[..i]);
      PutExactly(env, blocks[i]);
    }
  }

  // ----- Why a directory cannot be written

  /** Two names of the directory share all eight hash bytes. */
  ghost predicate Clash(hash: Bytes -> Hash, links: seq<Link>) {
    exists i, j :: 0 <= i < j < |links| && hash(links[i].name) == hash(links[j].name)
  }

  lemma {:induction false} ClashingLinks(hash: Bytes -> Hash, unsorted: seq<Link>) returns (a: Link, b: Link)
    requires DistinctNames(unsorted) && Clash(hash, Order.Sort(unsorted, LinkName))
    ensures a in unsorted && b in unsorted && a.name != b.name && hash(a.name) == hash(b.name)
  {
    var links := Order.Sort(unsorted, LinkName);
    SortedLinks(unsorted);
    var i, j :| 0 <= i < j < |links| && hash(links[i].name) == hash(links[j].name);
    a, b := links[i], links[j];
  }

  /** Over the threshold the directory is a trie, which may fail on a collision or on one of its blocks. */
  ghost predicate CannotShard(env: Env, links: seq<Link>, e: BuildError) {
    match e
    case Collision => Clash(env.hash, links)
    case TooLarge => Shards(links, env.hash).Ok? && ShardOversized(env, Shards(links, env.hash).value)
    case _ => false
  }

  /** The cause of a failure to write a directory with these links. */
  ghost predicate CannotWrite(env: Env, links: seq<Link>, e: BuildError) {
    var plain := Node(DIRECTORY_DATA, links);
    if Cumulative(env, plain) > U64_MAX then e == TooLarge
    else if BlockLen(env, plain) > SHARD_THRESHOLD_BYTES then CannotShard(env, links, e)
    else e == TooLarge && Oversized(env, plain)
  }

  /** The trie of these links, written as `put`. */
  ghost predicate WritesShards(env: Env, links: seq<Link>, put: (Cid, nat)) {
    && Shards(links, env.hash).Ok?
    && exists built, blocks :: EndsIn(env, Shards(links, env.hash).value, built, blocks, put)
  }

  ghost predicate EndsIn(
      env: Env, nodes: seq<Shard>, built: seq<(Cid, nat)>, blocks: seq<Node>, put: (Cid, nat)) {
    Built(env, nodes, built, blocks) && |built| == |nodes| > 0 && put == built[|built| - 1]
  }

  /** A directory with these links is written as `put`. */
  ghost predicate Writes(env: Env, links: seq<Link>, put: (Cid, nat)) {
    var plain := Node(DIRECTORY_DATA, links);
    && Cumulative(env, plain) <= U64_MAX
    && if BlockLen(env, plain) > SHARD_THRESHOLD_BYTES then WritesShards(env, links, put)
       else Put(env, plain) == Ok(put)
  }

  lemma {:induction false} SameShard(
      nodes: seq<Shard>, built: seq<(Cid, nat)>, other: seq<(Cid, nat)>, i: nat)
    requires Tidy(nodes) && i < |nodes| && i <= |built| && i <= |other| && built[..i] == other[..i]
    ensures ShardNode(nodes, built, i) == ShardNode(nodes, other, i)
  {
  }

  lemma {:induction false} NextUnique(
      env: Env, nodes: seq<Shard>, built: seq<(Cid, nat)>, blocks: seq<Node>, other: seq<(Cid, nat)>,
      others: seq<Node>, i: nat)
    requires Built(env, nodes, built, blocks) && Built(env, nodes, other, others) && i < |built| && i < |other|
    requires built[..i] == other[..i]
    ensures built[i] == other[i]
  {
    SameShard(nodes, built, other, i);
  }

  lemma {:induction false} PrefixesGrow<T>(a: seq<T>, b: seq<T>, i: nat)
    requires i < |a| && i < |b| && a[..i] == b[..i] && a[i] == b[i]
    ensures a[..i + 1] == b[..i + 1]
  {
    assert a[..i + 1] == a[..i] + [a[i]] && b[..i + 1] == b[..i] + [b[i]];
  }

  /** What was written for the first shards is determined by the node list. */
  lemma {:induction false} BuiltUnique(
      env: Env, nodes: seq<Shard>, built: seq<(Cid, nat)>, blocks: seq<Node>, other: seq<(Cid, nat)>,
      others: seq<Node>, n: nat)
    requires Built(env, nodes, built, blocks) && Built(env, nodes, other, others) && n <= |built| && n <= |other|
    ensures built[..n] == other[..n]
    decreases n
  {
    if n > 0 {
      BuiltUnique(env, nodes, built, blocks, other, others, n - 1);
      NextUnique(env, nodes, built, blocks, other, others, n - 1);
      PrefixesGrow(built, other, n - 1);
    }
  }

  lemma {:induction false} EndsUnique(
      env: Env, nodes: seq<Shard>, built: seq<(Cid, nat)>, blocks: seq<Node>, put: (Cid, nat),
      other: seq<(Cid, nat)>, others: seq<Node>, put': (Cid, nat))
    requires EndsIn(env, nodes, built, blocks, put) && EndsIn(env, nodes, other, others, put')
    ensures put == put'
  {
    var n := |nodes| - 1;
    BuiltUnique(env, nodes, built, blocks, other, others, n);
    NextUnique(env, nodes, built, blocks, other, others, n);
  }

  lemma {:induction false} ShardsUnique(env: Env, links: seq<Link>, put: (Cid, nat), other: (Cid, nat))
    requires WritesShards(env, links, put) && WritesShards(env, links, other)
    ensures put == other
  {
    var nodes := Shards(links, env.hash).value;
    var built, blocks :| EndsIn(env, nodes, built, blocks, put);
    var built', blocks' :| EndsIn(env, nodes, built', blocks', other);
    EndsUnique(env, nodes, built, blocks, put, built', blocks', other);
  }

  /** A directory is written in one way at most. */
  lemma {:induction false} WritesUnique(env: Env, links: seq<Link>, put: (Cid, nat), other: (Cid, nat))
    requires Writes(env, links, put) && Writes(env, links, other)
    ensures put == other
  {
    if BlockLen(env, Node(DIRECTORY_DATA, links)) > SHARD_THRESHOLD_BYTES {
      ShardsUnique(env, links, put, other);
    }
  }

  /** A trie with an oversized shard is not written. */
  lemma {:induction false} BlockedNotBuilt(env: Env, nodes: seq<Shard>, built: seq<(Cid, nat)>, blocks: seq<Node>)
    requires Built(env, nodes, built, blocks) && |built| == |nodes|
    ensures !ShardOversized(env, nodes)
  {
    forall other, others | Built(env, nodes, other, others) && |other| < |nodes|
      ensures !BlockedAt(env, nodes, other, others)
    {
      var n := |other|;
      BuiltUnique(env, nodes, built, blocks, other, others, n);
      assert other[..n] == other;
      assert blocks[n] == ShardNode(nodes, built, n) == ShardNode(nodes, other, n);
    }
  }

  /** Either a directory is written, or there is a reason that it is not. */
  lemma {:induction false} WritesOrCannot(env: Env, links: seq<Link>, put: (Cid, nat), e: BuildError)
    requires Writes(env, links, put) && |links| <= MAX_FILES
    ensures !CannotWrite(env, links, e)
  {
    if BlockLen(env, Node(DIRECTORY_DATA, links)) > SHARD_THRESHOLD_BYTES {
      var nodes := Shards(links, env.hash).value;
      var built, blocks :| EndsIn(env, nodes, built, blocks, put);
      BlockedNotBuilt(env, nodes, built, blocks);
      ShardsFailExactlyOnCollision(links, env.hash);
    }
  }

  method PutShards(env: Env, links: seq<Link>) returns (r: Result<(Cid, nat), BuildError>, blocks: seq<Node>)
    requires forall l :: l in links ==> l.name != []
    ensures r.Ok? ==> Finished(env, links, r.value, blocks)
    ensures r.Ok? ==> WritesShards(env, links, r.value) && WellMade(env, blocks)
    ensures r.Ok? ==> blocks != [] && ShardBitmap(blocks[|blocks| - 1].data).Some?
    ensures r.Err? && |links| <= MAX_FILES ==> CannotShard(env, links, r.error)
    ensures r.Err? ==> r.error == TooLarge || r.error == Collision
  {
    var shards := HamtBuilder.BuildShards(links, env.hash);
    if shards.Err? {
      if |links| <= MAX_FILES {
        ShardsFailExactlyOnCollision(links, env.hash);
      }
      return Err(if shards.error == HashCollision then Collision else TooLarge), [];
    }
    r, blocks := PutTrie(env, links, shards.value);
  }

  /** The blocks of a finished trie. */
  method PutTrie(env: Env, links: seq<Link>, nodes: seq<Shard>)
    returns (r: Result<(Cid, nat), BuildError>, blocks: seq<Node>)
    requires (forall l :: l in links ==> l.name != []) && Shards(links, env.hash) == Ok(nodes)
    ensures r.Ok? ==> Finished(env, links, r.value, blocks)
    ensures r.Ok? ==> WritesShards(env, links, r.value) && WellMade(env, blocks)
    ensures r.Ok? ==> blocks != [] && ShardBitmap(blocks[|blocks| - 1].data).Some?
    ensures r.Err? ==> r.error == TooLarge && ShardOversized(env, nodes)
  {
    ShardsTidy(links, env.hash);
    ShardsShape(links, env.hash);
    var built;
    built, blocks := PutNodes(env, nodes);
    if built.Err? {
      return Err(built.error), [];
    }
    ShardedDirectory(env, links, built.value, blocks);
    ShardsWellMade(env, nodes, built.value, blocks);
    r := Ok(built.value[|built.value| - 1]);
    assert EndsIn(env, nodes, built.value, blocks, r.value);
    ShardDataRoundTrip(nodes[|nodes| - 1].bitmap);
  }

  lemma {:induction false} PlainDirectory(env: Env, links: seq<Link>, put: (Cid, nat))
    requires Put(env, Node(DIRECTORY_DATA, links)) == Ok(put)
    ensures Finished(env, links, put, [Node(DIRECTORY_DATA, links)])
  {
    var blocks := [Node(DIRECTORY_DATA, links)];
    assert SumOf(blocks[..0], Lens(env)) == 0;
    forall name: Bytes | name != []
      ensures StepInto(env.hash, put.0, name) == CidOf(Find(links, name))
    {}
  }

  /** Up to 256 KiB a directory is one plain block; above, the last block is the root shard of a trie. */
  ghost predicate Encoded(env: Env, links: seq<Link>, blocks: seq<Node>) {
    if |EncodeNode(PbLinks(env, links), [0x08, 0x01])| <= 262_144 then blocks == [Node([0x08, 0x01], links)]
    else blocks != [] && ShardBitmap(blocks[|blocks| - 1].data).Some?
  }

  /** A plain block or, above the threshold, a trie. */
  method PutSorted(env: Env, links: seq<Link>) returns (r: Result<(Cid, nat), BuildError>, blocks: seq<Node>)
    requires forall l :: l in links ==> l.name != []
    ensures r.Ok? ==> Finished(env, links, r.value, blocks)
    ensures r.Ok? ==> Writes(env, links, r.value) && (Order.Sorted(links, LinkName) ==> WellMade(env, blocks))
    ensures r.Ok? ==> Encoded(env, links, blocks)
    ensures r.Err? && |links| <= MAX_FILES ==> CannotWrite(env, links, r.error)
    ensures r.Err? ==> r.error == TooLarge || r.error == Collision
  {
    TsizesAreSizes(env, links);
    var size := BlockSize(PbLinks(env, links), DIRECTORY_DATA);
    if size.None? {
      return Err(TooLarge), [];
    }
    if size.value.0 > SHARD_THRESHOLD_BYTES {
      r, blocks := PutShards(env, links);
    } else {
      r := PutNode(env, links, DIRECTORY_DATA);
      blocks := [];
      if r.Ok? {
        blocks := [Node(DIRECTORY_DATA, links)];
        PlainDirectory(env, links, r.value);
        PutExactly(env, Node(DIRECTORY_DATA, links));
      }
    }
  }

  /** The links as they are written. */
  lemma {:induction false} Prepared(unsorted: seq<Link>)
    requires DistinctNames(unsorted) && forall l :: l in unsorted ==> l.name != []
    ensures var links := Order.Sort(unsorted, LinkName);
            Order.Sorted(links, LinkName) && |links| == |unsorted| && forall l :: l in links ==> l.name != []
  {
    var links := Order.Sort(unsorted, LinkName);
    SortedLinks(unsorted);
    Order.SortSorted(unsorted, LinkName);
    assert |multiset(links)| == |multiset(unsorted)|;
  }

  lemma {:induction false} FinishedUnsorted(env: Env, unsorted: seq<Link>, root: (Cid, nat), blocks: seq<Node>)
    requires DistinctNames(unsorted) && Finished(env, Order.Sort(unsorted, LinkName), root, blocks)
    ensures Finished(env, unsorted, root, blocks)
  {
    SortedLinks(unsorted);
    ListsPermuted(env.hash, root.0, Order.Sort(unsorted, LinkName), unsorted);
  }

  /** One directory: its links in byte order, written with whatever encoding fits. */
  method PutDirectory(env: Env, unsorted: seq<Link>) returns (r: Result<(Cid, nat), BuildError>, blocks: seq<Node>)
    requires DistinctNames(unsorted) && forall l :: l in unsorted ==> l.name != []
    ensures r.Ok? ==> Finished(env, unsorted, r.value, blocks)
    ensures r.Ok? ==> Writes(env, Order.Sort(unsorted, LinkName), r.value) && WellMade(env, blocks)
    ensures r.Ok? ==> Encoded(env, Order.Sort(unsorted, LinkName), blocks)
    ensures r.Err? && |unsorted| <= MAX_FILES ==> CannotWrite(env, Order.Sort(unsorted, LinkName), r.error)
    ensures r.Err? ==> r.error == TooLarge || r.error == Collision
  {
    Prepared(unsorted);
    r, blocks := PutSorted(env, Order.Sort(unsorted, LinkName));
    if r.Ok? {
      FinishedUnsorted(env, unsorted, r.value, blocks);
    }
  }
}
