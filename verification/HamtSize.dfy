/** When trie construction fails, how many nodes it makes, and what they add up to. */
module HamtSize {
  import opened Prelude
  import opened Dag
  import opened Hamt
  import opened HamtShape
  import Order

  // ----- Failure is exactly a collision of whole hashes

  /** Two entries whose hashes agree from position `d` on. */
  ghost predicate Twins(es: seq<Entry>, d: nat)
    requires d <= 8
  {
    exists i, j :: 0 <= i < j < |es| && es[i].hash[d..] == es[j].hash[d..]
  }

  /** The position in its group of the entry at `i`. */
  lemma {:induction false} IntoGroup(es: seq<Entry>, d: nat, i: nat)
    requires d < 8 && i < |es|
    ensures var g := Group(es, d, es[i].hash[d]);
            var k := |Group(es[..i], d, es[i].hash[d])|;
            k < |g| && g[k] == es[i]
  {
    if i == |es| - 1 {
      assert es[..i] == es[..|es| - 1];
    } else {
      IntoGroup(es[..|es| - 1], d, i);
      assert es[..|es| - 1][..i] == es[..i];
    }
  }

  lemma {:induction false} GroupGrows(es: seq<Entry>, d: nat, b: byte, i: nat, j: nat)
    requires d < 8 && i <= j <= |es|
    ensures |Group(es[..i], d, b)| <= |Group(es[..j], d, b)|
    decreases j
  {
    if i < j {
      GroupGrows(es, d, b, i, j - 1);
      assert es[..j][..j - 1] == es[..j - 1];
    }
  }

  /** The entry at position `k` of a group, and where it came from. */
  lemma {:induction false} OutOfGroup(es: seq<Entry>, d: nat, b: byte, k: nat) returns (i: nat)
    requires d < 8 && k < |Group(es, d, b)|
    ensures i < |es| && es[i] == Group(es, d, b)[k] && es[i].hash[d] == b && k == |Group(es[..i], d, b)|
  {
    var front := es[..|es| - 1];
    if k < |Group(front, d, b)| {
      i := OutOfGroup(front, d, b, k);
      assert front[..i] == es[..i];
    } else {
      i := |es| - 1;
    }
  }

  lemma {:induction false} TailsAgree(x: Hash, y: Hash, d: nat)
    requires d < 8
    ensures x[d..] == y[d..] <==> x[d] == y[d] && x[d + 1..] == y[d + 1..]
  {
    assert x[d..] == [x[d]] + x[d + 1..] && y[d..] == [y[d]] + y[d + 1..];
    if x[d..] == y[d..] {
      assert x[d..][0] == y[d..][0] && x[d..][1..] == y[d..][1..];
    }
  }

  lemma {:induction false} TwinsDown(es: seq<Entry>, d: nat) returns (b: byte)
    requires d < 8 && Twins(es, d)
    ensures Twins(Group(es, d, b), d + 1)
    ensures |Group(es, d, b)| >= 2
  {
    var i, j :| 0 <= i < j < |es| && es[i].hash[d..] == es[j].hash[d..];
    TailsAgree(es[i].hash, es[j].hash, d);
    b := es[i].hash[d];
    IntoGroup(es, d, i);
    IntoGroup(es, d, j);
    GroupGrows(es, d, b, i + 1, j);
    assert es[..i + 1][..i] == es[..i];
  }

  lemma {:induction false} TwinsUp(es: seq<Entry>, d: nat, b: byte)
    requires d < 8 && Twins(Group(es, d, b), d + 1)
    ensures Twins(es, d)
  {
    var g := Group(es, d, b);
    var k, l :| 0 <= k < l < |g| && g[k].hash[d + 1..] == g[l].hash[d + 1..];
    var i := OutOfGroup(es, d, b, k);
    var j := OutOfGroup(es, d, b, l);
    if j <= i {
      GroupGrows(es, d, b, j, i);
      assert false;
    }
    TailsAgree(es[i].hash, es[j].hash, d);
  }

  /** A finished trie has no two entries with the same hash. */
  lemma {:induction false} NoTwins(nodes: seq<Shard>, i: nat, d: nat, es: seq<Entry>)
    requires Represents(nodes, i, d, es)
    ensures !Twins(es, d)
    decreases 8 - d
  {
    if Twins(es, d) {
      var b := TwinsDown(es, d);
      var g := Group(es, d, b);
      AtBucket(nodes, i, d, es, b);
      var k := Rank(nodes[i].bitmap, b);
      NoTwins(nodes, nodes[i].links[k].index, d + 1, g);
    }
  }

  lemma {:induction false} CollisionMeansTwins(es: seq<Entry>, d: nat, nodes: seq<Shard>)
    requires d <= 8 && (d == 8 ==> |es| >= 2)
    requires Hamt.Insert(es, d, nodes) == Err(HashCollision)
    ensures Twins(es, d)
    decreases 8 - d, 2, 0
  {
    if d == 8 {
      assert es[0].hash[8..] == es[1].hash[8..];
    } else {
      FillCollision(es, d, Fanout(), nodes);
    }
  }

  lemma {:induction false} FillCollision(es: seq<Entry>, d: nat, b: nat, nodes: seq<Shard>)
    requires d < 8 && b <= Fanout()
    requires Fill(es, d, b, nodes) == Err(HashCollision)
    ensures Twins(es, d)
    decreases 8 - d, 1, b
  {
    match Fill(es, d, b - 1, nodes)
    case Err(_) => FillCollision(es, d, b - 1, nodes);
    case Ok((more, links)) => VisitCollision(es, d, b - 1, more, links);
  }

  lemma {:induction false} VisitCollision(es: seq<Entry>, d: nat, b: byte, nodes: seq<Shard>, links: seq<ShardLink>)
    requires d < 8
    requires Visit(es, d, b, nodes, links) == Err(HashCollision)
    ensures Twins(es, d)
    decreases 8 - d, 0, 0
  {
    CollisionMeansTwins(Group(es, d, b), d + 1, nodes);
    TwinsUp(es, d, b);
  }

  // ----- The buckets partition the entries

  function Total(es: seq<Entry>, f: Entry -> nat): nat {
    if es == [] then 0 else Total(es[..|es| - 1], f) + f(es[|es| - 1])
  }

  /** The groups of the buckets below `b`, added up. */
  function GroupTotals(es: seq<Entry>, d: nat, b: nat, f: Entry -> nat): nat
    requires d < 8 && b <= Fanout()
  {
    if b == 0 then 0 else GroupTotals(es, d, b - 1, f) + Total(Group(es, d, b - 1), f)
  }

  lemma {:induction false} TotalSnoc(es: seq<Entry>, e: Entry, f: Entry -> nat)
    ensures Total(es + [e], f) == Total(es, f) + f(e)
  {
    assert (es + [e])[..|es|] == es;
  }

  lemma {:induction false} GroupTotalSnoc(es: seq<Entry>, e: Entry, d: nat, b: byte, f: Entry -> nat)
    requires d < 8
    ensures Total(Group(es + [e], d, b), f) == Total(Group(es, d, b), f) + if e.hash[d] == b then f(e) else 0
  {
    GroupSnoc(es, e, d, b);
    var g := Group(es, d, b);
    if e.hash[d] == b {
      TotalSnoc(g, e, f);
    } else {
      assert g + [] == g;
    }
  }

  lemma {:induction false} GroupTotalsSnoc(es: seq<Entry>, e: Entry, d: nat, b: nat, f: Entry -> nat)
    requires d < 8 && b <= Fanout()
    ensures GroupTotals(es + [e], d, b, f) == GroupTotals(es, d, b, f) + if e.hash[d] < b then f(e) else 0
    decreases b
  {
    if b > 0 {
      GroupTotalsSnoc(es, e, d, b - 1, f);
      GroupTotalSnoc(es, e, d, b - 1, f);
    }
  }

  lemma {:induction false} GroupTotalsEmpty(d: nat, b: nat, f: Entry -> nat)
    requires d < 8 && b <= Fanout()
    ensures GroupTotals([], d, b, f) == 0
  {
    if b > 0 {
      GroupTotalsEmpty(d, b - 1, f);
    }
  }

  lemma {:induction false} Partition(es: seq<Entry>, d: nat, f: Entry -> nat)
    requires d < 8
    ensures GroupTotals(es, d, Fanout(), f) == Total(es, f)
  {
    if es == [] {
      GroupTotalsEmpty(d, Fanout(), f);
    } else {
      var front, last := es[..|es| - 1], es[|es| - 1];
      Partition(front, d, f);
      GroupTotalsSnoc(front, last, d, Fanout(), f);
      assert es == front + [last];
    }
  }

  lemma {:induction false} TotalOnes(es: seq<Entry>)
    ensures Total(es, _ => 1) == |es|
  {
    if es != [] {
      TotalOnes(es[..|es| - 1]);
    }
  }

  // ----- How many nodes

  /** The halves of the group sizes below `b`: each subtrie needs at least two entries. */
  function Halves(es: seq<Entry>, d: nat, b: nat): nat
    requires d < 8 && b <= Fanout()
  {
    if b == 0 then 0 else Halves(es, d, b - 1) + |Group(es, d, b - 1)| / 2
  }

  lemma {:induction false} HalvesOfTotals(es: seq<Entry>, d: nat, b: nat)
    requires d < 8 && b <= Fanout()
    ensures 2 * Halves(es, d, b) <= GroupTotals(es, d, b, _ => 1)
  {
    if b > 0 {
      HalvesOfTotals(es, d, b - 1);
      TotalOnes(Group(es, d, b - 1));
    }
  }

  lemma {:induction false} HalvesBound(es: seq<Entry>, d: nat)
    requires d < 8
    ensures Halves(es, d, Fanout()) <= |es| / 2
  {
    HalvesOfTotals(es, d, Fanout());
    Partition(es, d, _ => 1);
    TotalOnes(es);
  }

  /** `(7 - d) * h`: room for `h` shards on each level below `d`. */
  function Budget(d: nat, h: nat): nat
    requires d < 8
    decreases 7 - d
  {
    if d == 7 then 0 else Budget(d + 1, h) + h
  }

  lemma {:induction false} BudgetAdds(d: nat, x: nat, y: nat, sum: nat)
    requires d < 8 && sum == x + y
    ensures Budget(d, sum) == Budget(d, x) + Budget(d, y)
    decreases 7 - d
  {
    if d < 7 {
      BudgetAdds(d + 1, x, y, sum);
    }
  }

  lemma {:induction false} BudgetMonotone(d: nat, x: nat, y: nat)
    requires d < 8 && x <= y
    ensures Budget(d, x) <= Budget(d, y)
  {
    BudgetAdds(d, x, y - x, y);
  }

  /** At most `room` more nodes, unless the vector is full. */
  ghost predicate Fits(grown: Result<nat, Error>, start: nat, room: nat) {
    match grown
    case Ok(n) => n <= start + room
    case Err(HashCollision) => true
    case Err(BlockTooLarge) => start + room >= 8 * MAX_FILES
  }

  function Grown<T>(r: Result<(seq<Shard>, T), Error>): Result<nat, Error> {
    match r case Ok((ns, _)) => Ok(|ns|) case Err(e) => Err(e)
  }

  lemma {:induction false} InsertBound(es: seq<Entry>, d: nat, nodes: seq<Shard>)
    requires d < 8
    ensures match Hamt.Insert(es, d, nodes)
            case Ok(ns) => |ns| <= |nodes| + Budget(d, |es| / 2) + 1
            case Err(e) => Fits(Err(e), |nodes|, Budget(d, |es| / 2))
    decreases 8 - d, 2, 0
  {
    FillBound(es, d, Fanout(), nodes);
    HalvesBound(es, d);
    BudgetMonotone(d, Halves(es, d, Fanout()), |es| / 2);
  }

  lemma {:induction false} FillBound(es: seq<Entry>, d: nat, b: nat, nodes: seq<Shard>)
    requires d < 8 && b <= Fanout()
    ensures Fits(Grown(Fill(es, d, b, nodes)), |nodes|, Budget(d, Halves(es, d, b)))
    decreases 8 - d, 1, b
  {
    if b > 0 {
      FillBound(es, d, b - 1, nodes);
      var before, here := Budget(d, Halves(es, d, b - 1)), Budget(d, |Group(es, d, b - 1)| / 2);
      BudgetAdds(d, Halves(es, d, b - 1), |Group(es, d, b - 1)| / 2, Halves(es, d, b));
      match Fill(es, d, b - 1, nodes)
      case Ok((more, links)) =>
        VisitBound(es, d, b - 1, more, links);
        FitsTwice(Grown(Visit(es, d, b - 1, more, links)), |nodes|, before, |more|, here);
      case Err(_) =>
    }
  }

  lemma {:induction false} FitsTwice(grown: Result<nat, Error>, start: nat, before: nat, middle: nat, here: nat)
    requires middle <= start + before && Fits(grown, middle, here)
    ensures Fits(grown, start, before + here)
  {}

  lemma {:induction false} VisitBound(es: seq<Entry>, d: nat, b: byte, nodes: seq<Shard>, links: seq<ShardLink>)
    requires d < 8
    ensures Fits(Grown(Visit(es, d, b, nodes, links)), |nodes|, Budget(d, |Group(es, d, b)| / 2))
    decreases 8 - d, 0, 0
  {
    var g := Group(es, d, b);
    if |g| > 1 && d < 7 {
      InsertBound(g, d + 1, nodes);
    }
  }

  lemma {:induction false} ShardsBound(links: seq<Link>, hash: Bytes -> Hash)
    requires |links| <= MAX_FILES
    ensures match Shards(links, hash)
            case Ok(nodes) => |nodes| <= 1 + 7 * (|links| / 2)
            case Err(e) => e == HashCollision
  {
    InsertBound(Hashed(links, hash), 0, []);
    assert Budget(0, |links| / 2) == 7 * (|links| / 2) by {
      assert Budget(4, |links| / 2) == 3 * (|links| / 2);
    }
  }

  lemma {:induction false} ShardsCollide(links: seq<Link>, hash: Bytes -> Hash)
    requires Shards(links, hash) == Err(HashCollision)
    ensures Twins(Hashed(links, hash), 0)
  {
    CollisionMeansTwins(Hashed(links, hash), 0, []);
  }

  /**
   Up to the manifest cap, `shards` fails exactly when two names share all eight hash bytes; the
   node cap never trips, because there are at most `1 + 7 * (n / 2)` nodes.
   */
  lemma {:induction false} ShardsFailExactlyOnCollision(links: seq<Link>, hash: Bytes -> Hash)
    requires |links| <= MAX_FILES
    ensures Shards(links, hash).Err? <==>
              exists i, j :: 0 <= i < j < |links| && hash(links[i].name) == hash(links[j].name)
    ensures Shards(links, hash).Err? ==> Shards(links, hash).error == HashCollision
    ensures Shards(links, hash).Ok? ==> |Shards(links, hash).value| <= 1 + 7 * (|links| / 2)
  {
    ShardsBound(links, hash);
    match Shards(links, hash)
    case Ok(_) => ShardsApart(links, hash);
    case Err(_) =>
      ShardsCollide(links, hash);
      WholeHashes(links, hash);
  }

  lemma {:induction false} WholeHashes(links: seq<Link>, hash: Bytes -> Hash)
    ensures Twins(Hashed(links, hash), 0) <==>
              exists i, j :: 0 <= i < j < |links| && hash(links[i].name) == hash(links[j].name)
  {
    var es := Hashed(links, hash);
    assert forall i :: 0 <= i < |es| ==> es[i].hash[0..] == hash(links[i].name);
    if Twins(es, 0) {
      var i, j :| 0 <= i < j < |es| && es[i].hash[0..] == es[j].hash[0..];
      assert hash(links[i].name) == hash(links[j].name);
    }
    if i, j :| 0 <= i < j < |links| && hash(links[i].name) == hash(links[j].name) {
      assert es[i].hash[0..] == es[j].hash[0..];
    }
  }

  lemma {:induction false} ShardsApart(links: seq<Link>, hash: Bytes -> Hash)
    requires Shards(links, hash).Ok?
    ensures forall i, j :: 0 <= i < j < |links| ==> hash(links[i].name) != hash(links[j].name)
  {
    ShardsShape(links, hash);
    var nodes := Shards(links, hash).value;
    NoTwins(nodes, |nodes| - 1, 0, Hashed(links, hash));
    WholeHashes(links, hash);
  }

  // ----- Every shard but the root is linked once; every file is linked once

  function LinkWeight(l: ShardLink, w: nat -> nat): nat {
    if l.Child? then w(l.index) else 0
  }

  /** The weights of the shards that `links` refer to. */
  function LinksWeight(links: seq<ShardLink>, w: nat -> nat): nat {
    if links == [] then 0 else LinksWeight(links[..|links| - 1], w) + LinkWeight(links[|links| - 1], w)
  }

  function RefWeight(nodes: seq<Shard>, w: nat -> nat): nat {
    if nodes == [] then 0 else RefWeight(nodes[..|nodes| - 1], w) + LinksWeight(nodes[|nodes| - 1].links, w)
  }

  function RangeWeight(n: nat, w: nat -> nat): nat {
    if n == 0 then 0 else RangeWeight(n - 1, w) + w(n - 1)
  }

  function LinkSize(l: ShardLink): nat {
    if l.File? then l.link.size else 0
  }

  function LinksSize(links: seq<ShardLink>): nat {
    if links == [] then 0 else LinksSize(links[..|links| - 1]) + LinkSize(links[|links| - 1])
  }

  /** The sizes of the files linked from all shards. */
  function FileSizes(nodes: seq<Shard>): nat {
    if nodes == [] then 0 else FileSizes(nodes[..|nodes| - 1]) + LinksSize(nodes[|nodes| - 1].links)
  }

  function SizeOf(e: Entry): nat {
    e.link.size
  }

  lemma {:induction false} LinksSnoc(links: seq<ShardLink>, l: ShardLink, w: nat -> nat)
    ensures LinksWeight(links + [l], w) == LinksWeight(links, w) + LinkWeight(l, w)
    ensures LinksSize(links + [l]) == LinksSize(links) + LinkSize(l)
  {
    assert (links + [l])[..|links|] == links;
  }

  lemma {:induction false} NodesSnoc(nodes: seq<Shard>, n: Shard, w: nat -> nat)
    ensures RefWeight(nodes + [n], w) == RefWeight(nodes, w) + LinksWeight(n.links, w)
    ensures FileSizes(nodes + [n]) == FileSizes(nodes) + LinksSize(n.links)
  {
    assert (nodes + [n])[..|nodes|] == nodes;
  }

  /** From `nodes` to `more`, with `links` still unattached: references and files are accounted for. */
  ghost predicate Balanced(nodes: seq<Shard>, links: seq<ShardLink>, more: seq<Shard>, all: seq<ShardLink>,
                           files: nat, w: nat -> nat) {
    && RefWeight(more, w) + LinksWeight(all, w) + RangeWeight(|nodes|, w)
       == RefWeight(nodes, w) + LinksWeight(links, w) + RangeWeight(|more|, w)
    && FileSizes(more) + LinksSize(all) == FileSizes(nodes) + LinksSize(links) + files
  }

  lemma {:induction false} InsertBalanced(es: seq<Entry>, d: nat, nodes: seq<Shard>, w: nat -> nat)
    requires d <= 8 && Hamt.Insert(es, d, nodes).Ok?
    ensures var ns := Hamt.Insert(es, d, nodes).value;
            Balanced(nodes, [], ns[..|ns| - 1], ns[|ns| - 1].links, Total(es, SizeOf), w)
    decreases 8 - d, 2, 0
  {
    FillBalanced(es, d, Fanout(), nodes, w);
    Partition(es, d, SizeOf);
    var (below, links) := Fill(es, d, Fanout(), nodes).value;
    var ns := Hamt.Insert(es, d, nodes).value;
    assert ns[..|ns| - 1] == below;
    FillShape(es, d, Fanout(), nodes, below, links);
    LinksOkLabelled(below, links, es, d, Fanout(), |below|);
    LabelledIsSorted(links, es, d, Fanout());
    Order.SortKeepsSorted(links, Name);
  }

  lemma {:induction false} FillBalanced(es: seq<Entry>, d: nat, b: nat, nodes: seq<Shard>, w: nat -> nat)
    requires d < 8 && b <= Fanout()
    requires Fill(es, d, b, nodes).Ok?
    ensures var (more, links) := Fill(es, d, b, nodes).value;
            Balanced(nodes, [], more, links, GroupTotals(es, d, b, SizeOf), w)
    decreases 8 - d, 1, b
  {
    if b > 0 {
      FillBalanced(es, d, b - 1, nodes, w);
      var (more, links) := Fill(es, d, b - 1, nodes).value;
      VisitBalanced(es, d, b - 1, more, links, w);
    }
  }

  lemma {:induction false} VisitBalanced(
      es: seq<Entry>, d: nat, b: byte, nodes: seq<Shard>, links: seq<ShardLink>, w: nat -> nat)
    requires d < 8
    requires Visit(es, d, b, nodes, links).Ok?
    ensures var (more, all) := Visit(es, d, b, nodes, links).value;
            Balanced(nodes, links, more, all, Total(Group(es, d, b), SizeOf), w)
    decreases 8 - d, 0, 0
  {
    var g := Group(es, d, b);
    if |g| == 1 {
      FileBalanced(nodes, links, g[0], b, w);
      assert g == [g[0]];
    } else if |g| > 1 {
      var more := Hamt.Insert(g, d + 1, nodes).value;
      assert Visit(es, d, b, nodes, links) == Ok((more, links + [Child(Prefix(b), |more| - 1)]));
      InsertBalanced(g, d + 1, nodes, w);
      ChildBalanced(nodes, links, more, b, Total(g, SizeOf), w);
    }
  }

  lemma {:induction false} FileBalanced(nodes: seq<Shard>, links: seq<ShardLink>, e: Entry, b: byte, w: nat -> nat)
    ensures Balanced(nodes, links, nodes, links + [File(Prefixed(b, e.link))], Total([e], SizeOf), w)
  {
    LinksSnoc(links, File(Prefixed(b, e.link)), w);
    assert [e][..0] == [];
  }

  lemma {:induction false} ChildBalanced(
      nodes: seq<Shard>, links: seq<ShardLink>, more: seq<Shard>, b: byte, files: nat, w: nat -> nat)
    requires more != []
    requires Balanced(nodes, [], more[..|more| - 1], more[|more| - 1].links, files, w)
    ensures Balanced(nodes, links, more, links + [Child(Prefix(b), |more| - 1)], files, w)
  {
    NodesSnoc(more[..|more| - 1], more[|more| - 1], w);
    assert more == more[..|more| - 1] + [more[|more| - 1]];
    LinksSnoc(links, Child(Prefix(b), |more| - 1), w);
  }

  /** For every weighting of the shards: the linked ones are all but the root, each once. */
  lemma {:induction false} ShardsLinkedOnce(links: seq<Link>, hash: Bytes -> Hash, w: nat -> nat)
    requires Shards(links, hash).Ok?
    ensures var nodes := Shards(links, hash).value;
            RefWeight(nodes, w) == RangeWeight(|nodes| - 1, w)
    ensures FileSizes(Shards(links, hash).value) == Total(Hashed(links, hash), SizeOf)
  {
    var nodes := Shards(links, hash).value;
    InsertBalanced(Hashed(links, hash), 0, [], w);
    RootBalanced(nodes, Total(Hashed(links, hash), SizeOf), w);
  }

  lemma {:induction false} RootBalanced(nodes: seq<Shard>, files: nat, w: nat -> nat)
    requires nodes != []
    requires Balanced([], [], nodes[..|nodes| - 1], nodes[|nodes| - 1].links, files, w)
    ensures RefWeight(nodes, w) == RangeWeight(|nodes| - 1, w)
    ensures FileSizes(nodes) == files
  {
    NodesSnoc(nodes[..|nodes| - 1], nodes[|nodes| - 1], w);
    assert nodes == nodes[..|nodes| - 1] + [nodes[|nodes| - 1]];
  }

  // ----- Children come first

  ghost predicate TidyLink(l: ShardLink, below: nat) {
    match l
    case File(link) => |link.name| > 2
    case Child(prefix, index) => |prefix| == 2 && index < below
  }

  ghost predicate TidyLinks(links: seq<ShardLink>, below: nat) {
    forall k :: 0 <= k < |links| ==> TidyLink(links[k], below)
  }

  /** Every child index is smaller than its parent's, no file link looks like a child link, links are in order. */
  ghost predicate Tidy(nodes: seq<Shard>) {
    forall i :: 0 <= i < |nodes| ==>
      TidyLinks(nodes[i].links, i) && |nodes[i].bitmap| <= 32 && Order.Sorted(nodes[i].links, Name)
  }

  ghost predicate Named(es: seq<Entry>) {
    forall e :: e in es ==> e.link.name != []
  }

  lemma {:induction false} InsertTidy(es: seq<Entry>, d: nat, nodes: seq<Shard>)
    requires d <= 8 && Named(es) && Tidy(nodes) && Hamt.Insert(es, d, nodes).Ok?
    ensures Tidy(Hamt.Insert(es, d, nodes).value)
    decreases 8 - d, 2, 0
  {
    FillTidy(es, d, Fanout(), nodes);
    var (below, links) := Fill(es, d, Fanout(), nodes).value;
    FillShape(es, d, Fanout(), nodes, below, links);
    LinksOkLabelled(below, links, es, d, Fanout(), |below|);
    LabelledIsSorted(links, es, d, Fanout());
    Order.SortKeepsSorted(links, Name);
  }

  lemma {:induction false} FillTidy(es: seq<Entry>, d: nat, b: nat, nodes: seq<Shard>)
    requires d < 8 && b <= Fanout() && Named(es) && Tidy(nodes) && Fill(es, d, b, nodes).Ok?
    ensures var (more, links) := Fill(es, d, b, nodes).value;
            Tidy(more) && TidyLinks(links, |more|)
    decreases 8 - d, 1, b
  {
    if b > 0 {
      FillTidy(es, d, b - 1, nodes);
      var (more, links) := Fill(es, d, b - 1, nodes).value;
      VisitTidy(es, d, b - 1, more, links);
    }
  }

  lemma {:induction false} VisitTidy(es: seq<Entry>, d: nat, b: byte, nodes: seq<Shard>, links: seq<ShardLink>)
    requires d < 8 && Named(es) && Tidy(nodes) && TidyLinks(links, |nodes|) && Visit(es, d, b, nodes, links).Ok?
    ensures var (more, all) := Visit(es, d, b, nodes, links).value;
            Tidy(more) && TidyLinks(all, |more|)
    decreases 8 - d, 0, 0
  {
    var g := Group(es, d, b);
    GroupMembers(es, d, b);
    if |g| == 1 {
      assert g[0] in g;
    } else if |g| > 1 {
      InsertTidy(g, d + 1, nodes);
    }
  }

  lemma {:induction false} ShardsTidy(links: seq<Link>, hash: Bytes -> Hash)
    requires forall l :: l in links ==> l.name != []
    requires Shards(links, hash).Ok?
    ensures Tidy(Shards(links, hash).value)
  {
    InsertTidy(Hashed(links, hash), 0, []);
  }
}
