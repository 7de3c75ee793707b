/**
 What a manifest's directories are, whatever order they are written in: the links of each, the CID and
 size it is written as, and when it cannot be written.
 */
module Layout {
  import opened Prelude
  import opened Dag
  import opened Hamt
  import opened Blocks
  import opened Paths
  import opened Manifest
  import Order

  ghost predicate Proper(path: Path) {
    forall k :: 0 <= k < |path| ==> path[k] != []
  }

  /** Proper, nonempty paths, none of which is a prefix of another. */
  ghost predicate Sound(entries: seq<Listed>) {
    && (forall i :: 0 <= i < |entries| ==> entries[i].path != [] && Proper(entries[i].path))
    && forall i, j :: 0 <= i < |entries| && 0 <= j < |entries| && entries[i].path <= entries[j].path ==> i == j
  }

  ghost predicate IsDir(entries: seq<Listed>, q: Path) {
    q == [] || exists i :: 0 <= i < |entries| && q < entries[i].path
  }

  lemma {:induction false} NoDirAtFile(entries: seq<Listed>, i: nat)
    requires Sound(entries) && i < |entries|
    ensures !IsDir(entries, entries[i].path)
  {
    forall j | 0 <= j < |entries|
      ensures !(entries[i].path < entries[j].path)
    {
      var f, g := entries[i].path, entries[j].path;
      assert f <= g ==> i == j;
    }
  }

  ghost predicate HasName(links: seq<Link>, name: Bytes) {
    exists l :: l in links && l.name == name
  }

  /** Every file or directory directly in `d` has its link. */
  ghost predicate Complete(links: seq<Link>, entries: seq<Listed>, d: Path) {
    forall i, name :: 0 <= i < |entries| && d + [name] <= entries[i].path ==> HasName(links, name)
  }

  /** Something in the manifest lies at or below `d + [name]`. */
  ghost predicate HasChild(entries: seq<Listed>, d: Path, name: Bytes) {
    exists i :: 0 <= i < |entries| && d + [name] <= entries[i].path
  }

  lemma {:induction false} ChildHere(entries: seq<Listed>, d: Path, l: Link)
    requires Listed(d + [l.name], l.cid) in entries || IsDir(entries, d + [l.name])
    ensures HasChild(entries, d, l.name)
  {
    var q := d + [l.name];
    if Listed(q, l.cid) in entries {
      var i :| 0 <= i < |entries| && entries[i] == Listed(q, l.cid);
      assert q <= entries[i].path;
    } else {
      var i :| 0 <= i < |entries| && q < entries[i].path;
      assert q <= entries[i].path;
    }
  }

  /** The entry a child leads to. */
  ghost function EntryOf(entries: seq<Listed>, d: Path, name: Bytes): (i: nat)
    requires HasChild(entries, d, name)
    ensures i < |entries| && |d| < |entries[i].path| && entries[i].path[|d|] == name
  {
    var i :| 0 <= i < |entries| && d + [name] <= entries[i].path;
    assert (d + [name])[|d|] == entries[i].path[|d|];
    i
  }

  lemma {:induction false} ChildrenBounded(links: seq<Link>, entries: seq<Listed>, d: Path)
    requires DistinctNames(links) && forall l :: l in links ==> HasChild(entries, d, l.name)
    ensures |links| <= |entries|
  {
    var at := seq(|links|, k requires 0 <= k < |links| => EntryOf(entries, d, links[k].name));
    assert forall k :: 0 <= k < |at| ==> at[k] < |entries| && entries[at[k]].path[|d|] == links[k].name;
    DistinctBelow(at, |entries|);
  }

  // ----- Directories and what they are written as

  /** The CID and size of some directories. */
  type Assignment = map<Path, (Cid, nat)>

  /** A link of directory `d`: a file of the manifest with its size, or a directory as assigned. */
  ghost predicate Points(env: Env, entries: seq<Listed>, done: Assignment, d: Path, l: Link) {
    var q := d + [l.name];
    || (Listed(q, l.cid) in entries && env.fileSize(l.cid) == Some(l.size))
    || (IsDir(entries, q) && q in done && done[q] == (l.cid, l.size))
  }

  /** The links of directory `d`, each of its children once. */
  ghost predicate LinksOf(env: Env, entries: seq<Listed>, done: Assignment, d: Path, links: seq<Link>) {
    && DistinctNames(links) && Complete(links, entries, d)
    && forall l :: l in links ==> Points(env, entries, done, d, l)
  }

  ghost predicate AssignedBy(env: Env, entries: seq<Listed>, done: Assignment, d: Path, links: seq<Link>)
    requires d in done
  {
    LinksOf(env, entries, done, d, links) && Writes(env, Order.Sort(links, LinkName), done[d])
  }

  /** Every directory in `done` is written from its links as `done` has it. */
  ghost predicate Assigned(env: Env, entries: seq<Listed>, done: Assignment) {
    forall d :: d in done ==> IsDir(entries, d) && exists links :: AssignedBy(env, entries, done, d, links)
  }

  /** All directories are. */
  ghost predicate Total(env: Env, entries: seq<Listed>, done: Assignment) {
    Assigned(env, entries, done) && forall p :: IsDir(entries, p) ==> p in done
  }

  /** The manifest's root is written as `root`. */
  ghost predicate Yields(env: Env, entries: seq<Listed>, root: (Cid, nat)) {
    exists done :: Total(env, entries, done) && done[[]] == root
  }

  /** Some directory cannot be written, for this reason, although every directory below it was. */
  ghost predicate Stuck(env: Env, entries: seq<Listed>, e: BuildError) {
    exists done: Assignment, d: Path, links: seq<Link> :: StuckAt(env, entries, done, d, links, e)
  }

  ghost predicate StuckAt(
      env: Env, entries: seq<Listed>, done: Assignment, d: Path, links: seq<Link>, e: BuildError) {
    && Assigned(env, entries, done) && IsDir(entries, d) && LinksOf(env, entries, done, d, links)
    && CannotWrite(env, Order.Sort(links, LinkName), e)
  }

  /** The links of `e` stay what they are when another directory is assigned. */
  lemma {:induction false} LinksOfMore(
      env: Env, entries: seq<Listed>, done: Assignment, d: Path, put: (Cid, nat), e: Path, links: seq<Link>)
    requires LinksOf(env, entries, done, e, links) && d !in done
    ensures LinksOf(env, entries, done[d := put], e, links)
  {
    forall l | l in links
      ensures Points(env, entries, done[d := put], e, l)
    {
      assert Points(env, entries, done, e, l);
    }
  }

  lemma {:induction false} AssignedByMore(
      env: Env, entries: seq<Listed>, done: Assignment, d: Path, put: (Cid, nat), more: Assignment, e: Path)
    requires d !in done && e in done && more == done[d := put]
    requires exists links :: AssignedBy(env, entries, done, e, links)
    ensures exists links :: AssignedBy(env, entries, more, e, links)
  {
    var links :| AssignedBy(env, entries, done, e, links);
    LinksOfMore(env, entries, done, d, put, e, links);
    assert AssignedBy(env, entries, more, e, links);
  }

  /** One more directory leaves the others as they were. */
  lemma {:induction false} AssignedMore(
      env: Env, entries: seq<Listed>, done: Assignment, d: Path, links: seq<Link>, put: (Cid, nat), more: Assignment)
    requires Assigned(env, entries, done) && d !in done && IsDir(entries, d) && more == done[d := put]
    requires LinksOf(env, entries, done, d, links) && Writes(env, Order.Sort(links, LinkName), put)
    ensures Assigned(env, entries, more)
  {
    forall e | e in more
      ensures IsDir(entries, e) && exists links :: AssignedBy(env, entries, more, e, links)
    {
      if e == d {
        LinksOfMore(env, entries, done, d, put, d, links);
        assert AssignedBy(env, entries, more, d, links);
      } else {
        AssignedByMore(env, entries, done, d, put, more, e);
      }
    }
  }

  // ----- Assignments agree

  lemma {:induction false} PointIsChild(env: Env, entries: seq<Listed>, done: Assignment, d: Path, l: Link)
    requires Points(env, entries, done, d, l)
    ensures HasChild(entries, d, l.name)
  {
    ChildHere(entries, d, l);
  }

  /** A path is either one file or a directory. */
  lemma {:induction false} OneFile(entries: seq<Listed>, q: Path, a: Cid, b: Cid)
    requires Sound(entries) && Listed(q, a) in entries
    ensures !IsDir(entries, q) && (Listed(q, b) in entries ==> a == b)
  {
    var i :| 0 <= i < |entries| && entries[i] == Listed(q, a);
    NoDirAtFile(entries, i);
  }

  /** The assignments agree on the directories directly in `d`. */
  ghost predicate AgreeBelow(done: Assignment, other: Assignment, d: Path) {
    forall name :: d + [name] in done && d + [name] in other ==> done[d + [name]] == other[d + [name]]
  }

  lemma {:induction false} SamePoint(
      env: Env, entries: seq<Listed>, done: Assignment, other: Assignment, d: Path, l: Link, k: Link)
    requires Sound(entries) && l.name == k.name && AgreeBelow(done, other, d)
    requires Points(env, entries, done, d, l) && Points(env, entries, other, d, k)
    ensures l == k
  {
    var q := d + [l.name];
    if Listed(q, l.cid) in entries {
      OneFile(entries, q, l.cid, k.cid);
    } else if Listed(q, k.cid) in entries {
      OneFile(entries, q, k.cid, l.cid);
    }
  }

  lemma {:induction false} Included(
      env: Env, entries: seq<Listed>, done: Assignment, other: Assignment, d: Path, links: seq<Link>,
      others: seq<Link>, l: Link)
    requires Sound(entries) && AgreeBelow(done, other, d)
    requires LinksOf(env, entries, done, d, links) && LinksOf(env, entries, other, d, others) && l in links
    ensures l in others
  {
    PointIsChild(env, entries, done, d, l);
    assert HasName(others, l.name);
    var k :| k in others && k.name == l.name;
    SamePoint(env, entries, done, other, d, l, k);
  }

  /** So do then the sorted links of `d`. */
  lemma {:induction false} SameLinks(
      env: Env, entries: seq<Listed>, done: Assignment, other: Assignment, d: Path, links: seq<Link>,
      others: seq<Link>)
    requires Sound(entries) && AgreeBelow(done, other, d)
    requires LinksOf(env, entries, done, d, links) && LinksOf(env, entries, other, d, others)
    ensures Order.Sort(links, LinkName) == Order.Sort(others, LinkName)
  {
    forall l
      ensures l in links <==> l in others
    {
      if l in links {
        Included(env, entries, done, other, d, links, others, l);
      }
      if l in others {
        Included(env, entries, other, done, d, others, links, l);
      }
    }
    SortsAlike(links, others);
  }

  ghost predicate Shallow(entries: seq<Listed>, bound: nat) {
    forall i :: 0 <= i < |entries| ==> |entries[i].path| <= bound
  }

  lemma {:induction false} DepthBound(entries: seq<Listed>) returns (bound: nat)
    ensures Shallow(entries, bound)
  {
    bound := 0;
    if entries != [] {
      var front, last := entries[..|entries| - 1], entries[|entries| - 1];
      bound := DepthBound(front);
      assert forall i :: 0 <= i < |front| ==> entries[i] == front[i];
      bound := if |last.path| > bound then |last.path| else bound;
    }
  }

  lemma {:induction false} DirShallow(entries: seq<Listed>, bound: nat, q: Path)
    requires Shallow(entries, bound) && IsDir(entries, q)
    ensures |q| <= bound
  {
  }

  /** If they agree below `d`, two assignments agree on `d`. */
  lemma {:induction false} AgreeHere(
      env: Env, entries: seq<Listed>, done: Assignment, other: Assignment, d: Path)
    requires Sound(entries) && Assigned(env, entries, done) && Assigned(env, entries, other)
    requires AgreeBelow(done, other, d) && d in done && d in other
    ensures done[d] == other[d]
  {
    var links :| AssignedBy(env, entries, done, d, links);
    var others :| AssignedBy(env, entries, other, d, others);
    SameLinks(env, entries, done, other, d, links, others);
    WritesUnique(env, Order.Sort(links, LinkName), done[d], other[d]);
  }

  /** Two assignments agree wherever both are defined: the deeper directories first. */
  lemma {:induction false} AssignmentsAgree(
      env: Env, entries: seq<Listed>, done: Assignment, other: Assignment, d: Path, bound: nat)
    requires Sound(entries) && Assigned(env, entries, done) && Assigned(env, entries, other)
    requires Shallow(entries, bound) && d in done && d in other && |d| <= bound
    ensures done[d] == other[d]
    decreases bound - |d|
  {
    forall name | d + [name] in done && d + [name] in other
      ensures done[d + [name]] == other[d + [name]]
    {
      DirShallow(entries, bound, d + [name]);
      AssignmentsAgree(env, entries, done, other, d + [name], bound);
    }
    AgreeHere(env, entries, done, other, d);
  }

  lemma {:induction false} AgreeAt(
      env: Env, entries: seq<Listed>, done: Assignment, other: Assignment, bound: nat, q: Path)
    requires Sound(entries) && Assigned(env, entries, done) && Assigned(env, entries, other)
    requires Shallow(entries, bound) && q in done && q in other
    ensures done[q] == other[q]
  {
    DirShallow(entries, bound, q);
    AssignmentsAgree(env, entries, done, other, q, bound);
  }

  lemma {:induction false} AllAgreeBelow(
      env: Env, entries: seq<Listed>, done: Assignment, other: Assignment, d: Path)
    requires Sound(entries) && Assigned(env, entries, done) && Assigned(env, entries, other)
    ensures AgreeBelow(done, other, d)
  {
    var bound := DepthBound(entries);
    forall name | d + [name] in done && d + [name] in other
      ensures done[d + [name]] == other[d + [name]]
    {
      AgreeAt(env, entries, done, other, bound, d + [name]);
    }
  }

  lemma {:induction false} TotalsAgree(env: Env, entries: seq<Listed>, a: Assignment, b: Assignment)
    requires Sound(entries) && Total(env, entries, a) && Total(env, entries, b)
    ensures a[[]] == b[[]]
  {
    var bound := DepthBound(entries);
    AgreeAt(env, entries, a, b, bound, []);
  }

  /** The root is determined by the manifest. */
  lemma {:induction false} RootUnique(env: Env, entries: seq<Listed>, root: (Cid, nat), other: (Cid, nat))
    requires Sound(entries) && Yields(env, entries, root) && Yields(env, entries, other)
    ensures root == other
  {
    var a :| Total(env, entries, a) && a[[]] == root;
    var b :| Total(env, entries, b) && b[[]] == other;
    TotalsAgree(env, entries, a, b);
  }

  /** Where all directories are written, none is stuck. */
  lemma {:induction false} YieldsOrStuck(env: Env, entries: seq<Listed>, root: (Cid, nat), e: BuildError)
    requires Sound(entries) && |entries| <= MAX_FILES && Yields(env, entries, root)
    ensures !Stuck(env, entries, e)
  {
    var full :| Total(env, entries, full) && full[[]] == root;
    forall done: Assignment, d: Path, links: seq<Link>
      ensures !StuckAt(env, entries, done, d, links, e)
    {
      if StuckAt(env, entries, done, d, links, e) {
        NotStuck(env, entries, full, done, d, links, e);
      }
    }
  }

  lemma {:induction false} NotStuck(
      env: Env, entries: seq<Listed>, full: Assignment, done: Assignment, d: Path, links: seq<Link>, e: BuildError)
    requires Sound(entries) && |entries| <= MAX_FILES && Total(env, entries, full)
    requires Assigned(env, entries, done) && IsDir(entries, d) && LinksOf(env, entries, done, d, links)
    ensures !CannotWrite(env, Order.Sort(links, LinkName), e)
  {
    var others :| AssignedBy(env, entries, full, d, others);
    AllAgreeBelow(env, entries, done, full, d);
    SameLinks(env, entries, done, full, d, links, others);
    forall l | l in links
      ensures HasChild(entries, d, l.name)
    {
      PointIsChild(env, entries, done, d, l);
    }
    ChildrenBounded(links, entries, d);
    assert |Order.Sort(links, LinkName)| == |links| by {
      assert |multiset(Order.Sort(links, LinkName))| == |multiset(links)|;
    }
    WritesOrCannot(env, Order.Sort(links, LinkName), full[d], e);
  }

  // ----- The order of the manifest does not matter

  ghost predicate SameFiles(a: seq<Listed>, b: seq<Listed>) {
    forall x :: x in a <==> x in b
  }

  lemma {:induction false} SameDirs(a: seq<Listed>, b: seq<Listed>, q: Path)
    requires SameFiles(a, b) && IsDir(a, q)
    ensures IsDir(b, q)
  {
    if q != [] {
      var i :| 0 <= i < |a| && q < a[i].path;
      assert a[i] in b;
    }
  }

  lemma {:induction false} SameLinksOf(
      env: Env, a: seq<Listed>, b: seq<Listed>, done: Assignment, d: Path, links: seq<Link>)
    requires SameFiles(a, b) && LinksOf(env, a, done, d, links)
    ensures LinksOf(env, b, done, d, links)
  {
    forall i, name | 0 <= i < |b| && d + [name] <= b[i].path
      ensures HasName(links, name)
    {
      assert b[i] in a;
      var j :| 0 <= j < |a| && a[j] == b[i];
      assert d + [name] <= a[j].path;
    }
    forall l | l in links
      ensures Points(env, b, done, d, l)
    {
      if IsDir(a, d + [l.name]) {
        SameDirs(a, b, d + [l.name]);
      }
    }
  }

  lemma {:induction false} SameTotal(env: Env, a: seq<Listed>, b: seq<Listed>, done: Assignment)
    requires SameFiles(a, b) && Total(env, a, done)
    ensures Total(env, b, done)
  {
    forall d | d in done
      ensures IsDir(b, d) && exists links :: AssignedBy(env, b, done, d, links)
    {
      SameDirs(a, b, d);
      var links :| AssignedBy(env, a, done, d, links);
      SameLinksOf(env, a, b, done, d, links);
      assert AssignedBy(env, b, done, d, links);
    }
    forall p | IsDir(b, p)
      ensures p in done
    {
      SameDirs(b, a, p);
    }
  }

  /** Manifests with the same files have the same root. */
  lemma {:induction false} OrderDoesNotMatter(env: Env, a: seq<Listed>, b: seq<Listed>, root: (Cid, nat))
    requires SameFiles(a, b)
    ensures Yields(env, a, root) <==> Yields(env, b, root)
  {
    forall done | Total(env, a, done)
      ensures Total(env, b, done)
    {
      SameTotal(env, a, b, done);
    }
    forall done | Total(env, b, done)
      ensures Total(env, a, done)
    {
      SameTotal(env, b, a, done);
    }
  }
}
