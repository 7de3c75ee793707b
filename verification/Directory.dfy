/** From an admitted manifest to a DAG of directories, written deepest first. */
module Directory {
  import opened Prelude
  import opened Dag
  import opened Hamt
  import opened HamtShape
  import opened Blocks
  import opened Paths
  import opened Manifest
  import opened Layout
  import Order

  // ----- Resolving paths

  /** Follows `path` from `c`, one component at a time. */
  function Resolve(hash: Bytes -> Hash, c: Cid, path: Path): Option<Cid>
    decreases |path|
  {
    if path == [] then Some(c)
    else
      match StepInto(hash, c, path[0])
      case None => None
      case Some(next) => Resolve(hash, next, path[1..])
  }

  /** Entry `i` lies below directory `d` and on the way to `t`. */
  ghost predicate OnTheWay(entries: seq<Listed>, i: nat, d: Path, t: Path) {
    i < |entries| && d < entries[i].path && entries[i].path <= t
  }

  /** What a reader has: the world outside, and the blocks written. */
  datatype View = View(env: Env, dag: set<Node>)

  function Stored(blocks: seq<Node>): set<Node> {
    set b | b in blocks
  }

  ghost predicate Written(view: View, c: Cid) {
    c.Block? && c.node in view.dag
  }

  /** A link to a written block, with everything below it counted. */
  ghost predicate Sealed(view: View, l: Link) {
    Written(view, l.cid) && l.size == Cumulative(view.env, l.cid.node)
  }

  /** Where the manifest says `t` leads from `d`: into the one file on the way, to a block, or nowhere. */
  ghost predicate Leads(view: View, got: Option<Cid>, entries: seq<Listed>, d: Path, t: Path) {
    && (forall i: nat :: OnTheWay(entries, i, d, t) ==>
          got == Resolve(view.env.hash, entries[i].cid, t[|entries[i].path|..]))
    && ((forall i: nat :: !OnTheWay(entries, i, d, t)) ==>
          (got.Some? <==> IsDir(entries, t)) && (got.Some? ==> Written(view, got.value)))
  }

  /** Below `c`, the path `p` leads where the manifest says `d + p` leads. */
  ghost predicate ServesAt(view: View, c: Cid, entries: seq<Listed>, d: Path, p: Path) {
    Leads(view, Resolve(view.env.hash, c, p), entries, d, d + p)
  }

  ghost predicate Serves(view: View, c: Cid, entries: seq<Listed>, d: Path) {
    forall p: Path {:trigger ServesAt(view, c, entries, d, p)} ::
      p != [] && Proper(p) ==> ServesAt(view, c, entries, d, p)
  }

  // ----- The links of a directory

  /** A link of directory `d`: the file of that name, or a directory that serves everything below it. */
  ghost predicate RightLink(view: View, l: Link, entries: seq<Listed>, d: Path) {
    var q := d + [l.name];
    || (Listed(q, l.cid) in entries && view.env.fileSize(l.cid) == Some(l.size))
    || (IsDir(entries, q) && Sealed(view, l) && Serves(view, l.cid, entries, q))
  }

  ghost predicate RightLinks(view: View, links: seq<Link>, entries: seq<Listed>, d: Path) {
    DistinctNames(links) && forall l :: l in links ==> l.name != [] && RightLink(view, l, entries, d)
  }

  lemma {:induction false} PrefixesComparable(a: Path, b: Path, c: Path)
    requires a <= c && b <= c
    ensures a <= b || b <= a
  {}

  lemma {:induction false} BelowFirst(d: Path, p: Path, f: Path)
    requires p != [] && d < f && (f <= d + p || d + p <= f)
    ensures d + [p[0]] <= f
  {
    assert (d + p)[|d|] == p[0];
  }

  lemma {:induction false} NothingHere(view: View, entries: seq<Listed>, d: Path, p: Path)
    requires p != [] && forall i :: 0 <= i < |entries| ==> !(d + [p[0]] <= entries[i].path)
    ensures Leads(view, None, entries, d, d + p)
  {
    forall i: nat | OnTheWay(entries, i, d, d + p)
      ensures false
    {
      BelowFirst(d, p, entries[i].path);
    }
    if IsDir(entries, d + p) {
      var i :| 0 <= i < |entries| && d + p < entries[i].path;
      BelowFirst(d, p, entries[i].path);
    }
  }

  lemma {:induction false} FileHere(view: View, entries: seq<Listed>, d: Path, p: Path, k: nat)
    requires Sound(entries) && p != [] && k < |entries| && entries[k].path == d + [p[0]]
    ensures Leads(view, Resolve(view.env.hash, entries[k].cid, p[1..]), entries, d, d + p)
  {
    var t := d + p;
    assert t[|d| + 1..] == p[1..];
    assert d + [p[0]] <= t;
    assert OnTheWay(entries, k, d, t);
    forall i: nat | OnTheWay(entries, i, d, t)
      ensures i == k
    {
      PrefixesComparable(entries[i].path, entries[k].path, t);
    }
  }

  /** No file sits where a directory is. */
  lemma {:induction false} DirExactlyHere(view: View, c: Cid, entries: seq<Listed>, d: Path, name: Bytes)
    requires Sound(entries) && IsDir(entries, d + [name]) && Written(view, c)
    ensures Leads(view, Some(c), entries, d, d + [name])
  {
    forall i: nat | OnTheWay(entries, i, d, d + [name])
      ensures false
    {
      NoDirAtFile(entries, i);
    }
  }

  lemma {:induction false} DirHere(view: View, got: Option<Cid>, entries: seq<Listed>, d: Path, p: Path)
    requires Sound(entries) && p != [] && IsDir(entries, d + [p[0]])
    requires Leads(view, got, entries, d + [p[0]], d + p)
    ensures Leads(view, got, entries, d, d + p)
  {
    var q := d + [p[0]];
    forall i: nat
      ensures OnTheWay(entries, i, d, d + p) <==> OnTheWay(entries, i, q, d + p)
    {
      if OnTheWay(entries, i, d, d + p) {
        BelowFirst(d, p, entries[i].path);
        NoDirAtFile(entries, i);
      }
    }
  }

  lemma {:induction false} LinkServesAt(view: View, c: Cid, l: Link, entries: seq<Listed>, d: Path, p: Path)
    requires Sound(entries) && p != [] && Proper(p) && l.name == p[0]
    requires StepInto(view.env.hash, c, p[0]) == Some(l.cid) && RightLink(view, l, entries, d)
    ensures ServesAt(view, c, entries, d, p)
  {
    var q := d + [p[0]];
    if Listed(q, l.cid) in entries {
      var k :| 0 <= k < |entries| && entries[k] == Listed(q, l.cid);
      FileHere(view, entries, d, p, k);
    } else if |p| == 1 {
      assert q == d + p;
      DirExactlyHere(view, l.cid, entries, d, p[0]);
    } else {
      assert q + p[1..] == d + p;
      assert ServesAt(view, l.cid, entries, q, p[1..]);
      DirHere(view, Resolve(view.env.hash, l.cid, p[1..]), entries, d, p);
    }
  }

  /** A directory written from complete and right links serves everything below it. */
  lemma {:induction false} DirectoryServes(view: View, c: Cid, links: seq<Link>, entries: seq<Listed>, d: Path)
    requires Sound(entries) && Lists(view.env.hash, c, links)
    requires RightLinks(view, links, entries, d) && Complete(links, entries, d)
    ensures Serves(view, c, entries, d)
  {
    forall p: Path | p != [] && Proper(p)
      ensures ServesAt(view, c, entries, d, p)
    {
      assert StepInto(view.env.hash, c, p[0]) == CidOf(Find(links, p[0]));
      match Find(links, p[0])
      case None => NoLinkServesAt(view, c, links, entries, d, p);
      case Some(l) => LinkServesAt(view, c, l, entries, d, p);
    }
  }

  lemma {:induction false} NoLinkServesAt(view: View, c: Cid, links: seq<Link>, entries: seq<Listed>, d: Path, p: Path)
    requires p != [] && StepInto(view.env.hash, c, p[0]) == None
    requires Find(links, p[0]) == None && Complete(links, entries, d)
    ensures ServesAt(view, c, entries, d, p)
  {
    forall i | 0 <= i < |entries|
      ensures !(d + [p[0]] <= entries[i].path)
    {
      assert d + [p[0]] <= entries[i].path ==> HasName(links, p[0]);
    }
    NothingHere(view, entries, d, p);
  }

  // ----- Files into their directories

  function ParentOf(path: Path): Path
    requires path != []
  {
    path[..|path| - 1]
  }

  function LastOf(path: Path): Bytes
    requires path != []
  {
    path[|path| - 1]
  }

  /** Sizes are known for every listed CID. */
  ghost predicate Sized(env: Env, entries: seq<Listed>) {
    forall i :: 0 <= i < |entries| ==> env.fileSize(entries[i].cid).Some?
  }

  function FileLink(env: Env, e: Listed): Link
    requires e.path != [] && env.fileSize(e.cid).Some?
  {
    Link(LastOf(e.path), e.cid, env.fileSize(e.cid).value)
  }

  /** The file links of directory `d`, in manifest order. */
  function FileLinks(env: Env, entries: seq<Listed>, d: Path): seq<Link>
    requires Sized(env, entries) && forall i :: 0 <= i < |entries| ==> entries[i].path != []
  {
    if entries == [] then []
    else
      var front, e := entries[..|entries| - 1], entries[|entries| - 1];
      FileLinks(env, front, d) + if ParentOf(e.path) == d then [FileLink(env, e)] else []
  }

  function FileTotal(env: Env, entries: seq<Listed>): nat
    requires Sized(env, entries)
  {
    if entries == [] then 0
    else FileTotal(env, entries[..|entries| - 1]) + env.fileSize(entries[|entries| - 1].cid).value
  }

  // ----- Totals over all pending directories

  ghost function Pending(m: map<Path, seq<Link>>): nat {
    if m == map[] then 0
    else
      var d :| d in m;
      Sizes(m[d]) + Pending(m - {d})
  }

  lemma {:induction false} PendingWithout(m: map<Path, seq<Link>>, d: Path)
    requires d in m
    ensures Pending(m) == Sizes(m[d]) + Pending(m - {d})
    decreases |m|
  {
    var e :| e in m && Pending(m) == Sizes(m[e]) + Pending(m - {e});
    if e != d {
      PendingWithout(m - {e}, d);
      PendingWithout(m - {d}, e);
      assert m - {e} - {d} == m - {d} - {e};
    }
  }

  lemma {:induction false} SizesSnoc(links: seq<Link>, l: Link)
    ensures Sizes(links + [l]) == Sizes(links) + l.size
  {
    assert (links + [l])[..|links|] == links;
  }

  /** Pushing one link adds its size. */
  lemma {:induction false} PendingPush(m: map<Path, seq<Link>>, d: Path, l: Link)
    requires d in m
    ensures Pending(m[d := m[d] + [l]]) == Pending(m) + l.size
  {
    var more := m[d := m[d] + [l]];
    PendingWithout(m, d);
    PendingWithout(more, d);
    SizesSnoc(m[d], l);
    assert more - {d} == m - {d};
  }

  lemma {:induction false} PendingEmpty(m: map<Path, seq<Link>>)
    requires forall d :: d in m ==> m[d] == []
    ensures Pending(m) == 0
    decreases |m|
  {
    if m != map[] {
      var d :| d in m;
      PendingWithout(m, d);
      PendingEmpty(m - {d});
    }
  }

  ghost predicate Placed(entries: seq<Listed>, dirs: set<Path>) {
    forall i :: 0 <= i < |entries| ==> entries[i].path != [] && ParentOf(entries[i].path) in dirs
  }

  /** Every directory holds exactly its file links. */
  ghost predicate Filled(env: Env, entries: seq<Listed>, dirs: set<Path>, m: map<Path, seq<Link>>) {
    && Placed(entries, dirs) && Sized(env, entries) && m.Keys == dirs
    && (forall d :: d in dirs ==> m[d] == FileLinks(env, entries, d))
    && Pending(m) == FileTotal(env, entries)
  }

  /** Every file has a path and a size. */
  ghost predicate Linkable(env: Env, entries: seq<Listed>) {
    Sized(env, entries) && forall i :: 0 <= i < |entries| ==> entries[i].path != []
  }

  lemma {:induction false} LinkableSnoc(env: Env, entries: seq<Listed>, e: Listed, all: seq<Listed>)
    requires Linkable(env, entries) && e.path != [] && env.fileSize(e.cid).Some? && all == entries + [e]
    ensures Linkable(env, all)
    ensures FileTotal(env, all) == FileTotal(env, entries) + env.fileSize(e.cid).value
  {
    assert all[..|all| - 1] == entries && all[|all| - 1] == e;
  }

  lemma {:induction false} FileLinksSnoc(env: Env, entries: seq<Listed>, e: Listed, all: seq<Listed>, d: Path)
    requires Linkable(env, entries) && Linkable(env, all) && e.path != [] && all == entries + [e]
    requires env.fileSize(e.cid).Some?
    ensures FileLinks(env, all, d)
         == FileLinks(env, entries, d) + if ParentOf(e.path) == d then [FileLink(env, e)] else []
  {
    assert all[..|all| - 1] == entries && all[|all| - 1] == e;
  }

  lemma {:induction false} FilledSnoc(
      env: Env, entries: seq<Listed>, e: Listed, dirs: set<Path>, m: map<Path, seq<Link>>)
    requires Filled(env, entries, dirs, m) && e.path != [] && ParentOf(e.path) in dirs && env.fileSize(e.cid).Some?
    ensures Filled(env, entries + [e], dirs, m[ParentOf(e.path) := m[ParentOf(e.path)] + [FileLink(env, e)]])
  {
    var all, p, l := entries + [e], ParentOf(e.path), FileLink(env, e);
    PendingPush(m, p, l);
    LinkableSnoc(env, entries, e, all);
    assert Placed(all, dirs);
    forall d | d in dirs
      ensures m[p := m[p] + [l]][d] == FileLinks(env, all, d)
    {
      FileLinksSnoc(env, entries, e, all, d);
    }
  }

  ghost predicate Remembered(env: Env, sizes: map<Cid, nat>) {
    forall c :: c in sizes ==> env.fileSize(c) == Some(sizes[c])
  }

  /** The size of a file, asked only once. */
  method SizeOnce(env: Env, sizes: map<Cid, nat>, c: Cid) returns (size: Option<nat>, more: map<Cid, nat>)
    requires Remembered(env, sizes)
    ensures size == env.fileSize(c) && Remembered(env, more) && sizes.Keys <= more.Keys
  {
    if c in sizes {
      return Some(sizes[c]), sizes;
    }
    size, more := env.fileSize(c), sizes;
    if size.Some? {
      more := sizes[c := size.value];
    }
  }

  /** Sizes are asked for once per CID. */
  method AddFiles(env: Env, entries: seq<Listed>, dirs: set<Path>) returns (r: Result<map<Path, seq<Link>>, BuildError>)
    requires Placed(entries, dirs)
    ensures r.Ok? <==> Sized(env, entries)
    ensures r.Ok? ==> Filled(env, entries, dirs, r.value)
    ensures r.Err? ==> r.error == KuboFailure
  {
    var directories := map d | d in dirs :: [];
    var sizes: map<Cid, nat> := map[];
    PendingEmpty(directories);
    for i := 0 to |entries|
      invariant Filled(env, entries[..i], dirs, directories) && Remembered(env, sizes)
    {
      var e := entries[i];
      var size;
      size, sizes := SizeOnce(env, sizes, e.cid);
      if size.None? {
        return Err(KuboFailure);
      }
      FilledSnoc(env, entries[..i], e, dirs, directories);
      assert entries[..i + 1] == entries[..i] + [e];
      var parent := ParentOf(e.path);
      directories := directories[parent := directories[parent] + [Link(LastOf(e.path), e.cid, size.value)]];
    }
    assert entries[..|entries|] == entries;
    r := Ok(directories);
  }

  // ----- Directories into their parents

  /** The links of a directory that is still pending: its files, and its finished subdirectories. */
  ghost predicate Ready(
      view: View, entries: seq<Listed>, dirs: set<Path>, pending: set<Path>, links: seq<Link>, d: Path) {
    && RightLinks(view, links, entries, d)
    && (forall l :: l in links ==> d + [l.name] !in pending)
    && (forall i, name :: 0 <= i < |entries| && entries[i].path == d + [name] ==> HasName(links, name))
    && (forall name :: d + [name] in dirs - pending ==> HasName(links, name))
  }

  ghost predicate Known(entries: seq<Listed>, dirs: set<Path>) {
    Sound(entries) && forall p :: p in dirs <==> IsDir(entries, p)
  }

  /** Finished directories are at least as deep as pending ones. */
  ghost predicate DeepestFirst(dirs: set<Path>, pending: set<Path>) {
    pending <= dirs && forall d, e :: d in dirs - pending && e in pending ==> |e| <= |d|
  }

  ghost predicate AllReady(view: View, entries: seq<Listed>, dirs: set<Path>, m: map<Path, seq<Link>>) {
    Known(entries, dirs) && DeepestFirst(dirs, m.Keys) && EachReady(view, entries, dirs, m)
  }

  // -- At first, every directory has its files

  lemma {:induction false} FileLinksRight(env: Env, entries: seq<Listed>, d: Path)
    requires Sized(env, entries) && forall i :: 0 <= i < |entries| ==> entries[i].path != []
    ensures forall l :: l in FileLinks(env, entries, d) ==>
              Listed(d + [l.name], l.cid) in entries && env.fileSize(l.cid) == Some(l.size)
  {
    if entries != [] {
      var front, e := entries[..|entries| - 1], entries[|entries| - 1];
      FileLinksRight(env, front, d);
      assert ParentOf(e.path) + [LastOf(e.path)] == e.path;
      assert e in entries && forall x :: x in front ==> x in entries;
    }
  }

  lemma {:induction false} FileLinksNamed(env: Env, entries: seq<Listed>, d: Path, k: nat)
    requires Sized(env, entries) && forall i :: 0 <= i < |entries| ==> entries[i].path != []
    requires k < |entries| && ParentOf(entries[k].path) == d
    ensures HasName(FileLinks(env, entries, d), LastOf(entries[k].path))
  {
    var front, e := entries[..|entries| - 1], entries[|entries| - 1];
    var links := FileLinks(env, entries, d);
    if k == |entries| - 1 {
      assert FileLink(env, e) in links;
    } else {
      FileLinksNamed(env, front, d, k);
      var l :| l in FileLinks(env, front, d) && l.name == LastOf(entries[k].path);
      assert l in links;
    }
  }

  lemma {:induction false} FileLinksDistinct(env: Env, entries: seq<Listed>, d: Path)
    requires Sound(entries) && Sized(env, entries)
    ensures DistinctNames(FileLinks(env, entries, d))
  {
    if entries != [] {
      var front, e := entries[..|entries| - 1], entries[|entries| - 1];
      assert Sound(front) by {
        assert forall i :: 0 <= i < |front| ==> front[i] == entries[i];
      }
      FileLinksDistinct(env, front, d);
      if ParentOf(e.path) == d {
        NewFileName(env, front, e, d);
      }
    }
  }

  lemma {:induction false} NewFileName(env: Env, front: seq<Listed>, e: Listed, d: Path)
    requires Sound(front + [e]) && Sized(env, front) && e.path != [] && ParentOf(e.path) == d
    requires forall i :: 0 <= i < |front| ==> front[i].path != []
    ensures forall l :: l in FileLinks(env, front, d) ==> l.name != LastOf(e.path)
  {
    FileLinksRight(env, front, d);
    forall l | l in FileLinks(env, front, d)
      ensures l.name != LastOf(e.path)
    {
      var i :| 0 <= i < |front| && front[i] == Listed(d + [l.name], l.cid);
      var all := front + [e];
      assert all[i].path == d + [l.name] && all[|front|] == e;
      assert e.path == d + [LastOf(e.path)];
      assert all[i].path <= all[|front|].path ==> i == |front|;
    }
  }

  lemma {:induction false} FilesReady(view: View, entries: seq<Listed>, dirs: set<Path>, d: Path)
    requires Known(entries, dirs) && Sized(view.env, entries)
    ensures Ready(view, entries, dirs, dirs, FileLinks(view.env, entries, d), d)
  {
    var env := view.env;
    var links := FileLinks(env, entries, d);
    FileLinksRight(env, entries, d);
    FileLinksDistinct(env, entries, d);
    forall l | l in links
      ensures l.name != [] && RightLink(view, l, entries, d) && d + [l.name] !in dirs
    {
      var i :| 0 <= i < |entries| && entries[i] == Listed(d + [l.name], l.cid);
      assert entries[i].path[|d|] == l.name;
      NoDirAtFile(entries, i);
    }
    forall i, name | 0 <= i < |entries| && entries[i].path == d + [name]
      ensures HasName(links, name)
    {
      FileLinksNamed(env, entries, d, i);
    }
  }

  // -- A deepest pending directory is complete

  lemma {:induction false} DeepestComplete(
      view: View, entries: seq<Listed>, dirs: set<Path>, m: map<Path, seq<Link>>, d: Path)
    requires AllReady(view, entries, dirs, m) && d in m && forall e :: e in m ==> |e| <= |d|
    ensures Complete(m[d], entries, d)
  {
    assert Ready(view, entries, dirs, m.Keys, m[d], d);
    forall i, name | 0 <= i < |entries| && d + [name] <= entries[i].path
      ensures HasName(m[d], name)
    {
      if d + [name] != entries[i].path {
        assert IsDir(entries, d + [name]);
        assert d + [name] in dirs - m.Keys;
      }
    }
  }

  // -- Handing a finished directory to its parent keeps the others ready

  lemma {:induction false} ParentPending(dirs: set<Path>, pending: set<Path>, entries: seq<Listed>, d: Path)
    requires Known(entries, dirs) && DeepestFirst(dirs, pending) && d in pending && d != []
    ensures ParentOf(d) in pending && LastOf(d) != [] && ParentOf(d) + [LastOf(d)] == d
  {
    var p := ParentOf(d);
    assert p + [LastOf(d)] == d;
    assert IsDir(entries, d);
    var i :| 0 <= i < |entries| && d < entries[i].path;
    assert p < entries[i].path && IsDir(entries, p);
    assert entries[i].path[|d| - 1] == LastOf(d);
  }

  function HandOver(m: map<Path, seq<Link>>, d: Path, c: Cid, size: nat): map<Path, seq<Link>>
    requires d in m && d != [] && ParentOf(d) in m
  {
    var p := ParentOf(d);
    (m - {d})[p := m[p] + [Link(LastOf(d), c, size)]]
  }

  lemma {:induction false} ParentOfSnoc(e: Path, name: Bytes)
    ensures ParentOf(e + [name]) == e
  {}

  lemma {:induction false} OthersStayReady(view: View, entries: seq<Listed>, dirs: set<Path>, pending: set<Path>,
                                           links: seq<Link>, d: Path, e: Path)
    requires Ready(view, entries, dirs, pending, links, e) && d in pending && d != [] && e != ParentOf(d)
    ensures Ready(view, entries, dirs, pending - {d}, links, e)
  {
    forall name | e + [name] in dirs - (pending - {d})
      ensures HasName(links, name)
    {
      ParentOfSnoc(e, name);
    }
  }

  lemma {:induction false} ParentStaysReady(view: View, entries: seq<Listed>, dirs: set<Path>, pending: set<Path>,
                                            links: seq<Link>, d: Path, l: Link)
    requires d in pending && d != [] && Ready(view, entries, dirs, pending, links, ParentOf(d))
    requires l.name == LastOf(d) != [] && IsDir(entries, d) && Sealed(view, l) && Serves(view, l.cid, entries, d)
    ensures Ready(view, entries, dirs, pending - {d}, links + [l], ParentOf(d))
  {
    var p, all := ParentOf(d), links + [l];
    assert p + [l.name] == d;
    assert l in all && forall x :: x in links ==> x in all;
    assert forall x :: x in links ==> x.name != l.name;
    forall name | HasName(links, name)
      ensures HasName(all, name)
    {
      var x :| x in links && x.name == name;
      assert x in all;
    }
    forall name | p + [name] in dirs - (pending - {d})
      ensures HasName(all, name)
    {
      if p + [name] == d {
        assert (p + [name])[|p|] == name && (p + [l.name])[|p|] == l.name;
      }
    }
    assert RightLink(view, l, entries, p);
  }

  lemma {:induction false} StillReady(view: View, entries: seq<Listed>, dirs: set<Path>, m: map<Path, seq<Link>>,
                                      d: Path, l: Link, e: Path)
    requires d in m && d != [] && ParentOf(d) in m && e in m && e != d
    requires Ready(view, entries, dirs, m.Keys, m[e], e)
    requires l.name == LastOf(d) != [] && IsDir(entries, d) && Sealed(view, l) && Serves(view, l.cid, entries, d)
    ensures Ready(view, entries, dirs, m.Keys - {d}, HandOver(m, d, l.cid, l.size)[e], e)
  {
    if e != ParentOf(d) {
      assert HandOver(m, d, l.cid, l.size)[e] == m[e];
      OthersStayReady(view, entries, dirs, m.Keys, m[e], d, e);
    } else {
      assert HandOver(m, d, l.cid, l.size)[e] == m[e] + [l];
      ParentStaysReady(view, entries, dirs, m.Keys, m[e], d, l);
    }
  }

  lemma {:induction false} StillDeepest(dirs: set<Path>, pending: set<Path>, d: Path)
    requires DeepestFirst(dirs, pending) && d in pending && forall e :: e in pending ==> |e| <= |d|
    ensures DeepestFirst(dirs, pending - {d})
  {}

  ghost predicate EachReady(view: View, entries: seq<Listed>, dirs: set<Path>, m: map<Path, seq<Link>>) {
    forall d {:trigger m[d]} :: d in m ==> Ready(view, entries, dirs, m.Keys, m[d], d)
  }

  /** Handing a deepest directory to its parent leaves every other pending directory ready. */
  lemma {:induction false} HandOverKeepsReady(
      view: View, entries: seq<Listed>, dirs: set<Path>, m: map<Path, seq<Link>>, d: Path, l: Link,
      next: map<Path, seq<Link>>)
    requires EachReady(view, entries, dirs, m) && d in m && d != [] && ParentOf(d) in m
    requires next == HandOver(m, d, l.cid, l.size) && l.name == LastOf(d) != []
    requires IsDir(entries, d) && Sealed(view, l) && Serves(view, l.cid, entries, d)
    ensures EachReady(view, entries, dirs, next)
  {
    var pending := m.Keys - {d};
    HandOverKeys(m, d, l, next);
    forall e | e in next
      ensures Ready(view, entries, dirs, pending, next[e], e)
    {
      StillReady(view, entries, dirs, m, d, l, e);
    }
  }

  lemma {:induction false} HandOverKeys(m: map<Path, seq<Link>>, d: Path, l: Link, next: map<Path, seq<Link>>)
    requires d in m && d != [] && ParentOf(d) in m && next == HandOver(m, d, l.cid, l.size)
    ensures next.Keys == m.Keys - {d}
  {}

  // ----- The build

  lemma {:induction false} DeepestExists(m: map<Path, seq<Link>>) returns (d: Path)
    requires m != map[]
    ensures d in m && forall e :: e in m ==> |e| <= |d|
    decreases |m|
  {
    d :| d in m;
    var rest := m - {d};
    if rest != map[] {
      var e := DeepestExists(rest);
      if |e| > |d| {
        d := e;
      }
    }
  }

  /** One directory is written and its link handed to its parent. */
  lemma {:induction false} PendingHandOver(m: map<Path, seq<Link>>, d: Path, c: Cid, extra: nat)
    requires d in m && d != [] && ParentOf(d) in m
    ensures Pending(HandOver(m, d, c, Sizes(m[d]) + extra)) == Pending(m) + extra
  {
    var p := ParentOf(d);
    var rest := m - {d};
    PendingWithout(m, d);
    assert p in rest && rest[p] == m[p];
    PendingPush(rest, p, Link(LastOf(d), c, Sizes(m[d]) + extra));
  }

  lemma {:induction false} BlockLensAppend(env: Env, a: seq<Node>, b: seq<Node>)
    ensures BlockLens(env, a + b) == BlockLens(env, a) + BlockLens(env, b)
  {
    SumAppend(a, b, Lens(env));
  }

  // -- More blocks change nothing for a reader

  ghost predicate Wider(view: View, wider: View) {
    view.env == wider.env && view.dag <= wider.dag
  }

  lemma {:induction false} ServesWider(view: View, wider: View, c: Cid, entries: seq<Listed>, d: Path)
    requires Wider(view, wider) && Serves(view, c, entries, d)
    ensures Serves(wider, c, entries, d)
  {
    forall p: Path | p != [] && Proper(p)
      ensures ServesAt(wider, c, entries, d, p)
    {
      assert ServesAt(view, c, entries, d, p);
    }
  }

  lemma {:induction false} RightLinksWider(view: View, wider: View, links: seq<Link>, entries: seq<Listed>, d: Path)
    requires Wider(view, wider) && RightLinks(view, links, entries, d)
    ensures RightLinks(wider, links, entries, d)
  {
    forall l | l in links
      ensures RightLink(wider, l, entries, d)
    {
      assert RightLink(view, l, entries, d);
      var q := d + [l.name];
      if Serves(view, l.cid, entries, q) {
        ServesWider(view, wider, l.cid, entries, q);
      }
    }
  }

  lemma {:induction false} AllReadyWider(
      view: View, wider: View, entries: seq<Listed>, dirs: set<Path>, m: map<Path, seq<Link>>)
    requires Wider(view, wider) && AllReady(view, entries, dirs, m)
    ensures AllReady(wider, entries, dirs, m)
  {
    forall d | d in m
      ensures Ready(wider, entries, dirs, m.Keys, m[d], d)
    {
      RightLinksWider(view, wider, m[d], entries, d);
    }
  }

  /** The finished root: every path leads where the manifest says, and no byte is lost. */
  ghost predicate Faithful(env: Env, entries: seq<Listed>, root: (Cid, nat), blocks: seq<Node>)
    requires Sized(env, entries)
  {
    && Serves(View(env, Stored(blocks)), root.0, entries, [])
    && root.1 == FileTotal(env, entries) + BlockLens(env, blocks)
    && blocks != [] && root.0 == Block(blocks[|blocks| - 1])
  }

  /** Between two writes: pending directories are ready and their links add up. */
  ghost predicate Underway(env: Env, entries: seq<Listed>, dirs: set<Path>, m: map<Path, seq<Link>>, blocks: seq<Node>)
    requires Sized(env, entries)
  {
    && AllReady(View(env, Stored(blocks)), entries, dirs, m) && [] in m
    && Pending(m) == FileTotal(env, entries) + BlockLens(env, blocks)
  }

  lemma {:induction false} AllReadyStep(view: View, entries: seq<Listed>, dirs: set<Path>, m: map<Path, seq<Link>>,
                                        d: Path, l: Link, next: map<Path, seq<Link>>)
    requires AllReady(view, entries, dirs, m)
    requires d in m && d != [] && (forall e :: e in m ==> |e| <= |d|) && ParentOf(d) in m
    requires l.name == LastOf(d) && Sealed(view, l) && Serves(view, l.cid, entries, d)
    requires next == HandOver(m, d, l.cid, l.size)
    ensures AllReady(view, entries, dirs, next)
  {
    ParentPending(dirs, m.Keys, entries, d);
    assert IsDir(entries, d);
    HandOverKeepsReady(view, entries, dirs, m, d, l, next);
    HandOverKeys(m, d, l, next);
    StillDeepest(dirs, m.Keys, d);
  }

  /** The size of a written directory moves to its parent, its blocks to the log. */
  lemma {:induction false} TotalsStep(
      env: Env, m: map<Path, seq<Link>>, blocks: seq<Node>, d: Path, l: Link, written: seq<Node>)
    requires d in m && d != [] && ParentOf(d) in m && l.size == Sizes(m[d]) + BlockLens(env, written)
    ensures Pending(HandOver(m, d, l.cid, l.size)) + BlockLens(env, blocks)
         == Pending(m) + BlockLens(env, blocks + written)
  {
    var before, extra := BlockLens(env, blocks), BlockLens(env, written);
    BlockLensAppend(env, blocks, written);
    PendingHandOver(m, d, l.cid, extra);
    assert Pending(HandOver(m, d, l.cid, l.size)) == Pending(m) + extra;
    assert BlockLens(env, blocks + written) == before + extra;
  }

  lemma {:induction false} HandOverShrinks(m: map<Path, seq<Link>>, d: Path, l: Link, next: map<Path, seq<Link>>)
    requires d in m && d != [] && ParentOf(d) in m && next == HandOver(m, d, l.cid, l.size) && [] in m
    ensures [] in next && |next| < |m|
  {
    HandOverKeys(m, d, l, next);
    assert |next.Keys| == |next| && |m.Keys| == |m|;
  }

  /** The directory `d` with these links was written: it serves what lies below it, and its size is right. */
  ghost predicate PutOk(
      env: Env, entries: seq<Listed>, links: seq<Link>, blocks: seq<Node>, d: Path, put: (Cid, nat),
      written: seq<Node>) {
    && Serves(View(env, Stored(blocks + written)), put.0, entries, d)
    && put.1 == Sizes(links) + BlockLens(env, written)
    && written != [] && Put(env, written[|written| - 1]) == Ok(put)
  }

  lemma {:induction false} UnderwayEnd(
      env: Env, entries: seq<Listed>, dirs: set<Path>, m: map<Path, seq<Link>>, blocks: seq<Node>, put: (Cid, nat),
      written: seq<Node>)
    requires Sized(env, entries) && Underway(env, entries, dirs, m, blocks)
    requires (forall e :: e in m ==> |e| == 0) && PutOk(env, entries, m[[]], blocks, [], put, written)
    ensures Faithful(env, entries, put, blocks + written)
  {
    RootAlone(m);
    BlockLensAppend(env, blocks, written);
  }

  // ----- Why a manifest cannot be written

  /**
   Some directory cannot be written, for this reason: its links are the right ones for the manifest,
   with the size of every file and of every block below it.
   */
  ghost predicate Unwritable(env: Env, entries: seq<Listed>, blocks: seq<Node>, e: BuildError) {
    exists d: Path, links: seq<Link> :: UnwritableAt(View(env, Stored(blocks)), entries, d, links, e)
  }

  ghost predicate UnwritableAt(view: View, entries: seq<Listed>, d: Path, links: seq<Link>, e: BuildError) {
    && IsDir(entries, d) && RightLinks(view, links, entries, d) && Complete(links, entries, d)
    && CannotWrite(view.env, Order.Sort(links, LinkName), e)
  }

  lemma {:induction false} LinkIsChild(view: View, l: Link, entries: seq<Listed>, d: Path)
    requires RightLink(view, l, entries, d)
    ensures HasChild(entries, d, l.name)
  {
    ChildHere(entries, d, l);
  }

  /** A directory has at most as many links as there are files, since each leads to a different one. */
  lemma {:induction false} LinksBounded(view: View, links: seq<Link>, entries: seq<Listed>, d: Path)
    requires RightLinks(view, links, entries, d)
    ensures |links| <= |entries|
  {
    forall l | l in links
      ensures HasChild(entries, d, l.name)
    {
      LinkIsChild(view, l, entries, d);
    }
    ChildrenBounded(links, entries, d);
  }

  /** A collision is two children of one directory whose names share all eight hash bytes. */
  lemma {:induction false} CollisionMeansSiblings(env: Env, entries: seq<Listed>, blocks: seq<Node>)
    requires Unwritable(env, entries, blocks, Collision)
    ensures exists d: Path, a: Bytes, b: Bytes ::
              a != b && env.hash(a) == env.hash(b) && HasChild(entries, d, a) && HasChild(entries, d, b)
  {
    var view := View(env, Stored(blocks));
    var d: Path, links: seq<Link> :| UnwritableAt(view, entries, d, links, Collision);
    var a, b := ClashingLinks(env.hash, links);
    LinkIsChild(view, a, entries, d);
    LinkIsChild(view, b, entries, d);
  }

  // ----- The directories written so far, as an assignment

  ghost predicate AllPoint(env: Env, entries: seq<Listed>, done: Assignment, m: map<Path, seq<Link>>) {
    forall d, l :: d in m && l in m[d] ==> Points(env, entries, done, d, l)
  }

  /** Every directory is pending or assigned, and pending links point to files or to what was assigned. */
  ghost predicate Traced(
      env: Env, entries: seq<Listed>, dirs: set<Path>, m: map<Path, seq<Link>>, done: Assignment) {
    && (forall p :: p in dirs ==> p in m || p in done) && (forall p :: p in done ==> p !in m)
    && Assigned(env, entries, done) && AllPoint(env, entries, done, m)
  }

  lemma {:induction false} StartTraced(env: Env, entries: seq<Listed>, dirs: set<Path>, m: map<Path, seq<Link>>)
    requires Known(entries, dirs) && Filled(env, entries, dirs, m)
    ensures Traced(env, entries, dirs, m, map[])
  {
    forall d, l | d in m && l in m[d]
      ensures Points(env, entries, map[], d, l)
    {
      FileLinksRight(env, entries, d);
    }
  }

  lemma {:induction false} HandOverPoints(
      env: Env, entries: seq<Listed>, done: Assignment, m: map<Path, seq<Link>>, d: Path, put: (Cid, nat))
    requires AllPoint(env, entries, done, m) && d in m && d != [] && ParentOf(d) in m && d !in done
    requires IsDir(entries, d)
    ensures AllPoint(env, entries, done[d := put], HandOver(m, d, put.0, put.1))
  {
    var next, p := HandOver(m, d, put.0, put.1), ParentOf(d);
    assert p + [LastOf(d)] == d;
    forall e, l | e in next && l in next[e]
      ensures Points(env, entries, done[d := put], e, l)
    {
      if l in m[e] {
        assert Points(env, entries, done, e, l);
      }
    }
  }

  /** A deepest pending directory has the links of the manifest. */
  lemma {:induction false} PendingLinks(
      env: Env, view: View, entries: seq<Listed>, dirs: set<Path>, m: map<Path, seq<Link>>, done: Assignment, d: Path)
    requires AllReady(view, entries, dirs, m) && Traced(env, entries, dirs, m, done)
    requires d in m && forall e :: e in m ==> |e| <= |d|
    ensures IsDir(entries, d) && LinksOf(env, entries, done, d, m[d])
  {
    assert Ready(view, entries, dirs, m.Keys, m[d], d);
    DeepestComplete(view, entries, dirs, m, d);
  }

  lemma {:induction false} HandOverTraced(
      env: Env, entries: seq<Listed>, dirs: set<Path>, m: map<Path, seq<Link>>, done: Assignment, d: Path,
      put: (Cid, nat))
    requires Traced(env, entries, dirs, m, done) && d in m && d != [] && ParentOf(d) in m && IsDir(entries, d)
    requires Assigned(env, entries, done[d := put])
    ensures Traced(env, entries, dirs, HandOver(m, d, put.0, put.1), done[d := put])
  {
    HandOverPoints(env, entries, done, m, d, put);
    HandOverKeys(m, d, Link(LastOf(d), put.0, put.1), HandOver(m, d, put.0, put.1));
  }

  /** With the root, the assignment is total. */
  lemma {:induction false} RootYields(
      env: Env, entries: seq<Listed>, dirs: set<Path>, m: map<Path, seq<Link>>, done: Assignment, all: Assignment,
      put: (Cid, nat))
    requires Known(entries, dirs) && Traced(env, entries, dirs, m, done) && m.Keys == {[]}
    requires all == done[[] := put] && Assigned(env, entries, all)
    ensures Yields(env, entries, put)
  {
    assert Total(env, entries, all) && all[[]] == put;
  }

  lemma {:induction false} WellMadeAppend(env: Env, a: seq<Node>, b: seq<Node>)
    requires WellMade(env, a) && WellMade(env, b)
    ensures WellMade(env, a + b)
  {
  }

  /** What one write leads to: an error, the finished root, or the remaining directories. */
  datatype Turn = Failed(error: BuildError) | Finish(root: (Cid, nat)) | Remaining(m: map<Path, seq<Link>>)

  /** Between two writes, with the directories written so far. */
  ghost predicate GoingOn(
      env: Env, entries: seq<Listed>, dirs: set<Path>, m: map<Path, seq<Link>>, blocks: seq<Node>, done: Assignment)
    requires Sized(env, entries)
  {
    Underway(env, entries, dirs, m, blocks) && Traced(env, entries, dirs, m, done) && WellMade(env, blocks)
  }

  ghost predicate Succeeds(env: Env, entries: seq<Listed>, root: (Cid, nat), blocks: seq<Node>)
    requires Sized(env, entries)
  {
    Faithful(env, entries, root, blocks) && Yields(env, entries, root) && WellMade(env, blocks)
  }

  ghost predicate Fails(env: Env, entries: seq<Listed>, blocks: seq<Node>, e: BuildError) {
    Unwritable(env, entries, blocks, e) && Stuck(env, entries, e) && (e == TooLarge || e == Collision)
  }

  ghost predicate TurnOk(
      env: Env, entries: seq<Listed>, dirs: set<Path>, t: Turn, blocks: seq<Node>, done: Assignment)
    requires Sized(env, entries)
  {
    match t
    case Failed(e) => Fails(env, entries, blocks, e)
    case Finish(root) => Succeeds(env, entries, root, blocks)
    case Remaining(m) => GoingOn(env, entries, dirs, m, blocks, done)
  }

  /** After a write: with the new blocks, everything pending is still ready. */
  lemma {:induction false} HandedOver(
      env: Env, entries: seq<Listed>, dirs: set<Path>, m: map<Path, seq<Link>>, blocks: seq<Node>, d: Path,
      put: (Cid, nat), written: seq<Node>)
    requires Sized(env, entries) && Underway(env, entries, dirs, m, blocks)
    requires d in m && d != [] && (forall e :: e in m ==> |e| <= |d|)
    requires PutOk(env, entries, m[d], blocks, d, put, written)
    ensures ParentOf(d) in m && |HandOver(m, d, put.0, put.1)| < |m|
    ensures Underway(env, entries, dirs, HandOver(m, d, put.0, put.1), blocks + written)
  {
    ParentPending(dirs, m.Keys, entries, d);
    var l := Link(LastOf(d), put.0, put.1);
    var next := HandOver(m, d, put.0, put.1);
    var view, wider := View(env, Stored(blocks)), View(env, Stored(blocks + written));
    AllReadyWider(view, wider, entries, dirs, m);
    AllReadyStep(wider, entries, dirs, m, d, l, next);
    TotalsStep(env, m, blocks, d, l, written);
    HandOverShrinks(m, d, l, next);
  }

  /** The directory just written joins the assignment. */
  lemma {:induction false} Joins(
      env: Env, entries: seq<Listed>, dirs: set<Path>, m: map<Path, seq<Link>>, done: Assignment, d: Path,
      put: (Cid, nat), all: Assignment)
    requires Traced(env, entries, dirs, m, done) && d in m && IsDir(entries, d) && all == done[d := put]
    requires LinksOf(env, entries, done, d, m[d]) && Writes(env, Order.Sort(m[d], LinkName), put)
    ensures Assigned(env, entries, all)
  {
    AssignedMore(env, entries, done, d, m[d], put, all);
  }

  lemma {:induction false} TurnGoesOn(
      env: Env, entries: seq<Listed>, dirs: set<Path>, m: map<Path, seq<Link>>, blocks: seq<Node>, done: Assignment,
      d: Path, put: (Cid, nat), written: seq<Node>, all: Assignment)
    requires Sized(env, entries) && GoingOn(env, entries, dirs, m, blocks, done) && WellMade(env, written)
    requires d in m && d != [] && forall e :: e in m ==> |e| <= |d|
    requires PutOk(env, entries, m[d], blocks, d, put, written)
    requires all == done[d := put] && Assigned(env, entries, all)
    ensures ParentOf(d) in m && |HandOver(m, d, put.0, put.1)| < |m|
    ensures GoingOn(env, entries, dirs, HandOver(m, d, put.0, put.1), blocks + written, all)
  {
    assert IsDir(entries, d);
    HandedOver(env, entries, dirs, m, blocks, d, put, written);
    HandOverTraced(env, entries, dirs, m, done, d, put);
    WellMadeAppend(env, blocks, written);
  }

  lemma {:induction false} OnlyRoot(m: map<Path, seq<Link>>)
    requires [] in m && forall e :: e in m ==> |e| == 0
    ensures m.Keys == {[]}
  {
  }

  lemma {:induction false} TurnEnds(
      env: Env, entries: seq<Listed>, dirs: set<Path>, m: map<Path, seq<Link>>, blocks: seq<Node>, done: Assignment,
      put: (Cid, nat), written: seq<Node>, all: Assignment)
    requires Sized(env, entries) && GoingOn(env, entries, dirs, m, blocks, done) && WellMade(env, written)
    requires (forall e :: e in m ==> |e| == 0) && PutOk(env, entries, m[[]], blocks, [], put, written)
    requires all == done[[] := put] && Assigned(env, entries, all)
    ensures Succeeds(env, entries, put, blocks + written)
  {
    UnderwayEnd(env, entries, dirs, m, blocks, put, written);
    OnlyRoot(m);
    RootYields(env, entries, dirs, m, done, all, put);
    WellMadeAppend(env, blocks, written);
  }

  lemma {:induction false} TurnFails(
      env: Env, entries: seq<Listed>, blocks: seq<Node>, done: Assignment, d: Path, links: seq<Link>, e: BuildError)
    requires Assigned(env, entries, done) && LinksOf(env, entries, done, d, links)
    requires UnwritableAt(View(env, Stored(blocks)), entries, d, links, e) && (e == TooLarge || e == Collision)
    ensures Fails(env, entries, blocks, e)
  {
    assert StuckAt(env, entries, done, d, links, e);
  }

  /** Writes a deepest pending directory and hands its link to its parent, which is still pending. */
  method WriteOne(env: Env, entries: seq<Listed>, ghost dirs: set<Path>, m: map<Path, seq<Link>>, blocks: seq<Node>,
                  ghost done: Assignment)
    returns (t: Turn, more: seq<Node>, ghost all: Assignment)
    requires Sized(env, entries) && |entries| <= MAX_FILES && GoingOn(env, entries, dirs, m, blocks, done)
    ensures TurnOk(env, entries, dirs, t, more, all) && (t.Remaining? ==> |t.m| < |m|)
  {
    var d := Deepest(m);
    var put, written;
    put, written, all := PutTraced(env, entries, dirs, m, blocks, done, d);
    more := blocks + written;
    if put.Err? {
      t := Failed(put.error);
    } else if d == [] {
      TurnEnds(env, entries, dirs, m, blocks, done, put.value, written, all);
      t := Finish(put.value);
    } else {
      TurnGoesOn(env, entries, dirs, m, blocks, done, d, put.value, written, all);
      t := Remaining(HandOver(m, d, put.value.0, put.value.1));
    }
  }

  /** A deepest pending directory, with what becomes of the assignment. */
  method PutTraced(env: Env, ghost entries: seq<Listed>, ghost dirs: set<Path>, m: map<Path, seq<Link>>,
                   ghost blocks: seq<Node>, ghost done: Assignment, d: Path)
    returns (r: Result<(Cid, nat), BuildError>, written: seq<Node>, ghost all: Assignment)
    requires AllReady(View(env, Stored(blocks)), entries, dirs, m) && |entries| <= MAX_FILES
    requires Traced(env, entries, dirs, m, done) && d in m && forall e :: e in m ==> |e| <= |d|
    ensures r.Ok? ==> PutOk(env, entries, m[d], blocks, d, r.value, written) && WellMade(env, written)
    ensures r.Ok? ==> all == done[d := r.value] && Assigned(env, entries, all)
    ensures r.Err? ==> Fails(env, entries, blocks + written, r.error)
  {
    PendingLinks(env, View(env, Stored(blocks)), entries, dirs, m, done, d);
    r, written := PutPending(env, entries, dirs, m, blocks, d);
    all := done;
    if r.Err? {
      TurnFails(env, entries, blocks + written, done, d, m[d], r.error);
    } else {
      all := done[d := r.value];
      Joins(env, entries, dirs, m, done, d, r.value, all);
    }
  }

  /** Writes the pending directories, deepest first; the root comes last. */
  method WriteAll(env: Env, entries: seq<Listed>, ghost dirs: set<Path>, start: map<Path, seq<Link>>)
    returns (r: Result<(Cid, nat), BuildError>, blocks: seq<Node>)
    requires Sized(env, entries) && |entries| <= MAX_FILES && GoingOn(env, entries, dirs, start, [], map[])
    ensures r.Ok? ==> Succeeds(env, entries, r.value, blocks)
    ensures r.Err? ==> Fails(env, entries, blocks, r.error)
  {
    var t := Remaining(start);
    blocks := [];
    ghost var done: Assignment := map[];
    while t.Remaining?
      invariant TurnOk(env, entries, dirs, t, blocks, done)
      decreases t.Remaining?, if t.Remaining? then |t.m| else 0
    {
      t, blocks, done := WriteOne(env, entries, dirs, t.m, blocks, done);
    }
    r := match t case Failed(e) => Err(e) case Finish(root) => Ok(root);
  }

  /** Any pending directory of the greatest depth. */
  method Deepest(m: map<Path, seq<Link>>) returns (d: Path)
    requires m != map[]
    ensures d in m && forall e :: e in m ==> |e| <= |d|
  {
    ghost var deepest := DeepestExists(m);
    d :| d in m && forall e :: e in m ==> |e| <= |d|;
  }

  lemma {:induction false} RootAlone(m: map<Path, seq<Link>>)
    requires [] in m && forall e :: e in m ==> |e| == 0
    ensures Pending(m) == Sizes(m[[]])
  {
    PendingWithout(m, []);
    assert m - {[]} == map[];
  }

  /** A deepest pending directory has all its links when it is written. */
  method PutPending(env: Env, ghost entries: seq<Listed>, ghost dirs: set<Path>, m: map<Path, seq<Link>>,
                    ghost blocks: seq<Node>, d: Path)
    returns (r: Result<(Cid, nat), BuildError>, written: seq<Node>)
    requires AllReady(View(env, Stored(blocks)), entries, dirs, m) && |entries| <= MAX_FILES
    requires d in m && forall e :: e in m ==> |e| <= |d|
    ensures r.Ok? ==> PutOk(env, entries, m[d], blocks, d, r.value, written)
    ensures r.Ok? ==> Writes(env, Order.Sort(m[d], LinkName), r.value) && WellMade(env, written)
    ensures r.Err? ==> UnwritableAt(View(env, Stored(blocks + written)), entries, d, m[d], r.error)
    ensures r.Err? ==> r.error == TooLarge || r.error == Collision
  {
    ghost var view := View(env, Stored(blocks));
    assert Ready(view, entries, dirs, m.Keys, m[d], d);
    DeepestComplete(view, entries, dirs, m, d);
    LinksBounded(view, m[d], entries, d);
    r, written := PutDirectory(env, m[d]);
    ghost var wider := View(env, Stored(blocks + written));
    RightLinksWider(view, wider, m[d], entries, d);
    if r.Ok? {
      DirectoryServes(wider, r.value.0, m[d], entries, d);
    }
  }

  /** An admitted manifest is sound. */
  lemma {:induction false} AdmittedSound(env: Env, files: seq<File>)
    requires Orderly(env, files) && !Duplicates(files) && !Nested(files)
    ensures Known(Entries(env, files), Dirs(files)) && Placed(Entries(env, files), Dirs(files))
  {
    var entries := Entries(env, files);
    forall i | 0 <= i < |entries|
      ensures entries[i].path != [] && Proper(entries[i].path)
    {
      assert WellFormed(env, files[i]);
    }
    forall i, j | 0 <= i < |entries| && 0 <= j < |entries| && entries[i].path <= entries[j].path
      ensures i == j
    {
      var f, g := Split(files[i].path), Split(files[j].path);
      assert !(f < g);
      assert f == g ==> i == j;
    }
    forall p
      ensures p in Dirs(files) <==> IsDir(entries, p)
    {
      DirsExact(files, p);
    }
    forall i | 0 <= i < |entries|
      ensures ParentOf(entries[i].path) in Dirs(files)
    {
      DirsExact(files, ParentOf(entries[i].path));
    }
  }

  lemma {:induction false} FilledReady(env: Env, entries: seq<Listed>, dirs: set<Path>, m: map<Path, seq<Link>>)
    requires Known(entries, dirs) && Filled(env, entries, dirs, m)
    ensures Underway(env, entries, dirs, m, [])
  {
    assert IsDir(entries, []);
    var view := View(env, Stored([]));
    forall d | d in m
      ensures Ready(view, entries, dirs, m.Keys, m[d], d)
    {
      FilesReady(view, entries, dirs, d);
    }
  }

  /** The directories of an admitted manifest, filled and written. */
  method BuildAdmitted(env: Env, entries: seq<Listed>, dirs: set<Path>)
    returns (r: Result<(Cid, nat), BuildError>, blocks: seq<Node>)
    requires Known(entries, dirs) && Placed(entries, dirs) && |entries| <= MAX_FILES
    ensures r.Ok? ==> Sized(env, entries) && Succeeds(env, entries, r.value, blocks)
    ensures r == Err(KuboFailure) <==> !Sized(env, entries)
    ensures r.Err? && r.error != KuboFailure ==> Fails(env, entries, blocks, r.error)
  {
    var filled := AddFiles(env, entries, dirs);
    if filled.Err? {
      return Err(filled.error), [];
    }
    FilledReady(env, entries, dirs, filled.value);
    StartTraced(env, entries, dirs, filled.value);
    r, blocks := WriteAll(env, entries, dirs, filled.value);
  }

  /** Nothing stands in the way of a root: the manifest is admitted, sizes are known, no directory is stuck. */
  ghost predicate Buildable(env: Env, files: seq<File>) {
    && Orderly(env, files) && !Duplicates(files) && !Nested(files) && Sized(env, Entries(env, files))
    && forall e :: !Stuck(env, Entries(env, files), e)
  }

  lemma {:induction false} YieldsBuildable(env: Env, files: seq<File>, root: (Cid, nat))
    requires Orderly(env, files) && !Duplicates(files) && !Nested(files) && Sized(env, Entries(env, files))
    requires Yields(env, Entries(env, files), root)
    ensures Buildable(env, files)
  {
    AdmittedSound(env, files);
    forall e
      ensures !Stuck(env, Entries(env, files), e)
    {
      YieldsOrStuck(env, Entries(env, files), root, e);
    }
  }

  /**
   Builds the DAG of a manifest. An empty manifest has no root. Otherwise the build succeeds exactly when the
   manifest is orderly and free of conflicts, its sizes are known and every directory can be written; the
   root is then faithful, and the one root of the manifest.
   */
  method Build(env: Env, files: seq<File>) returns (r: Result<Option<(Cid, nat)>, BuildError>, blocks: seq<Node>)
    ensures files == [] ==> r == Ok(None) && blocks == []
    ensures files != [] ==> (r.Ok? <==> Buildable(env, files))
    ensures r.Ok? && files != [] ==>
              r.value.Some? && Succeeds(env, Entries(env, files), r.value.value, blocks)
    ensures r == Err(PathConflict) ==> Duplicates(files) || Nested(files)
    ensures r == Err(InvalidManifest) ==> !Orderly(env, files)
    ensures r == Err(KuboFailure) ==> Orderly(env, files) && !Sized(env, Entries(env, files))
    ensures r == Err(TooLarge) || r == Err(Collision) ==>
              Orderly(env, files) && Fails(env, Entries(env, files), blocks, r.error)
  {
    blocks := [];
    if files == [] {
      return Ok(None), [];
    }
    var admitted := Admit(env, files);
    if admitted.Err? {
      return Err(admitted.error), [];
    }
    var (entries, dirs) := admitted.value;
    AdmittedSound(env, files);
    var root;
    root, blocks := BuildAdmitted(env, entries, dirs);
    if root.Ok? {
      YieldsBuildable(env, files, root.value);
    }
    r := if root.Ok? then Ok(Some(root.value)) else Err(root.error);
  }

  lemma {:induction false} SameEntries(env: Env, files: seq<File>, other: seq<File>, x: Listed)
    requires Orderly(env, files) && Orderly(env, other) && forall f :: f in files <==> f in other
    requires x in Entries(env, files)
    ensures x in Entries(env, other)
  {
    var i :| 0 <= i < |files| && Entries(env, files)[i] == x;
    assert files[i] in other;
    var j :| 0 <= j < |other| && other[j] == files[i];
    assert Entries(env, other)[j] == x;
  }

  /** The root depends on the files alone: not on their order, nor on that of directories of equal depth. */
  lemma {:induction false} FilesDetermineRoot(
      env: Env, files: seq<File>, other: seq<File>, root: (Cid, nat), root': (Cid, nat))
    requires Buildable(env, files) && Orderly(env, other) && forall f :: f in files <==> f in other
    requires Yields(env, Entries(env, files), root) && Yields(env, Entries(env, other), root')
    ensures root == root'
  {
    var a, b := Entries(env, files), Entries(env, other);
    AdmittedSound(env, files);
    forall x
      ensures x in a <==> x in b
    {
      if x in a {
        SameEntries(env, files, other, x);
      }
      if x in b {
        SameEntries(env, other, files, x);
      }
    }
    OrderDoesNotMatter(env, a, b, root');
    RootUnique(env, a, root, root');
  }

  // ----- What a faithful root means for a reader

  /** Every manifest path resolves to its original CID. */
  lemma {:induction false} FilesResolve(env: Env, entries: seq<Listed>, root: (Cid, nat), blocks: seq<Node>, i: nat)
    requires Sound(entries) && Sized(env, entries) && Faithful(env, entries, root, blocks) && i < |entries|
    ensures Resolve(env.hash, root.0, entries[i].path) == Some(entries[i].cid)
  {
    var p := entries[i].path;
    assert [] + p == p;
    assert ServesAt(View(env, Stored(blocks)), root.0, entries, [], p);
    assert OnTheWay(entries, i, [], p);
    assert p[|p|..] == [];
  }

  /** A path that is no file, no directory above one, and not below one resolves to nothing. */
  lemma {:induction false} NothingElseResolves(
      env: Env, entries: seq<Listed>, root: (Cid, nat), blocks: seq<Node>, p: Path)
    requires Sound(entries) && Sized(env, entries) && Faithful(env, entries, root, blocks) && p != [] && Proper(p)
    requires forall i :: 0 <= i < |entries| ==> !(entries[i].path <= p) && !(p < entries[i].path)
    ensures Resolve(env.hash, root.0, p) == None
  {
    assert [] + p == p;
    assert ServesAt(View(env, Stored(blocks)), root.0, entries, [], p);
    assert forall i: nat :: !OnTheWay(entries, i, [], p);
  }

  /** No file lies above a directory. */
  lemma {:induction false} NoFileAbove(entries: seq<Listed>, p: Path)
    requires Sound(entries) && IsDir(entries, p)
    ensures forall j: nat :: !OnTheWay(entries, j, [], p)
  {
    if p != [] {
      var i :| 0 <= i < |entries| && p < entries[i].path;
      forall j: nat | j < |entries|
        ensures !OnTheWay(entries, j, [], p)
      {
        PrefixOfPrefix(entries[j].path, p, entries[i].path);
      }
    }
  }

  lemma {:induction false} PrefixOfPrefix(a: Path, b: Path, c: Path)
    ensures a <= b && b < c ==> a < c
  {
  }

  lemma {:induction false} DirectoryProper(entries: seq<Listed>, p: Path)
    requires Sound(entries) && IsDir(entries, p)
    ensures Proper(p)
  {
    if p != [] {
      var i :| 0 <= i < |entries| && p < entries[i].path;
      assert forall k :: 0 <= k < |p| ==> p[k] == entries[i].path[k];
    }
  }

  /** A directory of the manifest resolves to a block that was written, so no file sits at its path. */
  lemma {:induction false} DirectoriesResolve(
      env: Env, entries: seq<Listed>, root: (Cid, nat), blocks: seq<Node>, p: Path)
    requires Sound(entries) && Sized(env, entries) && Faithful(env, entries, root, blocks) && IsDir(entries, p)
    ensures exists n :: n in blocks && Resolve(env.hash, root.0, p) == Some(Block(n))
  {
    if p != [] {
      NoFileAbove(entries, p);
      DirectoryProper(entries, p);
      assert [] + p == p;
      assert ServesAt(View(env, Stored(blocks)), root.0, entries, [], p);
    }
  }
}
