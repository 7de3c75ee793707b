/** Admission of a flat file manifest: well-formed paths, byte and count limits, no path conflicts. */
module Manifest {
  import opened Prelude
  import opened Dag
  import opened Hamt
  import opened Blocks
  import opened Paths

  const MAX_DEPTH: nat := 64

  datatype File = File(path: Bytes, cid: Bytes)

  datatype Listed = Listed(path: Path, cid: Cid)

  predicate ValidPart(part: Bytes) {
    part != [] && part != [46] && part != [46, 46] && 92 !in part && 0 !in part
  }

  predicate ValidParts(parts: Path) {
    |parts| <= MAX_DEPTH && forall k :: 0 <= k < |parts| ==> ValidPart(parts[k])
  }

  ghost predicate WellFormed(env: Env, f: File) {
    ValidParts(Split(f.path)) && env.parse(f.cid).Some?
  }

  // ----- The directories a manifest implies, and what they cost

  /** The first `n` proper ancestors of `parts`, shortest first, without the root. */
  function Ancestors(parts: Path, n: nat): set<Path>
    requires n <= |parts|
  {
    if n == 0 then {} else Ancestors(parts, n - 1) + {parts[..n]}
  }

  lemma {:induction false} AncestorsExact(parts: Path, n: nat, p: Path)
    requires n <= |parts|
    ensures p in Ancestors(parts, n) <==> 0 < |p| <= n && p <= parts
  {
    if n > 0 {
      AncestorsExact(parts, n - 1, p);
      if |p| == n && p <= parts {
        assert p == parts[..n];
      }
    }
  }

  function Dirs(files: seq<File>): set<Path> {
    if files == [] then {[]}
    else
      var parts := Split(files[|files| - 1].path);
      Dirs(files[..|files| - 1]) + Ancestors(parts, |parts| - 1)
  }

  lemma {:induction false} DirsExact(files: seq<File>, p: Path)
    ensures p in Dirs(files) <==> p == [] || exists i :: 0 <= i < |files| && p < Split(files[i].path)
  {
    if files != [] {
      var front, parts := files[..|files| - 1], Split(files[|files| - 1].path);
      DirsExact(front, p);
      AncestorsExact(parts, |parts| - 1, p);
      assert forall i :: 0 <= i < |front| ==> front[i] == files[i];
      assert p < parts <==> p <= parts && |p| <= |parts| - 1;
    }
  }

  function PartBytes(p: Path): nat {
    if p == [] then 0 else PartBytes(p[..|p| - 1]) + |p[|p| - 1]|
  }

  function DirCost(p: Path): nat {
    PartBytes(p) + |p| * 32 + 128
  }

  /** The cost of the first `n` ancestors that are not yet in `dirs`. */
  function NewCost(dirs: set<Path>, parts: Path, n: nat): nat
    requires n <= |parts|
  {
    if n == 0 then 0
    else NewCost(dirs, parts, n - 1) + if parts[..n] in dirs then 0 else DirCost(parts[..n])
  }

  function UsedBytes(files: seq<File>): nat {
    if files == [] then 0
    else
      var front, f := files[..|files| - 1], files[|files| - 1];
      var parts := Split(f.path);
      UsedBytes(front) + |f.path| + |f.cid| + NewCost(Dirs(front), parts, |parts| - 1)
  }

  ghost predicate WithinLimits(files: seq<File>) {
    |files| <= 10000 && UsedBytes(files) <= 67108864 && |Dirs(files)| <= 10000
  }

  // ----- What the limits count

  /** The bytes of the manifest's own text. */
  function TextBytes(files: seq<File>): nat {
    if files == [] then 0
    else TextBytes(files[..|files| - 1]) + |files[|files| - 1].path| + |files[|files| - 1].cid|
  }

  /** What a directory is charged: its path as text, and 31 bytes a component and 129 more. The root is free. */
  function Charge(p: Path): nat {
    if p == [] then 0 else |Join(p)| + 31 * |p| + 129
  }

  ghost function Charges(dirs: set<Path>): nat {
    if dirs == {} then 0 else var p :| p in dirs; Charge(p) + Charges(dirs - {p})
  }

  lemma {:induction false} ChargesWithout(dirs: set<Path>, p: Path)
    requires p in dirs
    ensures Charges(dirs) == Charge(p) + Charges(dirs - {p})
  {
    var q :| q in dirs && Charges(dirs) == Charge(q) + Charges(dirs - {q});
    if q != p {
      ChargesWithout(dirs - {q}, p);
      ChargesWithout(dirs - {p}, q);
      assert dirs - {q} - {p} == dirs - {p} - {q};
    }
  }

  lemma {:induction false} JoinBytes(p: Path)
    requires p != []
    ensures |Join(p)| == PartBytes(p) + |p| - 1
  {
    if |p| == 1 {
      assert p[..0] == [];
    } else {
      var front, last := p[..|p| - 1], [p[|p| - 1]];
      assert p == front + last;
      JoinBytes(front);
      JoinAppend(front, last);
    }
  }

  lemma {:induction false} NewCostCharges(dirs: set<Path>, parts: Path, n: nat)
    requires n <= |parts|
    ensures Charges(dirs + Ancestors(parts, n)) == Charges(dirs) + NewCost(dirs, parts, n)
  {
    if n == 0 {
      assert dirs + {} == dirs;
    } else {
      var p, before := parts[..n], dirs + Ancestors(parts, n - 1);
      NewCostCharges(dirs, parts, n - 1);
      AncestorsExact(parts, n - 1, p);
      JoinBytes(p);
      assert dirs + Ancestors(parts, n) == before + {p};
      if p in dirs {
        assert before + {p} == before;
      } else {
        ChargesWithout(before + {p}, p);
        assert before + {p} - {p} == before;
      }
    }
  }

  /** The text of the manifest is counted, and every directory once, in whatever order the files come. */
  lemma {:induction false} UsedExactly(files: seq<File>)
    ensures UsedBytes(files) == TextBytes(files) + Charges(Dirs(files))
  {
    if files == [] {
      var root: set<Path> := {[]};
      ChargesWithout(root, []);
      assert root - {[]} == {};
    } else {
      var front, parts := files[..|files| - 1], Split(files[|files| - 1].path);
      UsedExactly(front);
      NewCostCharges(Dirs(front), parts, |parts| - 1);
    }
  }

  function Slashes(s: Bytes): nat {
    if s == [] then 0 else (if s[0] == 47 then 1 else 0) + Slashes(s[1..])
  }

  lemma {:induction false} SplitSlashes(s: Bytes)
    ensures |Split(s)| == Slashes(s) + 1
  {
    if s != [] {
      SplitSlashes(s[1..]);
    }
  }

  ghost predicate SomePartHas(parts: Path, b: byte) {
    exists k :: 0 <= k < |parts| && b in parts[k]
  }

  lemma {:induction false} SplitHas(s: Bytes, b: byte)
    requires b != 47
    ensures b in s <==> SomePartHas(Split(s), b)
  {
    if s != [] {
      var parts, rest := Split(s), Split(s[1..]);
      SplitHas(s[1..], b);
      assert b in s <==> b == s[0] || b in s[1..];
      if s[0] == 47 {
        assert forall k :: 0 < k < |parts| ==> parts[k] == rest[k - 1];
        if k :| 0 <= k < |rest| && b in rest[k] {
          assert b in parts[k + 1];
        }
      } else {
        assert parts[0] == [s[0]] + rest[0] && forall k :: 0 < k < |parts| ==> parts[k] == rest[k];
        assert b in parts[0] <==> b == s[0] || b in rest[0];
        if k :| 0 <= k < |rest| && b in rest[k] {
          assert b in parts[k];
        }
        if k :| 0 <= k < |parts| && b in parts[k] {
          assert k > 0 ==> b in rest[k];
        }
      }
    }
  }

  /** A path is valid exactly if it has at most 63 slashes, no backslash, no zero byte, and no part "", "." or "..". */
  lemma {:induction false} ValidPathExactly(path: Bytes)
    ensures ValidParts(Split(path)) <==>
              && Slashes(path) <= 63 && 92 !in path && 0 !in path
              && forall k :: 0 <= k < |Split(path)| ==> Split(path)[k] !in {[], [46], [46, 46]}
  {
    SplitSlashes(path);
    SplitHas(path, 92);
    SplitHas(path, 0);
  }

  lemma {:induction false} LimitsOfPrefix(files: seq<File>, n: nat)
    requires n <= |files|
    ensures UsedBytes(files[..n]) <= UsedBytes(files) && Dirs(files[..n]) <= Dirs(files)
  {
    if n == |files| {
      assert files[..n] == files;
    } else {
      LimitsOfPrefix(files[..|files| - 1], n);
      assert files[..|files| - 1][..n] == files[..n];
    }
  }

  // ----- What is accepted

  ghost predicate Duplicates(files: seq<File>) {
    exists i, j :: 0 <= i < j < |files| && Split(files[i].path) == Split(files[j].path)
  }

  ghost predicate Nested(files: seq<File>) {
    exists i, j :: 0 <= i < |files| && 0 <= j < |files| && Split(files[i].path) < Split(files[j].path)
  }

  ghost predicate Orderly(env: Env, files: seq<File>) {
    (forall i :: 0 <= i < |files| ==> WellFormed(env, files[i])) && WithinLimits(files)
  }

  function Entries(env: Env, files: seq<File>): (r: seq<Listed>)
    requires forall i :: 0 <= i < |files| ==> env.parse(files[i].cid).Some?
    ensures |r| == |files|
    ensures forall i :: 0 <= i < |r| ==> r[i] == Listed(Split(files[i].path), env.parse(files[i].cid).value)
  {
    seq(|files|, i requires 0 <= i < |files| => Listed(Split(files[i].path), env.parse(files[i].cid).value))
  }

  // ----- The admission loops

  /** The directories and byte count once the first `n` ancestors of `parts` are registered. */
  function Registered(dirs: set<Path>, used: nat, parts: Path, n: nat): (set<Path>, nat)
    requires n <= |parts|
  {
    (dirs + Ancestors(parts, n), used + NewCost(dirs, parts, n))
  }

  predicate Fit(state: (set<Path>, nat)) {
    |state.0| <= MAX_FILES && state.1 <= MAX_MANIFEST_BYTES
  }

  function WithParent(state: (set<Path>, nat), parent: Path): (set<Path>, nat) {
    if parent in state.0 then state else (state.0 + {parent}, state.1 + DirCost(parent))
  }

  /** The first `n` ancestors of `parts`, one after the other. */
  function Folded(state: (set<Path>, nat), parts: Path, n: nat): (set<Path>, nat)
    requires n <= |parts|
  {
    if n == 0 then state else WithParent(Folded(state, parts, n - 1), parts[..n])
  }

  lemma {:induction false} FoldIsRegistered(dirs: set<Path>, used: nat, parts: Path, n: nat)
    requires n <= |parts|
    ensures Folded((dirs, used), parts, n) == Registered(dirs, used, parts, n)
  {
    if n == 0 {
      assert dirs + Ancestors(parts, 0) == dirs;
    } else {
      var more, parent := dirs + Ancestors(parts, n - 1), parts[..n];
      FoldIsRegistered(dirs, used, parts, n - 1);
      AncestorsExact(parts, n - 1, parent);
      assert dirs + Ancestors(parts, n) == more + {parent};
      assert parent in more ==> more + {parent} == more;
    }
  }

  lemma {:induction false} FoldStaysUnfit(state: (set<Path>, nat), parts: Path, n: nat, m: nat)
    requires n <= m <= |parts| && !Fit(Folded(state, parts, n))
    ensures !Fit(Folded(state, parts, m))
    decreases m
  {
    if n < m {
      FoldStaysUnfit(state, parts, n, m - 1);
      SubsetSize(Folded(state, parts, m - 1).0, Folded(state, parts, m).0);
    }
  }

  lemma {:induction false} SubsetSize<T>(a: set<T>, b: set<T>)
    requires a <= b
    ensures |a| <= |b|
  {
    assert b == a + (b - a);
  }

  method AddParent(state: (set<Path>, nat), parent: Path) returns (r: Option<(set<Path>, nat)>)
    requires Fit(state)
    ensures var next := WithParent(state, parent);
            r == if Fit(next) then Some(next) else None
  {
    if parent in state.0 {
      return Some(state);
    }
    assert |state.0 + {parent}| == |state.0| + 1;
    if state.1 + DirCost(parent) > MAX_MANIFEST_BYTES || |state.0| >= MAX_FILES {
      return None;
    }
    r := Some((state.0 + {parent}, state.1 + DirCost(parent)));
  }

  /** Registers the ancestors of one path; none when a limit is exceeded. */
  method Register(dirs: set<Path>, used: nat, parts: Path) returns (r: Option<(set<Path>, nat)>)
    requires parts != [] && Fit((dirs, used))
    ensures var all := Registered(dirs, used, parts, |parts| - 1);
            r == if Fit(all) then Some(all) else None
  {
    FoldIsRegistered(dirs, used, parts, |parts| - 1);
    r := AddParents((dirs, used), parts);
  }

  /** The loop over the proper ancestors, shortest first. */
  method AddParents(start: (set<Path>, nat), parts: Path) returns (r: Option<(set<Path>, nat)>)
    requires parts != [] && Fit(start)
    ensures var all := Folded(start, parts, |parts| - 1);
            r == if Fit(all) then Some(all) else None
  {
    r := Some(start);
    for depth := 1 to |parts|
      invariant r == Some(Folded(start, parts, depth - 1)) && Fit(r.value)
    {
      r := AddParent(r.value, parts[..depth]);
      if r.None? {
        FoldStaysUnfit(start, parts, depth, |parts| - 1);
        return;
      }
    }
  }

  ghost predicate Holds(paths: set<Path>, files: seq<File>) {
    forall p :: p in paths <==> exists i :: 0 <= i < |files| && Split(files[i].path) == p
  }

  /** What the admission loop keeps. */
  datatype Progress = Progress(paths: set<Path>, dirs: set<Path>, used: nat, entries: seq<Listed>)

  /** The files looked at so far are admitted. */
  ghost predicate Admitted(env: Env, files: seq<File>, s: Progress) {
    && Orderly(env, files) && !Duplicates(files) && Holds(s.paths, files)
    && (s.dirs, s.used) == Scanned(files) && s.entries == Entries(env, files)
  }

  /** Directories and bytes of the files looked at so far. */
  function Scanned(files: seq<File>): (set<Path>, nat) {
    (Dirs(files), UsedBytes(files))
  }

  function NextScan(state: (set<Path>, nat), f: File): (set<Path>, nat) {
    var parts := Split(f.path);
    Registered(state.0, state.1 + |f.path| + |f.cid|, parts, |parts| - 1)
  }

  lemma {:induction false} ScannedSnoc(files: seq<File>, f: File)
    ensures Scanned(files + [f]) == NextScan(Scanned(files), f)
  {
    assert (files + [f])[..|files|] == files;
  }

  lemma {:induction false} EntriesSnoc(env: Env, files: seq<File>, f: File)
    requires forall i :: 0 <= i < |files| ==> env.parse(files[i].cid).Some?
    requires env.parse(f.cid).Some?
    ensures Entries(env, files + [f]) == Entries(env, files) + [Listed(Split(f.path), env.parse(f.cid).value)]
  {}

  lemma {:induction false} HoldsSnoc(paths: set<Path>, files: seq<File>, f: File)
    requires Holds(paths, files)
    ensures Holds(paths + {Split(f.path)}, files + [f])
  {
    var all := files + [f];
    forall p
      ensures p in paths + {Split(f.path)} <==> exists i :: 0 <= i < |all| && Split(all[i].path) == p
    {
      if i :| 0 <= i < |all| && Split(all[i].path) == p {
        assert i < |files| ==> all[i] == files[i];
      }
      if i :| 0 <= i < |files| && Split(files[i].path) == p {
        assert all[i] == files[i];
      }
      assert all[|files|] == f;
    }
  }

  lemma {:induction false} NoDuplicatesSnoc(paths: set<Path>, files: seq<File>, f: File)
    requires Holds(paths, files) && !Duplicates(files) && Split(f.path) !in paths
    ensures !Duplicates(files + [f])
  {
    var all := files + [f];
    forall i, j | 0 <= i < j < |all|
      ensures Split(all[i].path) != Split(all[j].path)
    {
      assert all[i] == files[i];
      if j < |files| {
        assert all[j] == files[j];
      } else {
        assert Split(files[i].path) in paths;
      }
    }
  }

  /** One more file taken: its path is new and its cost is in. */
  ghost predicate Takes(env: Env, f: File, s: Progress, t: Progress) {
    var parts, next := Split(f.path), NextScan((s.dirs, s.used), f);
    && WellFormed(env, f) && parts !in s.paths && Fit(next)
    && t == Progress(s.paths + {parts}, next.0, next.1, s.entries + [Listed(parts, env.parse(f.cid).value)])
  }

  lemma {:induction false} AdmittedSnoc(env: Env, files: seq<File>, f: File, s: Progress, t: Progress)
    requires Admitted(env, files, s) && Takes(env, f, s, t) && |files| < MAX_FILES
    ensures Admitted(env, files + [f], t)
  {
    ScannedSnoc(files, f);
    EntriesSnoc(env, files, f);
    HoldsSnoc(s.paths, files, f);
    NoDuplicatesSnoc(s.paths, files, f);
  }

  lemma {:induction false} UnfitMeansDisorder(env: Env, files: seq<File>, i: nat)
    requires i < |files| <= MAX_FILES && !Fit(NextScan(Scanned(files[..i]), files[i]))
    ensures !Orderly(env, files)
  {
    ScannedSnoc(files[..i], files[i]);
    assert files[..i + 1] == files[..i] + [files[i]];
    LimitsOfPrefix(files, i + 1);
    SubsetSize(Dirs(files[..i + 1]), Dirs(files));
  }

  /** One turn of the admission loop, on any state. */
  method AdmitOne(env: Env, f: File, s: Progress) returns (r: Result<Progress, BuildError>)
    requires Fit((s.dirs, s.used))
    ensures match r
            case Ok(t) => Takes(env, f, s, t)
            case Err(InvalidManifest) => !WellFormed(env, f) || !Fit(NextScan((s.dirs, s.used), f))
            case Err(PathConflict) => Split(f.path) in s.paths
            case Err(_) => false
  {
    var parts := Split(f.path);
    if !ValidParts(parts) {
      return Err(InvalidManifest);
    }
    var spent := s.used + |f.path| + |f.cid|;
    if spent > MAX_MANIFEST_BYTES {
      return Err(InvalidManifest);
    }
    var cid := env.parse(f.cid);
    if cid.None? {
      return Err(InvalidManifest);
    }
    if parts in s.paths {
      return Err(PathConflict);
    }
    var registered := Register(s.dirs, spent, parts);
    if registered.None? {
      return Err(InvalidManifest);
    }
    var (dirs, used) := registered.value;
    r := Ok(Progress(s.paths + {parts}, dirs, used, s.entries + [Listed(parts, cid.value)]));
  }

  ghost predicate Blamed(env: Env, files: seq<File>, e: BuildError) {
    (e == InvalidManifest && !Orderly(env, files)) || (e == PathConflict && Duplicates(files))
  }

  /** One turn of the admission loop, in the middle of a manifest. */
  method AdmitNext(env: Env, files: seq<File>, i: nat, s: Progress) returns (r: Result<Progress, BuildError>)
    requires i < |files| <= MAX_FILES && Admitted(env, files[..i], s)
    ensures match r
            case Ok(t) => Admitted(env, files[..i + 1], t)
            case Err(e) => Blamed(env, files, e)
  {
    r := AdmitOne(env, files[i], s);
    if r.Err? {
      Blame(env, files, i, s.paths, r.error);
    } else {
      AdmittedNext(env, files, i, s, r.value);
    }
  }

  lemma {:induction false} AdmittedNext(env: Env, files: seq<File>, i: nat, s: Progress, t: Progress)
    requires i < |files| <= MAX_FILES && Admitted(env, files[..i], s) && Takes(env, files[i], s, t)
    ensures Admitted(env, files[..i + 1], t)
  {
    AdmittedSnoc(env, files[..i], files[i], s, t);
    assert files[..i + 1] == files[..i] + [files[i]];
  }

  /** The admission loop. */
  method AdmitAll(env: Env, files: seq<File>) returns (r: Result<Progress, BuildError>)
    requires |files| <= MAX_FILES
    ensures match r
            case Ok(s) => Admitted(env, files, s)
            case Err(e) => Blamed(env, files, e)
  {
    r := Ok(Progress({}, {[]}, 0, []));
    for i := 0 to |files|
      invariant r.Ok? && Admitted(env, files[..i], r.value)
    {
      r := AdmitNext(env, files, i, r.value);
      if r.Err? {
        return;
      }
    }
    assert files[..|files|] == files;
  }

  /**
   Admission accepts exactly the orderly manifests without duplicate or nested paths, and blames
   a path conflict only on such a pair.
   */
  method Admit(env: Env, files: seq<File>) returns (r: Result<(seq<Listed>, set<Path>), BuildError>)
    ensures r.Ok? <==> Orderly(env, files) && !Duplicates(files) && !Nested(files)
    ensures r.Ok? ==> r.value == (Entries(env, files), Dirs(files))
    ensures r.Err? && Orderly(env, files) ==> r.error == PathConflict
    ensures r == Err(PathConflict) ==> Duplicates(files) || Nested(files)
    ensures r.Err? ==> r.error == PathConflict || r.error == InvalidManifest
  {
    if |files| > MAX_FILES {
      return Err(InvalidManifest);
    }
    var all := AdmitAll(env, files);
    if all.Err? {
      return Err(all.error);
    }
    var s := all.value;
    ConflictIsNested(files, s.paths);
    if exists p :: p in s.paths && p in s.dirs {
      return Err(PathConflict);
    }
    r := Ok((s.entries, s.dirs));
  }

  lemma {:induction false} Blame(env: Env, files: seq<File>, i: nat, paths: set<Path>, e: BuildError)
    requires i < |files| <= MAX_FILES && Holds(paths, files[..i])
    requires e == InvalidManifest || e == PathConflict
    requires e == InvalidManifest ==> !WellFormed(env, files[i]) || !Fit(NextScan(Scanned(files[..i]), files[i]))
    requires e == PathConflict ==> Split(files[i].path) in paths
    ensures Blamed(env, files, e)
  {
    if e == PathConflict {
      FoundTwice(files, i, paths);
    } else if WellFormed(env, files[i]) {
      UnfitMeansDisorder(env, files, i);
    }
  }

  lemma {:induction false} FoundTwice(files: seq<File>, i: nat, paths: set<Path>)
    requires i < |files| && Holds(paths, files[..i]) && Split(files[i].path) in paths
    ensures Duplicates(files)
  {
    var k :| 0 <= k < |files[..i]| && Split(files[..i][k].path) == Split(files[i].path);
    assert Split(files[k].path) == Split(files[i].path);
  }

  lemma {:induction false} ConflictIsNested(files: seq<File>, paths: set<Path>)
    requires Holds(paths, files)
    ensures (exists p :: p in paths && p in Dirs(files)) <==> Nested(files)
  {
    if p :| p in paths && p in Dirs(files) {
      DirsExact(files, p);
      var i :| 0 <= i < |files| && Split(files[i].path) == p;
      var j :| 0 <= j < |files| && p < Split(files[j].path);
    }
    if i, j :| 0 <= i < |files| && 0 <= j < |files| && Split(files[i].path) < Split(files[j].path) {
      DirsExact(files, Split(files[i].path));
      assert Split(files[i].path) in paths;
    }
  }
}
