/**
 The publisher's pass over the entries of a mirrored archive: what goes into the root, what is
 reported as failed, and why no root can be built.
 */
module Mirror {
  import opened Prelude
  import opened Paths
  import opened Manifest
  import opened Blocks

  datatype Entry = Entry(path: Bytes, key: Option<Bytes>, cid: Option<Bytes>, size: Option<nat>, code: Option<string>)

  datatype RunError = Fenced | Lost

  datatype RootError = BadManifest | Conflict

  /** A line of the final manifest. */
  datatype Line = Line(path: Bytes, key: Bytes, cid: Bytes, size: nat)

  datatype Pass = Pass(
    files: seq<File>, listed: seq<Line>, failed: seq<(Bytes, string)>, rootError: Option<RootError>)

  predicate Successful(e: Entry) {
    e.key.Some? && e.cid.Some? && e.size.Some?
  }

  predicate KnownCode(code: string) {
    code == "entry_read_failed" || code == "entry_upload_failed" || code == "entry_failed"
  }

  /** An entry that succeeded, or failed with a code that may be shown. */
  ghost predicate Settled(e: Entry) {
    Successful(e) || e.code in {Some("entry_read_failed"), Some("entry_upload_failed"), Some("entry_failed")}
  }

  function FileOf(e: Entry): seq<File> {
    if Successful(e) then [File(e.path, e.cid.value)] else []
  }

  function ListedOf(e: Entry): seq<Line> {
    if Successful(e) then [Line(e.path, e.key.value, e.cid.value, e.size.value)] else []
  }

  function AllListed(entries: seq<Entry>): seq<Line> {
    if entries == [] then [] else AllListed(entries[..|entries| - 1]) + ListedOf(entries[|entries| - 1])
  }

  function FilesOf(entries: seq<Entry>): seq<File> {
    if entries == [] then [] else FilesOf(entries[..|entries| - 1]) + FileOf(entries[|entries| - 1])
  }

  function FailureOf(e: Entry): seq<(Bytes, string)> {
    if Successful(e) || e.code.None? then [] else [(e.path, e.code.value)]
  }

  function FailuresOf(entries: seq<Entry>): seq<(Bytes, string)> {
    if entries == [] then [] else FailuresOf(entries[..|entries| - 1]) + FailureOf(entries[|entries| - 1])
  }

  predicate WrongKey(prefix: Bytes, e: Entry) {
    Successful(e) && e.key.value != prefix + e.path
  }

  /** A successful entry lies below an entry that has a key. */
  ghost predicate Shadowed(entries: seq<Entry>, e: Entry) {
    Successful(e) && exists i :: 0 <= i < |entries| && entries[i].key.Some? && Split(entries[i].path) < Split(e.path)
  }

  /** Why no root is built, once the entries in `seen` were looked at: a wrong key outweighs a conflict. */
  ghost predicate Blames(prefix: Bytes, entries: seq<Entry>, seen: seq<Entry>, r: Option<RootError>) {
    && (r == Some(BadManifest) <==> exists e :: e in seen && WrongKey(prefix, e))
    && (r == Some(Conflict) <==>
        (forall e :: e in seen ==> !WrongKey(prefix, e)) && exists e :: e in seen && Shadowed(entries, e))
  }

  /** The paths with a key. */
  function Keyed(entries: seq<Entry>): set<Bytes> {
    set i | 0 <= i < |entries| && entries[i].key.Some? :: entries[i].path
  }

  /** One entry's part in the blame. */
  method Judge(prefix: Bytes, entries: seq<Entry>, e: Entry, was: Option<RootError>) returns (r: Option<RootError>)
    requires Successful(e)
    ensures WrongKey(prefix, e) ==> r == Some(BadManifest)
    ensures !WrongKey(prefix, e) && was == None && Shadowed(entries, e) ==> r == Some(Conflict)
    ensures !WrongKey(prefix, e) && (was != None || !Shadowed(entries, e)) ==> r == was
  {
    var below := CutIsListed(Keyed(entries), e.path);
    assert below <==> Shadowed(entries, e) by {
      if Shadowed(entries, e) {
        var i :| 0 <= i < |entries| && entries[i].key.Some? && Split(entries[i].path) < Split(e.path);
        assert entries[i].path in Keyed(entries);
      }
    }
    r := was;
    if e.key.value != prefix + e.path {
      r := Some(BadManifest);
    } else if below && was == None {
      r := Some(Conflict);
    }
  }

  lemma {:induction false} BlamesSnoc(
      prefix: Bytes, entries: seq<Entry>, seen: seq<Entry>, e: Entry, was: Option<RootError>, r: Option<RootError>)
    requires Blames(prefix, entries, seen, was)
    requires WrongKey(prefix, e) ==> r == Some(BadManifest)
    requires !WrongKey(prefix, e) && was == None && Shadowed(entries, e) ==> r == Some(Conflict)
    requires !WrongKey(prefix, e) && (was != None || !Shadowed(entries, e)) ==> r == was
    ensures Blames(prefix, entries, seen + [e], r)
  {
    assert forall x :: x in seen + [e] <==> x in seen || x == e;
    assert was.Some? ==> was.value.BadManifest? || was.value.Conflict?;
  }

  /** What was gathered from the entries in `seen`. */
  ghost predicate Gathered(prefix: Bytes, entries: seq<Entry>, seen: seq<Entry>, p: Pass) {
    && (forall e :: e in seen ==> Settled(e))
    && p.files == FilesOf(seen) && p.listed == AllListed(seen) && p.failed == FailuresOf(seen)
    && Blames(prefix, entries, seen, p.rootError)
  }

  /** One entry. */
  method Advance(prefix: Bytes, entries: seq<Entry>, ghost seen: seq<Entry>, e: Entry, p: Pass)
    returns (r: Result<Pass, RunError>)
    requires Gathered(prefix, entries, seen, p)
    ensures r.Ok? <==> Settled(e)
    ensures r.Ok? ==> Gathered(prefix, entries, seen + [e], r.value)
    ensures r.Err? ==> (r.error == Lost <==> e.code.None?) && (r.error == Fenced <==> e.code.Some?)
  {
    ghost var all := seen + [e];
    assert all[..|all| - 1] == seen && all[|all| - 1] == e;
    if Successful(e) {
      var next := Judge(prefix, entries, e, p.rootError);
      BlamesSnoc(prefix, entries, seen, e, p.rootError, next);
      var line := Line(e.path, e.key.value, e.cid.value, e.size.value);
      return Ok(Pass(p.files + [File(e.path, e.cid.value)], p.listed + [line], p.failed, next));
    }
    if e.code.None? {
      return Err(Lost);
    }
    if !KnownCode(e.code.value) {
      return Err(Fenced);
    }
    BlamesSnoc(prefix, entries, seen, e, p.rootError, p.rootError);
    r := Ok(p.(failed := p.failed + [(e.path, e.code.value)]));
  }

  /**
   The pass succeeds exactly when every entry is settled; it stops at the first that is not. The root's
   files are the successful entries, in order, and the root is refused for a wrong key or else a conflict.
   */
  method Scan(prefix: Bytes, entries: seq<Entry>) returns (r: Result<Pass, RunError>)
    ensures r.Ok? <==> forall e :: e in entries ==> Settled(e)
    ensures r.Ok? ==> Gathered(prefix, entries, entries, r.value)
    ensures r.Err? ==>
              exists i :: 0 <= i < |entries| && !Settled(entries[i]) && (r.error == Lost <==> entries[i].code.None?)
                          && forall k :: 0 <= k < i ==> Settled(entries[k])
  {
    r := Ok(Pass([], [], [], None));
    for n := 0 to |entries|
      invariant r.Ok? && Gathered(prefix, entries, entries[..n], r.value)
    {
      assert entries[..n + 1] == entries[..n] + [entries[n]];
      r := Advance(prefix, entries, entries[..n], entries[n], r.value);
      if r.Err? {
        assert forall k :: 0 <= k < n ==> entries[k] in entries[..n];
        return;
      }
    }
    assert entries[..|entries|] == entries;
  }

  // ----- The pass and the builder

  lemma {:induction false} FilesExact(entries: seq<Entry>, f: File)
    ensures f in FilesOf(entries) <==> exists e :: e in entries && Successful(e) && f == File(e.path, e.cid.value)
  {
    if entries != [] {
      var front, last := entries[..|entries| - 1], entries[|entries| - 1];
      FilesExact(front, f);
      assert entries == front + [last];
    }
  }

  lemma {:induction false} ListedExact(entries: seq<Entry>, l: Line)
    ensures l in AllListed(entries) <==>
              exists e :: e in entries && e == Entry(l.path, Some(l.key), Some(l.cid), Some(l.size), e.code)
  {
    if entries != [] {
      var front, last := entries[..|entries| - 1], entries[|entries| - 1];
      ListedExact(front, l);
      assert entries == front + [last];
    }
  }

  lemma {:induction false} FailuresExact(entries: seq<Entry>, path: Bytes, code: string)
    ensures (path, code) in FailuresOf(entries) <==>
              exists e :: e in entries && (e.key.None? || e.cid.None? || e.size.None?) && e.path == path
                          && e.code == Some(code)
  {
    if entries != [] {
      var front, last := entries[..|entries| - 1], entries[|entries| - 1];
      FailuresExact(front, path, code);
      assert entries == front + [last];
    }
  }

  lemma {:induction false} FilesSnoc(entries: seq<Entry>, e: Entry)
    ensures FilesOf(entries + [e]) == FilesOf(entries) + FileOf(e)
    ensures FailuresOf(entries + [e]) == FailuresOf(entries) + FailureOf(e)
    ensures AllListed(entries + [e]) == AllListed(entries) + ListedOf(e)
  {
    var all := entries + [e];
    assert all[..|all| - 1] == entries && all[|all| - 1] == e;
  }

  /** Files and failures come in the order of the entries. */
  lemma {:induction false} GatheredInOrder(a: seq<Entry>, b: seq<Entry>)
    ensures FilesOf(a + b) == FilesOf(a) + FilesOf(b)
    ensures FailuresOf(a + b) == FailuresOf(a) + FailuresOf(b)
    ensures AllListed(a + b) == AllListed(a) + AllListed(b)
  {
    if b == [] {
      assert a + b == a;
    } else {
      var front, last := b[..|b| - 1], b[|b| - 1];
      assert b == front + [last] && a + b == (a + front) + [last];
      GatheredInOrder(a, front);
      FilesSnoc(front, last);
      FilesSnoc(a + front, last);
      Assoc(FilesOf(a), FilesOf(front), FileOf(last));
      Assoc(FailuresOf(a), FailuresOf(front), FailureOf(last));
      Assoc(AllListed(a), AllListed(front), ListedOf(last));
    }
  }

  /** Once all entries are settled, each is a file or a failure. */
  lemma {:induction false} EntriesAccounted(entries: seq<Entry>)
    requires forall e :: e in entries ==> Settled(e)
    ensures |FilesOf(entries)| + |FailuresOf(entries)| == |entries| && |AllListed(entries)| == |FilesOf(entries)|
  {
    if entries != [] {
      assert Settled(entries[|entries| - 1]);
      EntriesAccounted(entries[..|entries| - 1]);
    }
  }

  /** A failed entry with a key lies above a successful one. */
  ghost predicate FailureShadows(entries: seq<Entry>) {
    exists a, b :: a in entries && b in entries && a.key.Some? && !Successful(a) && Successful(b)
                   && Split(a.path) < Split(b.path)
  }

  /**
   The publisher sees a conflict exactly when the builder would, except that it also counts failed
   entries that kept their key.
   */
  lemma {:induction false} ShadowedExactly(entries: seq<Entry>)
    ensures (exists e :: e in entries && Shadowed(entries, e)) <==> Nested(FilesOf(entries)) || FailureShadows(entries)
  {
    var files := FilesOf(entries);
    if e :| e in entries && Shadowed(entries, e) {
      var i :| 0 <= i < |entries| && entries[i].key.Some? && Split(entries[i].path) < Split(e.path);
      if Successful(entries[i]) {
        var f, g := File(entries[i].path, entries[i].cid.value), File(e.path, e.cid.value);
        FilesExact(entries, f);
        FilesExact(entries, g);
        assert f in files && g in files;
      }
    }
    if i, j :| 0 <= i < |files| && 0 <= j < |files| && Split(files[i].path) < Split(files[j].path) {
      FilesExact(entries, files[i]);
      FilesExact(entries, files[j]);
      var a :| a in entries && Successful(a) && files[i] == File(a.path, a.cid.value);
      var b :| b in entries && Successful(b) && files[j] == File(b.path, b.cid.value);
      assert Shadowed(entries, b);
    }
    if a, b :| a in entries && b in entries && a.key.Some? && !Successful(a) && Successful(b)
               && Split(a.path) < Split(b.path) {
      assert Shadowed(entries, b);
    }
  }

  /**
   With right keys, no key on a failed entry, and files that are orderly and distinct, the publisher's
   string scan and the builder's component check agree.
   */
  method ScanAgreesWithAdmission(env: Env, prefix: Bytes, entries: seq<Entry>)
    returns (r: Result<Pass, RunError>, admitted: bool)
    requires forall e :: e in entries ==> !WrongKey(prefix, e) && (e.key.Some? ==> Successful(e))
    requires Orderly(env, FilesOf(entries)) && !Duplicates(FilesOf(entries))
    ensures admitted <==> !Nested(FilesOf(entries))
    ensures r.Ok? ==> (r.value.rootError == None <==> admitted) && r.value.rootError != Some(BadManifest)
  {
    r := Scan(prefix, entries);
    ShadowedExactly(entries);
    assert r.Ok? && r.value.rootError.Some? ==>
             r.value.rootError.value.BadManifest? || r.value.rootError.value.Conflict?;
    var a := Admit(env, FilesOf(entries));
    admitted := a.Ok?;
  }
}
