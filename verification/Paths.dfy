/** Slash-separated manifest paths as component lists, and when two of them conflict. */
module Paths {
  import opened Prelude
  import opened Cutting

  type Path = seq<Bytes>

  const SLASH: byte := 47

  /** `split('/')` */
  function Split(s: Bytes): (r: Path)
    ensures r != []
  {
    Cut(s, SLASH)
  }

  function Join(p: Path): Bytes {
    Glue(p, SLASH)
  }

  lemma {:induction false} JoinSplit(s: Bytes)
    ensures Join(Split(s)) == s
    ensures forall i :: 0 <= i < |Split(s)| ==> SLASH !in Split(s)[i]
  {
    CutExact(s, SLASH);
  }

  lemma {:induction false} PrependFirst(x: byte, a: Path, b: Path)
    requires a != []
    ensures [[x] + (a + b)[0]] + (a + b)[1..] == [[x] + a[0]] + a[1..] + b
  {
    assert (a + b)[0] == a[0] && (a + b)[1..] == a[1..] + b;
  }

  /** Cutting a string at one of its slashes cuts its component list. */
  lemma {:induction false} SplitAtSlash(s: Bytes, i: nat)
    requires i < |s| && s[i] == SLASH
    ensures Split(s) == Split(s[..i]) + Split(s[i + 1..])
  {
    if i == 0 {
      assert s[..0] == [];
    } else {
      var rest, head, tail := s[1..], s[..i], s[i + 1..];
      SplitAtSlash(rest, i - 1);
      assert head[1..] == rest[..i - 1] && rest[i..] == tail;
      var a, b := Split(head[1..]), Split(tail);
      if s[0] == SLASH {
        Assoc([[]], a, b);
      } else {
        PrependFirst(s[0], a, b);
      }
    }
  }

  lemma {:induction false} JoinAppend(p: Path, q: Path)
    requires p != [] && q != []
    ensures Join(p + q) == Join(p) + [SLASH] + Join(q)
  {
    if |p| == 1 {
      assert (p + q)[1..] == q;
    } else {
      JoinAppend(p[1..], q);
      assert (p + q)[1..] == p[1..] + q;
      assert p[0] + [SLASH] + (Join(p[1..]) + [SLASH] + Join(q)) == (p[0] + [SLASH] + Join(p[1..])) + [SLASH] + Join(q);
    }
  }

  /** One path is a proper ancestor of another exactly when the other, cut at a slash, is it. */
  lemma {:induction false} AncestorIsCut(a: Bytes, b: Bytes)
    ensures Split(a) < Split(b) <==> exists i :: 0 <= i < |b| && b[i] == SLASH && b[..i] == a
  {
    if Split(a) < Split(b) {
      var p, q := Split(a), Split(b)[|Split(a)|..];
      assert Split(b) == p + q;
      JoinAppend(p, q);
      JoinSplit(a);
      JoinSplit(b);
      assert b == a + [SLASH] + Join(q);
      assert b[|a|] == SLASH && b[..|a|] == a;
    }
    if i :| 0 <= i < |b| && b[i] == SLASH && b[..i] == a {
      SplitAtSlash(b, i);
    }
  }

  // ----- Ancestors among listed paths

  method CutIsListed(paths: set<Bytes>, path: Bytes) returns (found: bool)
    ensures found <==> exists p :: p in paths && Split(p) < Split(path)
  {
    found := false;
    for i := 0 to |path|
      invariant !found && forall k :: 0 <= k < i ==> !(path[k] == SLASH && path[..k] in paths)
    {
      if path[i] == SLASH && path[..i] in paths {
        AncestorIsCut(path[..i], path);
        return true;
      }
    }
    forall p | p in paths
      ensures !(Split(p) < Split(path))
    {
      AncestorIsCut(p, path);
    }
  }
}
