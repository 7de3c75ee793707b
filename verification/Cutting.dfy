/** Cutting a byte string at a separator. */
module Cutting {
  import opened Prelude

  function Cut(s: Bytes, sep: byte): (parts: seq<Bytes>)
    ensures parts != []
  {
    if s == [] then [[]]
    else if s[0] == sep then [[]] + Cut(s[1..], sep)
    else
      var rest := Cut(s[1..], sep);
      [[s[0]] + rest[0]] + rest[1..]
  }

  function Glue(parts: seq<Bytes>, sep: byte): Bytes {
    if parts == [] then [] else if |parts| == 1 then parts[0] else parts[0] + [sep] + Glue(parts[1..], sep)
  }

  /** Cutting loses nothing, and no part holds a separator. */
  lemma {:induction false} CutExact(s: Bytes, sep: byte)
    ensures Glue(Cut(s, sep), sep) == s
    ensures forall i :: 0 <= i < |Cut(s, sep)| ==> sep !in Cut(s, sep)[i]
  {
    if s != [] {
      CutExact(s[1..], sep);
      var rest := Cut(s[1..], sep);
      assert s == [s[0]] + s[1..];
      if s[0] == sep {
        assert Cut(s, sep)[1..] == rest;
      } else {
        assert Cut(s, sep)[1..] == rest[1..];
        if |rest| > 1 {
          Assoc([s[0]], rest[0], [sep] + Glue(rest[1..], sep));
        }
      }
    }
  }
}
