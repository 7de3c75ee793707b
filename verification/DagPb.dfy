/**
 The byte length of a directory block, computed field by field, against the DAG-PB encoding
 itself (IPLD DAG-PB specification, "Serial Format"; Protocol Buffers encoding guide,
 "Base 128 Varints").
 */
module DagPb {
  import opened Prelude

  const U64_MAX: nat := 0xffff_ffff_ffff_ffff

  datatype PbLink = PbLink(hash: Bytes, name: Bytes, tsize: nat)

  // ----- The encoding

  /** Seven bits a byte, lowest group first, the top bit set on all but the last byte. */
  function Varint(n: nat): (r: Bytes)
    ensures r != []
  {
    if n < 128 then [n] else [128 + n % 128] + Varint(n / 128)
  }

  /** A length-delimited field. */
  function Field(tag: byte, body: Bytes): Bytes {
    [tag] + Varint(|body|) + body
  }

  /** PBLink: Hash = 1, Name = 2, Tsize = 3. */
  function EncodeLink(l: PbLink): Bytes {
    Field(0x0a, l.hash) + Field(0x12, l.name) + [0x18] + Varint(l.tsize)
  }

  function LinkField(l: PbLink): Bytes {
    Field(0x12, EncodeLink(l))
  }

  function EncodeLinks(links: seq<PbLink>): Bytes {
    if links == [] then [] else LinkField(links[0]) + EncodeLinks(links[1..])
  }

  /** PBNode: the Links field (2) before the Data field (1). */
  function EncodeNode(links: seq<PbLink>, data: Bytes): Bytes {
    EncodeLinks(links) + Field(0x0a, data)
  }

  function Tsizes(links: seq<PbLink>): nat {
    if links == [] then 0 else Tsizes(links[..|links| - 1]) + links[|links| - 1].tsize
  }

  // ----- Length arithmetic

  method VarintLen(number: nat) returns (bytes: nat)
    ensures bytes == |Varint(number)|
  {
    bytes := 1;
    var rest := number;
    while rest >= 128
      invariant bytes - 1 + |Varint(rest)| == |Varint(number)|
    {
      bytes := bytes + 1;
      rest := rest / 128;
    }
  }

  method FieldLen(bytes: nat) returns (r: nat)
    ensures forall tag: byte, body: Bytes :: |body| == bytes ==> |Field(tag, body)| == r
  {
    var prefix := VarintLen(bytes);
    r := 1 + prefix + bytes;
  }

  method LinkLen(link: PbLink) returns (r: nat)
    ensures r == |LinkField(link)|
  {
    var hash := FieldLen(|link.hash|);
    var name := FieldLen(|link.name|);
    var size := VarintLen(link.tsize);
    assert |Field(0x0a, link.hash)| == hash && |Field(0x12, link.name)| == name;
    r := FieldLen(hash + name + 1 + size);
  }

  /**
   The exact block length and the cumulative size; fails exactly when the cumulative size does
   not fit 64 bits.
   */
  method BlockSize(links: seq<PbLink>, data: Bytes) returns (r: Option<(nat, nat)>)
    ensures var length := |EncodeNode(links, data)|;
            var cumulative := Tsizes(links) + length;
            r == if cumulative <= U64_MAX then Some((length, cumulative)) else None
  {
    var length := FieldLen(|data|);
    assert length == |Field(0x0a, data)|;
    var cumulative := 0;
    for i := 0 to |links|
      invariant length == |EncodeLinks(links[..i])| + |Field(0x0a, data)|
      invariant cumulative == Tsizes(links[..i])
    {
      assert links[..i + 1] == links[..i] + [links[i]];
      Snoc(links[..i], links[i]);
      var link := LinkLen(links[i]);
      length := length + link;
      cumulative := cumulative + links[i].tsize;
      if length > U64_MAX || cumulative > U64_MAX {
        Grows(links, i + 1);
        return None;
      }
    }
    assert links[..|links|] == links;
    if cumulative + length > U64_MAX {
      return None;
    }
    r := Some((length, cumulative + length));
  }

  lemma {:induction false} Snoc(links: seq<PbLink>, l: PbLink)
    ensures EncodeLinks(links + [l]) == EncodeLinks(links) + LinkField(l)
    ensures Tsizes(links + [l]) == Tsizes(links) + l.tsize
  {
    assert (links + [l])[..|links|] == links;
    SnocField(links, l);
  }

  lemma {:induction false} SnocField(links: seq<PbLink>, l: PbLink)
    ensures EncodeLinks(links + [l]) == EncodeLinks(links) + LinkField(l)
  {
    if links == [] {
      assert links + [l] == [l];
    } else {
      SnocField(links[1..], l);
      assert (links + [l])[1..] == links[1..] + [l];
      Assoc(LinkField(links[0]), EncodeLinks(links[1..]), LinkField(l));
    }
  }

  lemma {:induction false} Grows(links: seq<PbLink>, i: nat)
    requires i <= |links|
    ensures |EncodeLinks(links[..i])| <= |EncodeLinks(links)|
    ensures Tsizes(links[..i]) <= Tsizes(links)
    decreases |links| - i
  {
    if i == |links| {
      assert links[..i] == links;
    } else {
      Grows(links, i + 1);
      assert links[..i + 1] == links[..i] + [links[i]];
      Snoc(links[..i], links[i]);
    }
  }

  // ----- Decoding: the encoding determines the node

  function ReadVarint(s: Bytes): (r: Option<(nat, Bytes)>)
    ensures r.Some? ==> |r.value.1| < |s|
  {
    if s == [] then None
    else if s[0] < 128 then Some((s[0], s[1..]))
    else
      match ReadVarint(s[1..])
      case None => None
      case Some((n, rest)) => Some((s[0] - 128 + 128 * n, rest))
  }

  /** The body of a field with the given tag, and what follows it. */
  function ReadField(tag: byte, s: Bytes): (r: Option<(Bytes, Bytes)>)
    ensures r.Some? ==> |r.value.1| < |s|
  {
    if s == [] || s[0] != tag then None
    else
      match ReadVarint(s[1..])
      case None => None
      case Some((n, rest)) => if n <= |rest| then Some((rest[..n], rest[n..])) else None
  }

  function DecodeLink(s: Bytes): Option<PbLink> {
    match ReadField(0x0a, s)
    case None => None
    case Some((hash, rest)) =>
      match ReadField(0x12, rest)
      case None => None
      case Some((name, last)) =>
        if last == [] || last[0] != 0x18 then None
        else
          match ReadVarint(last[1..])
          case None => None
          case Some((tsize, end)) => if end == [] then Some(PbLink(hash, name, tsize)) else None
  }

  function DecodeNode(s: Bytes): Option<(seq<PbLink>, Bytes)>
    decreases |s|
  {
    match ReadField(0x12, s)
    case Some((body, rest)) =>
      (match (DecodeLink(body), DecodeNode(rest))
       case (Some(l), Some((links, data))) => Some(([l] + links, data))
       case _ => None)
    case None =>
      match ReadField(0x0a, s)
      case Some((data, rest)) => if rest == [] then Some(([], data)) else None
      case None => None
  }

  lemma {:induction false} VarintRoundTrip(n: nat, rest: Bytes)
    ensures ReadVarint(Varint(n) + rest) == Some((n, rest))
    decreases n
  {
    var s := Varint(n) + rest;
    if n < 128 {
      assert s[1..] == rest;
    } else {
      assert s[1..] == Varint(n / 128) + rest;
      VarintRoundTrip(n / 128, rest);
    }
  }

  lemma {:induction false} FieldRoundTrip(tag: byte, body: Bytes, rest: Bytes)
    ensures ReadField(tag, Field(tag, body) + rest) == Some((body, rest))
  {
    var s := Field(tag, body) + rest;
    assert s[1..] == Varint(|body|) + (body + rest);
    VarintRoundTrip(|body|, body + rest);
    assert (body + rest)[..|body|] == body && (body + rest)[|body|..] == rest;
  }

  lemma {:induction false} LinkRoundTrip(l: PbLink)
    ensures DecodeLink(EncodeLink(l)) == Some(l)
  {
    var tail := [0x18] + Varint(l.tsize);
    var middle := Field(0x12, l.name) + tail;
    assert EncodeLink(l) == Field(0x0a, l.hash) + middle;
    FieldRoundTrip(0x0a, l.hash, middle);
    FieldRoundTrip(0x12, l.name, tail);
    assert tail[1..] == Varint(l.tsize) + [];
    VarintRoundTrip(l.tsize, []);
  }

  lemma {:induction false} FirstLinkRoundTrip(l: PbLink, rest: Bytes, links: seq<PbLink>, data: Bytes)
    requires DecodeNode(rest) == Some((links, data))
    ensures DecodeNode(LinkField(l) + rest) == Some(([l] + links, data))
  {
    FieldRoundTrip(0x12, EncodeLink(l), rest);
    LinkRoundTrip(l);
  }

  lemma {:induction false} DataRoundTrip(data: Bytes)
    ensures DecodeNode(Field(0x0a, data)) == Some(([], data))
  {
    assert Field(0x0a, data) == Field(0x0a, data) + [];
    FieldRoundTrip(0x0a, data, []);
    assert ReadField(0x12, Field(0x0a, data)) == None;
  }

  /** Decoding an encoded node gives back its links, in order, and its data. */
  lemma {:induction false} NodeRoundTrip(links: seq<PbLink>, data: Bytes)
    ensures DecodeNode(EncodeNode(links, data)) == Some((links, data))
    decreases |links|
  {
    if links == [] {
      assert EncodeNode(links, data) == Field(0x0a, data);
      DataRoundTrip(data);
    } else {
      var rest := EncodeNode(links[1..], data);
      NodeRoundTrip(links[1..], data);
      FirstLinkRoundTrip(links[0], rest, links[1..], data);
      Assoc(LinkField(links[0]), EncodeLinks(links[1..]), Field(0x0a, data));
      assert [links[0]] + links[1..] == links;
    }
  }
}
