/**
 Chunked encryption: plaintext is cut into 256 KiB chunks, each sealed on its own as
 nonce, ciphertext and tag; decryption cuts the wire at the sealed size again. The cipher is an
 abstract authenticated cipher with the law of sections 7.1 and 7.2 of NIST SP 800-38D.
 */
module Cipher {
  import opened Prelude
  import opened Framing

  const CHUNK_SIZE: nat := 262144
  const CHUNK_OVERHEAD: nat := 28
  const CIPHER_CHUNK: nat := 262172

  /** The longest plaintext of section 5.2.1.1, in bytes. */
  const PLAINTEXT_LIMIT: nat := 0xF_FFFF_FFE0

  /** One key's sealing and opening; the associated data is always empty. */
  datatype Aead = Aead(seal: (Bytes, Bytes) -> Option<(Bytes, Bytes)>, open: (Bytes, Bytes, Bytes) -> Option<Bytes>)

  ghost predicate Seals(a: Aead, n: Bytes, p: Bytes) {
    && (|p| <= PLAINTEXT_LIMIT ==> a.seal(n, p).Some?)
    && (a.seal(n, p).Some? ==> |a.seal(n, p).value.0| == |p| && |a.seal(n, p).value.1| == 16)
  }

  ghost predicate OpensOnlySealed(a: Aead, n: Bytes, c: Bytes, t: Bytes) {
    forall p :: a.open(n, c, t) == Some(p) <==> a.seal(n, p) == Some((c, t))
  }

  /** Sealing keeps the length and adds a 16-byte tag; opening accepts exactly what was sealed. */
  ghost predicate Lawful(a: Aead) {
    && (forall n, p :: |n| == 12 ==> Seals(a, n, p))
    && (forall n, c, t :: |n| == 12 && |t| == 16 ==> OpensOnlySealed(a, n, c, t))
  }

  datatype AppError<E> = TooShort | SealFailed | OpenFailed | KuboStream | Internal(cause: E)

  // ----- One chunk

  function Sealed(a: Aead, n: Bytes, p: Bytes): Option<Bytes> {
    match a.seal(n, p)
    case None => None
    case Some(pair) => Some(n + pair.0 + pair.1)
  }

  /** `encrypt`: the buffer holds nonce and plaintext, is transformed behind the nonce, and gets the tag. */
  method Encrypt<E>(a: Aead, nonce: Bytes, plaintext: Bytes) returns (r: Result<Bytes, AppError<E>>)
    requires |nonce| == 12
    ensures r == (match Sealed(a, nonce, plaintext) case Some(c) => Ok(c) case None => Err(SealFailed))
  {
    var out := nonce;
    out := out + plaintext;
    assert out[12..] == plaintext;
    match a.seal(nonce, out[12..]) {
      case None => return Err(SealFailed);
      case Some(pair) =>
        out := out[..12] + pair.0;
        out := out + pair.1;
        return Ok(out);
    }
  }

  /** What a sealed chunk opens to. */
  function Opened<E>(a: Aead, encrypted: Bytes): Result<Bytes, AppError<E>> {
    if |encrypted| < CHUNK_OVERHEAD then Err(TooShort)
    else
      match a.open(encrypted[..12], encrypted[12..|encrypted| - 16], encrypted[|encrypted| - 16..])
      case None => Err(OpenFailed)
      case Some(p) => Ok(p)
  }

  /** `decrypt`: it opens exactly the chunks that sealing could have made. */
  method Decrypt<E>(a: Aead, encrypted: Bytes) returns (r: Result<Bytes, AppError<E>>)
    requires Lawful(a)
    ensures r == Opened(a, encrypted)
    ensures r == Err(TooShort) <==> |encrypted| < CHUNK_OVERHEAD
    ensures forall p :: r == Ok(p) <==>
              |encrypted| >= CHUNK_OVERHEAD && Sealed(a, encrypted[..12], p) == Some(encrypted)
  {
    if |encrypted| < CHUNK_OVERHEAD {
      return Err(TooShort);
    }
    var tagStart := |encrypted| - 16;
    var plaintext := encrypted[12..tagStart];
    forall p { OpensExactly<E>(a, encrypted, p); }
    match a.open(encrypted[..12], plaintext, encrypted[tagStart..]) {
      case None => return Err(OpenFailed);
      case Some(p) =>
        plaintext := p;
        return Ok(plaintext);
    }
  }

  lemma {:induction false} OpensExactly<E>(a: Aead, encrypted: Bytes, p: Bytes)
    requires Lawful(a) && |encrypted| >= CHUNK_OVERHEAD
    ensures Opened<E>(a, encrypted) == Ok(p) <==> Sealed(a, encrypted[..12], p) == Some(encrypted)
  {
    var n, c, t := encrypted[..12], encrypted[12..|encrypted| - 16], encrypted[|encrypted| - 16..];
    assert OpensOnlySealed(a, n, c, t);
    assert n + c + t == encrypted;
    if Sealed(a, n, p) == Some(encrypted) {
      assert Seals(a, n, p);
      SealedParts(a, n, p);
    }
  }

  /** A chunk that sealed has its parts where `Opened` looks for them. */
  lemma {:induction false} SealedParts(a: Aead, n: Bytes, p: Bytes)
    requires |n| == 12 && Seals(a, n, p) && Sealed(a, n, p).Some?
    ensures var s := Sealed(a, n, p).value;
            |s| == |p| + 28 && a.seal(n, p) == Some((s[12..|s| - 16], s[|s| - 16..])) && s[..12] == n
  {
  }

  /** Opening undoes sealing. */
  lemma {:induction false} ChunkRoundTrip<E>(a: Aead, n: Bytes, p: Bytes)
    requires Lawful(a) && |n| == 12 && |p| <= PLAINTEXT_LIMIT
    ensures Sealed(a, n, p).Some? && |Sealed(a, n, p).value| == |p| + CHUNK_OVERHEAD
    ensures Opened<E>(a, Sealed(a, n, p).value) == Ok(p)
  {
    assert Seals(a, n, p);
    var s := Sealed(a, n, p).value;
    SealedParts(a, n, p);
    OpensExactly<E>(a, s, p);
  }

  // ----- Streams

  /** Sealing frame by frame; the k-th chunk takes the k-th nonce, and a failure to seal ends the stream. */
  function Encrypted<E>(a: Aead, nonce: nat -> Bytes, frames: seq<Item<E>>, k: nat): (r: seq<Item<AppError<E>>>)
    decreases |frames|
  {
    if frames == [] then []
    else
      match frames[0]
      case Failure(e) => [Failure(Internal(e))] + Encrypted(a, nonce, frames[1..], k)
      case Data(b) =>
        match Sealed(a, nonce(k), b)
        case None => [Failure(SealFailed)]
        case Some(c) => [Data(c)] + Encrypted(a, nonce, frames[1..], k + 1)
  }

  ghost predicate Nonces(nonce: nat -> Bytes) {
    forall k: nat :: |nonce(k)| == 12
  }

  /** `encrypt_chunk_stream` */
  method EncryptStream<E>(a: Aead, nonce: nat -> Bytes, items: seq<Item<E>>) returns (out: seq<Item<AppError<E>>>)
    requires Nonces(nonce)
    ensures out == Encrypted(a, nonce, Framed([], items, CHUNK_SIZE), 0)
  {
    var chunked := FrameStream(items, CHUNK_SIZE);
    var k := 0;
    out := [];
    assert out + Encrypted(a, nonce, chunked, 0) == Encrypted(a, nonce, chunked, 0);
    assert chunked[0..] == chunked;
    for i := 0 to |chunked|
      invariant out + Encrypted(a, nonce, chunked[i..], k) == Encrypted(a, nonce, chunked, 0)
    {
      ghost var rest := chunked[i..];
      assert rest[1..] == chunked[i + 1..];
      match chunked[i] {
        case Failure(e) =>
          Assoc(out, [Failure(Internal(e))], Encrypted(a, nonce, rest[1..], k));
          out := out + [Failure(Internal(e))];
        case Data(b) =>
          var sealed := Encrypt<E>(a, nonce(k), b);
          match sealed {
            case Err(e) =>
              out := out + [Failure(e)];
              return;
            case Ok(c) =>
              Assoc(out, [Data(c)], Encrypted(a, nonce, rest[1..], k + 1));
              out := out + [Data(c)];
              k := k + 1;
          }
      }
    }
    assert out + [] == out;
  }

  /** One frame of the wire, opened; stream errors keep only whether they came from Kubo. */
  function OpenItem<E>(a: Aead, kubo: E -> bool, item: Item<E>): Item<AppError<E>> {
    match item
    case Failure(e) => Failure(if kubo(e) then KuboStream else Internal(e))
    case Data(b) => match Opened<E>(a, b) case Ok(p) => Data(p) case Err(e) => Failure(e)
  }

  /** Item by item; no error ends the stream. */
  function Decrypted<E>(a: Aead, kubo: E -> bool, frames: seq<Item<E>>): (r: seq<Item<AppError<E>>>)
    ensures |r| == |frames|
    ensures forall i :: 0 <= i < |r| ==> r[i] == OpenItem(a, kubo, frames[i])
  {
    seq(|frames|, i requires 0 <= i < |frames| => OpenItem(a, kubo, frames[i]))
  }

  /** `decrypt_chunk_stream` */
  method DecryptStream<E>(a: Aead, kubo: E -> bool, items: seq<Item<E>>) returns (out: seq<Item<AppError<E>>>)
    requires Lawful(a)
    ensures out == Decrypted(a, kubo, Framed([], items, CIPHER_CHUNK))
  {
    var framed := FrameStream(items, CIPHER_CHUNK);
    out := [];
    for i := 0 to |framed|
      invariant |out| == i
      invariant forall j :: 0 <= j < i ==> out[j] == OpenItem(a, kubo, framed[j])
    {
      match framed[i] {
        case Failure(e) =>
          out := out + [Failure(if kubo(e) then KuboStream else Internal(e))];
        case Data(b) =>
          var plain := Decrypt<E>(a, b);
          match plain {
            case Ok(p) => out := out + [Data(p)];
            case Err(e) => out := out + [Failure(e)];
          }
      }
    }
  }

  // ----- What a sealed stream is

  /** The sealed forms of `frames`, under consecutive nonces. */
  function SealAll(a: Aead, nonce: nat -> Bytes, frames: seq<Bytes>, k: nat): (r: seq<Bytes>)
    ensures |r| == |frames|
    decreases |frames|
  {
    if frames == [] then []
    else
      [match Sealed(a, nonce(k), frames[0]) case Some(c) => c case None => []]
      + SealAll(a, nonce, frames[1..], k + 1)
  }

  /** Every frame is full but the last, which is not empty. */
  ghost predicate Tight(frames: seq<Bytes>, size: nat) {
    frames == [] || (if |frames| == 1 then 0 < |frames[0]| <= size else |frames[0]| == size && Tight(frames[1..], size))
  }

  lemma {:induction false} TightBound(frames: seq<Bytes>, size: nat, i: nat)
    requires Tight(frames, size) && i < |frames|
    ensures |frames[i]| <= size
  {
    if i > 0 {
      TightBound(frames[1..], size, i - 1);
    }
  }

  lemma {:induction false} TightRest(frames: seq<Bytes>, size: nat)
    requires Tight(frames, size) && frames != []
    ensures |frames[0]| <= size && Tight(frames[1..], size)
  {
  }

  lemma {:induction false} ChunksTight(s: Bytes, size: nat)
    requires size > 0
    ensures Tight(Chunks(s, size), size)
    decreases |s|
  {
    if |s| >= size {
      ChunksTight(s[size..], size);
      assert Chunks(s, size)[1..] == Chunks(s[size..], size);
    }
  }

  lemma {:induction false} ChunksJoin(s: Bytes, size: nat)
    requires size > 0
    ensures Concat(Chunks(s, size)) == s
    decreases |s|
  {
    if |s| >= size {
      ChunksJoin(s[size..], size);
      assert Chunks(s, size)[1..] == Chunks(s[size..], size);
      assert s[..size] + s[size..] == s;
    } else if s != [] {
      assert Chunks(s, size)[1..] == [];
    }
  }

  /** Tight frames can be joined and cut again. */
  lemma {:induction false} CutJoined(frames: seq<Bytes>, size: nat)
    requires size > 0 && Tight(frames, size)
    ensures Chunks(Concat(frames), size) == frames
  {
    if |frames| == 1 {
      assert Concat(frames) == frames[0] + Concat(frames[1..]) == frames[0];
      if |frames[0]| == size {
        assert frames[0][..size] == frames[0];
      }
    } else if |frames| > 1 {
      var s, rest := Concat(frames), frames[1..];
      CutJoined(rest, size);
      assert s == frames[0] + Concat(rest);
      assert s[..size] == frames[0] && s[size..] == Concat(rest);
    }
  }

  lemma {:induction false} SealAllTight(a: Aead, nonce: nat -> Bytes, frames: seq<Bytes>, k: nat)
    requires Lawful(a) && Nonces(nonce) && Tight(frames, CHUNK_SIZE)
    ensures Tight(SealAll(a, nonce, frames, k), CIPHER_CHUNK)
    decreases |frames|
  {
    if frames != [] {
      ChunkRoundTrip<()>(a, nonce(k), frames[0]);
      if |frames| > 1 {
        SealAllTight(a, nonce, frames[1..], k + 1);
        assert SealAll(a, nonce, frames, k)[1..] == SealAll(a, nonce, frames[1..], k + 1);
      }
    }
  }

  /** What the encrypted stream carries: the sealed chunks, and the input's errors. */
  lemma {:induction false} EncryptedContents<E>(a: Aead, nonce: nat -> Bytes, frames: seq<Item<E>>, k: nat)
    requires Lawful(a) && Nonces(nonce)
    requires forall i :: 0 <= i < |frames| && frames[i].Data? ==> |frames[i].bytes| <= CHUNK_SIZE
    ensures DataOf(Encrypted(a, nonce, frames, k)) == SealAll(a, nonce, DataOf(frames), k)
    ensures |FailuresOf(Encrypted(a, nonce, frames, k))| == |FailuresOf(frames)|
    decreases |frames|
  {
    if frames != [] {
      var rest := frames[1..];
      assert frames == [frames[0]] + rest;
      DataOfCons(frames[0], rest);
      match frames[0]
      case Failure(e) =>
        EncryptedContents(a, nonce, rest, k);
        DataOfCons(Failure(Internal(e)), Encrypted(a, nonce, rest, k));
      case Data(b) =>
        EncryptedContents(a, nonce, rest, k + 1);
        ChunkRoundTrip<E>(a, nonce(k), b);
        DataOfCons(Data(Sealed(a, nonce(k), b).value), Encrypted(a, nonce, rest, k + 1));
        assert ([b] + DataOf(rest))[1..] == DataOf(rest);
    }
  }

  /** The next nonce to use once `items` went through. */
  ghost function NextNonce<E>(items: seq<Item<E>>, k: nat): nat {
    k + |DataOf(items)|
  }

  /** The stream is cut short only by a failure to seal. */
  lemma {:induction false} CutShort<E>(a: Aead, nonce: nat -> Bytes, frames: seq<Item<E>>, k: nat)
    ensures var r := Encrypted(a, nonce, frames, k);
            |r| <= |frames| && (|r| < |frames| ==> r != [] && r[|r| - 1] == Failure(SealFailed))
    decreases |frames|
  {
    if frames != [] {
      if frames[0].Failure? {
        CutShort(a, nonce, frames[1..], k);
      } else if Sealed(a, nonce(k), frames[0].bytes).Some? {
        CutShort(a, nonce, frames[1..], k + 1);
      }
    }
  }

  lemma {:induction false} NonceCons<E>(frames: seq<Item<E>>, k: nat, i: nat)
    requires 0 < i <= |frames|
    ensures NextNonce(frames[..i], k) == NextNonce(frames[1..][..i - 1], if frames[0].Data? then k + 1 else k)
  {
    assert frames[..i] == [frames[0]] + frames[1..][..i - 1];
    DataOfCons(frames[0], frames[1..][..i - 1]);
  }

  /** What becomes of one item when `n` is the next nonce: all that comes out of it is `out`. */
  ghost predicate Becomes<E>(a: Aead, n: Bytes, item: Item<E>, out: Item<AppError<E>>, last: bool) {
    match item
    case Failure(e) => out == Failure(Internal(e))
    case Data(b) =>
      match a.seal(n, b)
      case Some(pair) => out == Data(n + pair.0 + pair.1)
      case None => out == Failure(SealFailed) && last
  }

  /**
   Item by item, for any cipher: an error passes through, a chunk is sealed under a nonce of its own, counted
   by the chunks before it, and one that cannot be sealed is the last.
   */
  lemma {:induction false} EncryptedExactly<E>(a: Aead, nonce: nat -> Bytes, frames: seq<Item<E>>, k: nat, i: nat)
    requires i < |frames| && i < |Encrypted(a, nonce, frames, k)|
    ensures var r := Encrypted(a, nonce, frames, k);
            Becomes(a, nonce(NextNonce(frames[..i], k)), frames[i], r[i], i + 1 == |r|)
    decreases |frames|
  {
    if i == 0 {
      assert frames[..0] == [];
    } else {
      NonceCons(frames, k, i);
      var next := if frames[0].Data? then k + 1 else k;
      var r, s := Encrypted(a, nonce, frames, k), Encrypted(a, nonce, frames[1..], next);
      assert r == [r[0]] + s;
      EncryptedExactly(a, nonce, frames[1..], next, i - 1);
      assert r[i] == s[i - 1] && frames[i] == frames[1..][i - 1];
    }
  }

  // ----- The wire length

  lemma {:induction false} ChunkCount(s: Bytes)
    ensures |Chunks(s, CHUNK_SIZE)| == (|s| + 262143) / 262144
    decreases |s|
  {
    if |s| >= CHUNK_SIZE {
      ChunkCount(s[CHUNK_SIZE..]);
    }
  }

  lemma {:induction false} SealedLength(a: Aead, nonce: nat -> Bytes, frames: seq<Bytes>, k: nat)
    requires Lawful(a) && Nonces(nonce)
    requires Tight(frames, CHUNK_SIZE)
    ensures |Concat(SealAll(a, nonce, frames, k))| == |Concat(frames)| + 28 * |frames|
    decreases |frames|
  {
    if frames != [] {
      SealedLength(a, nonce, frames[1..], k + 1);
      ChunkRoundTrip<()>(a, nonce(k), frames[0]);
      assert SealAll(a, nonce, frames, k)[1..] == SealAll(a, nonce, frames[1..], k + 1);
    }
  }

  /** n bytes become n + 28 * ceil(n / 262144) bytes, whatever the cuts and errors of the input. */
  lemma {:induction false} WireLength<E>(a: Aead, nonce: nat -> Bytes, items: seq<Item<E>>)
    requires Lawful(a) && Nonces(nonce)
    ensures var n := |Concat(DataOf(items))|;
            |Concat(DataOf(Encrypted(a, nonce, Framed([], items, CHUNK_SIZE), 0)))| == n + 28 * ((n + 262143) / 262144)
  {
    var plain := Concat(DataOf(items));
    EncryptedIsSealed(a, nonce, items);
    ChunksTight(plain, CHUNK_SIZE);
    ChunksJoin(plain, CHUNK_SIZE);
    SealedLength(a, nonce, Chunks(plain, CHUNK_SIZE), 0);
    ChunkCount(plain);
  }

  // ----- Round trip

  lemma {:induction false} FramesBounded<E>(frames: seq<Item<E>>, i: nat) returns (j: nat)
    requires i < |frames| && frames[i].Data?
    ensures j < |DataOf(frames)| && DataOf(frames)[j] == frames[i].bytes
  {
    j := 0;
    if i > 0 {
      j := FramesBounded(frames[1..], i - 1);
      if frames[0].Data? { j := j + 1; }
    }
  }

  /** The encrypted stream carries the sealed chunks of all its plaintext. */
  lemma {:induction false} EncryptedIsSealed<E>(a: Aead, nonce: nat -> Bytes, items: seq<Item<E>>)
    requires Lawful(a) && Nonces(nonce)
    ensures DataOf(Encrypted(a, nonce, Framed([], items, CHUNK_SIZE), 0))
            == SealAll(a, nonce, Chunks(Concat(DataOf(items)), CHUNK_SIZE), 0)
  {
    var frames := Framed([], items, CHUNK_SIZE);
    var plain := Concat(DataOf(items));
    FramedData([], items, CHUNK_SIZE);
    assert [] + plain == plain;
    ChunksTight(plain, CHUNK_SIZE);
    forall i | 0 <= i < |frames| && frames[i].Data? ensures |frames[i].bytes| <= CHUNK_SIZE {
      var j := FramesBounded(frames, i);
      TightBound(DataOf(frames), CHUNK_SIZE, j);
    }
    EncryptedContents(a, nonce, frames, 0);
  }

  lemma {:induction false} DecryptedCons<E>(a: Aead, kubo: E -> bool, frames: seq<Item<E>>)
    requires frames != []
    ensures var first, rest := OpenItem(a, kubo, frames[0]), Decrypted(a, kubo, frames[1..]);
            && DataOf(Decrypted(a, kubo, frames))
               == (if first.Data? then [first.bytes] + DataOf(rest) else DataOf(rest))
            && |FailuresOf(Decrypted(a, kubo, frames))| == (if first.Data? then 0 else 1) + |FailuresOf(rest)|
  {
    var first, rest := OpenItem(a, kubo, frames[0]), Decrypted(a, kubo, frames[1..]);
    assert Decrypted(a, kubo, frames) == [first] + rest;
    DataOfCons(first, rest);
  }

  /** The first of the sealed frames, split off. */
  lemma {:induction false} SealAllFirst<E>(
      a: Aead, nonce: nat -> Bytes, frames: seq<Item<E>>, plain: seq<Bytes>, k: nat)
    requires frames != [] && DataOf(frames) == SealAll(a, nonce, plain, k)
    ensures if frames[0].Data? then
              && plain != [] && DataOf(frames[1..]) == SealAll(a, nonce, plain[1..], k + 1)
              && frames[0].bytes == (match Sealed(a, nonce(k), plain[0]) case Some(c) => c case None => [])
            else DataOf(frames[1..]) == SealAll(a, nonce, plain, k)
    ensures |FailuresOf(frames)| == (if frames[0].Data? then 0 else 1) + |FailuresOf(frames[1..])|
  {
    assert frames == [frames[0]] + frames[1..];
    DataOfCons(frames[0], frames[1..]);
    if frames[0].Data? {
      assert DataOf(frames)[1..] == DataOf(frames[1..]);
      assert SealAll(a, nonce, plain, k)[1..] == SealAll(a, nonce, plain[1..], k + 1);
    }
  }

  /** Opening frame by frame undoes sealing frame by frame; errors in between stay where they are. */
  lemma {:induction false} SealedOpens<E>(a: Aead, n: Bytes, kubo: E -> bool, f: Item<E>, p: Bytes)
    requires Lawful(a) && |n| == 12 && |p| <= CHUNK_SIZE
    requires f.Data? && f.bytes == (match Sealed(a, n, p) case Some(c) => c case None => [])
    ensures OpenItem(a, kubo, f) == Data(p)
  {
    ChunkRoundTrip<E>(a, n, p);
  }

  lemma {:induction false} OpenSealed<E>(
      a: Aead, nonce: nat -> Bytes, kubo: E -> bool, frames: seq<Item<E>>, plain: seq<Bytes>, k: nat)
    requires Lawful(a) && Nonces(nonce)
    requires Tight(plain, CHUNK_SIZE)
    requires DataOf(frames) == SealAll(a, nonce, plain, k)
    ensures DataOf(Decrypted(a, kubo, frames)) == plain
    ensures |FailuresOf(Decrypted(a, kubo, frames))| == |FailuresOf(frames)|
    decreases |frames|
  {
    if frames != [] {
      DecryptedCons(a, kubo, frames);
      SealAllFirst(a, nonce, frames, plain, k);
      if frames[0].Data? {
        TightRest(plain, CHUNK_SIZE);
        SealedOpens(a, nonce(k), kubo, frames[0], plain[0]);
        OpenSealed(a, nonce, kubo, frames[1..], plain[1..], k + 1);
        assert plain == [plain[0]] + plain[1..];
      } else {
        OpenSealed(a, nonce, kubo, frames[1..], plain, k);
      }
    }
  }

  /**
   Encrypting, cutting the wire anywhere and decrypting gives back the plaintext's own chunks, with
   errors of the wire in between; without such errors nothing but the chunks comes out.
   */
  lemma {:induction false} StreamRoundTrip<E, F>(
      a: Aead, nonce: nat -> Bytes, items: seq<Item<E>>, kubo: F -> bool, wire: seq<Item<F>>)
    requires Lawful(a) && Nonces(nonce)
    requires Concat(DataOf(wire)) == Concat(DataOf(Encrypted(a, nonce, Framed([], items, CHUNK_SIZE), 0)))
    ensures var out := Decrypted(a, kubo, Framed([], wire, CIPHER_CHUNK));
            var plain := Concat(DataOf(items));
            && DataOf(out) == Chunks(plain, CHUNK_SIZE)
            && Concat(DataOf(out)) == plain
            && |FailuresOf(out)| == |FailuresOf(wire)|
            && (FailuresOf(wire) == [] ==> out == Wrap(Chunks(plain, CHUNK_SIZE)))
  {
    var plain := Concat(DataOf(items));
    var chunks := Chunks(plain, CHUNK_SIZE);
    var frames := Framed([], wire, CIPHER_CHUNK);
    EncryptedIsSealed(a, nonce, items);
    ChunksTight(plain, CHUNK_SIZE);
    ChunksJoin(plain, CHUNK_SIZE);
    SealAllTight(a, nonce, chunks, 0);
    CutJoined(SealAll(a, nonce, chunks, 0), CIPHER_CHUNK);
    FramedData([], wire, CIPHER_CHUNK);
    FramedFailures([], wire, CIPHER_CHUNK);
    assert [] + Concat(DataOf(wire)) == Concat(DataOf(wire));
    OpenSealed(a, nonce, kubo, frames, chunks, 0);
    if FailuresOf(wire) == [] {
      CleanIsWrapped(Decrypted(a, kubo, frames));
    }
  }

  /** Neither direction depends on how its error-free input was cut. */
  lemma {:induction false} CutsDoNotMatter<E>(
      a: Aead, nonce: nat -> Bytes, kubo: E -> bool, items: seq<Item<E>>, other: seq<Item<E>>)
    requires FailuresOf(items) == [] && FailuresOf(other) == []
    requires Concat(DataOf(items)) == Concat(DataOf(other))
    ensures Encrypted(a, nonce, Framed([], items, CHUNK_SIZE), 0)
         == Encrypted(a, nonce, Framed([], other, CHUNK_SIZE), 0)
    ensures Decrypted(a, kubo, Framed([], items, CIPHER_CHUNK)) == Decrypted(a, kubo, Framed([], other, CIPHER_CHUNK))
  {
    FramedClean(items, CHUNK_SIZE);
    FramedClean(other, CHUNK_SIZE);
    FramedClean(items, CIPHER_CHUNK);
    FramedClean(other, CIPHER_CHUNK);
  }

  /** Of any wire at all, only chunks that were sealed under this key are delivered. */
  lemma {:induction false} DeliveredIsSealed<E>(a: Aead, kubo: E -> bool, wire: seq<Item<E>>, i: nat, p: Bytes)
    requires Lawful(a) && i < |Framed([], wire, CIPHER_CHUNK)|
    ensures var frame := Framed([], wire, CIPHER_CHUNK)[i];
            Decrypted(a, kubo, Framed([], wire, CIPHER_CHUNK))[i] == Data(p)
            <==> frame.Data? && |frame.bytes| >= CHUNK_OVERHEAD && Sealed(a, frame.bytes[..12], p) == Some(frame.bytes)
  {
    var frame := Framed([], wire, CIPHER_CHUNK)[i];
    if frame.Data? && |frame.bytes| >= CHUNK_OVERHEAD {
      OpensExactly<E>(a, frame.bytes, p);
    }
  }

  /** Every error of the decrypted stream has exactly its cause. */
  lemma {:induction false} RefusedExactly<E>(a: Aead, kubo: E -> bool, wire: seq<Item<E>>, i: nat, e: E)
    requires Lawful(a) && i < |Framed([], wire, CIPHER_CHUNK)|
    ensures var frame := Framed([], wire, CIPHER_CHUNK)[i];
            var out := Decrypted(a, kubo, Framed([], wire, CIPHER_CHUNK))[i];
            && (out == Failure(KuboStream) <==> frame.Failure? && kubo(frame.error))
            && (out == Failure(Internal(e)) <==> frame == Failure(e) && !kubo(e))
            && (out == Failure(TooShort) <==> frame.Data? && |frame.bytes| < 28)
            && (out == Failure(OpenFailed) <==>
                  && frame.Data? && |frame.bytes| >= 28
                  && forall p :: Sealed(a, frame.bytes[..12], p) != Some(frame.bytes))
  {
    var frame := Framed([], wire, CIPHER_CHUNK)[i];
    if frame.Data? && |frame.bytes| >= CHUNK_OVERHEAD {
      forall p {
        OpensExactly<E>(a, frame.bytes, p);
      }
    }
  }
}
