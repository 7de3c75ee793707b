/**
 Re-framing of byte streams into fixed-size chunks. A stream is the list of its items; an input
 error is an item like any other and does not disturb the bytes around it.
 */
module Framing {
  import opened Prelude

  datatype Item<E> = Data(bytes: Bytes) | Failure(error: E)

  // ----- The simple definition: append, then cut

  /** `s` cut into pieces of `size`; only the last one may be shorter. */
  function Chunks(s: Bytes, size: nat): (r: seq<Bytes>)
    requires size > 0
  {
    if s == [] then [] else if |s| < size then [s] else [s[..size]] + Chunks(s[size..], size)
  }

  /** The complete frames of `t`. */
  function Full(t: Bytes, size: nat): (r: seq<Bytes>)
    requires size > 0
  {
    if |t| < size then [] else [t[..size]] + Full(t[size..], size)
  }

  /** What is left of `t` after its complete frames. */
  function Left(t: Bytes, size: nat): (r: Bytes)
    requires size > 0
    ensures |r| < size
  {
    if |t| < size then t else Left(t[size..], size)
  }

  function Wrap<E>(frames: seq<Bytes>): (r: seq<Item<E>>)
    ensures |r| == |frames| && forall i :: 0 <= i < |r| ==> r[i] == Data(frames[i])
  {
    seq(|frames|, i requires 0 <= i < |frames| => Data(frames[i]))
  }

  /** What the stream yields for `items` when `tail` is waiting for its frame to fill up. */
  function Framed<E>(tail: Bytes, items: seq<Item<E>>, size: nat): (r: seq<Item<E>>)
    requires size > 0
    decreases |items|
  {
    if items == [] then (if tail == [] then [] else [Data(tail)])
    else
      match items[0]
      case Failure(e) => [Failure(e)] + Framed(tail, items[1..], size)
      case Data(b) => Wrap(Full(tail + b, size)) + Framed(Left(tail + b, size), items[1..], size)
  }

  // ----- The source's loop: whole frames are split off, only split ones are buffered

  /** The inner loop over one input item. */
  method Absorb<E>(item: Bytes, frameSize: nat, buffered: Bytes) returns (out: seq<Item<E>>, buf: Bytes)
    requires |buffered| < frameSize
    ensures out == Wrap(Full(buffered + item, frameSize))
    ensures buf == Left(buffered + item, frameSize)
  {
    var bytes := item;
    out, buf := [], buffered;
    ghost var all := buffered + item;
    assert out + Wrap<E>(Full(all, frameSize)) == Wrap(Full(all, frameSize));
    while bytes != []
      invariant |buf| < frameSize
      invariant out + Wrap<E>(Full(buf + bytes, frameSize)) == Wrap(Full(all, frameSize))
      invariant Left(buf + bytes, frameSize) == Left(all, frameSize)
      decreases |bytes|
    {
      ghost var waiting := buf + bytes;
      if buf == [] && |bytes| >= frameSize {
        assert waiting == bytes;
        FullFirst<E>(waiting, frameSize, out);
        out := out + [Data(bytes[..frameSize])];
        bytes := bytes[frameSize..];
        assert buf + bytes == waiting[frameSize..];
      } else {
        var len := if frameSize - |buf| <= |bytes| then frameSize - |buf| else |bytes|;
        buf := buf + bytes[..len];
        bytes := bytes[len..];
        assert buf + bytes == waiting;
        if |buf| == frameSize {
          assert waiting[..frameSize] == buf && waiting[frameSize..] == bytes;
          FullFirst<E>(waiting, frameSize, out);
          out := out + [Data(buf)];
          buf := [];
          assert buf + bytes == bytes;
        }
      }
    }
    assert buf + bytes == buf;
    assert Wrap<E>(Full(buf, frameSize)) == [];
    assert out + [] == out;
  }

  lemma {:induction false} FullFirst<E>(t: Bytes, size: nat, out: seq<Item<E>>)
    requires 0 < size <= |t|
    ensures out + Wrap<E>(Full(t, size)) == out + [Data(t[..size])] + Wrap<E>(Full(t[size..], size))
    ensures Left(t, size) == Left(t[size..], size)
  {
    assert Wrap<E>(Full(t, size)) == [Data(t[..size])] + Wrap<E>(Full(t[size..], size));
  }

  /** `frame_stream` */
  method FrameStream<E>(items: seq<Item<E>>, frameSize: nat) returns (out: seq<Item<E>>)
    requires frameSize > 0
    ensures out == Framed([], items, frameSize)
  {
    var buf: Bytes := [];
    out := [];
    assert out + Framed(buf, items, frameSize) == Framed([], items, frameSize);
    for i := 0 to |items|
      invariant |buf| < frameSize
      invariant out + Framed(buf, items[i..], frameSize) == Framed([], items, frameSize)
    {
      var rest := items[i..];
      assert rest[1..] == items[i + 1..];
      match items[i] {
        case Failure(e) =>
          Assoc(out, [Failure(e)], Framed(buf, rest[1..], frameSize));
          out := out + [Failure(e)];
        case Data(b) =>
          var frames, left := Absorb(b, frameSize, buf);
          Assoc(out, frames, Framed(left, rest[1..], frameSize));
          out, buf := out + frames, left;
      }
    }
    if buf != [] {
      out := out + [Data(buf)];
    }
  }

  // ----- Framing does not see how the input was cut

  function DataOf<E>(items: seq<Item<E>>): seq<Bytes> {
    if items == [] then []
    else (match items[0] case Data(b) => [b] case Failure(_) => []) + DataOf(items[1..])
  }

  function FailuresOf<E>(items: seq<Item<E>>): seq<E> {
    if items == [] then []
    else (match items[0] case Data(_) => [] case Failure(e) => [e]) + FailuresOf(items[1..])
  }

  lemma {:induction false} DataOfCons<E>(item: Item<E>, rest: seq<Item<E>>)
    ensures DataOf([item] + rest) == (if item.Data? then [item.bytes] + DataOf(rest) else DataOf(rest))
    ensures FailuresOf([item] + rest) == (if item.Data? then FailuresOf(rest) else [item.error] + FailuresOf(rest))
  {
    assert ([item] + rest)[1..] == rest;
    assert [] + DataOf(rest) == DataOf(rest) && [] + FailuresOf(rest) == FailuresOf(rest);
  }

  lemma {:induction false} DataOfAppend<E>(a: seq<Item<E>>, b: seq<Item<E>>)
    ensures DataOf(a + b) == DataOf(a) + DataOf(b)
  {
    if a == [] {
      assert a + b == b;
    } else {
      assert (a + b)[1..] == a[1..] + b;
      DataOfAppend(a[1..], b);
    }
  }

  lemma {:induction false} FailuresOfAppend<E>(a: seq<Item<E>>, b: seq<Item<E>>)
    ensures FailuresOf(a + b) == FailuresOf(a) + FailuresOf(b)
  {
    if a == [] {
      assert a + b == b;
    } else {
      assert (a + b)[1..] == a[1..] + b;
      FailuresOfAppend(a[1..], b);
    }
  }

  lemma {:induction false} TakenSnoc<E>(items: seq<Item<E>>, n: nat)
    requires n < |items| && items[n].Data?
    ensures DataOf(items[..n + 1]) == DataOf(items[..n]) + [items[n].bytes]
    ensures Concat(DataOf(items[..n + 1])) == Concat(DataOf(items[..n])) + items[n].bytes
    ensures FailuresOf(items[..n + 1]) == FailuresOf(items[..n])
  {
    var head, last := items[..n], items[n];
    assert items[..n + 1] == head + [last] && [last] + [] == [last];
    DataOfCons(last, []);
    DataOfAppend(head, [last]);
    FailuresOfAppend(head, [last]);
    assert [last.bytes] + [] == [last.bytes] && FailuresOf(head) + [] == FailuresOf(head);
    ConcatSnoc(DataOf(head), last.bytes);
  }

  lemma {:induction false} DataOfWrap<E>(frames: seq<Bytes>)
    ensures DataOf(Wrap<E>(frames)) == frames && FailuresOf(Wrap<E>(frames)) == []
  {
    if frames != [] {
      assert Wrap<E>(frames)[1..] == Wrap<E>(frames[1..]);
      DataOfWrap<E>(frames[1..]);
    }
  }

  /** Cutting in two steps is cutting at once. */
  lemma {:induction false} CutTwice(t: Bytes, rest: Bytes, size: nat)
    requires size > 0
    ensures Chunks(t + rest, size) == Full(t, size) + Chunks(Left(t, size) + rest, size)
    ensures Full(t + rest, size) == Full(t, size) + Full(Left(t, size) + rest, size)
    ensures Left(t + rest, size) == Left(Left(t, size) + rest, size)
    decreases |t|
  {
    if |t| >= size {
      var s := t + rest;
      assert s[..size] == t[..size] && s[size..] == t[size..] + rest;
      CutTwice(t[size..], rest, size);
    }
  }

  lemma {:induction false} FirstBytes<E>(items: seq<Item<E>>)
    requires items != []
    ensures Concat(DataOf(items)) == (if items[0].Data? then items[0].bytes else []) + Concat(DataOf(items[1..]))
  {
    if items[0].Data? {
      assert DataOf(items) == [items[0].bytes] + DataOf(items[1..]);
      assert DataOf(items)[1..] == DataOf(items[1..]);
    } else {
      assert DataOf(items) == [] + DataOf(items[1..]) == DataOf(items[1..]);
      assert [] + Concat(DataOf(items[1..])) == Concat(DataOf(items[1..]));
    }
  }

  /** The frames are the chunks of all bytes together. */
  lemma {:induction false} FramedData<E>(tail: Bytes, items: seq<Item<E>>, size: nat)
    requires |tail| < size
    ensures DataOf(Framed(tail, items, size)) == Chunks(tail + Concat(DataOf(items)), size)
    decreases |items|
  {
    if items == [] {
      assert tail + [] == tail;
    } else {
      var rest := Concat(DataOf(items[1..]));
      FirstBytes(items);
      match items[0]
      case Failure(e) =>
        FramedData(tail, items[1..], size);
        DataOfAppend([Failure(e)], Framed(tail, items[1..], size));
        assert [] + rest == rest;
      case Data(b) =>
        var t := tail + b;
        FramedData(Left(t, size), items[1..], size);
        DataOfAppend(Wrap(Full(t, size)), Framed(Left(t, size), items[1..], size));
        DataOfWrap<E>(Full(t, size));
        CutTwice(t, rest, size);
        Assoc(tail, b, rest);
    }
  }

  /** The errors are those of the input, in order. */
  lemma {:induction false} FramedFailures<E>(tail: Bytes, items: seq<Item<E>>, size: nat)
    requires |tail| < size
    ensures FailuresOf(Framed(tail, items, size)) == FailuresOf(items)
    decreases |items|
  {
    if items != [] {
      match items[0]
      case Failure(e) =>
        FramedFailures(tail, items[1..], size);
        FailuresOfAppend([Failure(e)], Framed(tail, items[1..], size));
      case Data(b) =>
        var t := tail + b;
        FramedFailures(Left(t, size), items[1..], size);
        FailuresOfAppend(Wrap(Full(t, size)), Framed(Left(t, size), items[1..], size));
        DataOfWrap<E>(Full(t, size));
    }
  }

  lemma {:induction false} CleanIsWrapped<E>(items: seq<Item<E>>)
    requires FailuresOf(items) == []
    ensures items == Wrap(DataOf(items))
  {
    if items != [] {
      CleanIsWrapped(items[1..]);
      assert items == [items[0]] + items[1..];
    }
  }

  /** For an error-free stream, framing is chunking of the concatenation, however it was cut. */
  lemma {:induction false} FramedClean<E>(items: seq<Item<E>>, size: nat)
    requires size > 0 && FailuresOf(items) == []
    ensures Framed([], items, size) == Wrap(Chunks(Concat(DataOf(items)), size))
  {
    FramedData([], items, size);
    FramedFailures([], items, size);
    assert [] + Concat(DataOf(items)) == Concat(DataOf(items));
    CleanIsWrapped(Framed([], items, size));
  }

  // ----- An error is passed on at once, after exactly the frames already complete

  function Emitted<E>(tail: Bytes, items: seq<Item<E>>, size: nat): (r: (seq<Item<E>>, Bytes))
    requires |tail| < size
    ensures |r.1| < size
    decreases |items|
  {
    if items == [] then ([], tail)
    else
      match items[0]
      case Failure(e) =>
        var (out, left) := Emitted(tail, items[1..], size);
        ([Failure(e)] + out, left)
      case Data(b) =>
        var (out, left) := Emitted(Left(tail + b, size), items[1..], size);
        (Wrap(Full(tail + b, size)) + out, left)
  }

  lemma {:induction false} EmittedFrames<E>(tail: Bytes, items: seq<Item<E>>, size: nat)
    requires |tail| < size
    ensures var (out, left) := Emitted(tail, items, size);
            DataOf(out) == Full(tail + Concat(DataOf(items)), size)
    decreases |items|
  {
    if items == [] {
      assert tail + [] == tail;
    } else {
      var rest := Concat(DataOf(items[1..]));
      FirstBytes(items);
      match items[0]
      case Failure(e) =>
        EmittedFrames(tail, items[1..], size);
        DataOfAppend([Failure(e)], Emitted(tail, items[1..], size).0);
        assert [] + rest == rest;
      case Data(b) =>
        var t := tail + b;
        EmittedFrames(Left(t, size), items[1..], size);
        DataOfAppend(Wrap(Full(t, size)), Emitted(Left(t, size), items[1..], size).0);
        DataOfWrap<E>(Full(t, size));
        CutTwice(t, rest, size);
        Assoc(tail, b, rest);
    }
  }

  lemma {:induction false} FramedAfter<E>(tail: Bytes, a: seq<Item<E>>, b: seq<Item<E>>, size: nat)
    requires |tail| < size
    ensures var (out, left) := Emitted(tail, a, size);
            Framed(tail, a + b, size) == out + Framed(left, b, size)
    decreases |a|
  {
    if a == [] {
      assert a + b == b;
    } else {
      assert (a + b)[1..] == a[1..] + b;
      match a[0]
      case Failure(e) =>
        FramedAfter(tail, a[1..], b, size);
        var (out, left) := Emitted(tail, a[1..], size);
        Assoc([Failure(e)], out, Framed(left, b, size));
      case Data(x) =>
        var t := Left(tail + x, size);
        FramedAfter(t, a[1..], b, size);
        var (out, left) := Emitted(t, a[1..], size);
        Assoc(Wrap(Full(tail + x, size)), out, Framed(left, b, size));
    }
  }

  /** The error after `a` comes out after exactly the frames that `a` completes. */
  lemma {:induction false} FailurePosition<E>(
      a: seq<Item<E>>, e: E, b: seq<Item<E>>, size: nat) returns (before: seq<Item<E>>)
    requires size > 0
    ensures before + [Failure(e)] <= Framed([], a + [Failure(e)] + b, size)
    ensures DataOf(before) == Full(Concat(DataOf(a)), size)
  {
    var (out, left) := Emitted([], a, size);
    before := out;
    EmittedFrames([], a, size);
    assert [] + Concat(DataOf(a)) == Concat(DataOf(a));
    Assoc(a, [Failure(e)], b);
    FramedAfter([], a, [Failure(e)] + b, size);
    assert ([Failure(e)] + b)[1..] == b;
    Assoc(out, [Failure(e)], Framed(left, b, size));
  }
}
