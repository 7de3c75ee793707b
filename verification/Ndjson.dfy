/**
 The incremental parser of newline-delimited responses. Its partner is the plain definition: cut
 the whole response at newlines, strip one carriage return per line and drop blank lines.
 */
module Ndjson {
  import opened Prelude
  import opened Cutting

  const MAX_RECORD: nat := 65536
  const NEWLINE: byte := 10
  const RETURN: byte := 13

  // ----- The plain definition

  /** The pieces of `s` between newlines; there is always a last one, which no newline ends. */
  function Lines(s: Bytes): (r: seq<Bytes>)
    ensures r != []
  {
    Cut(s, NEWLINE)
  }

  function Unlines(lines: seq<Bytes>): Bytes {
    Glue(lines, NEWLINE)
  }

  /** Cutting loses nothing and leaves no newline. */
  lemma {:induction false} LinesExact(s: Bytes)
    ensures Unlines(Lines(s)) == s
    ensures forall i :: 0 <= i < |Lines(s)| ==> 10 !in Lines(s)[i]
  {
    CutExact(s, NEWLINE);
  }

  predicate Blank(b: byte) {
    b == 32 || b == 9 || b == 10 || b == 12 || b == 13
  }

  function Stripped(line: Bytes): Bytes {
    if line != [] && line[|line| - 1] == RETURN then line[..|line| - 1] else line
  }

  predicate AllBlank(s: Bytes) {
    forall i :: 0 <= i < |s| ==> Blank(s[i])
  }

  /** The record in a line: none if the line is blank. */
  function Record(line: Bytes): seq<Bytes> {
    if AllBlank(Stripped(line)) then [] else [Stripped(line)]
  }

  /** A line is a record unless all its bytes are blanks; one carriage return at its end is not part of it. */
  lemma {:induction false} RecordExactly(line: Bytes)
    ensures (forall i :: 0 <= i < |line| ==> line[i] in {9, 10, 12, 13, 32}) ==> Record(line) == []
    ensures (exists i :: 0 <= i < |line| && line[i] !in {9, 10, 12, 13, 32}) ==>
              Record(line) == [if line[|line| - 1] == 13 then line[..|line| - 1] else line]
  {
    var text := Stripped(line);
    if i :| 0 <= i < |line| && line[i] !in {9, 10, 12, 13, 32} {
      assert line[i] != 13 && i < |text| && text[i] == line[i];
    }
  }

  /** A carriage return before the newline changes nothing. */
  lemma {:induction false} ReturnChangesNothing(line: Bytes)
    requires line == [] || line[|line| - 1] != 13
    ensures Record(line + [13]) == Record(line)
  {
    assert (line + [13])[..|line|] == line;
  }

  function Records(lines: seq<Bytes>): seq<Bytes> {
    if lines == [] then [] else Record(lines[0]) + Records(lines[1..])
  }

  predicate Short(lines: seq<Bytes>) {
    forall i :: 0 <= i < |lines| ==> |lines[i]| <= 65536
  }

  // ----- What the parser does with more bytes

  /** `records` came out, `line` is held; not `ok` once a line was too long. */
  datatype Fed = Fed(records: seq<Bytes>, line: Bytes, ok: bool)

  function Before(records: seq<Bytes>, f: Fed): Fed {
    Fed(records + f.records, f.line, f.ok)
  }

  function Feed(line: Bytes, s: Bytes): Fed
    decreases |s|
  {
    if s == [] then Fed([], line, true)
    else if s[0] == NEWLINE then Before(Record(line), Feed([], s[1..]))
    else if |line| == MAX_RECORD then Fed([], line, false)
    else Feed(line + [s[0]], s[1..])
  }

  datatype Error = Misuse | TooLong

  class NdjsonBuffer {
    var line: Bytes
    var frame: Option<Bytes>
    var frameOffset: nat

    ghost predicate Valid()
      reads this
    {
      && |line| <= MAX_RECORD
      && NEWLINE !in line
      && frameOffset <= (if frame.Some? then |frame.value| else 0)
    }

    /** The bytes taken from the network but not looked at. */
    ghost function Pending(): Bytes
      reads this
      requires Valid()
    {
      if frame.Some? then frame.value[frameOffset..] else []
    }

    constructor ()
      ensures Valid() && line == [] && frame == None
    {
      line, frame, frameOffset := [], None, 0;
    }

    method Push(next: Bytes) returns (r: Result<(), Error>)
      requires Valid()
      modifies this
      ensures Valid() && line == old(line)
      ensures if old(frame).Some? then r == Err(Misuse) && frame == old(frame) && frameOffset == old(frameOffset)
              else r == Ok(()) && frame == Some(next) && frameOffset == 0
    {
      if frame.Some? {
        return Err(Misuse);
      }
      frame := Some(next);
      frameOffset := 0;
      return Ok(());
    }

    method TakeLine() returns (r: Option<Bytes>)
      requires Valid()
      modifies this`line
      ensures Valid() && line == []
      ensures Record(old(line)) == (match r case Some(record) => [record] case None => [])
    {
      if line != [] && line[|line| - 1] == RETURN {
        line := line[..|line| - 1];
      }
      if AllBlank(line) {
        line := [];
        return None;
      }
      r := Some(line);
      line := [];
    }

    /** One record, or none once the frame is used up; what the parser yields in all does not change. */
    method NextRecord() returns (r: Result<Option<Bytes>, Error>)
      requires Valid()
      modifies this
      ensures Valid()
      ensures match r
              case Ok(Some(record)) =>
                && frame == old(frame) && frame.Some? && frameOffset > old(frameOffset)
                && Feed(old(line), old(Pending())) == Before([record], Feed(line, Pending()))
              case Ok(None) => frame == None && Feed(old(line), old(Pending())) == Fed([], line, true)
              case Err(e) => e == TooLong && Feed(old(line), old(Pending())) == Fed([], line, false)
    {
      if frame.None? {
        return Ok(None);
      }
      while frameOffset < |frame.value|
        invariant Valid() && frame == old(frame) && frame.Some?
        invariant old(frameOffset) <= frameOffset
        invariant Feed(old(line), old(Pending())) == Feed(line, Pending())
        decreases |frame.value| - frameOffset
      {
        ghost var pending, held := Pending(), line;
        var b := frame.value[frameOffset];
        frameOffset := frameOffset + 1;
        assert pending[0] == b && pending[1..] == Pending();
        if b == NEWLINE {
          var record := TakeLine();
          if record.Some? {
            return Ok(record);
          }
          assert Before([], Feed([], Pending())) == Feed([], Pending());
          continue;
        }
        if |line| == MAX_RECORD {
          return Err(TooLong);
        }
        line := line + [b];
      }
      assert Pending() == [];
      frame := None;
      frameOffset := 0;
      return Ok(None);
    }

    method Finish() returns (r: Option<Bytes>)
      requires Valid()
      modifies this`line
      ensures Valid() && line == []
      ensures Record(old(line)) == (match r case Some(record) => [record] case None => [])
    {
      r := TakeLine();
    }
  }

  // ----- Framing does not matter

  lemma {:induction false} FeedAppend(line: Bytes, a: Bytes, b: Bytes)
    ensures var f := Feed(line, a);
            Feed(line, a + b) == (if f.ok then Before(f.records, Feed(f.line, b)) else f)
    decreases |a|
  {
    if a == [] {
      assert a + b == b;
      assert Before([], Feed(line, b)) == Feed(line, b);
    } else {
      assert (a + b)[0] == a[0] && (a + b)[1..] == a[1..] + b;
      if a[0] == NEWLINE {
        FeedAppend([], a[1..], b);
        var f := Feed([], a[1..]);
        Assoc(Record(line), f.records, Feed(f.line, b).records);
      } else if |line| != MAX_RECORD {
        FeedAppend(line + [a[0]], a[1..], b);
      }
    }
  }

  lemma {:induction false} LinesPrefix(line: Bytes, s: Bytes)
    requires NEWLINE !in line
    ensures Lines(line + s) == [line + Lines(s)[0]] + Lines(s)[1..]
  {
    if line == [] {
      assert line + s == s;
      assert [] + Lines(s)[0] == Lines(s)[0];
    } else {
      assert (line + s)[1..] == line[1..] + s;
      LinesPrefix(line[1..], s);
      assert [line[0]] + (line[1..] + Lines(s)[0]) == line + Lines(s)[0];
      assert Lines(line[1..] + s)[1..] == Lines(s)[1..];
    }
  }

  /** What feeding does, said on lines. */
  function Parse(lines: seq<Bytes>): Fed
    requires lines != []
  {
    if |lines[0]| > MAX_RECORD then Fed([], lines[0][..MAX_RECORD], false)
    else if |lines| == 1 then Fed([], lines[0], true)
    else Before(Record(lines[0]), Parse(lines[1..]))
  }

  lemma {:induction false} FeedIsParse(line: Bytes, s: Bytes)
    requires NEWLINE !in line && |line| <= MAX_RECORD
    ensures Feed(line, s) == Parse(Lines(line + s))
    decreases |s|
  {
    LinesPrefix(line, s);
    var lines := Lines(line + s);
    if s == [] {
      assert line + [] == line;
      assert lines == [line];
    } else if s[0] == NEWLINE {
      FeedIsParse([], s[1..]);
      assert [] + s[1..] == s[1..];
      assert line + [] == line;
      assert lines[0] == line && lines[1..] == Lines(s[1..]);
    } else if |line| == MAX_RECORD {
      assert lines[0][..MAX_RECORD] == line;
    } else {
      FeedIsParse(line + [s[0]], s[1..]);
      assert line + [s[0]] + s[1..] == line + s;
    }
  }

  lemma {:induction false} ParseExactly(lines: seq<Bytes>)
    requires lines != []
    ensures Parse(lines).ok <==> Short(lines)
    ensures Short(lines) ==> Parse(lines).records + Record(Parse(lines).line) == Records(lines)
  {
    if |lines[0]| <= MAX_RECORD {
      if |lines| == 1 {
        assert Records(lines) == Record(lines[0]) + Records(lines[1..]) == Record(lines[0]);
        assert [] + Record(lines[0]) == Record(lines[0]);
      } else {
        ParseExactly(lines[1..]);
        var rest := Parse(lines[1..]);
        Assoc(Record(lines[0]), rest.records, Record(rest.line));
        assert Short(lines) <==> Short(lines[1..]) by {
          if Short(lines[1..]) {
            forall i | 0 <= i < |lines| ensures |lines[i]| <= MAX_RECORD {
              if i > 0 { assert lines[i] == lines[1..][i - 1]; }
            }
          }
        }
      }
    }
  }

  /** The first line over the limit. */
  ghost predicate FailsAt(lines: seq<Bytes>, k: nat) {
    k < |lines| && |lines[k]| > MAX_RECORD && Short(lines[..k])
  }

  lemma {:induction false} ParseFails(lines: seq<Bytes>) returns (k: nat)
    requires lines != [] && !Short(lines)
    ensures FailsAt(lines, k) && Parse(lines).records == Records(lines[..k])
  {
    k := 0;
    if |lines[0]| <= MAX_RECORD {
      var rest := lines[1..];
      assert !Short(rest) by {
        var i :| 0 <= i < |lines| && |lines[i]| > MAX_RECORD;
        assert rest[i - 1] == lines[i];
      }
      k := ParseFails(rest);
      assert lines[..k + 1] == [lines[0]] + rest[..k];
      k := k + 1;
      assert lines[..k][1..] == rest[..k - 1];
    }
  }

  /** One pushed frame: every record it completes, in order. */
  method ReadFrame(lines: NdjsonBuffer, frame: Bytes) returns (records: seq<Bytes>, ok: bool)
    requires lines.Valid() && lines.frame == None
    modifies lines
    ensures lines.Valid() && Fed(records, lines.line, ok) == Feed(old(lines.line), frame)
    ensures ok ==> lines.frame == None
  {
    var pushed := lines.Push(frame);
    records, ok := [], true;
    ghost var all := Feed(lines.line, frame);
    assert lines.Pending() == frame && Before([], all) == all;
    while true
      invariant lines.Valid() && lines.frame.Some?
      invariant all == Before(records, Feed(lines.line, lines.Pending()))
      decreases |lines.frame.value| - lines.frameOffset
    {
      var next := lines.NextRecord();
      if next.Err? {
        assert records + [] == records;
        return records, false;
      }
      if next.value.None? {
        assert records + [] == records;
        break;
      }
      Assoc(records, [next.value.value], Feed(lines.line, lines.Pending()).records);
      records := records + [next.value.value];
    }
  }

  /**
   The reading loop and the last line after the end of the response: however the response was cut
   into frames, the records are those of its lines, and reading fails exactly on a line over the limit.
   */
  method ReadAll(frames: seq<Bytes>) returns (records: seq<Bytes>, ok: bool)
    ensures ok <==> Short(Lines(Concat(frames)))
    ensures ok ==> records == Records(Lines(Concat(frames)))
    ensures !ok ==> exists k: nat :: FailsAt(Lines(Concat(frames)), k) && records == Records(Lines(Concat(frames))[..k])
  {
    var lines := new NdjsonBuffer();
    records, ok := [], true;
    ghost var whole := Concat(frames);
    FeedIsParse([], whole);
    assert [] + whole == whole;
    ParseExactly(Lines(whole));
    assert frames[..|frames|] == frames;
    for i := 0 to |frames|
      invariant lines.Valid() && lines.frame == None
      invariant Feed([], Concat(frames[..i])) == Fed(records, lines.line, true)
    {
      ghost var held, before := lines.line, records;
      var more, fine := ReadFrame(lines, frames[i]);
      ConcatSnoc(frames[..i], frames[i]);
      assert frames[..i + 1] == frames[..i] + [frames[i]];
      FeedAppend([], Concat(frames[..i]), frames[i]);
      records := records + more;
      if !fine {
        Unfinished(frames, i + 1);
        ghost var k := ParseFails(Lines(whole));
        return records, false;
      }
    }
    var last := lines.Finish();
    if last.Some? {
      records := records + [last.value];
    } else {
      assert records + [] == records;
    }
  }

  /** A failure after some frames is a failure of the whole response, with the same records. */
  lemma {:induction false} Unfinished(frames: seq<Bytes>, n: nat)
    requires n <= |frames| && !Feed([], Concat(frames[..n])).ok
    ensures Feed([], Concat(frames)) == Feed([], Concat(frames[..n]))
  {
    assert frames == frames[..n] + frames[n..];
    ConcatAppend(frames[..n], frames[n..]);
    FeedAppend([], Concat(frames[..n]), Concat(frames[n..]));
  }
}
