/** Reading the response of a Kubo add: progress counts, and a root record that must come last. */
module AddResponse {
  import opened Prelude
  import opened Ndjson

  datatype Reply = Reply(bytes: Option<nat>, hash: Option<Bytes>, size: Option<Bytes>)

  datatype AddResult = AddResult(cid: Bytes, size: Option<nat>)

  datatype Reason =
    | BadRecord | NotMonotonic | NoRoot | TooLongRecord | StreamFailed | ListenerGone
    | RequestFailed | BadStatus | RequestClosed

  datatype AddError<E> = Source(error: E) | Kubo(reason: Reason) | Canceled

  /** What becomes of the k-th progress event. */
  datatype Delivery = Delivered | Refused | CanceledInstead

  /** The outside world of one response: JSON, decimal numbers, and the progress listener. */
  datatype World = World(decode: Bytes -> Option<Reply>, number: Bytes -> Option<nat>, listener: nat -> Delivery)

  datatype Tally = Tally(counts: seq<nat>, last: nat, result: Option<AddResult>, root: bool)

  const START := Tally([], 0, None, false)

  // ----- One record

  /** What one record adds to the tally, or why it is refused. */
  function Process<E>(w: World, t: Tally, record: Bytes): Result<Tally, AddError<E>> {
    match w.decode(record)
    case None => Err(Kubo(BadRecord))
    case Some(reply) =>
      match Counted<E>(w, t, reply.bytes)
      case Err(e) => Err(e)
      case Ok(u) =>
        if reply.hash.None? then Ok(u.(root := false))
        else if reply.hash.value == [] then Err(Kubo(BadRecord))
        else if reply.size.None? then Ok(u.(result := Some(AddResult(reply.hash.value, None)), root := true))
        else if w.number(reply.size.value).None? then Err(Kubo(BadRecord))
        else Ok(u.(result := Some(AddResult(reply.hash.value, w.number(reply.size.value))), root := true))
  }

  function Counted<E>(w: World, t: Tally, bytes: Option<nat>): Result<Tally, AddError<E>> {
    if bytes.None? then Ok(t)
    else if bytes.value < t.last then Err(Kubo(NotMonotonic))
    else
      match w.listener(|t.counts|)
      case Delivered => Ok(t.(counts := t.counts + [bytes.value], last := bytes.value))
      case Refused => Err(Kubo(ListenerGone))
      case CanceledInstead => Err(Canceled)
  }

  /** `process_add_record` */
  method ProcessRecord<E>(w: World, t: Tally, record: Bytes) returns (r: Result<Tally, AddError<E>>)
    ensures r == Process(w, t, record)
  {
    var tally := t;
    var reply := w.decode(record);
    if reply.None? {
      return Err(Kubo(BadRecord));
    }
    if reply.value.bytes.Some? {
      var bytes := reply.value.bytes.value;
      if bytes < tally.last {
        return Err(Kubo(NotMonotonic));
      }
      tally := tally.(last := bytes);
      match w.listener(|tally.counts|) {
        case Delivered => tally := tally.(counts := tally.counts + [bytes]);
        case Refused => return Err(Kubo(ListenerGone));
        case CanceledInstead => return Err(Canceled);
      }
    }
    if reply.value.hash.Some? {
      if reply.value.hash.value == [] {
        return Err(Kubo(BadRecord));
      }
      var size: Option<nat> := None;
      if reply.value.size.Some? {
        size := w.number(reply.value.size.value);
        if size.None? {
          return Err(Kubo(BadRecord));
        }
      }
      tally := tally.(result := Some(AddResult(reply.value.hash.value, size)), root := true);
    } else {
      tally := tally.(root := false);
    }
    return Ok(tally);
  }

  // ----- All records

  function ProcessAll<E>(w: World, t: Tally, records: seq<Bytes>): Result<Tally, AddError<E>>
    decreases |records|
  {
    if records == [] then Ok(t)
    else
      match Process<E>(w, t, records[0])
      case Err(e) => Err(e)
      case Ok(u) => ProcessAll(w, u, records[1..])
  }

  lemma {:induction false} ProcessOne<E>(w: World, t: Tally, record: Bytes)
    ensures ProcessAll<E>(w, t, [record]) == Process(w, t, record)
  {
    assert [record][1..] == [];
  }

  lemma {:induction false} ProcessAllAppend<E>(w: World, t: Tally, a: seq<Bytes>, b: seq<Bytes>)
    ensures ProcessAll<E>(w, t, a + b)
            == (match ProcessAll<E>(w, t, a) case Err(e) => Err(e) case Ok(u) => ProcessAll<E>(w, u, b))
    decreases |a|
  {
    if a == [] {
      assert a + b == b;
    } else {
      assert (a + b)[1..] == a[1..] + b;
      if Process<E>(w, t, a[0]).Ok? {
        ProcessAllAppend<E>(w, Process<E>(w, t, a[0]).value, a[1..], b);
      }
    }
  }

  /** The end of the response stream. */
  datatype End = Eof | Broken | StoppedByCancel

  function EndError<E>(end: End): AddError<E>
    requires end != Eof
  {
    if end.StoppedByCancel? then Canceled else Kubo(StreamFailed)
  }

  /** What reading the frames up to the end gives. */
  function Verdict<E>(w: World, frames: seq<Bytes>, end: End): Result<AddResult, AddError<E>> {
    var fed := Feed([], Concat(frames));
    match ProcessAll<E>(w, START, fed.records)
    case Err(e) => Err(e)
    case Ok(t) =>
      if !fed.ok then Err(Kubo(TooLongRecord))
      else if end != Eof then Err(EndError(end))
      else Concluded(ProcessAll<E>(w, t, Record(fed.line)))
  }

  function Concluded<E>(r: Result<Tally, AddError<E>>): Result<AddResult, AddError<E>> {
    match r
    case Err(e) => Err(e)
    case Ok(t) => if t.root && t.result.Some? then Ok(t.result.value) else Err(Kubo(NoRoot))
  }

  /** The records of one frame, processed as they are found. */
  method ProcessFrame<E>(w: World, t: Tally, lines: NdjsonBuffer, frame: Bytes) returns (r: Result<Tally, AddError<E>>)
    requires lines.Valid() && lines.frame == None
    modifies lines
    ensures lines.Valid()
    ensures var fed := Feed(old(lines.line), frame);
            var processed := ProcessAll<E>(w, t, fed.records);
            && r == (if processed.Ok? && !fed.ok then Err(Kubo(TooLongRecord)) else processed)
            && (r.Ok? ==> lines.frame == None && lines.line == fed.line)
  {
    var pushed := lines.Push(frame);
    var tally := t;
    ghost var all := Feed(lines.line, frame);
    ghost var done: seq<Bytes> := [];
    assert lines.Pending() == frame && Before([], all) == all;
    while true
      invariant lines.Valid() && lines.frame.Some?
      invariant all == Before(done, Feed(lines.line, lines.Pending()))
      invariant ProcessAll<E>(w, t, done) == Ok(tally)
      decreases |lines.frame.value| - lines.frameOffset
    {
      var next := lines.NextRecord();
      if next.Err? {
        assert done + [] == done;
        return Err(Kubo(TooLongRecord));
      }
      if next.value.None? {
        assert done + [] == done;
        return Ok(tally);
      }
      var record := next.value.value;
      ghost var rest := Feed(lines.line, lines.Pending()).records;
      Assoc(done, [record], rest);
      ProcessAllAppend<E>(w, t, done, [record]);
      ProcessAllAppend<E>(w, t, done + [record], rest);
      done := done + [record];
      var processed := ProcessRecord<E>(w, tally, record);
      if processed.Err? {
        return processed;
      }
      tally := processed.value;
    }
  }

  /** One more frame, on the whole response read so far. */
  lemma {:induction false} FrameStep<E>(w: World, before: seq<Bytes>, line: Bytes, t: Tally, frame: Bytes)
    requires var fed := Feed([], Concat(before));
             fed.ok && fed.line == line && ProcessAll<E>(w, START, fed.records) == Ok(t)
    ensures var fed, more := Feed([], Concat(before + [frame])), Feed(line, frame);
            && fed.ok == more.ok && fed.line == more.line
            && ProcessAll<E>(w, START, fed.records) == ProcessAll<E>(w, t, more.records)
  {
    ConcatSnoc(before, frame);
    FeedAppend([], Concat(before), frame);
    ProcessAllAppend<E>(w, START, Feed([], Concat(before)).records, Feed(line, frame).records);
  }

  /** Later frames cannot undo a failure. */
  lemma {:induction false} FailedEarly<E>(w: World, before: seq<Bytes>, after: seq<Bytes>, end: End)
    requires var fed := Feed([], Concat(before)); ProcessAll<E>(w, START, fed.records).Err? || !fed.ok
    ensures Verdict<E>(w, before + after, end) == Verdict<E>(w, before, end)
  {
    var a, b := Concat(before), Concat(after);
    ConcatAppend(before, after);
    FeedAppend([], a, b);
    var f := Feed([], a);
    if f.ok {
      ProcessAllAppend<E>(w, START, f.records, Feed(f.line, b).records);
    }
  }

  lemma {:induction false} AcceptedSoFar<E>(w: World, before: seq<Bytes>, after: seq<Bytes>, end: End)
    requires Verdict<E>(w, before + after, end).Ok?
    ensures var fed := Feed([], Concat(before)); fed.ok && ProcessAll<E>(w, START, fed.records).Ok?
  {
    var fed := Feed([], Concat(before));
    if ProcessAll<E>(w, START, fed.records).Err? || !fed.ok {
      FailedEarly<E>(w, before, after, end);
    }
  }

  /** `parse_add_response` */
  method ParseAddResponse<E>(w: World, frames: seq<Bytes>, end: End) returns (r: Result<AddResult, AddError<E>>)
    ensures r == Verdict(w, frames, end)
  {
    var lines := new NdjsonBuffer();
    var tally := START;
    assert frames[..|frames|] == frames;
    for i := 0 to |frames|
      invariant lines.Valid() && lines.frame == None
      invariant var fed := Feed([], Concat(frames[..i]));
                fed.ok && fed.line == lines.line && ProcessAll<E>(w, START, fed.records) == Ok(tally)
    {
      FrameStep<E>(w, frames[..i], lines.line, tally, frames[i]);
      assert frames[..i] + [frames[i]] == frames[..i + 1];
      var processed := ProcessFrame<E>(w, tally, lines, frames[i]);
      if processed.Err? {
        FailedEarly<E>(w, frames[..i + 1], frames[i + 1..], end);
        assert frames[..i + 1] + frames[i + 1..] == frames;
        return Err(processed.error);
      }
      tally := processed.value;
    }
    if end != Eof {
      return Err(EndError(end));
    }
    var concluded := ProcessLast<E>(w, tally, lines);
    if concluded.Err? {
      return Err(concluded.error);
    }
    tally := concluded.value;
    if !tally.root || tally.result.None? {
      return Err(Kubo(NoRoot));
    }
    return Ok(tally.result.value);
  }

  /** The line that no newline ended. */
  method ProcessLast<E>(w: World, t: Tally, lines: NdjsonBuffer) returns (r: Result<Tally, AddError<E>>)
    requires lines.Valid()
    modifies lines
    ensures r == ProcessAll(w, t, Record(old(lines.line)))
  {
    var last := lines.Finish();
    if last.None? {
      return Ok(t);
    }
    ProcessOne<E>(w, t, last.value);
    r := ProcessRecord(w, t, last.value);
  }

  // ----- When a response is accepted

  predicate Wellformed(w: World, record: Bytes) {
    && w.decode(record).Some?
    && var reply := w.decode(record).value;
       reply.hash.Some? ==> reply.hash.value != [] && (reply.size.Some? ==> w.number(reply.size.value).Some?)
  }

  predicate IsRoot(w: World, record: Bytes) {
    w.decode(record).Some? && w.decode(record).value.hash.Some?
  }

  function Root(w: World, record: Bytes): AddResult
    requires IsRoot(w, record)
  {
    var reply := w.decode(record).value;
    AddResult(reply.hash.value, if reply.size.Some? then w.number(reply.size.value) else None)
  }

  /** The byte counts the records report, in order. */
  function Counts(w: World, records: seq<Bytes>): seq<nat> {
    if records == [] then []
    else Counts(w, records[..|records| - 1]) + Count(w, records[|records| - 1])
  }

  function Count(w: World, record: Bytes): seq<nat> {
    var reply := w.decode(record);
    if reply.Some? && reply.value.bytes.Some? then [reply.value.bytes.value] else []
  }

  function Last(counts: seq<nat>): nat {
    if counts == [] then 0 else counts[|counts| - 1]
  }

  ghost predicate Rising(counts: seq<nat>) {
    forall i, j :: 0 <= i < j < |counts| ==> counts[i] <= counts[j]
  }

  ghost predicate Heard(w: World, n: nat) {
    forall k: nat :: k < n ==> w.listener(k) == Delivered
  }

  ghost predicate Acceptable(w: World, records: seq<Bytes>) {
    && (forall i :: 0 <= i < |records| ==> Wellformed(w, records[i]))
    && Rising(Counts(w, records))
    && Heard(w, |Counts(w, records)|)
  }

  /** The tally says what was reported, and whether the last record was a root. */
  ghost predicate Tallied(w: World, records: seq<Bytes>, t: Tally) {
    && t.counts == Counts(w, records)
    && t.last == Last(t.counts)
    && t.root == (records != [] && IsRoot(w, records[|records| - 1]))
    && (t.root ==> t.result == Some(Root(w, records[|records| - 1])))
  }

  lemma {:induction false} RisingSnoc(counts: seq<nat>, n: nat)
    ensures Rising(counts + [n]) <==> Rising(counts) && Last(counts) <= n
  {
    var all := counts + [n];
    if Rising(all) {
      assert forall i :: 0 <= i < |counts| ==> all[i] == counts[i];
      assert counts != [] ==> all[|counts| - 1] <= all[|counts|];
    }
  }

  lemma {:induction false} HeardSnoc(w: World, n: nat)
    ensures Heard(w, n + 1) <==> Heard(w, n) && w.listener(n) == Delivered
  {
    if Heard(w, n + 1) {
      assert n < n + 1 ==> w.listener(n) == Delivered;
    }
  }

  lemma {:induction false} CountedExact<E>(w: World, t: Tally, record: Bytes)
    requires w.decode(record).Some? && t.last == Last(t.counts) && Rising(t.counts) && Heard(w, |t.counts|)
    ensures var counted, counts := Counted<E>(w, t, w.decode(record).value.bytes), t.counts + Count(w, record);
            && (counted.Ok? <==> Rising(counts) && Heard(w, |counts|))
            && (counted.Ok? ==> counted.value == t.(counts := counts, last := Last(counts)))
  {
    var bytes := w.decode(record).value.bytes;
    if bytes.Some? {
      RisingSnoc(t.counts, bytes.value);
      HeardSnoc(w, |t.counts|);
    } else {
      assert t.counts + [] == t.counts;
    }
  }

  lemma {:induction false} AcceptableSnoc(w: World, records: seq<Bytes>, record: Bytes)
    requires Acceptable(w, records)
    ensures var counts := Counts(w, records) + Count(w, record);
            && Counts(w, records + [record]) == counts
            && (Acceptable(w, records + [record]) <==> Wellformed(w, record) && Rising(counts) && Heard(w, |counts|))
  {
    var all := records + [record];
    assert all[..|all| - 1] == records && all[|all| - 1] == record;
    assert forall i :: 0 <= i < |records| ==> all[i] == records[i];
  }

  /** One more record: it is taken exactly when it keeps the response acceptable. */
  lemma {:induction false} ProcessExact<E>(w: World, records: seq<Bytes>, t: Tally, record: Bytes)
    requires Acceptable(w, records) && Tallied(w, records, t)
    ensures Process<E>(w, t, record).Ok? <==> Acceptable(w, records + [record])
    ensures Process<E>(w, t, record).Ok? ==> Tallied(w, records + [record], Process<E>(w, t, record).value)
  {
    AcceptableSnoc(w, records, record);
    if w.decode(record).Some? {
      CountedExact<E>(w, t, record);
    }
  }

  lemma {:induction false} AcceptablePrefix(w: World, records: seq<Bytes>)
    requires records != [] && Acceptable(w, records)
    ensures Acceptable(w, records[..|records| - 1])
  {
    var head := records[..|records| - 1];
    assert forall i :: 0 <= i < |head| ==> head[i] == records[i];
    assert Counts(w, head) <= Counts(w, records);
    assert forall i :: 0 <= i < |Counts(w, head)| ==> Counts(w, head)[i] == Counts(w, records)[i];
  }

  /** The records are all taken exactly when the list of them is acceptable. */
  lemma {:induction false} ProcessAllExact<E>(w: World, records: seq<Bytes>)
    ensures ProcessAll<E>(w, START, records).Ok? <==> Acceptable(w, records)
    ensures ProcessAll<E>(w, START, records).Ok? ==> Tallied(w, records, ProcessAll<E>(w, START, records).value)
  {
    if records != [] {
      var head, last := records[..|records| - 1], records[|records| - 1];
      assert records == head + [last];
      ProcessAllExact<E>(w, head);
      ProcessAllAppend<E>(w, START, head, [last]);
      if ProcessAll<E>(w, START, head).Ok? {
        ProcessExact<E>(w, head, ProcessAll<E>(w, START, head).value, last);
      } else if Acceptable(w, records) {
        AcceptablePrefix(w, records);
      }
    }
  }

  /**
   A response is accepted exactly when it ended, no line was too long, its records were acceptable
   and the last of them was a root, which is the result.
   */
  lemma {:induction false} VerdictExact<E>(w: World, frames: seq<Bytes>, end: End, r: AddResult)
    ensures var lines := Lines(Concat(frames));
            var records := Records(lines);
            Verdict<E>(w, frames, end) == Ok(r)
            <==> && end == Eof && Short(lines) && Acceptable(w, records)
                 && records != [] && IsRoot(w, records[|records| - 1]) && r == Root(w, records[|records| - 1])
  {
    var whole := Concat(frames);
    var fed := Feed([], whole);
    FeedIsParse([], whole);
    assert [] + whole == whole;
    ParseExactly(Lines(whole));
    ProcessAllAppend<E>(w, START, fed.records, Record(fed.line));
    ProcessAllExact<E>(w, Records(Lines(whole)));
  }

  // ----- Why a response is refused

  /** Why a record is refused after acceptable ones. */
  ghost predicate RefusedFor<E>(w: World, before: seq<Bytes>, record: Bytes, e: AddError<E>) {
    var n := |Counts(w, before)|;
    match e
    case Kubo(BadRecord) => !Wellformed(w, record)
    case Kubo(NotMonotonic) => Count(w, record) != [] && Count(w, record)[0] < Last(Counts(w, before))
    case Kubo(ListenerGone) => Count(w, record) != [] && w.listener(n) == Refused
    case Canceled => Count(w, record) != [] && w.listener(n) == CanceledInstead
    case _ => false
  }

  lemma {:induction false} RecordRefused<E>(w: World, before: seq<Bytes>, t: Tally, record: Bytes)
    requires Tallied(w, before, t) && Process<E>(w, t, record).Err?
    ensures RefusedFor(w, before, record, Process<E>(w, t, record).error)
  {
  }

  /** Some record is refused for this reason, after acceptable ones. */
  ghost predicate SomeRefused<E>(w: World, records: seq<Bytes>, e: AddError<E>) {
    exists i :: 0 <= i < |records| && Acceptable(w, records[..i]) && RefusedFor(w, records[..i], records[i], e)
  }

  lemma {:induction false} RecordsRefused<E>(w: World, records: seq<Bytes>)
    requires ProcessAll<E>(w, START, records).Err?
    ensures SomeRefused(w, records, ProcessAll<E>(w, START, records).error)
  {
    var head, last := records[..|records| - 1], records[|records| - 1];
    assert records == head + [last];
    ProcessAllAppend<E>(w, START, head, [last]);
    ProcessAllExact<E>(w, head);
    match ProcessAll<E>(w, START, head)
    case Ok(t) =>
      ProcessOne<E>(w, t, last);
      RecordRefused<E>(w, head, t, last);
      assert records[..|head|] == head && records[|head|] == last;
    case Err(e) =>
      RecordsRefused<E>(w, head);
      var i :| 0 <= i < |head| && Acceptable(w, head[..i]) && RefusedFor(w, head[..i], head[i], e);
      assert records[..i] == head[..i] && records[i] == head[i];
  }

  lemma {:induction false} StillRefused<E>(w: World, records: seq<Bytes>, all: seq<Bytes>, e: AddError<E>)
    requires SomeRefused(w, records, e) && records <= all
    ensures SomeRefused(w, all, e)
  {
    var i :| 0 <= i < |records| && Acceptable(w, records[..i]) && RefusedFor(w, records[..i], records[i], e);
    assert all[..i] == records[..i] && all[i] == records[i];
  }

  /** Why a whole response is refused: a record, a line over the limit, its end, or a last record that is no root. */
  ghost predicate ResponseRefusedFor<E>(w: World, frames: seq<Bytes>, end: End, e: AddError<E>) {
    var lines := Lines(Concat(frames));
    var records := Records(lines);
    || SomeRefused(w, records, e)
    || (e == Kubo(TooLongRecord) && !Short(lines))
    || (e == Kubo(StreamFailed) && end == Broken)
    || (e == Canceled && end == StoppedByCancel)
    || (&& e == Kubo(NoRoot) && end == Eof && Acceptable(w, records)
        && (records == [] || !IsRoot(w, records[|records| - 1])))
  }

  /** The records fed to the parser are the first ones of the response. */
  lemma {:induction false} FedAreFirst(lines: seq<Bytes>)
    requires lines != []
    ensures Parse(lines).records <= Records(lines)
  {
    if |lines[0]| <= MAX_RECORD && |lines| > 1 {
      FedAreFirst(lines[1..]);
    }
  }

  /** Every refusal of a response has its reason. */
  lemma {:induction false} VerdictRefused<E>(w: World, frames: seq<Bytes>, end: End)
    requires Verdict<E>(w, frames, end).Err?
    ensures ResponseRefusedFor(w, frames, end, Verdict<E>(w, frames, end).error)
  {
    var whole := Concat(frames);
    var lines, fed := Lines(whole), Feed([], whole);
    FeedIsParse([], whole);
    assert [] + whole == whole;
    ParseExactly(lines);
    FedAreFirst(lines);
    if ProcessAll<E>(w, START, fed.records).Err? {
      RecordsRefused<E>(w, fed.records);
      StillRefused<E>(w, fed.records, Records(lines), Verdict<E>(w, frames, end).error);
    } else if fed.ok && end == Eof {
      ProcessAllAppend<E>(w, START, fed.records, Record(fed.line));
      ConcludedRefused<E>(w, Records(lines));
    }
  }

  lemma {:induction false} ConcludedRefused<E>(w: World, records: seq<Bytes>)
    requires Concluded(ProcessAll<E>(w, START, records)).Err?
    ensures var e := Concluded(ProcessAll<E>(w, START, records)).error;
            || SomeRefused(w, records, e)
            || (&& e == Kubo(NoRoot) && Acceptable(w, records)
                && (records == [] || !IsRoot(w, records[|records| - 1])))
  {
    ProcessAllExact<E>(w, records);
    if ProcessAll<E>(w, START, records).Err? {
      RecordsRefused<E>(w, records);
    }
  }
}
