/** A URL download as the source of an add: bounded, measured and hashed while it streams. */
module UrlSource {
  import opened Prelude
  import opened Framing
  import AddOutcomes
  import AddResponse
  import Ndjson
  import StreamAdd

  datatype DownloadError = TooLarge | Stalled | CanceledDownload | Transport

  datatype SourceError =
    | SourceTooLarge | SourceIncomplete | Sha256Mismatch(measured: Bytes) | CanceledSource
    | Failed(cause: DownloadError)

  // ----- The bounded body

  /** What the download's next poll brings. */
  datatype Arrival = Frame(bytes: Bytes) | Finished | Error(error: DownloadError) | Idle | Cancel

  /** The frames before the first arrival that is not one. */
  function Head(arrivals: seq<Arrival>): seq<Bytes> {
    if arrivals == [] || !arrivals[0].Frame? then [] else [arrivals[0].bytes] + Head(arrivals[1..])
  }

  function HeadEnd(arrivals: seq<Arrival>): (r: Option<Arrival>)
    ensures r.Some? ==> !r.value.Frame?
  {
    if arrivals == [] then None else if arrivals[0].Frame? then HeadEnd(arrivals[1..]) else Some(arrivals[0])
  }

  /** A whole body: frames up to a proper end, within the limit. */
  ghost predicate Whole(arrivals: seq<Arrival>, limit: nat) {
    HeadEnd(arrivals) == Some(Finished) && |Concat(Head(arrivals))| <= limit
  }

  /** The error the body ends with, if any: the limit counts before the end does. */
  function Fault(arrivals: seq<Arrival>, limit: nat): seq<DownloadError> {
    if |Concat(Head(arrivals))| > limit then [TooLarge]
    else
      match HeadEnd(arrivals)
      case None => []
      case Some(end) =>
        if end.Error? then [end.error]
        else if end.Idle? then [Stalled]
        else if end.Cancel? then [CanceledDownload]
        else []
  }

  lemma {:induction false} HeadSnoc(arrivals: seq<Arrival>, i: nat)
    requires i < |arrivals| && HeadEnd(arrivals[..i]) == None
    ensures arrivals[i].Frame? ==>
              HeadEnd(arrivals[..i + 1]) == None && Head(arrivals[..i + 1]) == Head(arrivals[..i]) + [arrivals[i].bytes]
    ensures !arrivals[i].Frame? ==> HeadEnd(arrivals) == Some(arrivals[i]) && Head(arrivals) == Head(arrivals[..i])
  {
    if i == 0 {
      assert arrivals[..1] == [arrivals[0]];
      if arrivals[0].Frame? {
        assert [arrivals[0]][1..] == [];
      }
    } else {
      var rest := arrivals[1..];
      assert arrivals[..i][1..] == rest[..i - 1] && arrivals[..i + 1][1..] == rest[..i];
      HeadSnoc(rest, i - 1);
    }
  }

  lemma {:induction false} HeadGrows(arrivals: seq<Arrival>, i: nat)
    requires i <= |arrivals| && HeadEnd(arrivals[..i]) == None
    ensures |Concat(Head(arrivals[..i]))| <= |Concat(Head(arrivals))|
    ensures Head(arrivals[..i]) <= Head(arrivals)
  {
    if i > 0 {
      assert arrivals[..i][1..] == arrivals[1..][..i - 1];
      HeadGrows(arrivals[1..], i - 1);
      assert Head(arrivals)[1..] == Head(arrivals[1..]) && Head(arrivals[..i])[1..] == Head(arrivals[..i][1..]);
    }
  }

  /** `bounded_body`: the items it yields, and whether it came to an end. */
  method BoundedBody(arrivals: seq<Arrival>, maxBytes: nat) returns (items: seq<Item<DownloadError>>, ended: bool)
    ensures FailuresOf(items) == Fault(arrivals, maxBytes)
    ensures ended <==> HeadEnd(arrivals).Some? || |Concat(Head(arrivals))| > maxBytes
    ensures |Concat(DataOf(items))| <= maxBytes && Lead(items) == DataOf(items) <= Head(arrivals)
    ensures Whole(arrivals, maxBytes) ==> items == Wrap(Head(arrivals))
  {
    var downloaded := 0;
    items := [];
    assert arrivals[..|arrivals|] == arrivals;
    for i := 0 to |arrivals|
      invariant HeadEnd(arrivals[..i]) == None
      invariant items == Wrap(Head(arrivals[..i]))
      invariant downloaded == |Concat(Head(arrivals[..i]))| <= maxBytes
    {
      HeadSnoc(arrivals, i);
      HeadGrows(arrivals, i);
      DataOfWrap<DownloadError>(Head(arrivals[..i]));
      match arrivals[i] {
        case Cancel =>
          items := Broken(items, CanceledDownload);
          return items, true;
        case Error(e) =>
          items := Broken(items, e);
          return items, true;
        case Finished =>
          LeadOfWhole(items);
          return items, true;
        case Idle =>
          items := Broken(items, Stalled);
          return items, true;
        case Frame(bytes) =>
          ConcatSnoc(Head(arrivals[..i]), bytes);
          HeadGrows(arrivals, i + 1);
          if downloaded + |bytes| > maxBytes {
            items := Broken(items, TooLarge);
            return items, true;
          }
          downloaded := downloaded + |bytes|;
          items := items + [Data(bytes)];
      }
    }
    DataOfWrap<DownloadError>(Head(arrivals));
    LeadOfWhole(items);
    ended := false;
  }

  /** The download's last item is an error. */
  method Broken(items: seq<Item<DownloadError>>, e: DownloadError) returns (r: seq<Item<DownloadError>>)
    requires FailuresOf(items) == []
    ensures r == items + [Failure(e)]
    ensures FailuresOf(r) == [e] && DataOf(r) == DataOf(items) == Lead(r)
  {
    r := Ended(items, e);
    assert r[..|items|] == items;
    LeadOfClean(r, |items|);
  }

  /** The stream's last item is an error. */
  method Ended<E>(items: seq<Item<E>>, e: E) returns (r: seq<Item<E>>)
    ensures r == items + [Failure(e)]
    ensures FailuresOf(r) == FailuresOf(items) + [e] && DataOf(r) == DataOf(items)
  {
    r := items + [Failure(e)];
    FailuresOfAppend(items, [Failure(e)]);
    DataOfAppend(items, [Failure(e)]);
    assert [Failure(e)] + [] == [Failure(e)];
    DataOfCons(Failure(e), []);
    assert DataOf(items) + [] == DataOf(items) && [e] + [] == [e];
  }

  // ----- The measured stream

  /** What the job demands of the body, and the digest. `reported`: the phase change was accepted. */
  datatype Demand = Demand(
    maxBytes: nat, total: Option<nat>, expected: Option<Bytes>, sha256: Bytes -> Bytes, reported: bool)

  ghost predicate Meets(d: Demand, body: Bytes) {
    && |body| <= d.maxBytes
    && (d.total.Some? ==> d.total.value == |body|)
    && (d.expected.Some? ==> d.expected.value == d.sha256(body))
  }

  /** The data before the first error. */
  function Lead(frames: seq<Item<DownloadError>>): seq<Bytes> {
    if frames == [] || frames[0].Failure? then [] else [frames[0].bytes] + Lead(frames[1..])
  }

  /** The error the measured stream ends with, if any. */
  function MeasureFault(d: Demand, frames: seq<Item<DownloadError>>, ends: bool): seq<SourceError> {
    var body := Concat(Lead(frames));
    if |body| > d.maxBytes then [SourceTooLarge]
    else if FailuresOf(frames) != [] then [Failed(FailuresOf(frames)[0])]
    else if !ends then []
    else if d.total.Some? && d.total.value != |body| then [SourceIncomplete]
    else if d.expected.Some? && d.expected.value != d.sha256(body) then [Sha256Mismatch(d.sha256(body))]
    else if !d.reported then [CanceledSource]
    else []
  }

  lemma {:induction false} LeadOfClean(frames: seq<Item<DownloadError>>, i: nat)
    requires i <= |frames| && FailuresOf(frames[..i]) == []
    ensures DataOf(frames[..i]) <= Lead(frames)
    ensures i == |frames| ==> Lead(frames) == DataOf(frames)
    ensures i < |frames| && frames[i].Failure? ==>
              && Lead(frames) == DataOf(frames[..i])
              && FailuresOf(frames) != [] && FailuresOf(frames)[0] == frames[i].error
  {
    if i > 0 {
      var rest := frames[1..];
      assert frames[..i][1..] == rest[..i - 1];
      LeadOfClean(rest, i - 1);
    } else if i == |frames| {
      assert frames == [];
    }
  }

  lemma {:induction false} LeadOfWhole(frames: seq<Item<DownloadError>>)
    requires FailuresOf(frames) == []
    ensures Lead(frames) == DataOf(frames)
  {
    assert frames[..|frames|] == frames;
    LeadOfClean(frames, |frames|);
  }

  lemma {:induction false} ConcatPrefix(a: seq<Bytes>, b: seq<Bytes>)
    requires a <= b
    ensures Concat(a) <= Concat(b)
  {
    assert b == a + b[|a|..];
    ConcatAppend(a, b[|a|..]);
  }

  /** The fault is the first demand that is not met, so none is left exactly when all are met. */
  lemma {:induction false} NoFaultExactly(d: Demand, frames: seq<Item<DownloadError>>)
    ensures MeasureFault(d, frames, true) == []
            <==> FailuresOf(frames) == [] && Meets(d, Concat(DataOf(frames))) && d.reported
  {
    if FailuresOf(frames) == [] {
      assert frames[..|frames|] == frames;
      LeadOfClean(frames, |frames|);
    }
  }

  /** Counting, hashing and passing on, until the body ends or the stream fails. */
  method MeasureBody(d: Demand, frames: seq<Item<DownloadError>>)
    returns (items: seq<Item<SourceError>>, hashed: Bytes, failed: bool)
    ensures failed ==> FailuresOf(items) == MeasureFault(d, frames, true) == MeasureFault(d, frames, false) != []
    ensures !failed ==>
              && FailuresOf(items) == [] && FailuresOf(frames) == []
              && DataOf(items) == DataOf(frames) == Lead(frames)
    ensures !failed ==> hashed == Concat(DataOf(frames)) && |hashed| <= d.maxBytes
  {
    var size: nat := 0;
    items, hashed := [], [];
    assert frames[..|frames|] == frames;
    for i := 0 to |frames|
      invariant FailuresOf(items) == [] && FailuresOf(frames[..i]) == []
      invariant DataOf(items) == DataOf(frames[..i])
      invariant hashed == Concat(DataOf(frames[..i])) && size == |hashed| <= d.maxBytes
    {
      LeadOfClean(frames, i);
      match frames[i] {
        case Failure(e) =>
          items := Ended(items, Failed(e));
          return items, hashed, true;
        case Data(bytes) =>
          TakenSnoc(frames, i);
          LeadOfClean(frames, i + 1);
          ConcatPrefix(DataOf(frames[..i + 1]), Lead(frames));
          if size + |bytes| > d.maxBytes {
            items := Ended(items, SourceTooLarge);
            return items, hashed, true;
          }
          size := size + |bytes|;
          hashed := hashed + bytes;
          items := Passed(items, bytes);
      }
    }
    LeadOfClean(frames, |frames|);
    failed := false;
  }

  /**
   The stream handed to the add, whether it ends, and the measurement, which is made exactly when the
   stream ends without an error; then nothing but the body was yielded.
   */
  method Measure(d: Demand, frames: seq<Item<DownloadError>>, ends: bool)
    returns (items: seq<Item<SourceError>>, ended: bool, measured: Option<(nat, Bytes)>)
    ensures FailuresOf(items) == MeasureFault(d, frames, ends)
    ensures ended <==> ends || MeasureFault(d, frames, ends) != []
    ensures measured.Some? <==> ended && FailuresOf(items) == []
    ensures measured.Some? ==>
              var body := Concat(DataOf(frames));
              measured.value == (|body|, d.sha256(body)) && DataOf(items) == DataOf(frames)
  {
    var hashed, failed;
    items, hashed, failed := MeasureBody(d, frames);
    if failed {
      return items, true, None;
    }
    if !ends {
      return items, false, None;
    }
    if d.total.Some? && d.total.value != |hashed| {
      items := Ended(items, SourceIncomplete);
      return items, true, None;
    }
    var digest := d.sha256(hashed);
    if d.expected.Some? && digest != d.expected.value {
      items := Ended(items, Sha256Mismatch(digest));
      return items, true, None;
    }
    if !d.reported {
      items := Ended(items, CanceledSource);
      return items, true, None;
    }
    return items, true, Some((|hashed|, digest));
  }

  method Passed<E>(items: seq<Item<E>>, bytes: Bytes) returns (r: seq<Item<E>>)
    ensures r == items + [Data(bytes)]
    ensures FailuresOf(r) == FailuresOf(items) && DataOf(r) == DataOf(items) + [bytes]
  {
    r := items + [Data(bytes)];
    TakenSnoc(r, |items|);
    assert r[..|items|] == items && r[..|items| + 1] == r;
  }

  // ----- Who is to blame

  /** Why the download itself ends with an error. */
  ghost predicate DownloadBlamed(arrivals: seq<Arrival>, limit: nat, e: DownloadError) {
    || HeadEnd(arrivals) == Some(Error(e))
    || (e.TooLarge? && |Concat(Head(arrivals))| > limit)
    || (e.Stalled? && HeadEnd(arrivals) == Some(Idle))
    || (e.CanceledDownload? && HeadEnd(arrivals) == Some(Cancel))
  }

  /** Why the measured source ends with an error: the download's own, or the first demand that is not met. */
  ghost predicate Blamed(d: Demand, arrivals: seq<Arrival>, limit: nat, e: SourceError) {
    var body := Concat(Head(arrivals));
    match e
    case SourceTooLarge => |body| > d.maxBytes
    case Failed(cause) => DownloadBlamed(arrivals, limit, cause)
    case SourceIncomplete =>
      Whole(arrivals, limit) && |body| <= d.maxBytes && d.total.Some? && d.total.value != |body|
    case Sha256Mismatch(measured) =>
      && Whole(arrivals, limit) && Meets(d.(expected := None), body)
      && d.expected.Some? && d.expected.value != measured && measured == d.sha256(body)
    case CanceledSource => Whole(arrivals, limit) && Meets(d, body) && !d.reported
  }

  lemma {:induction false} FaultBlames(arrivals: seq<Arrival>, limit: nat, e: DownloadError)
    requires e in Fault(arrivals, limit)
    ensures DownloadBlamed(arrivals, limit, e)
  {
  }

  /** What is known of a bounded body. */
  ghost predicate Bounded(arrivals: seq<Arrival>, limit: nat, body: seq<Item<DownloadError>>, ended: bool) {
    && FailuresOf(body) == Fault(arrivals, limit) && Lead(body) == DataOf(body) <= Head(arrivals)
    && (ended <==> HeadEnd(arrivals).Some? || |Concat(Head(arrivals))| > limit)
    && (Whole(arrivals, limit) ==> body == Wrap(Head(arrivals)))
  }

  /** Without an error of its own, a download that ended is whole. */
  lemma {:induction false} EndedIsWhole(
      arrivals: seq<Arrival>, limit: nat, body: seq<Item<DownloadError>>, ended: bool)
    requires Bounded(arrivals, limit, body, ended) && FailuresOf(body) == [] && ended
    ensures Whole(arrivals, limit) && DataOf(body) == Head(arrivals)
  {
    DataOfWrap<DownloadError>(Head(arrivals));
  }

  lemma {:induction false} MeasureBlames(
      d: Demand, arrivals: seq<Arrival>, limit: nat, body: seq<Item<DownloadError>>, ended: bool, e: SourceError)
    requires Bounded(arrivals, limit, body, ended) && e in MeasureFault(d, body, ended)
    ensures Blamed(d, arrivals, limit, e)
  {
    ConcatPrefix(DataOf(body), Head(arrivals));
    if |Concat(Lead(body))| <= d.maxBytes {
      if FailuresOf(body) != [] {
        FaultBlames(arrivals, limit, FailuresOf(body)[0]);
      } else if ended {
        EndedIsWhole(arrivals, limit, body, ended);
      }
    }
  }

  /** An error of the source given to an add is one of its failures. */
  lemma {:induction false} FailsWithFailure<E>(items: seq<Item<E>>, e: E)
    requires AddOutcomes.FailsWith(items, e)
    ensures e in FailuresOf(items)
  {
    var i :| 0 <= i < |items| && items[i] == Failure(e) && FailuresOf(items[..i]) == [];
    var rest := items[i + 1..];
    assert items == items[..i] + ([Failure(e)] + rest);
    FailuresOfAppend(items[..i], [Failure(e)] + rest);
    DataOfCons(Failure(e), rest);
  }

  // ----- The fetch

  datatype Fetch = Verified(cid: Bytes, size: nat, sha256: Bytes) | Refused(error: FetchError) | Unfinished

  datatype FetchError = OfSource(error: SourceError) | KuboTransport | CidUnavailable | FetchCanceled

  function OfAdd(e: AddResponse.AddError<SourceError>): FetchError {
    match e
    case Source(error) => OfSource(error)
    case Kubo(_) => KuboTransport
    case Canceled => FetchCanceled
  }

  /** What follows the add: a cancellation before, how the root parses, the pin, and a cancellation after it. */
  datatype Aftermath = Aftermath(
    canceledBefore: bool, parse: Bytes -> Option<Bytes>, pinError: Option<FetchError>, canceledAfter: bool)

  /** The response side of the add. */
  datatype Response = Response(
    status: StreamAdd.Status, frames: seq<Bytes>, end: AddResponse.End, world: AddResponse.World)

  /** If neither stage of the download failed, the download was whole. */
  lemma {:induction false} CleanIsWhole(
      d: Demand, arrivals: seq<Arrival>, limit: nat, body: seq<Item<DownloadError>>, ended: bool)
    requires FailuresOf(body) == Fault(arrivals, limit)
    requires ended <==> HeadEnd(arrivals).Some? || |Concat(Head(arrivals))| > limit
    requires Whole(arrivals, limit) ==> body == Wrap(Head(arrivals))
    requires MeasureFault(d, body, ended) == []
    ensures ended ==> Whole(arrivals, limit) && DataOf(body) == Head(arrivals) && Meets(d, Concat(DataOf(body)))
  {
    if ended {
      NoFaultExactly(d, body);
      DataOfWrap<DownloadError>(Head(arrivals));
    }
  }

  /** The response was accepted as a whole, and `cid` is the parsed root of its last record. */
  ghost predicate Answered(response: Response, after: Aftermath, cid: Bytes) {
    var lines := Ndjson.Lines(Concat(response.frames));
    var records := Ndjson.Records(lines);
    && response.status.Success? && response.end == AddResponse.Eof
    && Ndjson.Short(lines) && AddResponse.Acceptable(response.world, records)
    && records != [] && AddResponse.IsRoot(response.world, records[|records| - 1])
    && after.parse(AddResponse.Root(response.world, records[|records| - 1]).cid) == Some(cid)
  }

  type Added = Result<AddResponse.AddResult, AddResponse.AddError<SourceError>>

  /** The add as the fetch starts it when nothing is wrong with the download. */
  function CleanAdd(arrivals: seq<Arrival>, response: Response): StreamAdd.Env<SourceError> {
    StreamAdd.Env(Wrap(Head(arrivals)), true, response.status, response.frames, response.end, response.world)
  }

  /** What the run of an add returned, if it returned. */
  function ReturnedBy(env: StreamAdd.Env<SourceError>, run: seq<StreamAdd.Action>): Option<Added> {
    match StreamAdd.Run(env, run)
    case Some(s) => if s.phase.Returned? then Some(s.phase.outcome) else None
    case None => None
  }

  /** Nothing is wrong with the download: it is whole and meets every demand. */
  ghost predicate Clean(d: Demand, arrivals: seq<Arrival>, limit: nat) {
    Whole(arrivals, limit) && Meets(d, Concat(Head(arrivals))) && d.reported
  }

  /** Nothing goes wrong after the add. */
  ghost predicate Settles(after: Aftermath, added: AddResponse.AddResult) {
    && !after.canceledBefore && after.parse(added.cid).Some? && after.pinError == None && !after.canceledAfter
  }

  /** Why a fetch that got as far as an add is refused; after a good add, the first thing that goes wrong. */
  ghost predicate RefusedFor(added: Added, after: Aftermath, e: FetchError) {
    match added
    case Err(Source(error)) => e == OfSource(error)
    case Err(Kubo(_)) => e == KuboTransport
    case Err(Canceled) => e == FetchCanceled
    case Ok(r) =>
      || (after.canceledBefore && e == FetchCanceled)
      || (!after.canceledBefore && after.parse(r.cid) == None && e == KuboTransport)
      || (!after.canceledBefore && after.parse(r.cid).Some? && after.pinError == Some(e))
      || (&& !after.canceledBefore && after.parse(r.cid).Some? && after.pinError == None
          && after.canceledAfter && e == FetchCanceled)
  }

  lemma {:induction false} CleanIsWrap<E>(items: seq<Item<E>>)
    requires FailuresOf(items) == []
    ensures items == Wrap(DataOf(items))
  {
    if items != [] {
      assert items == [items[0]] + items[1..];
      CleanIsWrap(items[1..]);
    }
  }

  /** A clean download is handed to the add as it is. */
  lemma {:induction false} CleanStarts(
      d: Demand, arrivals: seq<Arrival>, limit: nat, body: seq<Item<DownloadError>>, items: seq<Item<SourceError>>)
    requires Clean(d, arrivals, limit) && body == Wrap(Head(arrivals)) && FailuresOf(body) == []
    requires FailuresOf(items) == MeasureFault(d, body, true)
    requires FailuresOf(items) == [] ==> DataOf(items) == DataOf(body)
    ensures items == Wrap(Head(arrivals))
  {
    DataOfWrap<DownloadError>(Head(arrivals));
    NoFaultExactly(d, body);
    CleanIsWrap(items);
  }

  /**
   The URL branch of `fetch_inner` over any run of the add, which `added` tells the outcome of. The source is
   verified exactly when the add succeeded and nothing went wrong after it. It is then the whole download: its
   size and digest are those of the body, which was all sent, meets the demands and is in bounds; and its CID is
   the parsed root of the accepted response. Every refusal has its cause.
   */
  method FetchUrl(
      d: Demand, arrivals: seq<Arrival>, limit: nat, response: Response, run: seq<StreamAdd.Action>, after: Aftermath)
    returns (r: Fetch, sent: seq<Bytes>, added: Option<Added>)
    ensures d.total.Some? && d.total.value > d.maxBytes ==>
              r == Refused(OfSource(SourceTooLarge)) && sent == [] && added == None
    ensures !(d.total.Some? && d.total.value > d.maxBytes) ==>
              && (r.Unfinished? <==> added == None)
              && (r.Refused? ==> RefusedFor(added.value, after, r.error))
              && (Clean(d, arrivals, limit) ==> added == ReturnedBy(CleanAdd(arrivals, response), run))
    ensures added.Some? && added.value.Err? && added.value.error.Source? ==>
              Blamed(d, arrivals, limit, added.value.error.error)
    ensures r.Verified? <==> added.Some? && added.value.Ok? && Settles(after, added.value.value)
    ensures r.Verified? ==>
              var body := Concat(Head(arrivals));
              && Clean(d, arrivals, limit) && r.size == |body| && r.sha256 == d.sha256(body)
              && Concat(sent) == body && StreamAdd.Sliced(sent)
              && Answered(response, after, r.cid) && after.parse(added.value.value.cid) == Some(r.cid)
  {
    sent, added := [], None;
    if d.total.Some? && d.total.value > d.maxBytes {
      return Refused(OfSource(SourceTooLarge)), sent, added;
    }
    var body, bodyEnds := BoundedBody(arrivals, limit);
    var items, ends, measured := Measure(d, body, bodyEnds);
    if Clean(d, arrivals, limit) {
      CleanStarts(d, arrivals, limit, body, items);
    }
    var env := StreamAdd.Env(items, ends, response.status, response.frames, response.end, response.world);
    added := ReturnedBy(env, run);
    if added == None {
      return Unfinished, sent, added;
    }
    sent := StreamAdd.Run(env, run).value.sent;
    match added.value {
      case Err(e) =>
        if e.Source? {
          SourceBlamed(d, arrivals, limit, body, bodyEnds, env, run, e.error);
        }
        return Refused(OfAdd(e)), sent, added;
      case Ok(result) =>
        StreamAdd.OkMeansComplete(env, run, result);
        CleanIsWhole(d, arrivals, limit, body, bodyEnds);
        r := Finish(after, result, measured);
    }
  }

  lemma {:induction false} SourceBlamed(
      d: Demand, arrivals: seq<Arrival>, limit: nat, body: seq<Item<DownloadError>>, bodyEnds: bool,
      env: StreamAdd.Env<SourceError>, run: seq<StreamAdd.Action>, e: SourceError)
    requires Bounded(arrivals, limit, body, bodyEnds) && FailuresOf(env.items) == MeasureFault(d, body, bodyEnds)
    requires ReturnedBy(env, run) == Some(Err(AddResponse.Source(e)))
    ensures Blamed(d, arrivals, limit, e)
  {
    AddOutcomes.GivenIsAllowed(env, run, Err(AddResponse.Source(e)));
    FailsWithFailure(env.items, e);
    MeasureBlames(d, arrivals, limit, body, bodyEnds, e);
  }

  /** The steps after a successful add. */
  method Finish(after: Aftermath, added: AddResponse.AddResult, measured: Option<(nat, Bytes)>) returns (r: Fetch)
    requires measured.Some?
    ensures r.Verified? <==> Settles(after, added)
    ensures r.Verified? ==>
              r.size == measured.value.0 && r.sha256 == measured.value.1 && after.parse(added.cid) == Some(r.cid)
    ensures !r.Unfinished? && (r.Refused? ==> RefusedFor(Ok(added), after, r.error))
  {
    if after.canceledBefore {
      return Refused(FetchCanceled);
    }
    var cid := after.parse(added.cid);
    if cid.None? {
      return Refused(KuboTransport);
    }
    if after.pinError.Some? {
      return Refused(after.pinError.value);
    }
    if after.canceledAfter {
      return Refused(FetchCanceled);
    }
    r := Verified(cid.value, measured.value.0, measured.value.1);
  }

  /** With a clean download and an accepted response, some run of the add succeeds with the response's root. */
  lemma {:induction false} CleanFetchSucceeds(
      d: Demand, arrivals: seq<Arrival>, limit: nat, response: Response, added: AddResponse.AddResult)
    requires Clean(d, arrivals, limit) && response.status.Success?
    requires AddResponse.Verdict<SourceError>(response.world, response.frames, response.end) == Ok(added)
    ensures exists run: seq<StreamAdd.Action> :: ReturnedBy(CleanAdd(arrivals, response), run) == Some(Ok(added))
  {
    var env := CleanAdd(arrivals, response);
    DataOfWrap<SourceError>(Head(arrivals));
    var run := StreamAdd.CanReturn(env, added);
    assert ReturnedBy(env, run) == Some(Ok(added));
  }
}
