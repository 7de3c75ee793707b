/**
 Streaming an object into Kubo: a producer feeding the request body through a one-place channel, the
 request itself, and the parser of its response, all raced against cancellation. A run is any list
 of actions of these parties; dropping the call ends the run where it is.
 */
module StreamAdd {
  import opened Prelude
  import opened Framing
  import opened AddResponse
  import Ndjson

  const ADD_CHUNK_BYTES: nat := 65536

  /** How the request resolves: a transport error, or a response status. */
  datatype Status = NoResponse | Rejected | Success

  /** Everything outside: the source (and whether it ever ends), the response, and its readers. */
  datatype Env<E> = Env(items: seq<Item<E>>, ends: bool, status: Status, frames: seq<Bytes>, end: End, world: World)

  datatype Outcome<E> = Complete | SourceFailed(error: E) | ReceiverClosed | ProducerCanceled

  datatype Producer<E> = Pulling | Sending(rest: Bytes) | Stopped(outcome: Outcome<E>)

  datatype Parser<E> = Reading(line: Bytes, tally: Tally) | Parsed(result: Result<AddResult, AddError<E>>)

  /** Which futures the caller is waiting for. */
  datatype Phase<E> =
    | Starting // the producer and the request
    | AwaitingHeaders // the request; the producer is complete
    | Racing // the producer and the parser
    | ParserLeft // the parser; the producer is complete
    | ProducerLeft(result: AddResult) // the producer; the parser is done
    | Returned(outcome: Result<AddResult, AddError<E>>)

  /** `sent` went into the channel and the first `received` of it came out; `read` counts the parser's reads. */
  datatype State<E> = State(
    phase: Phase<E>, producer: Producer<E>, consumed: nat, sent: seq<Bytes>, received: nat, open: bool,
    canceled: bool, parser: Parser<E>, read: nat)

  function Initial<E>(): State<E> {
    State(Starting, Pulling, 0, [], 0, true, false, Reading([], START), 0)
  }

  // ----- The producer

  function AfterSend<E>(rest: Bytes): Producer<E> {
    if rest == [] then Pulling else Sending(rest)
  }

  /** The next source item, or its end. */
  function Pull<E>(env: Env<E>, s: State<E>): Option<State<E>>
    requires s.producer.Pulling?
  {
    if s.consumed < |env.items| then
      match env.items[s.consumed]
      case Failure(e) => Some(s.(producer := Stopped(SourceFailed(e))))
      case Data(b) => Some(s.(producer := AfterSend(b), consumed := s.consumed + 1))
    else if s.consumed == |env.items| && env.ends then Some(s.(producer := Stopped(Complete)))
    else None
  }

  /** One slice into the channel, if the channel has room; or the news that the receiver is gone. */
  function Send<E>(s: State<E>): Option<State<E>>
    requires s.producer.Sending?
  {
    var rest := s.producer.rest;
    var n := if |rest| <= ADD_CHUNK_BYTES then |rest| else ADD_CHUNK_BYTES;
    if !s.open then Some(s.(producer := Stopped(ReceiverClosed)))
    else if |s.sent| <= s.received then Some(s.(producer := AfterSend(rest[n..]), sent := s.sent + [rest[..n]]))
    else None
  }

  function ProducerStep<E>(env: Env<E>, s: State<E>): Option<State<E>> {
    match s.producer
    case Pulling => Pull(env, s)
    case Sending(_) => Send(s)
    case Stopped(_) => None
  }

  // ----- The parser

  /** One response frame, or the end of the response. */
  function ParserNext<E>(env: Env<E>, line: Bytes, tally: Tally, read: nat): Parser<E> {
    if read < |env.frames| then
      var fed := Ndjson.Feed(line, env.frames[read]);
      match ProcessAll<E>(env.world, tally, fed.records)
      case Err(e) => Parsed(Err(e))
      case Ok(t) => if fed.ok then Reading(fed.line, t) else Parsed(Err(Kubo(TooLongRecord)))
    else if env.end != Eof then Parsed(Err(EndError(env.end)))
    else Parsed(Concluded(ProcessAll<E>(env.world, tally, Ndjson.Record(line))))
  }

  function ParserStep<E>(env: Env<E>, s: State<E>): Option<State<E>> {
    if s.parser.Parsed? then None
    else Some(s.(parser := ParserNext(env, s.parser.line, s.parser.tally, s.read), read := s.read + 1))
  }

  // ----- The caller

  function OfProducer<E>(outcome: Outcome<E>): AddError<E>
    requires outcome != Complete
  {
    match outcome
    case SourceFailed(e) => Source(e)
    case ReceiverClosed => Kubo(RequestClosed)
    case ProducerCanceled => Canceled
  }

  /** The request resolves: a transport error, a refusal, or a response to parse. */
  function RequestDone<E>(env: Env<E>, then': Phase<E>): Phase<E> {
    if env.status.NoResponse? then Returned(Err(Kubo(RequestFailed)))
    else if env.status.Rejected? then Returned(Err(Kubo(BadStatus)))
    else then'
  }

  /** The caller hears of the producer's end. */
  function HearProducer<E>(s: State<E>): Option<Phase<E>>
    requires s.producer.Stopped?
  {
    var outcome := s.producer.outcome;
    match s.phase
    case Starting => Some(if outcome == Complete then AwaitingHeaders else Returned(Err(OfProducer(outcome))))
    case Racing => Some(if outcome == Complete then ParserLeft else Returned(Err(OfProducer(outcome))))
    case ProducerLeft(r) => Some(Returned(if outcome == Complete then Ok(r) else Err(OfProducer(outcome))))
    case AwaitingHeaders => None
    case ParserLeft => None
    case Returned(_) => None
  }

  /** The caller hears of the parser's end. */
  function HearParser<E>(s: State<E>): Option<Phase<E>>
    requires s.parser.Parsed?
  {
    match s.phase
    case Racing => Some(match s.parser.result case Err(e) => Returned(Err(e)) case Ok(r) => ProducerLeft(r))
    case ParserLeft => Some(Returned(s.parser.result))
    case Starting => None
    case AwaitingHeaders => None
    case ProducerLeft(_) => None
    case Returned(_) => None
  }

  datatype Action =
    | RunProducer | CancelProducer | ProducerEnds
    | RunParser | CancelParser | ParserEnds
    | RequestResolves | BodyTakes | BodyDropped
    | Cancel | CallerCanceled

  predicate PollsProducer<E>(s: State<E>) {
    s.phase.Starting? || s.phase.Racing? || s.phase.ProducerLeft?
  }

  predicate PollsParser<E>(s: State<E>) {
    s.phase.Racing? || s.phase.ParserLeft?
  }

  /** What an action does, if it can happen at all. A future moves only while the caller polls it. */
  function Step<E>(env: Env<E>, s: State<E>, a: Action): Option<State<E>> {
    match a
    case RunProducer => if PollsProducer(s) then ProducerStep(env, s) else None
    case CancelProducer =>
      if PollsProducer(s) && s.canceled && !s.producer.Stopped?
      then Some(s.(producer := Stopped(ProducerCanceled)))
      else None
    case ProducerEnds =>
      if s.producer.Stopped? && HearProducer(s).Some? then Some(s.(phase := HearProducer(s).value)) else None
    case RunParser => if PollsParser(s) then ParserStep(env, s) else None
    case CancelParser =>
      if PollsParser(s) && s.canceled && s.parser.Reading? then Some(s.(parser := Parsed(Err(Canceled)))) else None
    case ParserEnds => if s.parser.Parsed? && HearParser(s).Some? then Some(s.(phase := HearParser(s).value)) else None
    case RequestResolves =>
      if s.phase.Starting? then Some(s.(phase := RequestDone(env, Racing)))
      else if s.phase.AwaitingHeaders? then Some(s.(phase := RequestDone(env, ParserLeft)))
      else None
    case BodyTakes => if s.open && s.received < |s.sent| then Some(s.(received := s.received + 1)) else None
    case BodyDropped => if s.open then Some(s.(open := false)) else None
    case Cancel => Some(s.(canceled := true))
    case CallerCanceled => if s.canceled && !s.phase.Returned? then Some(s.(phase := Returned(Err(Canceled)))) else None
  }

  function Run<E>(env: Env<E>, actions: seq<Action>): Option<State<E>> {
    if actions == [] then Some(Initial())
    else
      match Run(env, actions[..|actions| - 1])
      case None => None
      case Some(s) => Step(env, s, actions[|actions| - 1])
  }

  // ----- What every run keeps

  ghost predicate Sliced(sent: seq<Bytes>) {
    forall i :: 0 <= i < |sent| ==> 0 < |sent[i]| <= ADD_CHUNK_BYTES
  }

  /** The bytes sent, with `rest` still to be sent, are those of the items taken so far. */
  ghost predicate Sound<E>(env: Env<E>, rest: Bytes, consumed: nat, sent: seq<Bytes>) {
    && consumed <= |env.items|
    && FailuresOf(env.items[..consumed]) == []
    && Concat(sent) + rest == Concat(DataOf(env.items[..consumed]))
  }

  /** Every byte of a source that ended cleanly went into the channel. */
  ghost predicate AllSent<E>(env: Env<E>, sent: seq<Bytes>) {
    env.ends && FailuresOf(env.items) == [] && Concat(sent) == Concat(DataOf(env.items))
  }

  ghost predicate ProducerInv<E>(env: Env<E>, producer: Producer<E>, consumed: nat, sent: seq<Bytes>) {
    match producer
    case Pulling => Sound(env, [], consumed, sent)
    case Sending(rest) => Sound(env, rest, consumed, sent) && rest != []
    case Stopped(outcome) => Concat(sent) <= Concat(DataOf(env.items)) && (outcome == Complete ==> AllSent(env, sent))
  }

  ghost predicate ChannelInv(sent: seq<Bytes>, received: nat) {
    received <= |sent| <= received + 1 && Sliced(sent)
  }

  ghost predicate ParserInv<E>(env: Env<E>, parser: Parser<E>, read: nat) {
    match parser
    case Reading(line, tally) =>
      && read <= |env.frames|
      && var fed := Ndjson.Feed([], Concat(env.frames[..read]));
         fed.ok && fed.line == line && ProcessAll<E>(env.world, START, fed.records) == Ok(tally)
    case Parsed(result) => result.Ok? ==> Verdict<E>(env.world, env.frames, env.end) == result
  }

  ghost predicate PhaseInv<E>(env: Env<E>, phase: Phase<E>, producer: Producer<E>, parser: Parser<E>) {
    match phase
    case Starting => true
    case AwaitingHeaders => producer == Stopped(Complete)
    case Racing => env.status.Success?
    case ParserLeft => env.status.Success? && producer == Stopped(Complete)
    case ProducerLeft(r) => env.status.Success? && parser == Parsed(Ok(r))
    case Returned(outcome) =>
      outcome.Ok? ==> env.status.Success? && producer == Stopped(Complete) && parser == Parsed(outcome)
  }

  ghost predicate Inv<E>(env: Env<E>, s: State<E>) {
    && ProducerInv(env, s.producer, s.consumed, s.sent)
    && ChannelInv(s.sent, s.received)
    && ParserInv(env, s.parser, s.read)
    && PhaseInv(env, s.phase, s.producer, s.parser)
  }

  /** Whatever is sent of a sound state is a prefix of the source. */
  lemma {:induction false} SoundIsPrefix<E>(env: Env<E>, rest: Bytes, consumed: nat, sent: seq<Bytes>)
    requires Sound(env, rest, consumed, sent)
    ensures Concat(sent) <= Concat(DataOf(env.items))
  {
    var taken, left := env.items[..consumed], env.items[consumed..];
    assert env.items == taken + left;
    DataOfAppend(taken, left);
    ConcatAppend(DataOf(taken), DataOf(left));
  }

  lemma {:induction false} PullKeeps<E>(env: Env<E>, s: State<E>)
    requires s.producer.Pulling? && Sound(env, [], s.consumed, s.sent) && Pull(env, s).Some?
    ensures var t := Pull(env, s).value; ProducerInv(env, t.producer, t.consumed, t.sent)
  {
    var n := s.consumed;
    assert Concat(s.sent) + [] == Concat(s.sent);
    if n == |env.items| {
      assert env.items[..n] == env.items;
    } else if env.items[n].Data? {
      TakenSnoc(env.items, n);
    } else {
      SoundIsPrefix(env, [], n, s.sent);
    }
  }

  lemma {:induction false} SendKeeps<E>(env: Env<E>, s: State<E>)
    requires s.producer.Sending? && s.producer.rest != [] && Sound(env, s.producer.rest, s.consumed, s.sent)
    requires ChannelInv(s.sent, s.received) && Send(s).Some?
    ensures var t := Send(s).value; ProducerInv(env, t.producer, t.consumed, t.sent) && ChannelInv(t.sent, t.received)
  {
    var rest := s.producer.rest;
    SoundIsPrefix(env, rest, s.consumed, s.sent);
    if s.open {
      var n := if |rest| <= ADD_CHUNK_BYTES then |rest| else ADD_CHUNK_BYTES;
      ConcatSnoc(s.sent, rest[..n]);
      assert Concat(s.sent) + rest == Concat(s.sent) + rest[..n] + rest[n..];
    }
  }

  lemma {:induction false} ParserKeeps<E>(env: Env<E>, line: Bytes, tally: Tally, read: nat)
    requires ParserInv(env, Reading(line, tally), read)
    ensures ParserInv(env, ParserNext(env, line, tally, read), read + 1)
  {
    if read < |env.frames| {
      FrameStep<E>(env.world, env.frames[..read], line, tally, env.frames[read]);
      assert env.frames[..read + 1] == env.frames[..read] + [env.frames[read]];
    } else {
      assert env.frames[..read] == env.frames;
    }
  }

  lemma {:induction false} CancelKeeps<E>(env: Env<E>, s: State<E>)
    requires ProducerInv(env, s.producer, s.consumed, s.sent) && !s.producer.Stopped?
    ensures ProducerInv(env, Stopped(ProducerCanceled), s.consumed, s.sent)
  {
    SoundIsPrefix(env, if s.producer.Sending? then s.producer.rest else [], s.consumed, s.sent);
  }

  predicate CallerMoves(a: Action) {
    a.ProducerEnds? || a.ParserEnds? || a.RequestResolves? || a.CallerCanceled?
  }

  /** The caller's own moves change only what it waits for. */
  lemma {:induction false} CallerKeeps<E>(env: Env<E>, s: State<E>, a: Action)
    requires PhaseInv(env, s.phase, s.producer, s.parser) && CallerMoves(a) && Step(env, s, a).Some?
    ensures var t := Step(env, s, a).value; t == s.(phase := t.phase) && PhaseInv(env, t.phase, t.producer, t.parser)
  {
  }

  /** The other moves leave the caller waiting for what it waited for. */
  lemma {:induction false} OthersKeepPhase<E>(env: Env<E>, s: State<E>, a: Action)
    requires PhaseInv(env, s.phase, s.producer, s.parser) && !CallerMoves(a) && Step(env, s, a).Some?
    ensures var t := Step(env, s, a).value; PhaseInv(env, t.phase, t.producer, t.parser)
  {
  }

  /** A move of the producer leaves the parser alone, and the other way round. */
  lemma {:induction false} ProducerKeeps<E>(env: Env<E>, s: State<E>)
    requires ProducerInv(env, s.producer, s.consumed, s.sent) && ChannelInv(s.sent, s.received)
    requires ProducerStep(env, s).Some?
    ensures var t := ProducerStep(env, s).value;
            && ProducerInv(env, t.producer, t.consumed, t.sent) && ChannelInv(t.sent, t.received)
            && t.parser == s.parser && t.read == s.read && t.phase == s.phase
  {
    if s.producer.Pulling? {
      PullKeeps(env, s);
    } else {
      SendKeeps(env, s);
    }
  }

  lemma {:induction false} StepKeeps<E>(env: Env<E>, s: State<E>, a: Action)
    requires Inv(env, s) && Step(env, s, a).Some?
    ensures Inv(env, Step(env, s, a).value)
  {
    if CallerMoves(a) {
      CallerKeeps(env, s, a);
    } else {
      OthersKeepPhase(env, s, a);
      match a
      case RunProducer => ProducerKeeps(env, s);
      case CancelProducer => CancelKeeps(env, s);
      case RunParser => ParserKeeps(env, s.parser.line, s.parser.tally, s.read);
      case _ =>
    }
  }

  lemma {:induction false} RunKeeps<E>(env: Env<E>, actions: seq<Action>)
    requires Run(env, actions).Some?
    ensures Inv(env, Run(env, actions).value)
  {
    if actions == [] {
      assert env.items[..0] == [] && env.frames[..0] == [];
    } else {
      var before := actions[..|actions| - 1];
      RunKeeps(env, before);
      StepKeeps(env, Run(env, before).value, actions[|actions| - 1]);
    }
  }

  /**
   Ok means: the source ended cleanly and all of its bytes were sent, in order, in slices of 1 to
   65,536 bytes of which at most one is still on its way; the status was a success; and the whole
   response was read, with acceptable records of which the last is the root returned.
   */
  lemma {:induction false} OkMeansComplete<E>(env: Env<E>, actions: seq<Action>, r: AddResult)
    requires Run(env, actions).Some? && Run(env, actions).value.phase == Returned(Ok(r))
    ensures var s := Run(env, actions).value;
            && AllSent(env, s.sent) && Sliced(s.sent) && s.received <= |s.sent| <= s.received + 1
            && env.status.Success? && env.end == Eof
    ensures var lines := Ndjson.Lines(Concat(env.frames));
            var records := Ndjson.Records(lines);
            && Ndjson.Short(lines) && Acceptable(env.world, records)
            && records != [] && IsRoot(env.world, records[|records| - 1])
            && r == Root(env.world, records[|records| - 1])
  {
    RunKeeps(env, actions);
    VerdictExact<E>(env.world, env.frames, env.end, r);
  }

  /** At every moment the channel holds at most one slice, and what the body took is a prefix of the source. */
  lemma {:induction false} BodyIsPrefix<E>(env: Env<E>, actions: seq<Action>)
    requires Run(env, actions).Some?
    ensures var s := Run(env, actions).value;
            s.received <= |s.sent| <= s.received + 1 && Concat(s.sent[..s.received]) <= Concat(DataOf(env.items))
  {
    RunKeeps(env, actions);
    var s := Run(env, actions).value;
    assert s.sent == s.sent[..s.received] + s.sent[s.received..];
    ConcatAppend(s.sent[..s.received], s.sent[s.received..]);
    if !s.producer.Stopped? {
      SoundIsPrefix(env, if s.producer.Sending? then s.producer.rest else [], s.consumed, s.sent);
    }
  }

  // ----- Every future is heard once

  /** What the caller waits for tells which ends it has not heard. */
  ghost predicate Unheard<E>(s: State<E>, actions: seq<Action>) {
    && (s.phase.Starting? || s.phase.AwaitingHeaders? ==> RequestResolves !in actions && ParserEnds !in actions)
    && (s.phase.Starting? || s.phase.Racing? || s.phase.ProducerLeft? ==> ProducerEnds !in actions)
    && (s.phase.Racing? || s.phase.ParserLeft? ==> ParserEnds !in actions)
  }

  lemma {:induction false} UnheardStep<E>(env: Env<E>, s: State<E>, actions: seq<Action>, a: Action, t: State<E>)
    requires Unheard(s, actions) && Step(env, s, a) == Some(t)
    ensures Unheard(t, actions + [a])
  {
    assert forall x :: x in actions + [a] <==> x in actions || x == a;
  }

  lemma {:induction false} RunUnheard<E>(env: Env<E>, actions: seq<Action>)
    requires Run(env, actions).Some?
    ensures Unheard(Run(env, actions).value, actions)
  {
    if actions != [] {
      var before, a := actions[..|actions| - 1], actions[|actions| - 1];
      assert actions == before + [a];
      RunUnheard(env, before);
      UnheardStep(env, Run(env, before).value, before, a, Run(env, actions).value);
    }
  }

  /** In every run the request resolves at most once, and the ends of producer and parser are heard at most once. */
  lemma {:induction false} HeardOnce<E>(env: Env<E>, actions: seq<Action>, i: nat, j: nat)
    requires Run(env, actions).Some? && i < j < |actions|
    requires actions[i] == actions[j]
    ensures !actions[i].RequestResolves? && !actions[i].ProducerEnds? && !actions[i].ParserEnds?
  {
    var before := actions[..|actions| - 1];
    if j < |before| {
      HeardOnce(env, before, i, j);
    } else {
      RunUnheard(env, before);
      assert before[i] == actions[i] && actions[i] in before;
    }
  }

  /** Once cancelled, a producer or parser that is still at work can end the call by its own cancellation. */
  lemma {:induction false} CancelStops<E>(env: Env<E>, actions: seq<Action>, s: State<E>)
    requires Run(env, actions) == Some(s) && s.canceled
    ensures PollsProducer(s) && !s.producer.Stopped? ==>
              var t := Run(env, actions + [CancelProducer] + [ProducerEnds]);
              t.Some? && t.value.producer == Stopped(ProducerCanceled) && t.value.phase == Returned(Err(Canceled))
    ensures PollsParser(s) && s.parser.Reading? ==>
              var t := Run(env, actions + [CancelParser] + [ParserEnds]);
              t.Some? && t.value.parser == Parsed(Err(Canceled)) && t.value.phase == Returned(Err(Canceled))
  {
    RunSnoc(env, actions, CancelProducer);
    RunSnoc(env, actions, CancelParser);
    if Run(env, actions + [CancelProducer]).Some? {
      RunSnoc(env, actions + [CancelProducer], ProducerEnds);
    }
    if Run(env, actions + [CancelParser]).Some? {
      RunSnoc(env, actions + [CancelParser], ParserEnds);
    }
  }

  // ----- How the source is cut

  /** Every piece by itself, cut into slices of 64 KiB. */
  function Cuts(pieces: seq<Bytes>): seq<Bytes> {
    if pieces == [] then [] else Cuts(pieces[..|pieces| - 1]) + Chunks(pieces[|pieces| - 1], 65536)
  }

  lemma {:induction false} CutsSnoc(pieces: seq<Bytes>, b: Bytes)
    ensures Cuts(pieces + [b]) == Cuts(pieces) + Chunks(b, 65536)
  {
    var all := pieces + [b];
    assert all[..|all| - 1] == pieces && all[|all| - 1] == b;
  }

  lemma {:induction false} CutsPrefix(a: seq<Bytes>, b: seq<Bytes>)
    ensures Cuts(a) <= Cuts(a + b)
  {
    if b == [] {
      assert a + b == a;
    } else {
      var front, last := b[..|b| - 1], b[|b| - 1];
      assert a + b == (a + front) + [last];
      CutsPrefix(a, front);
      CutsSnoc(a + front, last);
    }
  }

  /** The slices of the first `n` items. */
  function SlicesOf<E>(items: seq<Item<E>>, n: nat): seq<Bytes>
    requires n <= |items|
  {
    Cuts(DataOf(items[..n]))
  }

  lemma {:induction false} SlicesPrefix<E>(items: seq<Item<E>>, n: nat)
    requires n <= |items|
    ensures SlicesOf(items, n) <= SlicesOf(items, |items|)
  {
    assert items[..|items|] == items && items == items[..n] + items[n..];
    DataOfAppend(items[..n], items[n..]);
    CutsPrefix(DataOf(items[..n]), DataOf(items[n..]));
  }

  ghost predicate CutInv<E>(env: Env<E>, s: State<E>) {
    match s.producer
    case Pulling => s.consumed <= |env.items| && s.sent == SlicesOf(env.items, s.consumed)
    case Sending(rest) =>
      s.consumed <= |env.items| && rest != [] && s.sent + Chunks(rest, 65536) == SlicesOf(env.items, s.consumed)
    case Stopped(outcome) =>
      && s.sent <= SlicesOf(env.items, |env.items|)
      && (outcome == Complete ==> s.sent == SlicesOf(env.items, |env.items|))
  }

  lemma {:induction false} PullCuts<E>(env: Env<E>, s: State<E>)
    requires s.producer.Pulling? && CutInv(env, s) && Pull(env, s).Some?
    ensures CutInv(env, Pull(env, s).value)
  {
    var n := s.consumed;
    SlicesPrefix(env.items, n);
    if n < |env.items| && env.items[n].Data? {
      TakenSnoc(env.items, n);
      CutsSnoc(DataOf(env.items[..n]), env.items[n].bytes);
    }
  }

  lemma {:induction false} SendCuts<E>(env: Env<E>, s: State<E>)
    requires s.producer.Sending? && CutInv(env, s) && Send(s).Some?
    ensures CutInv(env, Send(s).value)
  {
    SlicesPrefix(env.items, s.consumed);
    var rest := s.producer.rest;
    if |rest| <= 65536 {
      assert rest[..|rest|] == rest && rest[|rest|..] == [];
      assert Chunks(rest, 65536) == [rest];
    } else {
      assert s.sent + [rest[..65536]] + Chunks(rest[65536..], 65536) == s.sent + Chunks(rest, 65536);
    }
  }

  lemma {:induction false} StepCuts<E>(env: Env<E>, s: State<E>, a: Action)
    requires CutInv(env, s) && Step(env, s, a).Some?
    ensures CutInv(env, Step(env, s, a).value)
  {
    if a.RunProducer? && s.producer.Pulling? {
      PullCuts(env, s);
    } else if a.RunProducer? {
      SendCuts(env, s);
    } else if a.CancelProducer? {
      SlicesPrefix(env.items, s.consumed);
    }
  }

  lemma {:induction false} RunCuts<E>(env: Env<E>, actions: seq<Action>)
    requires Run(env, actions).Some?
    ensures CutInv(env, Run(env, actions).value)
  {
    if actions == [] {
      assert env.items[..0] == [];
    } else {
      var before := actions[..|actions| - 1];
      RunCuts(env, before);
      StepCuts(env, Run(env, before).value, actions[|actions| - 1]);
    }
  }

  /**
   What went into the channel is at every moment a prefix of the items, each cut into slices of 64 KiB, and
   all of that once the producer is complete.
   */
  lemma {:induction false} SentInSlices<E>(env: Env<E>, actions: seq<Action>)
    requires Run(env, actions).Some?
    ensures var s := Run(env, actions).value;
            && s.sent <= Cuts(DataOf(env.items))
            && (s.producer == Stopped(Complete) ==> s.sent == Cuts(DataOf(env.items)))
  {
    RunCuts(env, actions);
    var s := Run(env, actions).value;
    assert env.items[..|env.items|] == env.items;
    if !s.producer.Stopped? {
      SlicesPrefix(env.items, s.consumed);
    }
  }

  // ----- Ok can be reached exactly when everything is complete

  lemma {:induction false} RunSnoc<E>(env: Env<E>, actions: seq<Action>, a: Action)
    requires Run(env, actions).Some?
    ensures Run(env, actions + [a]) == Step(env, Run(env, actions).value, a)
  {
    var all := actions + [a];
    assert all[..|all| - 1] == actions && all[|all| - 1] == a;
  }

  lemma {:induction false} ItemFails<E>(items: seq<Item<E>>, i: nat)
    requires i < |items| && items[i].Failure?
    ensures FailuresOf(items) != []
  {
    if i > 0 {
      ItemFails(items[1..], i - 1);
    }
  }

  /** The body took every slice but the last. */
  ghost predicate Lagging<E>(s: State<E>) {
    if s.sent == [] then s.received == 0 else s.received == |s.sent| - 1
  }

  /** The producer is at work, and the body takes a slice only when the channel is needed. */
  ghost predicate Uploading<E>(r: Option<State<E>>) {
    && r.Some? && r.value.phase.Starting? && r.value.open && Lagging(r.value)
    && r.value.parser == Reading([], START) && r.value.read == 0
  }

  function Measure<E>(p: Producer<E>): nat {
    if p.Sending? then |p.rest| + 1 else 0
  }

  /** A clean source can be sent to its end. */
  lemma {:induction false} CanUpload<E>(env: Env<E>, actions: seq<Action>) returns (all: seq<Action>)
    requires env.ends && FailuresOf(env.items) == []
    requires Uploading(Run(env, actions)) && !Run(env, actions).value.producer.Stopped?
    ensures Uploading(Run(env, all)) && Run(env, all).value.producer == Stopped(Complete)
    decreases |env.items| - Run(env, actions).value.consumed, Measure(Run(env, actions).value.producer)
  {
    var s := Run(env, actions).value;
    RunKeeps(env, actions);
    if s.producer.Pulling? {
      RunSnoc(env, actions, RunProducer);
      all := actions + [RunProducer];
      if s.consumed < |env.items| {
        if env.items[s.consumed].Failure? { ItemFails(env.items, s.consumed); }
        all := CanUpload(env, all);
      }
    } else {
      all := CanSend(env, actions, s);
      all := CanUpload(env, all);
    }
  }

  /** The body makes room for one more slice. */
  lemma {:induction false} CanSend<E>(env: Env<E>, actions: seq<Action>, s: State<E>) returns (all: seq<Action>)
    requires Run(env, actions) == Some(s) && Uploading(Some(s)) && s.producer.Sending? && s.producer.rest != []
    ensures Uploading(Run(env, all)) && Run(env, all).value.consumed == s.consumed
    ensures !Run(env, all).value.producer.Stopped? && Measure(Run(env, all).value.producer) < Measure(s.producer)
  {
    all := actions;
    if s.sent != [] {
      RunSnoc(env, all, BodyTakes);
      all := all + [BodyTakes];
    }
    RunSnoc(env, all, RunProducer);
    all := all + [RunProducer];
  }

  /** On the way to an accepted response the parser does not stop early. */
  lemma {:induction false} ParserGoesOn<E>(env: Env<E>, line: Bytes, tally: Tally, read: nat)
    requires ParserInv(env, Reading(line, tally), read) && read < |env.frames|
    requires Verdict<E>(env.world, env.frames, env.end).Ok?
    ensures ParserNext(env, line, tally, read).Reading?
  {
    var done := env.frames[..read + 1];
    assert done == env.frames[..read] + [env.frames[read]] && done + env.frames[read + 1..] == env.frames;
    AcceptedSoFar<E>(env.world, done, env.frames[read + 1..], env.end);
    FrameStep<E>(env.world, env.frames[..read], line, tally, env.frames[read]);
  }

  lemma {:induction false} ParserConcludes<E>(env: Env<E>, line: Bytes, tally: Tally)
    requires ParserInv(env, Reading(line, tally), |env.frames|) && Verdict<E>(env.world, env.frames, env.end).Ok?
    ensures ParserNext(env, line, tally, |env.frames|) == Parsed(Verdict<E>(env.world, env.frames, env.end))
  {
    assert env.frames[..|env.frames|] == env.frames;
  }

  ghost predicate ParsingAlone<E>(r: Option<State<E>>) {
    r.Some? && r.value.phase.ParserLeft? && Lagging(r.value)
  }

  lemma {:induction false} ParserSound<E>(env: Env<E>, actions: seq<Action>)
    requires Run(env, actions).Some?
    ensures var s := Run(env, actions).value;
            ParserInv(env, s.parser, s.read) && (s.parser.Reading? ==> s.read <= |env.frames|)
  {
    RunKeeps(env, actions);
  }

  lemma {:induction false} CanParse<E>(env: Env<E>, actions: seq<Action>, s: State<E>) returns (all: seq<Action>)
    requires Verdict<E>(env.world, env.frames, env.end).Ok?
    requires Run(env, actions) == Some(s) && ParsingAlone(Some(s)) && s.parser.Reading?
    ensures ParsingAlone(Run(env, all))
    ensures Run(env, all).value.parser == Parsed(Verdict<E>(env.world, env.frames, env.end))
    decreases |env.frames| - s.read
  {
    ParserSound(env, actions);
    RunSnoc(env, actions, RunParser);
    all := actions + [RunParser];
    var next := s.(parser := ParserNext(env, s.parser.line, s.parser.tally, s.read), read := s.read + 1);
    assert Run(env, all) == Some(next);
    if s.read < |env.frames| {
      ParserGoesOn(env, s.parser.line, s.parser.tally, s.read);
      all := CanParse(env, all, next);
    } else {
      ParserConcludes(env, s.parser.line, s.parser.tally);
    }
  }

  ghost predicate Returns<E>(env: Env<E>, actions: seq<Action>, r: AddResult) {
    Run(env, actions).Some? && Run(env, actions).value.phase == Returned(Ok(r))
  }

  /** Everything that Ok takes. */
  ghost predicate AllComplete<E>(env: Env<E>, r: AddResult) {
    && env.ends && FailuresOf(env.items) == [] && env.status.Success?
    && Verdict<E>(env.world, env.frames, env.end) == Ok(r)
  }

  /** From a finished upload to the response. */
  lemma {:induction false} CanHear<E>(env: Env<E>, actions: seq<Action>) returns (all: seq<Action>)
    requires env.status.Success?
    requires Uploading(Run(env, actions)) && Run(env, actions).value.producer == Stopped(Complete)
    ensures ParsingAlone(Run(env, all)) && Run(env, all).value.parser.Reading?
  {
    RunSnoc(env, actions, ProducerEnds);
    RunSnoc(env, actions + [ProducerEnds], RequestResolves);
    all := actions + [ProducerEnds] + [RequestResolves];
  }

  lemma {:induction false} CanReturn<E>(env: Env<E>, r: AddResult) returns (all: seq<Action>)
    requires AllComplete(env, r)
    ensures Returns(env, all, r) && Lagging(Run(env, all).value)
  {
    all := CanUpload(env, []);
    all := CanHear(env, all);
    all := CanParse(env, all, Run(env, all).value);
    RunSnoc(env, all, ParserEnds);
    all := all + [ParserEnds];
  }

  lemma {:induction false} ReturnsOnlyComplete<E>(env: Env<E>, actions: seq<Action>, r: AddResult)
    requires Returns(env, actions, r)
    ensures AllComplete(env, r)
  {
    RunKeeps(env, actions);
  }

  ghost predicate CanSucceed<E>(env: Env<E>, r: AddResult) {
    exists actions: seq<Action> :: Returns(env, actions, r)
  }

  /** Some run returns Ok exactly when the source ends cleanly, the status is a success and the response is accepted. */
  lemma {:induction false} OkExactly<E>(env: Env<E>, r: AddResult)
    ensures CanSucceed(env, r) <==> AllComplete(env, r)
  {
    if AllComplete(env, r) {
      var actions := CanReturn(env, r);
    }
    forall actions: seq<Action> | Returns(env, actions, r) ensures AllComplete(env, r) {
      ReturnsOnlyComplete(env, actions, r);
    }
  }

  /** A run that returns Ok while the request body has not taken everything. */
  ghost predicate ReturnsUndrained<E>(env: Env<E>, actions: seq<Action>, r: AddResult) {
    Returns(env, actions, r) && Run(env, actions).value.received < |Run(env, actions).value.sent|
  }

  lemma {:induction false} SlicesCarry(sent: seq<Bytes>)
    requires Sliced(sent)
    ensures sent != [] ==> Concat(sent) != []
  {
    if sent != [] {
      assert |sent[0]| >= 1 && Concat(sent) == sent[0] + Concat(sent[1..]);
    }
  }

  /**
   The body need not be drained when Ok is returned: one slice may still be in the channel, and this
   can happen exactly when the source has any byte at all.
   */
  lemma {:induction false} OkBeforeDrained<E>(env: Env<E>, r: AddResult)
    requires AllComplete(env, r)
    ensures (exists actions: seq<Action> :: ReturnsUndrained(env, actions, r)) <==> Concat(DataOf(env.items)) != []
  {
    if Concat(DataOf(env.items)) != [] {
      var actions := CanReturn(env, r);
      OkMeansComplete(env, actions, r);
      assert ReturnsUndrained(env, actions, r);
    } else {
      forall actions: seq<Action> | Returns(env, actions, r)
        ensures !ReturnsUndrained(env, actions, r)
      {
        OkMeansComplete(env, actions, r);
        SlicesCarry(Run(env, actions).value.sent);
      }
    }
  }
}
