/**
 Every outcome of a streaming add and its cause: the runs return exactly what the source, the request and
 the response allow.
 */
module AddOutcomes {
  import opened Prelude
  import opened Framing
  import opened AddResponse
  import opened StreamAdd

  // ----- What can be returned

  /** The first error of the source is `e`. */
  ghost predicate FailsWith<E>(items: seq<Item<E>>, e: E) {
    exists i :: 0 <= i < |items| && items[i] == Failure(e) && FailuresOf(items[..i]) == []
  }

  /** The source has a byte before its first error. */
  ghost predicate HasByte<E>(items: seq<Item<E>>) {
    exists i :: 0 <= i < |items| && items[i].Data? && items[i].bytes != [] && FailuresOf(items[..i]) == []
  }

  /** The outcomes that source, request and response allow. A cancellation is always possible. */
  ghost predicate Allowed<E>(env: Env<E>, outcome: Result<AddResult, AddError<E>>) {
    match outcome
    case Ok(r) => AllComplete(env, r)
    case Err(Source(e)) => FailsWith(env.items, e)
    case Err(Canceled) => true
    case Err(Kubo(reason)) =>
      || (reason == RequestFailed && env.status.NoResponse?)
      || (reason == BadStatus && env.status.Rejected?)
      || (reason == RequestClosed && HasByte(env.items))
      || (env.status.Success? && Verdict<E>(env.world, env.frames, env.end) == Err(Kubo(reason)))
  }

  // ----- Nothing else is returned

  ghost predicate ProducerCaused<E>(env: Env<E>, producer: Producer<E>, consumed: nat, canceled: bool) {
    match producer
    case Pulling => true
    case Sending(rest) => rest != [] ==> HasByte(env.items)
    case Stopped(Complete) => true
    case Stopped(SourceFailed(e)) => FailsWith(env.items, e)
    case Stopped(ReceiverClosed) => HasByte(env.items)
    case Stopped(ProducerCanceled) => canceled
  }

  ghost predicate ParserCaused<E>(env: Env<E>, parser: Parser<E>, canceled: bool) {
    parser.Parsed? ==>
      || parser.result == Verdict<E>(env.world, env.frames, env.end)
      || (canceled && parser.result == Err(Canceled))
  }

  ghost predicate PhaseCaused<E>(env: Env<E>, phase: Phase<E>, canceled: bool) {
    && (phase.Returned? && phase.outcome.Err? ==> Allowed(env, phase.outcome))
    && (phase == Returned(Err(Canceled)) ==> canceled || Verdict<E>(env.world, env.frames, env.end) == Err(Canceled))
  }

  ghost predicate Caused<E>(env: Env<E>, s: State<E>) {
    && ProducerCaused(env, s.producer, s.consumed, s.canceled)
    && ParserCaused(env, s.parser, s.canceled)
    && PhaseCaused(env, s.phase, s.canceled)
  }

  lemma {:induction false} ProducerStaysCaused<E>(env: Env<E>, s: State<E>)
    requires Inv(env, s) && ProducerCaused(env, s.producer, s.consumed, s.canceled) && ProducerStep(env, s).Some?
    ensures var t := ProducerStep(env, s).value;
            && ProducerCaused(env, t.producer, t.consumed, t.canceled)
            && t.parser == s.parser && t.phase == s.phase && t.canceled == s.canceled
  {
    if s.producer.Pulling? && s.consumed < |env.items| {
      assert FailuresOf(env.items[..s.consumed]) == [];
    }
  }

  lemma {:induction false} ParserStaysCaused<E>(env: Env<E>, s: State<E>)
    requires Inv(env, s) && s.parser.Reading?
    ensures ParserCaused(env, ParserNext(env, s.parser.line, s.parser.tally, s.read), s.canceled)
  {
    var line, tally, read := s.parser.line, s.parser.tally, s.read;
    if read < |env.frames| {
      var done, left := env.frames[..read + 1], env.frames[read + 1..];
      assert done == env.frames[..read] + [env.frames[read]] && done + left == env.frames;
      FrameStep<E>(env.world, env.frames[..read], line, tally, env.frames[read]);
      if !ParserNext(env, line, tally, read).Reading? {
        FailedEarly<E>(env.world, done, left, env.end);
      }
    } else {
      assert env.frames[..read] == env.frames;
    }
  }

  lemma {:induction false} CallerStaysCaused<E>(env: Env<E>, s: State<E>, a: Action)
    requires Inv(env, s) && Caused(env, s) && CallerMoves(a) && Step(env, s, a).Some?
    ensures PhaseCaused(env, Step(env, s, a).value.phase, s.canceled)
  {
    match a
    case ParserEnds => ParserHeard(env, s);
    case _ =>
  }

  /** The response never blames the source. */
  lemma {:induction false} SourceNotBlamed<E>(w: World, frames: seq<Bytes>, end: End)
    requires Verdict<E>(w, frames, end).Err?
    ensures !Verdict<E>(w, frames, end).error.Source?
  {
    VerdictRefused<E>(w, frames, end);
  }

  lemma {:induction false} RefusalAllowed<E>(env: Env<E>, e: AddError<E>, canceled: bool)
    requires env.status.Success?
    requires Verdict<E>(env.world, env.frames, env.end) == Err(e) || (canceled && e == Canceled)
    ensures PhaseCaused(env, Returned(Err(e)), canceled)
  {
    if Verdict<E>(env.world, env.frames, env.end) == Err(e) {
      SourceNotBlamed<E>(env.world, env.frames, env.end);
    }
  }

  lemma {:induction false} ParserHeard<E>(env: Env<E>, s: State<E>)
    requires PhaseInv(env, s.phase, s.producer, s.parser) && ParserCaused(env, s.parser, s.canceled)
    requires PhaseCaused(env, s.phase, s.canceled) && Step(env, s, ParserEnds).Some?
    ensures PhaseCaused(env, Step(env, s, ParserEnds).value.phase, s.canceled)
  {
    if s.parser.result.Err? {
      RefusalAllowed(env, s.parser.result.error, s.canceled);
    }
  }

  lemma {:induction false} StepCaused<E>(env: Env<E>, s: State<E>, a: Action)
    requires Inv(env, s) && Caused(env, s) && Step(env, s, a).Some?
    ensures Caused(env, Step(env, s, a).value)
  {
    if CallerMoves(a) {
      CallerStaysCaused(env, s, a);
      CallerKeeps(env, s, a);
    } else {
      match a
      case RunProducer => ProducerStaysCaused(env, s);
      case RunParser => ParserStaysCaused(env, s);
      case _ =>
    }
  }

  lemma {:induction false} RunCaused<E>(env: Env<E>, actions: seq<Action>)
    requires Run(env, actions).Some?
    ensures Caused(env, Run(env, actions).value)
  {
    if actions != [] {
      var before := actions[..|actions| - 1];
      RunCaused(env, before);
      RunKeeps(env, before);
      StepCaused(env, Run(env, before).value, actions[|actions| - 1]);
    }
  }

  // ----- All of it can be returned

  /** The run returns this. */
  ghost predicate Gives<E>(env: Env<E>, actions: seq<Action>, outcome: Result<AddResult, AddError<E>>) {
    Run(env, actions).Some? && Run(env, actions).value.phase == Returned(outcome)
  }

  ghost predicate CanGive<E>(env: Env<E>, outcome: Result<AddResult, AddError<E>>) {
    exists actions: seq<Action> :: Gives(env, actions, outcome)
  }

  lemma {:induction false} GiveCanceled<E>(env: Env<E>)
    ensures CanGive(env, Err(Canceled))
  {
    RunSnoc(env, [], Cancel);
    var actions := [] + [Cancel];
    assert Run(env, actions) == Some(Initial<E>().(canceled := true));
    RunSnoc(env, actions, CallerCanceled);
    assert Gives(env, actions + [CallerCanceled], Err(Canceled));
  }

  lemma {:induction false} GiveRequest<E>(env: Env<E>)
    requires !env.status.Success?
    ensures CanGive(env, Err(Kubo(if env.status.NoResponse? then RequestFailed else BadStatus)))
  {
    RunSnoc(env, [], RequestResolves);
    var outcome := Err(Kubo(if env.status.NoResponse? then RequestFailed else BadStatus));
    assert Gives(env, [] + [RequestResolves], outcome);
  }

  /** While the producer runs on, the parser can come to its verdict. */
  lemma {:induction false} CanRefuse<E>(env: Env<E>, actions: seq<Action>, s: State<E>) returns (all: seq<Action>)
    requires Run(env, actions) == Some(s) && s.phase.Racing? && s.parser.Reading? && !s.canceled
    requires Verdict<E>(env.world, env.frames, env.end).Err?
    ensures Gives(env, all, Err(Verdict<E>(env.world, env.frames, env.end).error))
    decreases |env.frames| - s.read
  {
    RunKeeps(env, actions);
    ParserStaysCaused(env, s);
    var next := s.(parser := ParserNext(env, s.parser.line, s.parser.tally, s.read), read := s.read + 1);
    RunSnoc(env, actions, RunParser);
    all := actions + [RunParser];
    assert Run(env, all) == Some(next);
    if next.parser.Reading? {
      all := CanRefuse(env, all, next);
    } else {
      RunSnoc(env, all, ParserEnds);
      all := all + [ParserEnds];
    }
  }

  lemma {:induction false} GiveVerdict<E>(env: Env<E>)
    requires env.status.Success? && Verdict<E>(env.world, env.frames, env.end).Err?
    ensures CanGive(env, Err(Verdict<E>(env.world, env.frames, env.end).error))
  {
    RunSnoc(env, [], RequestResolves);
    var actions := CanRefuse(env, [] + [RequestResolves], Initial<E>().(phase := Racing));
  }

  /** The producer has taken `n` items and waits for the next. */
  ghost predicate Taken<E>(r: Option<State<E>>, n: nat) {
    Uploading(r) && r.value.producer.Pulling? && r.value.consumed == n
  }

  /** A clean beginning of the source can be sent. */
  lemma {:induction false} CanTake<E>(env: Env<E>, n: nat) returns (all: seq<Action>)
    requires n <= |env.items| && FailuresOf(env.items[..n]) == []
    ensures Taken(Run(env, all), n)
    decreases n
  {
    if n == 0 {
      all := [];
    } else {
      CleanBefore(env.items, n);
      all := CanTake(env, n - 1);
      RunSnoc(env, all, RunProducer);
      all := all + [RunProducer];
      all := CanFinishItem(env, all, n);
    }
  }

  lemma {:induction false} CleanBefore<E>(items: seq<Item<E>>, n: nat)
    requires 0 < n <= |items| && FailuresOf(items[..n]) == []
    ensures FailuresOf(items[..n - 1]) == [] && items[n - 1].Data?
  {
    assert items[..n] == items[..n - 1] + [items[n - 1]];
    FailuresOfAppend(items[..n - 1], [items[n - 1]]);
    FailureShows(items, n - 1);
  }

  lemma {:induction false} FailureShows<E>(items: seq<Item<E>>, i: nat)
    requires i < |items|
    ensures items[i].Failure? ==> FailuresOf(items[..i + 1]) != []
  {
    if items[i].Failure? {
      ItemFails(items[..i + 1], i);
    }
  }

  /** What is left of an item can be sent. */
  lemma {:induction false} CanFinishItem<E>(env: Env<E>, actions: seq<Action>, n: nat) returns (all: seq<Action>)
    requires Uploading(Run(env, actions)) && Run(env, actions).value.consumed == n
    requires !Run(env, actions).value.producer.Stopped?
    ensures Taken(Run(env, all), n)
    decreases Measure(Run(env, actions).value.producer)
  {
    var s := Run(env, actions).value;
    RunKeeps(env, actions);
    all := actions;
    if s.producer.Sending? {
      all := CanSend(env, actions, s);
      all := CanFinishItem(env, all, n);
    }
  }

  lemma {:induction false} GiveSource<E>(env: Env<E>, e: E)
    requires FailsWith(env.items, e)
    ensures CanGive(env, Err(Source(e)))
  {
    var i :| 0 <= i < |env.items| && env.items[i] == Failure(e) && FailuresOf(env.items[..i]) == [];
    var actions := CanTake(env, i);
    CanFail(env, actions, Run(env, actions).value, e);
  }

  lemma {:induction false} CanFail<E>(env: Env<E>, actions: seq<Action>, s: State<E>, e: E)
    requires Run(env, actions) == Some(s) && s.phase.Starting? && s.producer.Pulling?
    requires s.consumed < |env.items| && env.items[s.consumed] == Failure(e)
    ensures CanGive(env, Err(Source(e)))
  {
    RunSnoc(env, actions, RunProducer);
    var stopped := actions + [RunProducer];
    assert Run(env, stopped) == Some(s.(producer := Stopped(SourceFailed(e))));
    RunSnoc(env, stopped, ProducerEnds);
    assert Gives(env, stopped + [ProducerEnds], Err(Source(e)));
  }

  lemma {:induction false} GiveClosed<E>(env: Env<E>)
    requires HasByte(env.items)
    ensures CanGive(env, Err(Kubo(RequestClosed)))
  {
    var i :| 0 <= i < |env.items| && env.items[i].Data? && env.items[i].bytes != [] && FailuresOf(env.items[..i]) == [];
    var actions := CanTake(env, i);
    RunSnoc(env, actions, RunProducer);
    CanBeClosed(env, actions + [RunProducer], Run(env, actions + [RunProducer]).value);
  }

  lemma {:induction false} CanBeClosed<E>(env: Env<E>, actions: seq<Action>, s: State<E>)
    requires Run(env, actions) == Some(s) && s.phase.Starting? && s.producer.Sending? && s.open
    ensures CanGive(env, Err(Kubo(RequestClosed)))
  {
    RunSnoc(env, actions, BodyDropped);
    var dropped := actions + [BodyDropped];
    assert Run(env, dropped) == Some(s.(open := false));
    RunSnoc(env, dropped, RunProducer);
    var stopped := dropped + [RunProducer];
    assert Run(env, stopped) == Some(s.(open := false, producer := Stopped(ReceiverClosed)));
    RunSnoc(env, stopped, ProducerEnds);
    assert Gives(env, stopped + [ProducerEnds], Err(Kubo(RequestClosed)));
  }

  /**
   Some run of the add returns an outcome exactly when source, request and response allow it. A run that
   returns a cancellation was cancelled, or its response was.
   */
  lemma {:induction false} OutcomesExactly<E>(env: Env<E>, outcome: Result<AddResult, AddError<E>>)
    ensures CanGive(env, outcome) <==> Allowed(env, outcome)
  {
    if Allowed(env, outcome) {
      AllowedIsGiven(env, outcome);
    }
    forall actions: seq<Action> | Gives(env, actions, outcome)
      ensures Allowed(env, outcome)
    {
      GivenIsAllowed(env, actions, outcome);
    }
  }

  lemma {:induction false} GivenIsAllowed<E>(
      env: Env<E>, actions: seq<Action>, outcome: Result<AddResult, AddError<E>>)
    requires Gives(env, actions, outcome)
    ensures Allowed(env, outcome)
    ensures outcome == Err(Canceled) ==>
              Run(env, actions).value.canceled || Verdict<E>(env.world, env.frames, env.end) == Err(Canceled)
  {
    RunCaused(env, actions);
    if outcome.Ok? {
      ReturnsOnlyComplete(env, actions, outcome.value);
    }
  }

  lemma {:induction false} AllowedIsGiven<E>(env: Env<E>, outcome: Result<AddResult, AddError<E>>)
    requires Allowed(env, outcome)
    ensures CanGive(env, outcome)
  {
    match outcome
    case Ok(r) =>
      var actions := CanReturn(env, r);
      assert Gives(env, actions, outcome);
    case Err(Source(e)) => GiveSource(env, e);
    case Err(Canceled) => GiveCanceled(env);
    case Err(Kubo(reason)) =>
      if !env.status.Success? && reason == (if env.status.NoResponse? then RequestFailed else BadStatus) {
        GiveRequest(env);
      } else if reason == RequestClosed && HasByte(env.items) {
        GiveClosed(env);
      } else {
        GiveVerdict(env);
      }
  }
}
