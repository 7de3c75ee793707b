/**
 The consumer that coalesces progress and writes it back: queues and samples are filled by the
 pipeline at any moment, and a dirty flag stands for what the database has not seen. Writes are fenced
 by the claim; once the claim is overtaken, other workers own the row and may reset its columns, as a
 requeue after the consumer's end does. A run is any interleaving of the pipeline's sends, the consumer's
 own steps and those other workers.
 */
module ProgressConsumer {
  import opened Prelude
  import opened Progress

  // ----- The consumer's own variables

  datatype Consumer = Consumer(progress: Counters, dirty: bool, providers: nat)

  /** One event, `n` being the providers seen in this attempt. */
  function Applied(k: Kubo, n: nat, e: Event): (Kubo, nat) {
    match e
    case ProviderObserved =>
      var m := if n < U32_MAX then n + 1 else U32_MAX;
      (k.(providers := Max(k.providers, m)), m)
    case AddBytes(bytes) => (k.(addBytes := Max(k.addBytes, bytes)), n)
    case PinProgress(nodes, pinned) => (k.(pinNodes := Max(k.pinNodes, nodes), pinBytes := Max(k.pinBytes, pinned)), n)
  }

  /** `apply_kubo_progress` */
  method ApplyKuboProgress(k: Kubo, n: nat, e: Event) returns (progress: Kubo, providers: nat)
    ensures (progress, providers) == Applied(k, n, e)
  {
    progress, providers := k, n;
    match e {
      case ProviderObserved =>
        providers := if providers < U32_MAX then providers + 1 else U32_MAX;
        progress := progress.(providers := Max(progress.providers, providers));
      case AddBytes(bytes) =>
        progress := progress.(addBytes := Max(progress.addBytes, bytes));
      case PinProgress(nodes, pinned) =>
        progress := progress.(pinNodes := Max(progress.pinNodes, nodes), pinBytes := Max(progress.pinBytes, pinned));
    }
  }

  function AppliedAll(k: Kubo, n: nat, events: seq<Event>): (Kubo, nat) {
    if events == [] then (k, n)
    else var (l, m) := AppliedAll(k, n, events[..|events| - 1]); Applied(l, m, events[|events| - 1])
  }

  /** Each extraction counter, raised to its latest sample. */
  method Raise(counters: Extraction, latest: Extraction) returns (e: Extraction, changed: bool)
    ensures e == MaxEntries(counters, latest) && (changed <==> e != counters)
  {
    e, changed := counters, false;
    if latest.processed > e.processed {
      e, changed := e.(processed := latest.processed), true;
    }
    if latest.succeeded > e.succeeded {
      e, changed := e.(succeeded := latest.succeeded), true;
    }
    if latest.failed > e.failed {
      e, changed := e.(failed := latest.failed), true;
    }
    if latest.decompressed > e.decompressed {
      e, changed := e.(decompressed := latest.decompressed), true;
    }
  }

  function Drained(c: Consumer, queue: seq<Event>, download: nat, extraction: Extraction): Consumer {
    var (k, n) := AppliedAll(c.progress.kubo, c.providers, queue);
    var raised := c.progress.(
      downloaded := Max(c.progress.downloaded, download), entries := MaxEntries(c.progress.entries, extraction));
    Consumer(raised.(kubo := k), c.dirty || queue != [] || raised != c.progress, n)
  }

  /** `drain_progress` */
  method Drain(c: Consumer, queue: seq<Event>, download: nat, extraction: Extraction) returns (r: Consumer)
    ensures r == Drained(c, queue, download, extraction)
  {
    var kubo, providers, dirty := c.progress.kubo, c.providers, c.dirty;
    assert queue[..|queue|] == queue;
    for i := 0 to |queue|
      invariant (kubo, providers) == AppliedAll(c.progress.kubo, c.providers, queue[..i])
      invariant dirty == (c.dirty || i > 0)
    {
      assert queue[..i + 1][..i] == queue[..i];
      kubo, providers := ApplyKuboProgress(kubo, providers, queue[i]);
      dirty := true;
    }
    var progress := c.progress.(kubo := kubo);
    if download > progress.downloaded {
      progress := progress.(downloaded := download);
      dirty := true;
    }
    var entries, changed := Raise(progress.entries, extraction);
    return Consumer(progress.(entries := entries), dirty || changed, providers);
  }

  /** How a database write ended; after an error it may or may not have been applied. */
  datatype Outcome = Done | Failed(applied: bool)

  /** `monotonic_counter` */
  function Larger(column: nat, candidate: nat): nat {
    if column > candidate then column else candidate
  }

  /** `monotonic_optional` */
  function LargerOption(column: Option<nat>, candidate: Option<nat>): Option<nat> {
    if candidate.None? then column
    else if column.None? || column.value < candidate.value then candidate
    else column
  }

  /** `update_progress`: each column keeps its larger value. */
  function Stored(column: Counters, candidate: Counters): Counters {
    Counters(
      Kubo(
        Larger(column.kubo.providers, candidate.kubo.providers),
        Larger(column.kubo.pinNodes, candidate.kubo.pinNodes),
        Larger(column.kubo.pinBytes, candidate.kubo.pinBytes),
        Larger(column.kubo.addBytes, candidate.kubo.addBytes)),
      Larger(column.downloaded, candidate.downloaded),
      LargerOption(column.total, candidate.total),
      LargerOption(column.size, candidate.size),
      Extraction(
        Larger(column.entries.processed, candidate.entries.processed),
        Larger(column.entries.succeeded, candidate.entries.succeeded),
        Larger(column.entries.failed, candidate.entries.failed),
        Larger(column.entries.decompressed, candidate.entries.decompressed)))
  }

  /** Whether the database columns can hold the counters. */
  predicate Fits(c: Counters) {
    && c.kubo.pinNodes <= I64_MAX && c.kubo.pinBytes <= I64_MAX && c.kubo.addBytes <= I64_MAX && c.downloaded <= I64_MAX
    && (c.total.Some? ==> c.total.value <= I64_MAX) && (c.size.Some? ==> c.size.value <= I64_MAX)
    && c.entries.processed <= I64_MAX && c.entries.succeeded <= I64_MAX
    && c.entries.failed <= I64_MAX && c.entries.decompressed <= I64_MAX
  }

  /** What a write-back leaves: the flag, the columns, and whether it succeeded. `owned`: the fence holds. */
  function Flushed(c: Consumer, column: Counters, owned: bool, outcome: Outcome): (bool, Counters, bool) {
    if !c.dirty then (false, column, true)
    else if !Fits(c.progress) || !owned then (true, column, false)
    else
      match outcome
      case Done => (false, Stored(column, c.progress), true)
      case Failed(applied) => (true, if applied then Stored(column, c.progress) else column, false)
  }

  /**
   `flush_progress`: a clean flag succeeds without asking the database. A dirty one succeeds only under
   the fence, and then the database has the counters, if it had none above them.
   */
  method Flush(c: Consumer, column: Counters, owned: bool, outcome: Outcome)
    returns (dirty: bool, stored: Counters, ok: bool)
    ensures (dirty, stored, ok) == Flushed(c, column, owned, outcome)
    ensures ok && c.dirty ==> owned
    ensures Leq(column, c.progress) && ok && c.dirty ==> stored == c.progress && !dirty
    ensures !owned || !c.dirty ==> stored == column
  {
    if !c.dirty {
      return false, column, true;
    }
    if !Fits(c.progress) || !owned {
      return true, column, false;
    }
    if Leq(column, c.progress) {
      StoredIsCandidate(column, c.progress);
    }
    match outcome {
      case Done => return false, Stored(column, c.progress), true;
      case Failed(applied) => return true, if applied then Stored(column, c.progress) else column, false;
    }
  }

  lemma {:induction false} StoredIsCandidate(column: Counters, candidate: Counters)
    requires Leq(column, candidate)
    ensures Stored(column, candidate) == candidate
  {
  }

  lemma {:induction false} StoredGrows(column: Counters, candidate: Counters)
    ensures Leq(column, Stored(column, candidate))
  {
  }

  /** The columns get the least values above both. */
  lemma {:induction false} StoredLeast(column: Counters, candidate: Counters, c: Counters)
    ensures Leq(Stored(column, candidate), c) <==> Leq(column, c) && Leq(candidate, c)
  {
  }

  /** A drain marks the counters exactly for an event, or for a sample above its counter. */
  lemma {:induction false} DrainedDirty(c: Consumer, queue: seq<Event>, download: nat, extraction: Extraction)
    ensures Drained(c, queue, download, extraction).dirty <==>
              || c.dirty || |queue| > 0 || download > c.progress.downloaded
              || extraction.processed > c.progress.entries.processed
              || extraction.succeeded > c.progress.entries.succeeded
              || extraction.failed > c.progress.entries.failed
              || extraction.decompressed > c.progress.entries.decompressed
  {
  }

  // ----- The run

  /** What the consumer is doing, and for whom it waits for the database. */
  datatype Mode = Selecting | Flushing(purpose: Purpose) | UpdatingPhase | Stopped

  datatype Purpose = ForTick | ForPhase | ForFinish

  /** How much had been sent when a command was. */
  datatype Mark = Mark(events: nat, download: nat, extraction: Extraction)

  /**
   `events` and `issued` are all that was ever sent; the queues hold what lies behind `taken` and
   `handled`. `sampled` and `sampledEntries` are the samples last taken. `owned`: the claim is current
   and its lease runs, so its writes pass the fence.
   */
  datatype State = State(
    c: Consumer, persisted: Counters, owned: bool, mode: Mode, events: seq<Event>, taken: nat, download: nat,
    extraction: Extraction, sampled: nat, sampledEntries: Extraction, issued: seq<Command>, marks: seq<Mark>,
    handled: nat)

  const NO_ENTRIES := Extraction(0, 0, 0, 0)

  /** Starts from the row of a job just claimed. */
  function Start(row: Counters): State {
    State(
      Consumer(row, false, 0), row, true, Selecting, [], 0, row.downloaded, NO_ENTRIES, 0, NO_ENTRIES, [], [], 0)
  }

  datatype Action =
    | Send(event: Event) | Sample(bytes: nat) | SampleEntries(entries: Extraction) | Issue(command: Command)
    | TakeEvent | TakeDownload | TakeCommand | Tick
    | FlushEnds(outcome: Outcome) | PhaseEnds(updated: bool)
    | Stop
    | Requeue
    | Lapse | OthersClaim(url: bool) | OthersStore(counters: Counters)

  function AfterDrain(s: State, handled: nat, purpose: Purpose): State
    requires s.taken <= |s.events|
  {
    s.(c := Drained(s.c, s.events[s.taken..], s.download, s.extraction), taken := |s.events|, sampled := s.download,
       sampledEntries := s.extraction, handled := handled, mode := Flushing(purpose))
  }

  function AfterEvent(s: State): State
    requires s.taken < |s.events|
  {
    var (k, n) := Applied(s.c.progress.kubo, s.c.providers, s.events[s.taken]);
    s.(c := Consumer(s.c.progress.(kubo := k), true, n), taken := s.taken + 1)
  }

  function AfterDownload(s: State): State {
    var raised := s.c.progress.(downloaded := Max(s.c.progress.downloaded, s.download));
    s.(c := s.c.(progress := raised, dirty := true), sampled := s.download)
  }

  /** The counters after a command that only carries a value. */
  function Commanded(p: Counters, c: Command): Counters {
    match c
    case DownloadTotal(t) => p.(total := MaxOption(p.total, t))
    case LogicalSize(n) => p.(size := MaxOption(p.size, Some(n)))
    case _ => p
  }

  function AfterCommand(s: State): State
    requires s.handled < |s.issued| && s.taken <= |s.events|
  {
    var command := s.issued[s.handled];
    if command.Phase? then AfterDrain(s, s.handled + 1, ForPhase)
    else if command.Finish? then AfterDrain(s, s.handled + 1, ForFinish)
    else
      var changes := command.LogicalSize? || (command.DownloadTotal? && command.total.Some?);
      var c := s.c.(progress := Commanded(s.c.progress, command), dirty := s.c.dirty || changes);
      s.(handled := s.handled + 1, c := c)
  }

  /** The database answers a write-back. */
  function AfterFlush(s: State, outcome: Outcome): State
    requires s.mode.Flushing?
  {
    var (dirty, stored, ok) := Flushed(s.c, s.persisted, s.owned, outcome);
    var next := if !ok || s.mode.purpose.ForFinish? then Stopped
                else if s.mode.purpose.ForPhase? then UpdatingPhase else Selecting;
    s.(c := s.c.(dirty := dirty), persisted := stored, mode := next)
  }

  /** A requeued job, and a URL job with a new claim, start their transfer columns again. */
  function Reset(row: Counters): Counters {
    row.(downloaded := 0, total := None, kubo := row.kubo.(addBytes := 0))
  }

  function Step(s: State, a: Action): Option<State> {
    match a
    case Send(e) => Some(s.(events := s.events + [e]))
    case Sample(n) => if s.download <= n then Some(s.(download := n)) else None
    case SampleEntries(x) => if LeqEntries(s.extraction, x) then Some(s.(extraction := x)) else None
    case Issue(c) =>
      Some(s.(issued := s.issued + [c], marks := s.marks + [Mark(|s.events|, s.download, s.extraction)]))
    case TakeEvent => if s.mode.Selecting? && s.taken < |s.events| then Some(AfterEvent(s)) else None
    case TakeDownload => if s.mode.Selecting? then Some(AfterDownload(s)) else None
    case TakeCommand =>
      if s.mode.Selecting? && s.handled < |s.issued| && s.taken <= |s.events| then Some(AfterCommand(s)) else None
    case Tick =>
      if s.mode.Selecting? && s.taken <= |s.events| then Some(AfterDrain(s, s.handled, ForTick)) else None
    case FlushEnds(outcome) => if s.mode.Flushing? then Some(AfterFlush(s, outcome)) else None
    case PhaseEnds(updated) =>
      if s.mode.UpdatingPhase? then Some(s.(mode := if s.owned && updated then Selecting else Stopped)) else None
    case Stop => Some(s.(mode := Stopped))
    case Requeue =>
      if s.mode.Stopped? && s.owned then Some(s.(persisted := Reset(s.persisted), owned := false)) else None
    case Lapse => Some(s.(owned := false))
    case OthersClaim(url) =>
      if !s.owned then Some(s.(persisted := if url then Reset(s.persisted) else s.persisted)) else None
    case OthersStore(c) => if !s.owned then Some(s.(persisted := Stored(s.persisted, c))) else None
  }

  function Run(row: Counters, actions: seq<Action>): Option<State> {
    if actions == [] then Some(Start(row))
    else
      match Run(row, actions[..|actions| - 1])
      case None => None
      case Some(s) => Step(s, actions[|actions| - 1])
  }

  // ----- What every run keeps

  /** The counters are what was taken amounts to. */
  ghost predicate Counted(
      row: Counters, c: Consumer, events: seq<Event>, sampled: nat, entries: Extraction, commands: seq<Command>) {
    c.providers == Saturated(Observed(events)) && c.progress == Sent(row, events, sampled, entries, commands)
  }

  /** Under the fence, a clean flag means that the database has the counters. */
  ghost predicate Backed(c: Consumer, persisted: Counters, owned: bool) {
    owned ==> Leq(persisted, c.progress) && (!c.dirty ==> persisted == c.progress)
  }

  ghost predicate MarkBelow(m: Mark, events: nat, download: nat, extraction: Extraction) {
    m.events <= events && m.download <= download && LeqEntries(m.extraction, extraction)
  }

  ghost predicate Marked(marks: seq<Mark>, events: nat, download: nat, extraction: Extraction) {
    forall i :: 0 <= i < |marks| ==> MarkBelow(marks[i], events, download, extraction)
  }

  ghost predicate Indexed(s: State) {
    && s.taken <= |s.events| && s.handled <= |s.issued| == |s.marks|
    && s.sampled <= s.download && LeqEntries(s.sampledEntries, s.extraction)
  }

  predicate OnCommand(mode: Mode) {
    mode.UpdatingPhase? || (mode.Flushing? && !mode.purpose.ForTick?)
  }

  /** While a command waits for the database, all that was sent before the command is in the counters. */
  ghost predicate Waiting(s: State)
    requires Indexed(s)
  {
    && (OnCommand(s.mode) ==>
          && s.handled > 0 && (s.issued[s.handled - 1].Phase? || s.issued[s.handled - 1].Finish?)
          && MarkBelow(s.marks[s.handled - 1], s.taken, s.sampled, s.sampledEntries))
    && (s.mode.UpdatingPhase? ==> !s.c.dirty)
  }

  ghost predicate Inv(row: Counters, s: State) {
    && Indexed(s)
    && Counted(row, s.c, s.events[..s.taken], s.sampled, s.sampledEntries, s.issued[..s.handled])
    && Backed(s.c, s.persisted, s.owned)
    && Marked(s.marks, |s.events|, s.download, s.extraction)
    && Waiting(s)
  }

  /** One event raises the counters to what all events so far amount to. */
  lemma {:induction false} AppliedIsSent(start: Kubo, events: seq<Event>, e: Event)
    ensures Applied(SentKubo(start, events), Saturated(Observed(events)), e)
            == (SentKubo(start, events + [e]), Saturated(Observed(events + [e])))
  {
    var all := events + [e];
    assert all[..|all| - 1] == events && all[|all| - 1] == e;
  }

  lemma {:induction false} AppliedAllIsSent(start: Kubo, events: seq<Event>, more: seq<Event>)
    ensures AppliedAll(SentKubo(start, events), Saturated(Observed(events)), more)
            == (SentKubo(start, events + more), Saturated(Observed(events + more)))
    decreases |more|
  {
    if more == [] {
      assert events + more == events;
    } else {
      var head, last := more[..|more| - 1], more[|more| - 1];
      AppliedAllIsSent(start, events, head);
      AppliedIsSent(start, events + head, last);
      assert events + more == events + head + [last];
    }
  }

  /** Draining brings the counters up to everything sent and the latest samples. */
  lemma {:induction false} DrainedIsSent(
      row: Counters, c: Consumer, events: seq<Event>, taken: nat, sampled: nat, download: nat, entries: Extraction,
      extraction: Extraction, commands: seq<Command>)
    requires taken <= |events| && Counted(row, c, events[..taken], sampled, entries, commands)
    requires sampled <= download && LeqEntries(entries, extraction)
    ensures Counted(row, Drained(c, events[taken..], download, extraction), events, download, extraction, commands)
  {
    AppliedAllIsSent(row.kubo, events[..taken], events[taken..]);
    assert events[..taken] + events[taken..] == events;
  }

  lemma {:induction false} LeqReflexive(a: Counters)
    ensures Leq(a, a)
  {
  }

  /** Counters that were raised, with the flag set unless nothing changed. */
  ghost predicate Carries(c: Consumer, d: Consumer) {
    Leq(c.progress, d.progress) && (!d.dirty ==> !c.dirty && d.progress == c.progress)
  }

  lemma {:induction false} StillBacked(c: Consumer, d: Consumer, persisted: Counters, owned: bool)
    requires Backed(c, persisted, owned) && Carries(c, d)
    ensures Backed(d, persisted, owned)
  {
    if owned {
      LeqTransitive(persisted, c.progress, d.progress);
    }
  }

  /** One more command, in the totals. */
  lemma {:induction false} CommandStep(commands: seq<Command>, c: Command)
    ensures Totals(commands + [c]) == MaxOption(Totals(commands), if c.DownloadTotal? then c.total else None)
    ensures Sizes(commands + [c]) == MaxOption(Sizes(commands), if c.LogicalSize? then Some(c.size) else None)
  {
    var all := commands + [c];
    assert all[..|all| - 1] == commands && all[|all| - 1] == c;
  }

  /** What is taken next, in the prefixes. */
  lemma {:induction false} PrefixStep<T>(s: seq<T>, n: nat)
    requires n < |s|
    ensures s[..n + 1] == s[..n] + [s[n]]
  {
  }

  lemma {:induction false} EventKeeps(row: Counters, s: State)
    requires Inv(row, s) && s.mode.Selecting? && s.taken < |s.events|
    ensures Inv(row, AfterEvent(s)) && Leq(s.c.progress, AfterEvent(s).c.progress)
  {
    var t, commands := AfterEvent(s), s.issued[..s.handled];
    PrefixStep(s.events, s.taken);
    AppliedIsSent(row.kubo, s.events[..s.taken], s.events[s.taken]);
    SentGrows(row, s.events[..s.taken], t.events[..t.taken], s.sampled, s.sampled,
              s.sampledEntries, s.sampledEntries, commands, commands);
    StillBacked(s.c, t.c, s.persisted, s.owned);
  }

  lemma {:induction false} DownloadKeeps(row: Counters, s: State)
    requires Inv(row, s) && s.mode.Selecting?
    ensures Inv(row, AfterDownload(s)) && Leq(s.c.progress, AfterDownload(s).c.progress)
  {
    var t, events, commands := AfterDownload(s), s.events[..s.taken], s.issued[..s.handled];
    SentGrows(row, events, events, s.sampled, s.download, s.sampledEntries, s.sampledEntries, commands, commands);
    StillBacked(s.c, t.c, s.persisted, s.owned);
  }

  /** Draining carries the counters over, whether or not anything changes. */
  lemma {:induction false} DrainCarries(row: Counters, s: State)
    requires Inv(row, s)
    ensures var d := Drained(s.c, s.events[s.taken..], s.download, s.extraction);
            && Carries(s.c, d) && Counted(row, d, s.events, s.download, s.extraction, s.issued[..s.handled])
  {
    var commands := s.issued[..s.handled];
    DrainedIsSent(row, s.c, s.events, s.taken, s.sampled, s.download, s.sampledEntries, s.extraction, commands);
    SentGrows(row, s.events[..s.taken], s.events, s.sampled, s.download,
              s.sampledEntries, s.extraction, commands, commands);
  }

  lemma {:induction false} TickKeeps(row: Counters, s: State)
    requires Inv(row, s)
    ensures var t := AfterDrain(s, s.handled, ForTick); Inv(row, t) && Leq(s.c.progress, t.c.progress)
  {
    var t := AfterDrain(s, s.handled, ForTick);
    DrainCarries(row, s);
    StillBacked(s.c, t.c, s.persisted, s.owned);
    assert t.events[..t.taken] == s.events;
  }

  /** A phase or finish adds nothing to the totals. */
  lemma {:induction false} SameTotals(
      row: Counters, c: Consumer, events: seq<Event>, sampled: nat, entries: Extraction, issued: seq<Command>, n: nat)
    requires n < |issued| && (issued[n].Phase? || issued[n].Finish?)
    requires Counted(row, c, events, sampled, entries, issued[..n])
    ensures Counted(row, c, events, sampled, entries, issued[..n + 1])
  {
    PrefixStep(issued, n);
    CommandStep(issued[..n], issued[n]);
  }

  lemma {:induction false} PhaseKeeps(row: Counters, s: State, purpose: Purpose)
    requires Inv(row, s) && s.handled < |s.issued| && (s.issued[s.handled].Phase? || s.issued[s.handled].Finish?)
    requires !purpose.ForTick?
    ensures var t := AfterDrain(s, s.handled + 1, purpose); Inv(row, t) && Leq(s.c.progress, t.c.progress)
  {
    var u, t := AfterDrain(s, s.handled, ForTick), AfterDrain(s, s.handled + 1, purpose);
    TickKeeps(row, s);
    SameTotals(row, u.c, u.events[..u.taken], u.sampled, u.sampledEntries, u.issued, u.handled);
    assert MarkBelow(t.marks[s.handled], t.taken, t.sampled, t.sampledEntries);
  }

  lemma {:induction false} CommandedIsSent(
      row: Counters, events: seq<Event>, sampled: nat, entries: Extraction, commands: seq<Command>, c: Command)
    ensures Commanded(Sent(row, events, sampled, entries, commands), c)
            == Sent(row, events, sampled, entries, commands + [c])
  {
    CommandStep(commands, c);
    MaxOptionAssoc(row.total, Totals(commands), if c.DownloadTotal? then c.total else None);
    MaxOptionAssoc(row.size, Sizes(commands), if c.LogicalSize? then Some(c.size) else None);
  }

  lemma {:induction false} MaxOptionAssoc(a: Option<nat>, b: Option<nat>, c: Option<nat>)
    ensures MaxOption(a, MaxOption(b, c)) == MaxOption(MaxOption(a, b), c)
  {
  }

  lemma {:induction false} ValueKeeps(row: Counters, s: State)
    requires Inv(row, s) && s.mode.Selecting? && s.handled < |s.issued|
    requires !s.issued[s.handled].Phase? && !s.issued[s.handled].Finish?
    ensures Inv(row, AfterCommand(s)) && Leq(s.c.progress, AfterCommand(s).c.progress)
  {
    var t, events, before := AfterCommand(s), s.events[..s.taken], s.issued[..s.handled];
    PrefixStep(s.issued, s.handled);
    CommandedIsSent(row, events, s.sampled, s.sampledEntries, before, s.issued[s.handled]);
    SentGrows(row, events, events, s.sampled, s.sampled, s.sampledEntries, s.sampledEntries,
              before, s.issued[..s.handled + 1]);
    StillBacked(s.c, t.c, s.persisted, s.owned);
  }

  lemma {:induction false} FlushKeeps(row: Counters, s: State, outcome: Outcome)
    requires Inv(row, s) && s.mode.Flushing?
    ensures Inv(row, AfterFlush(s, outcome)) && Leq(s.persisted, AfterFlush(s, outcome).persisted)
  {
    LeqReflexive(s.persisted);
    LeqReflexive(s.c.progress);
    if s.owned {
      StoredIsCandidate(s.persisted, s.c.progress);
    }
  }

  predicate ByPipeline(a: Action) {
    a.Send? || a.Sample? || a.SampleEntries? || a.Issue?
  }

  lemma {:induction false} PipelineKeeps(row: Counters, s: State, a: Action)
    requires Inv(row, s) && Step(s, a).Some? && ByPipeline(a)
    ensures var t := Step(s, a).value; Inv(row, t) && t.c == s.c && t.persisted == s.persisted
  {
    var t := Step(s, a).value;
    assert t.events[..s.taken] == s.events[..s.taken] && t.issued[..s.handled] == s.issued[..s.handled];
  }

  lemma {:induction false} CommandKeeps(row: Counters, s: State)
    requires Inv(row, s) && s.mode.Selecting? && s.handled < |s.issued|
    ensures Inv(row, AfterCommand(s)) && Leq(s.c.progress, AfterCommand(s).c.progress)
  {
    if s.issued[s.handled].Phase? {
      PhaseKeeps(row, s, ForPhase);
    } else if s.issued[s.handled].Finish? {
      PhaseKeeps(row, s, ForFinish);
    } else {
      ValueKeeps(row, s);
    }
  }

  lemma {:induction false} StepKeeps(row: Counters, s: State, a: Action)
    requires Inv(row, s) && Step(s, a).Some?
    ensures Inv(row, Step(s, a).value) && Leq(s.c.progress, Step(s, a).value.c.progress)
  {
    LeqReflexive(s.c.progress);
    match a
    case TakeEvent => EventKeeps(row, s);
    case TakeDownload => DownloadKeeps(row, s);
    case TakeCommand => CommandKeeps(row, s);
    case Tick => TickKeeps(row, s);
    case FlushEnds(outcome) => FlushKeeps(row, s, outcome);
    case PhaseEnds(_) =>
    case Stop =>
    case Requeue =>
    case Lapse =>
    case OthersClaim(_) =>
    case OthersStore(_) =>
    case _ => PipelineKeeps(row, s, a);
  }

  lemma {:induction false} RunKeeps(row: Counters, actions: seq<Action>)
    requires Run(row, actions).Some?
    ensures Inv(row, Run(row, actions).value)
  {
    if actions != [] {
      var before := actions[..|actions| - 1];
      RunKeeps(row, before);
      StepKeeps(row, Run(row, before).value, actions[|actions| - 1]);
    }
  }

  // ----- What that means

  /** A requeue, or another worker's claim of a URL job, takes the transfer columns back. */
  predicate TakesBack(a: Action) {
    a.Requeue? || a == OthersClaim(true)
  }

  lemma {:induction false} StoredStep(row: Counters, s: State, a: Action)
    requires Inv(row, s) && Step(s, a).Some?
    ensures var t := Step(s, a).value;
            && (!TakesBack(a) ==> Leq(s.persisted, t.persisted))
            && (TakesBack(a) ==> t.persisted == Reset(s.persisted) && !t.owned && (s.owned ==> s.mode.Stopped?))
  {
    LeqReflexive(s.persisted);
    match a
    case FlushEnds(outcome) => FlushKeeps(row, s, outcome);
    case OthersStore(c) => StoredGrows(s.persisted, c);
    case _ =>
  }

  /**
   No counter in memory ever decreases. A stored one decreases only when the job is requeued under its own
   claim after the consumer stopped, which ends the claim, or when the claim was overtaken and another worker
   claims the URL job. Both reset the transfer columns and no others.
   */
  lemma {:induction false} NeverDecreases(row: Counters, actions: seq<Action>, a: Action)
    requires Run(row, actions).Some? && Step(Run(row, actions).value, a).Some?
    ensures var s, t := Run(row, actions).value, Step(Run(row, actions).value, a).value;
            && Leq(s.c.progress, t.c.progress)
            && (!TakesBack(a) ==> Leq(s.persisted, t.persisted))
            && (TakesBack(a) ==> t.persisted == Reset(s.persisted) && !t.owned && (s.owned ==> s.mode.Stopped?))
  {
    RunKeeps(row, actions);
    var s := Run(row, actions).value;
    StepKeeps(row, s, a);
    StoredStep(row, s, a);
  }

  /**
   The counters in memory are those of all that was taken. While the claim is current a clean flag means
   that the stored counters are the same.
   */
  lemma {:induction false} CleanMeansStored(row: Counters, actions: seq<Action>)
    requires Run(row, actions).Some?
    ensures var s := Run(row, actions).value;
            && s.taken <= |s.events| && s.handled <= |s.issued|
            && s.c.progress == Sent(row, s.events[..s.taken], s.sampled, s.sampledEntries, s.issued[..s.handled])
            && (s.owned && !s.c.dirty ==> s.persisted == s.c.progress)
  {
    RunKeeps(row, actions);
  }

  /** Nothing took the columns back. */
  ghost predicate NoReset(actions: seq<Action>) {
    forall i :: 0 <= i < |actions| ==> !TakesBack(actions[i])
  }

  lemma {:induction false} StoredCovers(column: Counters, candidate: Counters)
    ensures Leq(candidate, Stored(column, candidate))
  {
  }

  /** A clean flag means that the database has at least the counters in memory. */
  ghost predicate Covered(s: State) {
    !s.c.dirty ==> Leq(s.c.progress, s.persisted)
  }

  lemma {:induction false} FlushCovers(s: State, outcome: Outcome)
    requires Covered(s) && s.mode.Flushing?
    ensures Covered(AfterFlush(s, outcome))
  {
    StoredCovers(s.persisted, s.c.progress);
  }

  lemma {:induction false} StepCovers(row: Counters, s: State, a: Action)
    requires Inv(row, s) && Covered(s) && Step(s, a).Some? && !TakesBack(a)
    ensures Covered(Step(s, a).value)
  {
    match a
    case TakeCommand => DrainCarries(row, s);
    case Tick => DrainCarries(row, s);
    case FlushEnds(outcome) => FlushCovers(s, outcome);
    case OthersStore(c) =>
      StoredGrows(s.persisted, c);
      if !s.c.dirty {
        LeqTransitive(s.c.progress, s.persisted, Stored(s.persisted, c));
      }
    case _ =>
  }

  /**
   Until something takes the columns back, a clean flag means that the database has at least the counters in
   memory, whether or not the claim is current.
   */
  lemma {:induction false} CoveredUntilReset(row: Counters, actions: seq<Action>)
    requires Run(row, actions).Some? && NoReset(actions)
    ensures Covered(Run(row, actions).value)
  {
    if actions == [] {
      LeqReflexive(row);
    } else {
      var before := actions[..|actions| - 1];
      assert forall i :: 0 <= i < |before| ==> before[i] == actions[i];
      CoveredUntilReset(row, before);
      RunKeeps(row, before);
      StepCovers(row, Run(row, before).value, actions[|actions| - 1]);
    }
  }

  /** The database's answer lets the consumer acknowledge a command. */
  predicate AcknowledgesPhase(s: State, a: Action) {
    s.mode.UpdatingPhase? && a == PhaseEnds(true) && s.owned
  }

  predicate AcknowledgesFinish(s: State, a: Action) {
    s.mode == Flushing(ForFinish) && a.FlushEnds? && Flushed(s.c, s.persisted, s.owned, a.outcome).2
  }

  /** The stored counters are the start values with everything taken, which includes all sent before the command. */
  ghost predicate StoredAll(row: Counters, s: State, persisted: Counters) {
    && 0 < s.handled <= |s.issued| == |s.marks| && s.taken <= |s.events|
    && var i, mark := s.handled - 1, s.marks[s.handled - 1];
       && MarkBelow(mark, s.taken, s.sampled, s.sampledEntries)
       && persisted == Sent(row, s.events[..s.taken], s.sampled, s.sampledEntries, s.issued[..i])
       && Leq(Sent(row, s.events[..mark.events], mark.download, mark.extraction, s.issued[..i]), persisted)
  }

  lemma {:induction false} ProgressIsAll(row: Counters, s: State)
    requires Inv(row, s) && OnCommand(s.mode)
    ensures StoredAll(row, s, s.c.progress)
  {
    var i, mark := s.handled - 1, s.marks[s.handled - 1];
    PrefixStep(s.issued, i);
    CommandStep(s.issued[..i], s.issued[i]);
    assert s.events[..mark.events] <= s.events[..s.taken];
    SentGrows(row, s.events[..mark.events], s.events[..s.taken], mark.download, s.sampled,
              mark.extraction, s.sampledEntries, s.issued[..i], s.issued[..i]);
  }

  /** An acknowledged phase is always stored: the phase update is fenced, even when nothing was left to flush. */
  lemma {:induction false} PhaseIsStored(row: Counters, actions: seq<Action>, a: Action)
    requires Run(row, actions).Some? && AcknowledgesPhase(Run(row, actions).value, a)
    ensures var s := Run(row, actions).value;
            && Step(s, a).Some? && Step(s, a).value.owned && StoredAll(row, s, Step(s, a).value.persisted)
  {
    RunKeeps(row, actions);
    ProgressIsAll(row, Run(row, actions).value);
  }

  /**
   An acknowledged finish under a current claim is stored exactly. A flag that was dirty at the flush
   guarantees the claim, because the write-back is fenced; a clean one asks nobody. Even then the database has
   at least all of it, unless something took the columns back.
   */
  lemma {:induction false} FinishIsStoredExactly(row: Counters, actions: seq<Action>, a: Action)
    requires Run(row, actions).Some? && AcknowledgesFinish(Run(row, actions).value, a)
    ensures var s := Run(row, actions).value;
            && Step(s, a).Some?
            && var t := Step(s, a).value;
               && (t.owned && StoredAll(row, s, t.persisted) <==> s.owned)
               && (s.c.dirty ==> s.owned)
               && (!s.owned ==> t.persisted == s.persisted)
               && StoredAll(row, s, t.c.progress) && (NoReset(actions) ==> Leq(t.c.progress, t.persisted))
  {
    RunKeeps(row, actions);
    var s := Run(row, actions).value;
    ProgressIsAll(row, s);
    if s.owned {
      StoredIsCandidate(s.persisted, s.c.progress);
    }
    if NoReset(actions) {
      CoveredUntilReset(row, actions);
      FlushCovers(s, a.outcome);
    }
  }

  /** Something was transferred: a reset would take it back. */
  predicate HasTransfer(c: Counters) {
    c.downloaded > 0 || c.total.Some? || c.kubo.addBytes > 0
  }

  /**
   When the claim has lapsed and a finish with a clean flag waits for its answer, a URL claim of another worker
   makes the acknowledged finish fall short exactly when something was transferred.
   */
  lemma {:induction false} ShortExactly(row: Counters, actions: seq<Action>)
    requires Run(row, actions).Some? && NoReset(actions)
    requires var s := Run(row, actions).value; s.mode == Flushing(ForFinish) && !s.c.dirty && !s.owned
    ensures var s := Run(row, actions).value;
            var claimed := Step(s, OthersClaim(true)).value;
            && AcknowledgesFinish(claimed, FlushEnds(Done))
            && var t := AfterFlush(claimed, Done);
               !Leq(t.c.progress, t.persisted) <==> HasTransfer(s.c.progress)
  {
    CoveredUntilReset(row, actions);
  }

  lemma {:induction false} RunSnoc(row: Counters, actions: seq<Action>, a: Action)
    requires Run(row, actions).Some?
    ensures Run(row, actions + [a]) == Step(Run(row, actions).value, a)
  {
    var all := actions + [a];
    assert all[..|all| - 1] == actions && all[|all| - 1] == a;
  }

  /**
   The other case happens: after a tick stored five added bytes, the lease lapses and another worker claims the
   job; the finish is still acknowledged, and the database has none of the bytes.
   */
  lemma {:induction false} FinishAfterReclaim() returns (actions: seq<Action>)
    ensures var row := Counters(Kubo(0, 0, 0, 0), 0, None, None, NO_ENTRIES);
            && Run(row, actions).Some? && AcknowledgesFinish(Run(row, actions).value, FlushEnds(Done))
            && var s := Run(row, actions).value;
               s.c.progress.kubo.addBytes == 5 && AfterFlush(s, Done).persisted == row
  {
    var row := Counters(Kubo(0, 0, 0, 0), 0, None, None, NO_ENTRIES);
    var five := row.(kubo := row.kubo.(addBytes := 5));
    var s0 := Start(row);
    RunSnoc(row, [], Send(AddBytes(5)));
    var a1 := [] + [Send(AddBytes(5))];
    var s1 := s0.(events := [AddBytes(5)]);
    assert Run(row, a1) == Some(s1) by { assert s0.events + [AddBytes(5)] == [AddBytes(5)]; }
    RunSnoc(row, a1, TakeEvent);
    var a2 := a1 + [TakeEvent];
    var s2 := s1.(c := Consumer(five, true, 0), taken := 1);
    assert Run(row, a2) == Some(s2);
    RunSnoc(row, a2, Tick);
    var a3 := a2 + [Tick];
    var s3 := s2.(sampled := 0, sampledEntries := NO_ENTRIES, mode := Flushing(ForTick));
    assert Run(row, a3) == Some(s3) by {
      assert s2.events[1..] == [];
    }
    RunSnoc(row, a3, FlushEnds(Done));
    var a4 := a3 + [FlushEnds(Done)];
    var s4 := s3.(c := Consumer(five, false, 0), persisted := five, mode := Selecting);
    assert Run(row, a4) == Some(s4);
    RunSnoc(row, a4, Lapse);
    RunSnoc(row, a4 + [Lapse], OthersClaim(true));
    var a6 := a4 + [Lapse] + [OthersClaim(true)];
    var s6 := s4.(owned := false, persisted := row);
    assert Run(row, a6) == Some(s6);
    RunSnoc(row, a6, Issue(Finish));
    var a7 := a6 + [Issue(Finish)];
    var s7 := s6.(issued := [Finish], marks := [Mark(1, 0, NO_ENTRIES)]);
    assert Run(row, a7) == Some(s7) by {
      assert s6.issued + [Finish] == [Finish] && s6.marks + [Mark(1, 0, NO_ENTRIES)] == [Mark(1, 0, NO_ENTRIES)];
    }
    RunSnoc(row, a7, TakeCommand);
    actions := a7 + [TakeCommand];
    assert s7.events[1..] == [];
    assert Run(row, actions) == Some(s7.(handled := 1, mode := Flushing(ForFinish)));
  }

  // ----- What is answered

  const LARGEST: nat := 9223372036854775807

  /** The database can hold the counters: but for the 32-bit providers, they are below 2^63. */
  predicate Storable(c: Counters) {
    Leq(c, Counters(
      Kubo(c.kubo.providers, LARGEST, LARGEST, LARGEST), LARGEST, Some(LARGEST), Some(LARGEST),
      Extraction(LARGEST, LARGEST, LARGEST, LARGEST)))
  }

  /** A write-back succeeds: there is nothing to write, or it is written under the fence. */
  predicate Succeeds(s: State, outcome: Outcome) {
    !s.c.dirty || (s.owned && outcome.Done? && Storable(s.c.progress))
  }

  /** After a write-back the consumer goes on with its purpose exactly if it succeeds, and else stops. */
  lemma {:induction false} AnswersExactly(row: Counters, actions: seq<Action>, outcome: Outcome)
    requires Run(row, actions).Some? && Run(row, actions).value.mode.Flushing?
    ensures var s := Run(row, actions).value;
            && Step(s, FlushEnds(outcome)).Some?
            && var t := Step(s, FlushEnds(outcome)).value;
               && (t.c.dirty <==> s.c.dirty && !Succeeds(s, outcome)) && t.owned == s.owned
               && (t.mode.Selecting? <==> s.mode.purpose.ForTick? && Succeeds(s, outcome))
               && (t.mode.UpdatingPhase? <==> s.mode.purpose.ForPhase? && Succeeds(s, outcome))
               && (t.mode.Stopped? <==> s.mode.purpose.ForFinish? || !Succeeds(s, outcome))
               && (AcknowledgesFinish(s, FlushEnds(outcome)) <==> s.mode.purpose.ForFinish? && Succeeds(s, outcome))
  {
    var c := Run(row, actions).value.c.progress;
    assert Storable(c) <==> Fits(c);
  }

  lemma {:induction false} StorableBelow(a: Counters, b: Counters)
    requires Leq(a, b) && Storable(b)
    ensures Storable(a)
  {
  }

  /** All that was ever sent. */
  function AllSent(row: Counters, s: State): Counters {
    Sent(row, s.events, s.download, s.extraction, s.issued)
  }

  lemma {:induction false} ProgressBelow(row: Counters, s: State)
    requires Inv(row, s)
    ensures Leq(s.c.progress, AllSent(row, s))
  {
    SentGrows(row, s.events[..s.taken], s.events, s.sampled, s.download, s.sampledEntries, s.extraction,
              s.issued[..s.handled], s.issued);
  }

  /** A finish lies ahead. */
  ghost predicate Finishes(s: State) {
    exists i :: s.handled <= i < |s.issued| && s.issued[i].Finish?
  }

  /** A command that waits for the database will get its answer. */
  lemma {:induction false} CommandSucceeds(row: Counters, actions: seq<Action>, s: State) returns (u: State)
    requires Run(row, actions) == Some(s) && s.mode.Selecting? && s.owned && Storable(AllSent(row, s))
    requires s.handled < |s.issued| && (s.issued[s.handled].Phase? || s.issued[s.handled].Finish?)
    ensures Run(row, actions + [TakeCommand]) == Some(u) && u.owned && Succeeds(u, Done)
    ensures u.mode == Flushing(if s.issued[s.handled].Phase? then ForPhase else ForFinish)
    ensures u.issued == s.issued && u.handled == s.handled + 1 && AllSent(row, u) == AllSent(row, s)
  {
    RunKeeps(row, actions);
    RunSnoc(row, actions, TakeCommand);
    RunKeeps(row, actions + [TakeCommand]);
    u := AfterCommand(s);
    ProgressBelow(row, u);
    StorableBelow(u.c.progress, AllSent(row, u));
  }

  lemma {:induction false} PhaseSucceeds(row: Counters, actions: seq<Action>, u: State) returns (t: State)
    requires Run(row, actions) == Some(u) && u.mode == Flushing(ForPhase) && u.owned && Succeeds(u, Done)
    ensures Run(row, actions + [FlushEnds(Done)] + [PhaseEnds(true)]) == Some(t)
    ensures t.mode.Selecting? && t.owned && t.issued == u.issued && t.handled == u.handled
    ensures AllSent(row, t) == AllSent(row, u)
  {
    AnswersExactly(row, actions, Done);
    RunSnoc(row, actions, FlushEnds(Done));
    t := AfterFlush(u, Done);
    RunSnoc(row, actions + [FlushEnds(Done)], PhaseEnds(true));
    t := t.(mode := Selecting);
  }

  /** The consumer waits for commands, under a current claim, with a finish ahead and nothing too large. */
  ghost predicate OnCourse(row: Counters, s: State) {
    s.mode.Selecting? && s.owned && s.handled <= |s.issued| && Finishes(s) && Storable(AllSent(row, s))
  }

  lemma {:induction false} StaysOnCourse(row: Counters, s: State, t: State)
    requires OnCourse(row, s) && !s.issued[s.handled].Finish? && AllSent(row, t) == AllSent(row, s)
    requires t.mode.Selecting? && t.owned && t.issued == s.issued && t.handled == s.handled + 1
    ensures OnCourse(row, t)
  {
  }

  lemma {:induction false} FinishNext(row: Counters, actions: seq<Action>, s: State)
    requires Run(row, actions) == Some(s) && OnCourse(row, s) && s.issued[s.handled].Finish?
    ensures Run(row, actions + [TakeCommand]).Some?
    ensures AcknowledgesFinish(Run(row, actions + [TakeCommand]).value, FlushEnds(Done))
  {
    var u := CommandSucceeds(row, actions, s);
    AnswersExactly(row, actions + [TakeCommand], Done);
  }

  lemma {:induction false} PhaseNext(row: Counters, actions: seq<Action>, s: State) returns (all: seq<Action>, t: State)
    requires Run(row, actions) == Some(s) && OnCourse(row, s) && s.issued[s.handled].Phase?
    ensures Run(row, all) == Some(t) && OnCourse(row, t) && actions <= all
    ensures t.issued == s.issued && t.handled == s.handled + 1
  {
    var u := CommandSucceeds(row, actions, s);
    all := actions + [TakeCommand];
    t := PhaseSucceeds(row, all, u);
    all := all + [FlushEnds(Done)] + [PhaseEnds(true)];
    StaysOnCourse(row, s, t);
  }

  /** A command that only carries a value is taken at once. */
  lemma {:induction false} ValueTaken(row: Counters, actions: seq<Action>, s: State) returns (t: State)
    requires Run(row, actions) == Some(s) && s.mode.Selecting? && s.handled < |s.issued|
    requires !s.issued[s.handled].Phase? && !s.issued[s.handled].Finish?
    ensures Run(row, actions + [TakeCommand]) == Some(t) && t.mode.Selecting? && t.owned == s.owned
    ensures t.issued == s.issued && t.handled == s.handled + 1 && AllSent(row, t) == AllSent(row, s)
  {
    RunKeeps(row, actions);
    RunSnoc(row, actions, TakeCommand);
    t := AfterCommand(s);
  }

  lemma {:induction false} ValueNext(row: Counters, actions: seq<Action>, s: State) returns (all: seq<Action>, t: State)
    requires Run(row, actions) == Some(s) && OnCourse(row, s)
    requires !s.issued[s.handled].Phase? && !s.issued[s.handled].Finish?
    ensures Run(row, all) == Some(t) && OnCourse(row, t) && actions <= all
    ensures t.issued == s.issued && t.handled == s.handled + 1
  {
    t := ValueTaken(row, actions, s);
    all := actions + [TakeCommand];
    StaysOnCourse(row, s, t);
  }

  /**
   As long as the claim is current and the database can hold all that was sent, a finish that was issued can
   be acknowledged.
   */
  lemma {:induction false} CanFinish(row: Counters, actions: seq<Action>, s: State) returns (all: seq<Action>)
    requires Run(row, actions) == Some(s) && OnCourse(row, s)
    ensures actions <= all && Run(row, all).Some? && AcknowledgesFinish(Run(row, all).value, FlushEnds(Done))
    decreases |s.issued| - s.handled
  {
    if s.issued[s.handled].Finish? {
      FinishNext(row, actions, s);
      all := actions + [TakeCommand];
    } else {
      var t;
      if s.issued[s.handled].Phase? {
        all, t := PhaseNext(row, actions, s);
      } else {
        all, t := ValueNext(row, actions, s);
      }
      all := CanFinish(row, all, t);
    }
  }

  /** A tick under a current claim brings the database up to all that was sent, but for commands still waiting. */
  lemma {:induction false} TickStores(row: Counters, actions: seq<Action>, s: State) returns (t: State)
    requires Run(row, actions) == Some(s) && s.mode.Selecting? && s.owned && Storable(AllSent(row, s))
    ensures Run(row, actions + [Tick] + [FlushEnds(Done)]) == Some(t) && t.mode.Selecting? && t.owned
    ensures s.handled <= |s.issued|
    ensures t.persisted == Sent(row, s.events, s.download, s.extraction, s.issued[..s.handled])
  {
    RunKeeps(row, actions);
    RunSnoc(row, actions, Tick);
    var u := AfterDrain(s, s.handled, ForTick);
    RunKeeps(row, actions + [Tick]);
    ProgressBelow(row, u);
    StorableBelow(u.c.progress, AllSent(row, u));
    AnswersExactly(row, actions + [Tick], Done);
    RunSnoc(row, actions + [Tick], FlushEnds(Done));
    t := AfterFlush(u, Done);
    CleanMeansStored(row, actions + [Tick] + [FlushEnds(Done)]);
    assert t.events[..t.taken] == s.events;
  }

  /** A command that carries a value sets the flag, and one without a value changes nothing. */
  lemma {:induction false} ValueDirty(s: State)
    requires s.handled < |s.issued| && s.taken <= |s.events|
    ensures var c, t := s.issued[s.handled], AfterCommand(s);
            && (c.LogicalSize? || (c.DownloadTotal? && c.total.Some?) ==> t.c.dirty)
            && (c == DownloadTotal(None) ==> t.c == s.c)
  {
  }

  /** Nothing was sent yet. */
  ghost predicate Idle(row: Counters, s: State) {
    && s.c.progress == row && !s.c.dirty && s.events == [] && s.issued == []
    && s.download == row.downloaded && s.extraction == NO_ENTRIES && s.taken == 0
  }

  lemma {:induction false} IdleStep(row: Counters, s: State, a: Action)
    requires Idle(row, s) && Step(s, a).Some? && !ByPipeline(a) && !a.TakeDownload?
    ensures Idle(row, Step(s, a).value)
  {
  }

  /** A run in which nothing is sent leaves the flag clean. */
  lemma {:induction false} IdleIsClean(row: Counters, actions: seq<Action>)
    requires Run(row, actions).Some?
    requires forall i :: 0 <= i < |actions| ==> !ByPipeline(actions[i]) && !actions[i].TakeDownload?
    ensures Idle(row, Run(row, actions).value)
  {
    if actions != [] {
      var before := actions[..|actions| - 1];
      assert forall i :: 0 <= i < |before| ==> before[i] == actions[i];
      IdleIsClean(row, before);
      IdleStep(row, Run(row, before).value, actions[|actions| - 1]);
    }
  }

  /** The consumer goes on after a phase update exactly when it acknowledges the phase, and else stops. */
  lemma {:induction false} PhaseExactly(s: State, updated: bool)
    requires s.mode.UpdatingPhase?
    ensures Step(s, PhaseEnds(updated)).Some?
    ensures var t := Step(s, PhaseEnds(updated)).value;
            && (t.mode.Selecting? <==> s.owned && updated) && (t.mode.Stopped? <==> !s.owned || !updated)
            && t.c == s.c && t.persisted == s.persisted && t.owned == s.owned
  {
  }

  /** Once the claim was overtaken, others can store anything above what is there. */
  lemma {:induction false} OthersGoOn(row: Counters, actions: seq<Action>, s: State, c: Counters)
    requires Run(row, actions) == Some(s) && !s.owned
    ensures Run(row, actions + [OthersStore(c)]).Some?
    ensures var t := Run(row, actions + [OthersStore(c)]).value;
            Leq(c, t.persisted) && Leq(s.persisted, t.persisted) && t.c == s.c
  {
    RunSnoc(row, actions, OthersStore(c));
    StoredCovers(s.persisted, c);
    StoredGrows(s.persisted, c);
  }
}
