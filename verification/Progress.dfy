/** Progress counters of an import, and what everything sent during an attempt amounts to. */
module Progress {
  import opened Prelude

  const U32_MAX: nat := 0xFFFF_FFFF
  const I64_MAX: nat := 0x7FFF_FFFF_FFFF_FFFF

  datatype Kubo = Kubo(providers: nat, pinNodes: nat, pinBytes: nat, addBytes: nat)

  datatype Extraction = Extraction(processed: nat, succeeded: nat, failed: nat, decompressed: nat)

  datatype Counters = Counters(kubo: Kubo, downloaded: nat, total: Option<nat>, size: Option<nat>, entries: Extraction)

  datatype Event = ProviderObserved | AddBytes(bytes: nat) | PinProgress(nodes: nat, pinned: nat)

  datatype Command = Phase | DownloadTotal(total: Option<nat>) | LogicalSize(size: nat) | Finish

  // ----- Order

  function Max(a: nat, b: nat): nat {
    if a >= b then a else b
  }

  function MaxOption(a: Option<nat>, b: Option<nat>): Option<nat> {
    if a.None? then b else if b.None? then a else Some(Max(a.value, b.value))
  }

  function MaxKubo(a: Kubo, b: Kubo): Kubo {
    Kubo(
      Max(a.providers, b.providers), Max(a.pinNodes, b.pinNodes), Max(a.pinBytes, b.pinBytes),
      Max(a.addBytes, b.addBytes))
  }

  function MaxEntries(a: Extraction, b: Extraction): Extraction {
    Extraction(
      Max(a.processed, b.processed), Max(a.succeeded, b.succeeded), Max(a.failed, b.failed),
      Max(a.decompressed, b.decompressed))
  }

  predicate LeqOption(a: Option<nat>, b: Option<nat>) {
    a.None? || (b.Some? && a.value <= b.value)
  }

  predicate LeqKubo(a: Kubo, b: Kubo) {
    a.providers <= b.providers && a.pinNodes <= b.pinNodes && a.pinBytes <= b.pinBytes && a.addBytes <= b.addBytes
  }

  predicate LeqEntries(a: Extraction, b: Extraction) {
    a.processed <= b.processed && a.succeeded <= b.succeeded && a.failed <= b.failed && a.decompressed <= b.decompressed
  }

  /** No counter of `a` is above that of `b`. */
  predicate Leq(a: Counters, b: Counters) {
    && LeqKubo(a.kubo, b.kubo) && a.downloaded <= b.downloaded
    && LeqOption(a.total, b.total) && LeqOption(a.size, b.size) && LeqEntries(a.entries, b.entries)
  }

  lemma {:induction false} LeqTransitive(a: Counters, b: Counters, c: Counters)
    requires Leq(a, b) && Leq(b, c)
    ensures Leq(a, c)
  {
  }

  // ----- Everything sent, at its highest

  /** One event on its own: a count for providers, a level for the rest. */
  function Level(e: Event): Kubo {
    match e
    case ProviderObserved => Kubo(0, 0, 0, 0)
    case AddBytes(bytes) => Kubo(0, 0, 0, bytes)
    case PinProgress(nodes, pinned) => Kubo(0, nodes, pinned, 0)
  }

  function Observed(events: seq<Event>): nat {
    if events == [] then 0
    else Observed(events[..|events| - 1]) + (if events[|events| - 1].ProviderObserved? then 1 else 0)
  }

  /** The number of providers is kept in 32 bits. */
  function Saturated(n: nat): nat {
    if n <= U32_MAX then n else U32_MAX
  }

  function Highest(events: seq<Event>): Kubo {
    if events == [] then Kubo(0, 0, 0, 0) else MaxKubo(Highest(events[..|events| - 1]), Level(events[|events| - 1]))
  }

  function SentKubo(start: Kubo, events: seq<Event>): Kubo {
    MaxKubo(start, Highest(events).(providers := Saturated(Observed(events))))
  }

  function Totals(commands: seq<Command>): Option<nat> {
    if commands == [] then None
    else
      var last := match commands[|commands| - 1] case DownloadTotal(t) => t case _ => None;
      MaxOption(Totals(commands[..|commands| - 1]), last)
  }

  function Sizes(commands: seq<Command>): Option<nat> {
    if commands == [] then None
    else
      var last := match commands[|commands| - 1] case LogicalSize(n) => Some(n) case _ => None;
      MaxOption(Sizes(commands[..|commands| - 1]), last)
  }

  /** The pointwise maximum of the start values and everything sent; of sampled sources, their latest value. */
  function Sent(
      start: Counters, events: seq<Event>, downloaded: nat, entries: Extraction, commands: seq<Command>): Counters {
    Counters(SentKubo(start.kubo, events), Max(start.downloaded, downloaded), MaxOption(start.total, Totals(commands)),
             MaxOption(start.size, Sizes(commands)), MaxEntries(start.entries, entries))
  }

  /** Every event is below the highest levels. */
  lemma {:induction false} HighestCovers(events: seq<Event>, e: Event)
    requires e in events
    ensures e.AddBytes? ==> e.bytes <= Highest(events).addBytes
    ensures e.PinProgress? ==> e.nodes <= Highest(events).pinNodes && e.pinned <= Highest(events).pinBytes
  {
    if e != events[|events| - 1] {
      HighestCovers(events[..|events| - 1], e);
    }
  }

  /** A highest level that is not zero is that of an event. */
  lemma {:induction false} HighestReached(events: seq<Event>)
    ensures var h := Highest(events);
            && (h.addBytes > 0 ==> AddBytes(h.addBytes) in events)
            && (h.pinNodes > 0 ==> exists n: nat :: PinProgress(h.pinNodes, n) in events)
            && (h.pinBytes > 0 ==> exists n: nat :: PinProgress(n, h.pinBytes) in events)
            && h.providers == 0
  {
    if events != [] {
      HighestReached(events[..|events| - 1]);
      var last := events[|events| - 1];
      assert last in events && forall e :: e in events[..|events| - 1] ==> e in events;
    }
  }

  /** The totals are the largest that were sent. */
  lemma {:induction false} TotalsExactly(commands: seq<Command>, n: nat)
    ensures Totals(commands) == Some(n) <==>
              && DownloadTotal(Some(n)) in commands
              && forall m: nat :: DownloadTotal(Some(m)) in commands ==> m <= n
    ensures Sizes(commands) == Some(n) <==>
              LogicalSize(n) in commands && forall m: nat :: LogicalSize(m) in commands ==> m <= n
  {
    TotalsReached(commands);
  }

  lemma {:induction false} TotalsReached(commands: seq<Command>)
    ensures Totals(commands).Some? ==> DownloadTotal(Totals(commands)) in commands
    ensures Sizes(commands).Some? ==> LogicalSize(Sizes(commands).value) in commands
    ensures forall m: nat :: DownloadTotal(Some(m)) in commands ==> LeqOption(Some(m), Totals(commands))
    ensures forall m: nat :: LogicalSize(m) in commands ==> LeqOption(Some(m), Sizes(commands))
  {
    if commands != [] {
      var front, last := commands[..|commands| - 1], commands[|commands| - 1];
      TotalsReached(front);
      assert commands == front + [last];
    }
  }

  lemma {:induction false} EventsGrow(start: Kubo, events: seq<Event>, more: seq<Event>)
    ensures LeqKubo(SentKubo(start, events), SentKubo(start, events + more))
    ensures LeqKubo(Highest(events), Highest(events + more)) && Observed(events) <= Observed(events + more)
    decreases |more|
  {
    if more == [] {
      assert events + more == events;
    } else {
      var all, head := events + more, more[..|more| - 1];
      assert all[..|all| - 1] == events + head;
      EventsGrow(start, events, head);
    }
  }

  lemma {:induction false} CommandsGrow(commands: seq<Command>, more: seq<Command>)
    ensures LeqOption(Totals(commands), Totals(commands + more)) && LeqOption(Sizes(commands), Sizes(commands + more))
    decreases |more|
  {
    if more == [] {
      assert commands + more == commands;
    } else {
      var all, head := commands + more, more[..|more| - 1];
      assert all[..|all| - 1] == commands + head;
      CommandsGrow(commands, head);
    }
  }

  /** More sent, and later samples of nondecreasing sources, mean no lower total. */
  lemma {:induction false} SentGrows(
      start: Counters, events: seq<Event>, allEvents: seq<Event>, downloaded: nat, later: nat, entries: Extraction,
      laterEntries: Extraction, commands: seq<Command>, allCommands: seq<Command>)
    requires events <= allEvents && commands <= allCommands && downloaded <= later && LeqEntries(entries, laterEntries)
    ensures Leq(
              Sent(start, events, downloaded, entries, commands),
              Sent(start, allEvents, later, laterEntries, allCommands))
  {
    EventsGrow(start.kubo, events, allEvents[|events|..]);
    CommandsGrow(commands, allCommands[|commands|..]);
    assert allEvents == events + allEvents[|events|..] && allCommands == commands + allCommands[|commands|..];
  }
}
