/**
 The worker's slots: two queues share them, taking turns at successful claims. The log of claims
 tried is kept beside the counters, and fairness is a property of that log.
 */
module WorkerSlots {

  datatype Queue = Jobs | V2

  function Other(q: Queue): Queue {
    if q == Jobs then V2 else Jobs
  }

  /** A queue was asked for a claim, and gave one or not. */
  datatype Try = Try(queue: Queue, got: bool)

  // ----- Fairness of a log

  /** The next claim after the one at `i` is at `j`. */
  predicate Consecutive(log: seq<Try>, i: nat, j: nat) {
    i < j < |log| && log[i].got && log[j].got && forall k :: i < k < j ==> !log[k].got
  }

  predicate AskedBetween(log: seq<Try>, q: Queue, i: nat, j: nat) {
    j <= |log| && exists k :: i < k < j && log[k] == Try(q, false)
  }

  /** Two claims in a row come from one queue only if the other was asked in between and gave nothing. */
  ghost predicate Fair(log: seq<Try>) {
    forall i: nat, j: nat :: Consecutive(log, i, j) && log[i].queue == log[j].queue ==>
      AskedBetween(log, Other(log[i].queue), i, j)
  }

  /** The last claim is at `i`. */
  predicate LastClaim(log: seq<Try>, i: nat) {
    i < |log| && log[i].got && forall k :: i < k < |log| ==> !log[k].got
  }

  /** It is the turn of the queue that did not give the last claim; anything asked since began with it. */
  ghost predicate Turn(log: seq<Try>, next: Queue) {
    forall i: nat :: LastClaim(log, i) ==>
      next == Other(log[i].queue) && (i + 1 < |log| ==> log[i + 1] == Try(next, false))
  }

  /** What is true between two polls. */
  ghost predicate Settled(log: seq<Try>, next: Queue) {
    Fair(log) && Turn(log, next)
  }

  lemma {:induction false} LastSnoc(log: seq<Try>, t: Try, i: nat)
    requires LastClaim(log + [t], i)
    ensures t.got ==> i == |log|
    ensures !t.got ==> LastClaim(log, i)
  {
    var all := log + [t];
    assert all[|log|] == t;
    if !t.got {
      assert forall k :: i < k < |log| ==> all[k] == log[k];
    }
  }

  lemma {:induction false} ConsecutiveSnoc(log: seq<Try>, t: Try, i: nat, j: nat)
    requires Consecutive(log + [t], i, j)
    ensures j < |log| ==> Consecutive(log, i, j)
    ensures j == |log| ==> LastClaim(log, i)
  {
    var all := log + [t];
    assert forall k :: i <= k < j ==> all[k] == log[k];
    assert j < |log| ==> all[j] == log[j];
  }

  /** Asking the queue whose turn it is, without success. */
  lemma {:induction false} Refused(log: seq<Try>, next: Queue)
    requires Settled(log, next)
    ensures Settled(log + [Try(next, false)], next)
  {
    var t := Try(next, false);
    FairSnoc(log, t);
    forall i: nat | LastClaim(log + [t], i)
      ensures next == Other((log + [t])[i].queue) && (i + 1 < |log + [t]| ==> (log + [t])[i + 1] == t)
    {
      LastSnoc(log, t, i);
    }
  }

  /** A log stays fair if a claim from the last claim's queue comes only after the other was asked. */
  lemma {:induction false} FairSnoc(log: seq<Try>, t: Try)
    requires Fair(log)
    requires t.got ==>
      forall i: nat :: LastClaim(log, i) && log[i].queue == t.queue ==> AskedBetween(log, Other(t.queue), i, |log|)
    ensures Fair(log + [t])
  {
    var all := log + [t];
    forall i: nat, j: nat | Consecutive(all, i, j) && all[i].queue == all[j].queue
      ensures AskedBetween(all, Other(all[i].queue), i, j)
    {
      ConsecutiveSnoc(log, t, i, j);
      assert AskedBetween(log, Other(log[i].queue), i, j);
      var k :| i < k < j && log[k] == Try(Other(log[i].queue), false);
      assert all[k] == log[k];
    }
  }

  /** A claim: the turn passes on. */
  lemma {:induction false} Taken(log: seq<Try>, q: Queue)
    requires Fair(log)
    requires forall i: nat :: LastClaim(log, i) && log[i].queue == q ==> AskedBetween(log, Other(q), i, |log|)
    ensures Settled(log + [Try(q, true)], Other(q))
  {
    FairSnoc(log, Try(q, true));
    forall i: nat | LastClaim(log + [Try(q, true)], i) ensures i == |log| {
      LastSnoc(log, Try(q, true), i);
    }
  }

  /** Asking the second queue, after the first gave nothing, without success. */
  lemma {:induction false} BothRefused(log: seq<Try>, next: Queue)
    requires Settled(log, next) && log != [] && log[|log| - 1] == Try(next, false)
    ensures Settled(log + [Try(Other(next), false)], next)
  {
    var t := Try(Other(next), false);
    var all := log + [t];
    FairSnoc(log, t);
    forall i: nat | LastClaim(all, i)
      ensures next == Other(all[i].queue) && (i + 1 < |all| ==> all[i + 1] == Try(next, false))
    {
      LastSnoc(log, t, i);
      assert i + 1 < |log|;
    }
  }

  // ----- What events make of the slots

  /** How many claims of a queue are in the log. */
  function Claims(log: seq<Try>, q: Queue): nat {
    if log == [] then 0
    else Claims(log[..|log| - 1], q) + if log[|log| - 1] == Try(q, true) then 1 else 0
  }

  lemma {:induction false} ClaimsAppend(a: seq<Try>, b: seq<Try>, q: Queue)
    ensures Claims(a + b, q) == Claims(a, q) + Claims(b, q)
  {
    if b == [] {
      assert a + b == a;
    } else {
      ClaimsAppend(a, b[..|b| - 1], q);
      assert (a + b)[..|a + b| - 1] == a + b[..|b| - 1];
    }
  }

  /** The answers that the queues will give to a poll, slot by slot: the one asked first, and the other. */
  type Answers = seq<(bool, bool)>

  /** After the last answer the queues are empty. */
  function At(answers: Answers, slot: nat): (bool, bool) {
    if slot < |answers| then answers[slot] else (false, false)
  }

  /** What one slot asks when it is `next`'s turn, given the answers of the queue asked first and of the other. */
  function Asked(next: Queue, gives: (bool, bool)): seq<Try> {
    if gives.0 then [Try(next, true)] else [Try(next, false), Try(Other(next), gives.1)]
  }

  /** Whose turn it is after a slot: a claim passes it to the queue that did not give it. */
  function TurnAfter(next: Queue, gives: (bool, bool)): Queue {
    if gives.0 then Other(next) else next
  }

  /** Running tasks of each queue, the turn, the log, and how many tasks of each queue ended. */
  datatype Slots = Slots(jobs: nat, v2: nat, next: Queue, log: seq<Try>, endedJobs: nat, endedV2: nat)

  /** How many tasks run. */
  function Busy(s: Slots): nat {
    s.jobs + s.v2
  }

  /** One more task of a queue. */
  function Started(s: Slots, q: Queue): Slots {
    if q == V2 then s.(v2 := s.v2 + 1) else s.(jobs := s.jobs + 1)
  }

  /** One slot after its answers: the first queue that gives a claim starts a task. */
  function SlotFilled(s: Slots, gives: (bool, bool)): (t: Slots)
    ensures Busy(t) == Busy(s) + if gives.0 || gives.1 then 1 else 0
  {
    var asked := s.(log := s.log + Asked(s.next, gives), next := TurnAfter(s.next, gives));
    if gives.0 then Started(asked, s.next) else if gives.1 then Started(asked, Other(s.next)) else asked
  }

  /** A poll from `slot` on: slot after slot while there are free ones, until both queues give nothing. */
  function PolledFrom(concurrency: nat, s: Slots, answers: Answers, slot: nat): Slots
    decreases concurrency - Busy(s)
  {
    if Busy(s) >= concurrency then s
    else
      var gives := At(answers, slot);
      if gives.0 || gives.1 then PolledFrom(concurrency, SlotFilled(s, gives), answers, slot + 1)
      else SlotFilled(s, gives)
  }

  datatype LoopEvent = Polled(answers: Answers) | Joined(queue: Queue) | CleanedUp

  /** A poll fills free slots; an end of a task frees one; cleaning up changes nothing. */
  function AfterEvent(concurrency: nat, s: Slots, event: LoopEvent): Slots {
    match event
    case Polled(answers) => PolledFrom(concurrency, s, answers, 0)
    case Joined(Jobs) => if s.jobs > 0 then s.(jobs := s.jobs - 1, endedJobs := s.endedJobs + 1) else s
    case Joined(V2) => if s.v2 > 0 then s.(v2 := s.v2 - 1, endedV2 := s.endedV2 + 1) else s
    case CleanedUp => s
  }

  function AfterEvents(concurrency: nat, events: seq<LoopEvent>): Slots {
    if events == [] then Slots(0, 0, Jobs, [], 0, 0)
    else AfterEvent(concurrency, AfterEvents(concurrency, events[..|events| - 1]), events[|events| - 1])
  }

  /** The most tasks that ran after any of the events. */
  function Most(concurrency: nat, events: seq<LoopEvent>): nat {
    if events == [] then 0
    else
      var before, now := Most(concurrency, events[..|events| - 1]), Busy(AfterEvents(concurrency, events));
      if now > before then now else before
  }

  lemma {:induction false} EventsSnoc(concurrency: nat, events: seq<LoopEvent>, i: nat)
    requires i < |events|
    ensures var before, now := AfterEvents(concurrency, events[..i]), AfterEvents(concurrency, events[..i + 1]);
            && now == AfterEvent(concurrency, before, events[i])
            && var most := Most(concurrency, events[..i]);
               Most(concurrency, events[..i + 1]) == if Busy(now) > most then Busy(now) else most
  {
    assert events[..i + 1][..i] == events[..i];
  }

  // ----- No task is lost or made up

  /** Every claim of a queue still runs or has ended. */
  predicate Accounted(s: Slots) {
    Claims(s.log, Jobs) == s.jobs + s.endedJobs && Claims(s.log, V2) == s.v2 + s.endedV2
  }

  lemma {:induction false} ClaimsOfOne(t: Try, q: Queue)
    ensures Claims([t], q) == if t == Try(q, true) then 1 else 0
  {
    assert [t][..0] == [];
  }

  /** The claims of one slot, by queue. */
  lemma {:induction false} ClaimsOfSlot(next: Queue, gives: (bool, bool), q: Queue)
    ensures Claims(Asked(next, gives), q)
         == if (gives.0 && q == next) || (!gives.0 && gives.1 && q == Other(next)) then 1 else 0
  {
    if gives.0 {
      ClaimsOfOne(Try(next, true), q);
    } else {
      ClaimsOfOne(Try(next, false), q);
      ClaimsOfOne(Try(Other(next), gives.1), q);
      ClaimsAppend([Try(next, false)], [Try(Other(next), gives.1)], q);
      assert [Try(next, false)] + [Try(Other(next), gives.1)] == Asked(next, gives);
    }
  }

  lemma {:induction false} SlotAccounted(s: Slots, gives: (bool, bool))
    requires Accounted(s)
    ensures Accounted(SlotFilled(s, gives))
  {
    var asked := Asked(s.next, gives);
    ClaimsAppend(s.log, asked, Jobs);
    ClaimsAppend(s.log, asked, V2);
    ClaimsOfSlot(s.next, gives, Jobs);
    ClaimsOfSlot(s.next, gives, V2);
  }

  lemma {:induction false} PollAccounted(concurrency: nat, s: Slots, answers: Answers, slot: nat)
    requires Accounted(s)
    ensures Accounted(PolledFrom(concurrency, s, answers, slot))
    decreases concurrency - Busy(s)
  {
    if Busy(s) < concurrency {
      var gives := At(answers, slot);
      SlotAccounted(s, gives);
      if gives.0 || gives.1 {
        PollAccounted(concurrency, SlotFilled(s, gives), answers, slot + 1);
      }
    }
  }

  lemma {:induction false} ClaimsAccounted(concurrency: nat, events: seq<LoopEvent>)
    ensures Accounted(AfterEvents(concurrency, events))
  {
    if events != [] {
      var before := events[..|events| - 1];
      ClaimsAccounted(concurrency, before);
      if events[|events| - 1].Polled? {
        PollAccounted(concurrency, AfterEvents(concurrency, before), events[|events| - 1].answers, 0);
      }
    }
  }

  /** How many slots in a row get a claim, from `slot` on. */
  function Given(answers: Answers, slot: nat): nat
    decreases if slot < |answers| then |answers| - slot else 0
  {
    if At(answers, slot).0 || At(answers, slot).1 then 1 + Given(answers, slot + 1) else 0
  }

  /** A poll takes as many claims as are given in a row, and as there are free slots for. */
  lemma {:induction false} PollTakes(concurrency: nat, s: Slots, answers: Answers, slot: nat)
    requires Busy(s) <= concurrency
    ensures var free := concurrency - Busy(s);
            var given := Given(answers, slot);
            Busy(PolledFrom(concurrency, s, answers, slot)) == Busy(s) + if given < free then given else free
    decreases concurrency - Busy(s)
  {
    if Busy(s) < concurrency && (At(answers, slot).0 || At(answers, slot).1) {
      PollTakes(concurrency, SlotFilled(s, At(answers, slot)), answers, slot + 1);
    }
  }

  /** Before anything was asked it is the turn of the first queue, and it was asked first. */
  predicate JobsFirst(s: Slots) {
    if s.log == [] then s.next == Jobs else s.log[0].queue == Jobs
  }

  lemma {:induction false} PollJobsFirst(concurrency: nat, s: Slots, answers: Answers, slot: nat)
    requires JobsFirst(s)
    ensures JobsFirst(PolledFrom(concurrency, s, answers, slot))
    decreases concurrency - Busy(s)
  {
    if Busy(s) < concurrency && (At(answers, slot).0 || At(answers, slot).1) {
      PollJobsFirst(concurrency, SlotFilled(s, At(answers, slot)), answers, slot + 1);
    }
  }

  lemma {:induction false} StartsWithJobs(concurrency: nat, events: seq<LoopEvent>)
    ensures JobsFirst(AfterEvents(concurrency, events))
  {
    if events != [] {
      var before := events[..|events| - 1];
      StartsWithJobs(concurrency, before);
      if events[|events| - 1].Polled? {
        PollJobsFirst(concurrency, AfterEvents(concurrency, before), events[|events| - 1].answers, 0);
      }
    }
  }

  // ----- The loop

  class Worker {
    const concurrency: nat
    var jobs: nat
    var v2: nat
    var next: Queue
    ghost var log: seq<Try>

    constructor (concurrency: nat)
      ensures this.concurrency == concurrency && Valid() && jobs == v2 == 0 && log == [] && next == Jobs
    {
      this.concurrency, jobs, v2, next, log := concurrency, 0, 0, Jobs, [];
    }

    ghost predicate Valid()
      reads this
    {
      jobs + v2 <= concurrency && Settled(log, next)
    }

    /** One claim tried and taken. */
    method Spawn(q: Queue)
      requires jobs + v2 < concurrency && Fair(log)
      requires forall i: nat :: LastClaim(log, i) && log[i].queue == q ==> AskedBetween(log, Other(q), i, |log|)
      modifies this
      ensures Valid() && next == Other(q)
      ensures jobs == old(jobs) + (if q == Jobs then 1 else 0) && v2 == old(v2) + (if q == V2 then 1 else 0)
      ensures log == old(log) + [Try(q, true)]
    {
      Taken(log, q);
      if q == V2 {
        v2 := v2 + 1;
      } else {
        jobs := jobs + 1;
      }
      next := Other(q);
      log := log + [Try(q, true)];
    }

    /** The worker's slots are these. */
    ghost predicate Is(s: Slots)
      reads this
    {
      jobs == s.jobs && v2 == s.v2 && next == s.next && log == s.log
    }

    /** One slot: the queue whose turn it is, then the other one. `gives` are their answers. */
    method FillSlot(gives: (bool, bool), ghost s: Slots) returns (claimed: bool)
      requires Valid() && Is(s) && jobs + v2 < concurrency
      modifies this
      ensures Valid() && Is(SlotFilled(s, gives)) && claimed == (gives.0 || gives.1)
      ensures var first := old(next);
              && jobs + v2 == old(jobs + v2) + (if claimed then 1 else 0)
              && log == old(log)
                   + (if gives.0 then [Try(first, true)] else [Try(first, false), Try(Other(first), gives.1)])
              && next == (if gives.0 then Other(first) else first)
    {
      var order := [next, Other(next)];
      if gives.0 {
        assert forall i: nat :: LastClaim(log, i) ==> log[i].queue != order[0];
        Spawn(order[0]);
        return true;
      }
      Refused(log, next);
      log := log + [Try(order[0], false)];
      if gives.1 {
        forall i: nat | LastClaim(log, i) && log[i].queue == order[1] ensures AskedBetween(log, next, i, |log|) {
          assert log[|log| - 1] == Try(next, false);
        }
        Spawn(order[1]);
        return true;
      }
      BothRefused(log, next);
      log := log + [Try(order[1], false)];
      return false;
    }

    /** One poll: it ends with every slot taken, or with both queues asked last and empty-handed. */
    method Poll(answers: Answers, ghost s: Slots)
      requires Valid() && Is(s)
      modifies this
      ensures Valid() && Is(PolledFrom(concurrency, s, answers, 0))
      ensures jobs + v2 >= old(jobs + v2) && old(log) <= log
      ensures jobs + v2 == concurrency
              || (|log| >= |old(log)| + 2
                  && log[|log| - 2] == Try(next, false) && log[|log| - 1] == Try(Other(next), false))
    {
      var available := concurrency - (jobs + v2);
      ghost var now, end := s, PolledFrom(concurrency, s, answers, 0);
      for slot := 0 to available
        invariant Valid() && Is(now) && Busy(now) == concurrency - (available - slot) && old(log) <= log
        invariant PolledFrom(concurrency, now, answers, slot) == end
      {
        var gives := At(answers, slot);
        var claimed := FillSlot(gives, now);
        now := SlotFilled(now, gives);
        if !claimed {
          return;
        }
      }
    }

    /** A task of a queue ended. */
    method Join(q: Queue)
      requires Valid() && (if q == V2 then v2 else jobs) > 0
      modifies this
      ensures Valid() && log == old(log) && next == old(next)
      ensures jobs == old(jobs) - (if q == Jobs then 1 else 0) && v2 == old(v2) - (if q == V2 then 1 else 0)
    {
      if q == V2 {
        v2 := v2 - 1;
      } else {
        jobs := jobs - 1;
      }
    }

    /** One event of the loop. */
    method Take(event: LoopEvent, ghost s: Slots)
      requires Valid() && Is(s)
      modifies this
      ensures Valid() && Is(AfterEvent(concurrency, s, event))
    {
      match event {
        case Polled(answers) => Poll(answers, s);
        case Joined(q) =>
          if (if q == V2 then v2 else jobs) > 0 {
            Join(q);
          }
        case CleanedUp =>
      }
    }
  }

  /** The worker loop over any events: what they make of the slots, and the most tasks there were at any time. */
  method RunWorker(concurrency: nat, events: seq<LoopEvent>) returns (most: nat, worker: Worker)
    ensures fresh(worker) && worker.concurrency == concurrency && worker.Valid() && Fair(worker.log)
    ensures worker.Is(AfterEvents(concurrency, events))
    ensures worker.jobs + worker.v2 <= most <= concurrency && most == Most(concurrency, events)
  {
    worker := new Worker(concurrency);
    most := 0;
    assert events[..|events|] == events;
    for i := 0 to |events|
      invariant fresh(worker) && worker.concurrency == concurrency && worker.Valid()
      invariant worker.Is(AfterEvents(concurrency, events[..i]))
      invariant worker.jobs + worker.v2 <= most <= concurrency && most == Most(concurrency, events[..i])
    {
      EventsSnoc(concurrency, events, i);
      worker.Take(events[i], AfterEvents(concurrency, events[..i]));
      if worker.jobs + worker.v2 > most {
        most := worker.jobs + worker.v2;
      }
    }
  }
}
