/** What every run of an import job keeps, whatever its workers, crashes, late writes and delays. */
module ImportSafety {
  import opened Prelude
  import opened RetryDelay
  import opened ImportJobs

  // ----- The invariant

  predicate NotStarted(pc: Pc) {
    pc.Fresh? || pc.Admitted? || pc.Capping? || pc.Capped?
  }

  predicate UnderLease(pc: Pc) {
    pc.Capped? || pc.Executing? || pc.Settling?
  }

  ghost predicate Unstarted(starts: seq<Start>, e: nat) {
    forall i :: 0 <= i < |starts| ==> starts[i].attempt != e
  }

  ghost predicate TaskOk(c: Config, e: nat, t: Task, starts: seq<Start>) {
    && t.attempt == e
    && (!t.pc.Fresh? && !t.pc.Gone? ==> e <= c.maxAttempts)
    && (UnderLease(t.pc) ==> t.capped)
    && (NotStarted(t.pc) ==> Unstarted(starts, e))
  }

  ghost predicate TasksOk(c: Config, epoch: nat, tasks: map<nat, Task>, starts: seq<Start>) {
    forall e :: e in tasks ==> 1 <= e <= epoch && TaskOk(c, e, tasks[e], starts)
  }

  ghost predicate StartsOk(c: Config, deadline: int, epoch: nat, starts: seq<Start>) {
    && (forall i :: 0 <= i < |starts| ==>
          1 <= starts[i].attempt <= epoch && starts[i].attempt <= c.maxAttempts && starts[i].at < deadline)
    && (forall i, j :: 0 <= i < j < |starts| ==> starts[i].attempt != starts[j].attempt)
  }

  /** Renewals stay within the deadline, and so do new attempts. */
  ghost predicate ChangeOk(c: Config, deadline: int, epoch: nat, change: Change) {
    match change
    case Renew(_, until) => until <= deadline
    case Requeue(attempt, at, delay) =>
      attempt == epoch && RequeueOk(c, deadline, Requeued(attempt, at, delay))
    case Fail => true
    case Complete => true
  }

  ghost predicate RequeueOk(c: Config, deadline: int, r: Requeued) {
    && 1 <= r.attempt < c.maxAttempts && r.delay == Delay(r.attempt, c.hash(r.attempt))
    && NextAttempt(r.at, r.delay) < deadline
  }

  ghost predicate WritesOk(c: Config, deadline: int, tasks: map<nat, Task>, writes: set<Write>) {
    forall w :: w in writes ==> w.epoch in tasks && ChangeOk(c, deadline, w.epoch, w.change)
  }

  ghost predicate RowOk(deadline: int, row: Row, tasks: map<nat, Task>) {
    && row.attempts == row.epoch
    && (row.state.Running? ==>
          && row.epoch in tasks && row.lockedUntil.Some?
          && (tasks[row.epoch].capped ==> row.lockedUntil.value <= deadline))
    && (row.state.Queued? && row.epoch > 0 ==> row.nextAttemptAt < deadline)
  }

  ghost predicate RequeuesOk(c: Config, deadline: int, row: Row, requeues: seq<Requeued>) {
    && (forall i :: 0 <= i < |requeues| ==> RequeueOk(c, deadline, requeues[i]) && requeues[i].attempt <= row.epoch)
    && (forall i, j :: 0 <= i < j < |requeues| ==> requeues[i].attempt < requeues[j].attempt)
    && (row.state.Running? ==> forall i :: 0 <= i < |requeues| ==> requeues[i].attempt < row.epoch)
  }

  ghost predicate Inv(c: Config, s: State) {
    var deadline := Deadline(c, s.row.createdAt);
    && TasksOk(c, s.row.epoch, s.tasks, s.starts)
    && StartsOk(c, deadline, s.row.epoch, s.starts)
    && WritesOk(c, deadline, s.tasks, s.writes)
    && RowOk(deadline, s.row, s.tasks)
    && RequeuesOk(c, deadline, s.row, s.requeues)
  }

  // ----- Every action keeps it

  /** A task may move to where its attempt and lease allow; only an unstarted one to a place before the start. */
  ghost predicate MayMove(c: Config, t: Task, pc: Pc) {
    && (!pc.Fresh? && !pc.Gone? ==> t.attempt <= c.maxAttempts)
    && (UnderLease(pc) ==> t.capped)
    && (NotStarted(pc) ==> NotStarted(t.pc))
  }

  lemma {:induction false} MovedKeeps(c: Config, s: State, e: nat, pc: Pc)
    requires Inv(c, s) && e in s.tasks && MayMove(c, s.tasks[e], pc)
    ensures Inv(c, Moved(s, e, pc))
  {
  }

  lemma {:induction false} IssuedKeeps(c: Config, s: State, e: nat, pc: Pc, change: Change)
    requires Inv(c, s) && e in s.tasks && MayMove(c, s.tasks[e], pc)
    requires ChangeOk(c, Deadline(c, s.row.createdAt), e, change)
    ensures Inv(c, Issued(s, e, pc, change))
  {
    MovedKeeps(c, s, e, pc);
  }

  lemma {:induction false} StartKeeps(c: Config, s: State, e: nat)
    requires Inv(c, s) && e in s.tasks && s.tasks[e].pc.Capped?
    ensures Inv(c, StartPipeline(c, s, e))
  {
    var t := StartPipeline(c, s, e);
    if s.clock >= Deadline(c, s.row.createdAt) {
      MovedKeeps(c, s, e, Gone);
    } else {
      MovedKeeps(c, s, e, Executing(false));
      forall f | f in t.tasks ensures TaskOk(c, f, t.tasks[f], t.starts) {
        assert TaskOk(c, f, s.tasks[f], s.starts);
      }
    }
  }

  lemma {:induction false} TaskStepKeeps(c: Config, s: State, e: nat)
    requires Inv(c, s) && e in s.tasks && TaskStep(c, s, e).Some?
    ensures Inv(c, TaskStep(c, s, e).value)
  {
    assert TaskOk(c, e, s.tasks[e], s.starts);
    match s.tasks[e].pc
    case Fresh =>
      if s.clock >= Deadline(c, s.row.createdAt) || s.tasks[e].attempt > c.maxAttempts {
        IssuedKeeps(c, s, e, Gone, Fail);
      } else {
        MovedKeeps(c, s, e, Admitted);
      }
    case Admitted => IssuedKeeps(c, s, e, Capping, Renew(s.clock, LeaseUntil(c, s)));
    case Capped => StartKeeps(c, s, e);
    case Settling(settlement) => SettleKeeps(c, s, e, settlement);
    case _ =>
  }

  lemma {:induction false} SettleKeeps(c: Config, s: State, e: nat, settlement: Settlement)
    requires Inv(c, s) && e in s.tasks
    ensures Inv(c, Settle(c, s, e, settlement))
  {
    var attempt := s.tasks[e].attempt;
    var delay := Delay(attempt, c.hash(attempt));
    assert TaskOk(c, e, s.tasks[e], s.starts);
    MovedKeeps(c, s, e, Gone);
    if !settlement.Nothing? {
      IssuedKeeps(c, s, e, Gone, Fail);
      if settlement.Retryable? && attempt < c.maxAttempts
         && NextAttempt(s.clock, delay) < Deadline(c, s.row.createdAt) {
        IssuedKeeps(c, s, e, Gone, Requeue(attempt, s.clock, delay));
      }
    }
  }

  lemma {:induction false} ClaimKeeps(c: Config, s: State, a: Action)
    requires Inv(c, s) && a.Claim? && Next(c, s, a).Some?
    ensures Inv(c, Next(c, s, a).value)
  {
    var t := Next(c, s, a).value;
    var e := s.row.epoch + 1;
    assert Unstarted(s.starts, e);
    forall f | f in t.tasks ensures 1 <= f <= e && TaskOk(c, f, t.tasks[f], t.starts) {
      if f != e { assert TaskOk(c, f, s.tasks[f], s.starts); }
    }
  }

  /** Executions of claims after a write landed. */
  lemma {:induction false} LandedTasks(c: Config, s: State, w: Write)
    requires Inv(c, s) && w in s.writes
    ensures TasksOk(c, s.row.epoch, Landed(s, w).tasks, s.starts)
  {
    var t := Landed(s, w);
    forall f | f in t.tasks ensures 1 <= f <= s.row.epoch && TaskOk(c, f, t.tasks[f], s.starts) {
      assert TaskOk(c, f, s.tasks[f], s.starts);
    }
  }

  /** The row after a write landed. */
  lemma {:induction false} LandedRow(c: Config, s: State, w: Write)
    requires Inv(c, s) && w in s.writes
    ensures var t, deadline := Landed(s, w), Deadline(c, s.row.createdAt);
            && t.row.createdAt == s.row.createdAt && t.row.epoch == s.row.epoch
            && RowOk(deadline, t.row, t.tasks) && RequeuesOk(c, deadline, t.row, t.requeues)
  {
    assert ChangeOk(c, Deadline(c, s.row.createdAt), w.epoch, w.change);
  }

  lemma {:induction false} LandKeeps(c: Config, s: State, w: Write)
    requires Inv(c, s) && w in s.writes
    ensures Inv(c, Landed(s, w))
  {
    LandedTasks(c, s, w);
    LandedRow(c, s, w);
  }

  lemma {:induction false} NextKeeps(c: Config, s: State, a: Action)
    requires Inv(c, s) && Next(c, s, a).Some?
    ensures Inv(c, Next(c, s, a).value)
  {
    match a
    case Claim(_, _) => ClaimKeeps(c, s, a);
    case Step(e) => TaskStepKeeps(c, s, e);
    case Renewal(e) =>
      assert TaskOk(c, e, s.tasks[e], s.starts);
      IssuedKeeps(c, s, e, Executing(true), Renew(s.clock, LeaseUntil(c, s)));
    case Publish(e) =>
      assert TaskOk(c, e, s.tasks[e], s.starts);
      IssuedKeeps(c, s, e, s.tasks[e].pc, Complete);
    case Finish(e, settlement) =>
      assert TaskOk(c, e, s.tasks[e], s.starts);
      MovedKeeps(c, s, e, if s.clock >= Deadline(c, s.row.createdAt) then Gone else Settling(settlement));
    case Drop(e) => MovedKeeps(c, s, e, Gone);
    case Land(w) => LandKeeps(c, s, w);
    case _ =>
  }

  lemma {:induction false} RunKeeps(c: Config, s: State, actions: seq<Action>)
    requires Initial(s) && Run(c, s, actions).Some?
    ensures Inv(c, Run(c, s, actions).value)
  {
    if actions != [] {
      var before := actions[..|actions| - 1];
      RunKeeps(c, s, before);
      NextKeeps(c, Run(c, s, before).value, actions[|actions| - 1]);
    }
  }

  // ----- Attempts

  lemma {:induction false} StartsDistinct(starts: seq<Start>, n: nat)
    requires forall i :: 0 <= i < |starts| ==> 1 <= starts[i].attempt <= n
    requires forall i, j :: 0 <= i < j < |starts| ==> starts[i].attempt != starts[j].attempt
    ensures |starts| <= n
  {
    DistinctBelow(seq(|starts|, i requires 0 <= i < |starts| => starts[i].attempt - 1), n);
  }

  /** At most `max_attempts` pipeline starts, never twice for an attempt, never at or after the deadline. */
  lemma {:induction false} StartsBounded(c: Config, s: State, actions: seq<Action>)
    requires Initial(s) && Run(c, s, actions).Some?
    ensures var starts := Run(c, s, actions).value.starts;
            && |starts| <= c.maxAttempts
            && (forall i :: 0 <= i < |starts| ==>
                  1 <= starts[i].attempt <= c.maxAttempts && starts[i].at < Deadline(c, s.row.createdAt))
            && (forall i, j :: 0 <= i < j < |starts| ==> starts[i].attempt != starts[j].attempt)
  {
    RunKeeps(c, s, actions);
    CreationFixed(c, s, actions);
    var starts := Run(c, s, actions).value.starts;
    StartsDistinct(starts, c.maxAttempts);
  }

  lemma {:induction false} CreationFixed(c: Config, s: State, actions: seq<Action>)
    requires Run(c, s, actions).Some?
    ensures Run(c, s, actions).value.row.createdAt == s.row.createdAt
  {
    if actions != [] {
      CreationFixed(c, s, actions[..|actions| - 1]);
    }
  }

  // ----- Leases

  /** A pipeline runs only under a lease that was capped, and a capped lease ends by the deadline. */
  lemma {:induction false} LeaseWithinDeadline(c: Config, s: State, actions: seq<Action>)
    requires Initial(s) && Run(c, s, actions).Some?
    ensures var t := Run(c, s, actions).value;
            && (forall e :: e in t.tasks && t.tasks[e].pc.Executing? ==> t.tasks[e].capped)
            && (t.row.state.Running? ==>
                  && t.row.epoch in t.tasks && t.row.lockedUntil.Some?
                  && (t.tasks[t.row.epoch].capped ==> t.row.lockedUntil.value <= Deadline(c, s.row.createdAt)))
  {
    RunKeeps(c, s, actions);
    CreationFixed(c, s, actions);
    var t := Run(c, s, actions).value;
    forall e | e in t.tasks && t.tasks[e].pc.Executing? ensures t.tasks[e].capped {
      assert TaskOk(c, e, t.tasks[e], t.starts);
    }
  }

  /** Apart from claims, every lease ever written ends by the deadline. */
  lemma {:induction false} RenewalsWithinDeadline(c: Config, s: State, actions: seq<Action>, a: Action)
    requires Initial(s) && Run(c, s, actions).Some? && Next(c, Run(c, s, actions).value, a).Some? && !a.Claim?
    ensures var before, after := Run(c, s, actions).value.row, Next(c, Run(c, s, actions).value, a).value.row;
            after.lockedUntil != before.lockedUntil ==>
              after.lockedUntil == None || after.lockedUntil.value <= Deadline(c, s.row.createdAt)
  {
    RunKeeps(c, s, actions);
    CreationFixed(c, s, actions);
    var t := Run(c, s, actions).value;
    if a.Land? {
      assert ChangeOk(c, Deadline(c, t.row.createdAt), a.write.epoch, a.write.change);
    }
  }

  /** No claim takes a lease that is still running. */
  lemma {:induction false} RunningLeaseIsKept(c: Config, s: State, worker: nat, epoch: nat, a: Action)
    requires Active(s.row, s.clock, worker, epoch) && a.Claim?
    ensures Next(c, s, a).None?
  {
  }

  // ----- Requeues

  /** Every requeue comes before the deadline, within 300 seconds, and later ones wait longer through attempt 9. */
  lemma {:induction false} RequeuesBounded(c: Config, s: State, actions: seq<Action>)
    requires Initial(s) && Run(c, s, actions).Some?
    ensures var requeues := Run(c, s, actions).value.requeues;
            && (forall i :: 0 <= i < |requeues| ==>
                  && NextAttempt(requeues[i].at, requeues[i].delay) < Deadline(c, s.row.createdAt)
                  && 1 <= requeues[i].delay <= 300)
            && (forall i, j :: 0 <= i < j < |requeues| && requeues[j].attempt <= 9 ==>
                  requeues[i].delay < requeues[j].delay)
    ensures var row := Run(c, s, actions).value.row;
            row.state.Queued? && row.epoch > 0 ==> row.nextAttemptAt < Deadline(c, s.row.createdAt)
  {
    RunKeeps(c, s, actions);
    CreationFixed(c, s, actions);
    var requeues := Run(c, s, actions).value.requeues;
    forall i | 0 <= i < |requeues| ensures 1 <= requeues[i].delay <= 300 {
      DelayBounds(requeues[i].attempt, c.hash(requeues[i].attempt));
    }
    forall i, j | 0 <= i < j < |requeues| && requeues[j].attempt <= 9 ensures requeues[i].delay < requeues[j].delay {
      var a, b := requeues[i].attempt, requeues[j].attempt;
      GrowsThrough(a, b, c.hash(a), c.hash(b));
    }
  }

  // ----- Fencing

  /** The claim on whose behalf an action is taken. */
  function OnBehalfOf(a: Action): Option<nat> {
    match a
    case Step(e) => Some(e)
    case Renewal(e) => Some(e)
    case Publish(e) => Some(e)
    case Finish(e, _) => Some(e)
    case Drop(e) => Some(e)
    case Land(w) => Some(w.epoch)
    case _ => None
  }

  /** Nothing done for a claim changes the row unless it is the current claim, on a lease that still runs. */
  lemma {:induction false} StaleChangesNothing(c: Config, s: State, a: Action)
    requires Next(c, s, a).Some? && OnBehalfOf(a).Some?
    ensures Next(c, s, a).value.row != s.row ==>
              && OnBehalfOf(a) == Some(s.row.epoch) && s.row.state.Running?
              && s.row.lockedUntil.Some? && s.row.lockedUntil.value > s.clock
  {
  }

  /** Epochs never go back, so a claim that was overtaken stays overtaken: the whole rest of the run ignores it. */
  lemma {:induction false} OvertakenForGood(c: Config, s: State, actions: seq<Action>, a: Action)
    requires Run(c, s, actions).Some? && Next(c, Run(c, s, actions).value, a).Some?
    requires OnBehalfOf(a).Some? && OnBehalfOf(a).value < s.row.epoch
    ensures Next(c, Run(c, s, actions).value, a).value.row == Run(c, s, actions).value.row
  {
    EpochGrows(c, s, actions);
    StaleChangesNothing(c, Run(c, s, actions).value, a);
  }

  lemma {:induction false} EpochGrows(c: Config, s: State, actions: seq<Action>)
    requires Run(c, s, actions).Some?
    ensures s.row.epoch <= Run(c, s, actions).value.row.epoch
  {
    if actions != [] {
      EpochGrows(c, s, actions[..|actions| - 1]);
    }
  }

  // ----- States

  /** The row's state only moves along the allowed transitions. */
  lemma {:induction false} TransitionsAllowed(c: Config, s: State, a: Action)
    requires Next(c, s, a).Some?
    ensures var after := Next(c, s, a).value.row; after != s.row ==> CanBecome(s.row.state, after.state)
  {
  }

  /** A finished row never changes again. */
  lemma {:induction false} FinishedForGood(c: Config, s: State, actions: seq<Action>)
    requires Run(c, s, actions).Some? && !s.row.state.Queued? && !s.row.state.Running?
    ensures Run(c, s, actions).value.row == s.row
  {
    if actions != [] {
      var before := actions[..|actions| - 1];
      FinishedForGood(c, s, before);
      TransitionsAllowed(c, Run(c, s, before).value, actions[|actions| - 1]);
    }
  }
}
