/**
 What becomes of an import job, and why: how a finished pipeline settles, what a write does when it
 lands, which event every final state goes back to, and that each end can be reached.
 */
module ImportOutcomes {
  import opened Prelude
  import opened RetryDelay
  import opened ImportJobs
  import opened ImportSafety

  // ----- One step

  /** A retryable failure leads to another attempt: attempts are left, and the next one would come in time. */
  ghost predicate MayRetry(c: Config, s: State, attempt: nat) {
    && attempt < c.maxAttempts
    && s.clock + Delay(attempt, c.hash(attempt)) * 1_000_000_000 < Deadline(c, s.row.createdAt)
  }

  /**
   A settling task issues a requeue exactly for a retryable failure that may be retried, a failure exactly for
   a terminal one or a retryable one that may not, and nothing else; then it is gone.
   */
  lemma {:induction false} SettlesExactly(c: Config, s: State, e: nat, w: Write)
    requires e in s.tasks && s.tasks[e].pc.Settling?
    ensures var settlement, attempt := s.tasks[e].pc.settlement, s.tasks[e].attempt;
            && Next(c, s, Step(e)).Some?
            && var t := Next(c, s, Step(e)).value;
               && t.row == s.row && t.clock == s.clock && t.tasks == s.tasks[e := s.tasks[e].(pc := Gone)]
               && (w in t.writes <==>
                     || w in s.writes
                     || (&& w.worker == s.tasks[e].worker && w.epoch == e
                         && match w.change
                            case Requeue(a, at, delay) =>
                              && settlement.Retryable? && MayRetry(c, s, attempt)
                              && a == attempt && at == s.clock && delay == Delay(attempt, c.hash(attempt))
                            case Fail => settlement.Terminal? || (settlement.Retryable? && !MayRetry(c, s, attempt))
                            case Renew(_, _) => false
                            case Complete => false))
  {
  }

  /** A fresh task fails its job exactly when the deadline passed or the attempts are used up. */
  lemma {:induction false} BeginsExactly(c: Config, s: State, e: nat)
    requires e in s.tasks && s.tasks[e].pc.Fresh?
    ensures Next(c, s, Step(e)).Some?
    ensures var late := s.clock >= Deadline(c, s.row.createdAt) || s.tasks[e].attempt > c.maxAttempts;
            var t := Next(c, s, Step(e)).value;
            && t.row == s.row && t.tasks == s.tasks[e := s.tasks[e].(pc := if late then Gone else Admitted)]
            && t.writes == s.writes + if late then {Write(s.tasks[e].worker, e, Fail)} else {}
  {
    assert s.writes + {} == s.writes;
  }

  /** The claim is current and its lease still runs. */
  ghost predicate Current(s: State, w: Write) {
    && s.row.state == Running && s.row.lockedBy == Some(w.worker) && s.row.epoch == w.epoch
    && s.row.lockedUntil.Some? && s.clock < s.row.lockedUntil.value
  }

  /** What a write of the current claim makes of the row. */
  ghost predicate Took(before: Row, change: Change, after: Row) {
    && after.attempts == before.attempts && after.epoch == before.epoch && after.createdAt == before.createdAt
    && match change
       case Renew(_, until) =>
         after.state == Running && after.lockedBy == before.lockedBy && after.lockedUntil == Some(until)
       case Requeue(_, at, delay) =>
         && after.state == Queued && after.nextAttemptAt == at + delay * 1_000_000_000
         && after.lockedBy == None && after.lockedUntil == None
       case Fail => after.state == Failed && after.lockedBy == None && after.lockedUntil == None
       case Complete => after.state == Completed && after.lockedBy == None && after.lockedUntil == None
  }

  /** A renewal must reach into the future, a requeue must be for the attempt of the row. */
  ghost predicate Admissible(s: State, change: Change) {
    match change
    case Renew(now, until) => until > now && until > s.clock
    case Requeue(attempt, _, _) => attempt == s.row.attempts
    case Fail => true
    case Complete => true
  }

  /** A write takes effect exactly when its claim is current, and it is admissible; it lands once. */
  lemma {:induction false} LandsExactly(c: Config, s: State, w: Write)
    requires w in s.writes && w.epoch in s.tasks
    ensures Next(c, s, Land(w)).Some?
    ensures var t := Next(c, s, Land(w)).value;
            && t.writes == s.writes - {w}
            && (Current(s, w) && Admissible(s, w.change) ==> Took(s.row, w.change, t.row))
            && (!(Current(s, w) && Admissible(s, w.change)) ==> t.row == s.row)
  {
  }

  /** A claim takes a job exactly when it is due, and leaves the row running under a new epoch and lease. */
  lemma {:induction false} ClaimsExactly(c: Config, s: State, worker: nat, now: int)
    ensures Next(c, s, Claim(worker, now)).Some? <==>
              && now <= s.clock && s.row.attempts < 0x7FFF_FFFF && s.row.epoch < 0x7FFF_FFFF_FFFF_FFFF
              && match s.row.state
                 case Queued => s.row.nextAttemptAt <= now && s.row.lockedBy == None && s.row.lockedUntil == None
                 case Running => s.row.lockedUntil.Some? && s.row.lockedUntil.value <= now
                 case _ => false
    ensures Next(c, s, Claim(worker, now)).Some? ==>
              var row := Next(c, s, Claim(worker, now)).value.row;
              && row.state == Running && row.attempts == s.row.attempts + 1 && row.epoch == s.row.epoch + 1
              && row.lockedBy == Some(worker) && row.lockedUntil == Some(now + c.lease)
              && row.createdAt == s.row.createdAt
  {
  }

  // ----- Causes, over whole runs

  ghost predicate Happened(actions: seq<Action>, a: Action) {
    a in actions
  }

  /** Why a job may be failed for this epoch. */
  ghost predicate FailCause(c: Config, t: State, actions: seq<Action>, e: nat) {
    || t.clock >= Deadline(c, t.row.createdAt) || e > c.maxAttempts
    || Happened(actions, Finish(e, Terminal))
    || (Happened(actions, Finish(e, Retryable)) && !MayRetry(c, t, e))
  }

  ghost predicate WriteCause(c: Config, t: State, actions: seq<Action>, w: Write) {
    match w.change
    case Renew(_, _) => true
    case Requeue(_, _, _) => Happened(actions, Finish(w.epoch, Retryable))
    case Complete => Happened(actions, Publish(w.epoch))
    case Fail => FailCause(c, t, actions, w.epoch)
  }

  ghost predicate RowCause(c: Config, t: State, actions: seq<Action>) {
    match t.row.state
    case Queued => true
    case Running => true
    case Completed => Happened(actions, Publish(t.row.epoch))
    case Failed => FailCause(c, t, actions, t.row.epoch)
    case Superseded => Happened(actions, Supersede)
  }

  ghost predicate TasksCaused(tasks: map<nat, Task>, actions: seq<Action>) {
    forall e :: e in tasks && tasks[e].pc.Settling? ==> Happened(actions, Finish(e, tasks[e].pc.settlement))
  }

  ghost predicate WritesCaused(c: Config, t: State, actions: seq<Action>) {
    forall w :: w in t.writes ==> WriteCause(c, t, actions, w)
  }

  ghost predicate RequeuesCaused(requeues: seq<Requeued>, actions: seq<Action>) {
    forall i :: 0 <= i < |requeues| ==> Happened(actions, Finish(requeues[i].attempt, Retryable))
  }

  ghost predicate Caused(c: Config, t: State, actions: seq<Action>) {
    && TasksCaused(t.tasks, actions) && WritesCaused(c, t, actions)
    && RequeuesCaused(t.requeues, actions) && RowCause(c, t, actions)
  }

  lemma {:induction false} TimePasses(c: Config, s: State, a: Action)
    requires Next(c, s, a).Some?
    ensures s.clock <= Next(c, s, a).value.clock && Next(c, s, a).value.row.createdAt == s.row.createdAt
  {
  }

  /** A cause of a failure stays one. */
  lemma {:induction false} FailCauseStays(c: Config, s: State, t: State, actions: seq<Action>, a: Action, e: nat)
    requires FailCause(c, s, actions, e) && s.clock <= t.clock && s.row.createdAt == t.row.createdAt
    ensures FailCause(c, t, actions + [a], e)
  {
  }

  lemma {:induction false} WriteCauseStays(c: Config, s: State, t: State, actions: seq<Action>, a: Action, w: Write)
    requires WriteCause(c, s, actions, w) && s.clock <= t.clock && s.row.createdAt == t.row.createdAt
    ensures WriteCause(c, t, actions + [a], w)
  {
    if w.change.Fail? {
      FailCauseStays(c, s, t, actions, a, w.epoch);
    }
  }

  /** Every new write has its cause. */
  lemma {:induction false} NewWriteCaused(c: Config, s: State, actions: seq<Action>, a: Action, w: Write)
    requires Inv(c, s) && TasksCaused(s.tasks, actions) && Next(c, s, a).Some?
    requires w in Next(c, s, a).value.writes && w !in s.writes
    ensures WriteCause(c, Next(c, s, a).value, actions + [a], w)
  {
    if a.Step? {
      assert TaskOk(c, a.epoch, s.tasks[a.epoch], s.starts);
      if s.tasks[a.epoch].pc.Settling? {
        SettlesExactly(c, s, a.epoch, w);
      }
    }
  }

  lemma {:induction false} TasksStayCaused(c: Config, s: State, actions: seq<Action>, a: Action)
    requires TasksCaused(s.tasks, actions) && Next(c, s, a).Some?
    ensures TasksCaused(Next(c, s, a).value.tasks, actions + [a])
  {
    var t := Next(c, s, a).value;
    forall e | e in t.tasks && t.tasks[e].pc.Settling?
      ensures Happened(actions + [a], Finish(e, t.tasks[e].pc.settlement))
    {
      assert a in actions + [a];
      if e in s.tasks && s.tasks[e].pc == t.tasks[e].pc {
        assert Happened(actions, Finish(e, s.tasks[e].pc.settlement));
      }
    }
  }

  lemma {:induction false} WritesStayCaused(c: Config, s: State, actions: seq<Action>, a: Action)
    requires Inv(c, s) && TasksCaused(s.tasks, actions) && WritesCaused(c, s, actions) && Next(c, s, a).Some?
    ensures WritesCaused(c, Next(c, s, a).value, actions + [a])
  {
    var t := Next(c, s, a).value;
    TimePasses(c, s, a);
    forall w | w in t.writes
      ensures WriteCause(c, t, actions + [a], w)
    {
      if w in s.writes {
        WriteCauseStays(c, s, t, actions, a, w);
      } else {
        NewWriteCaused(c, s, actions, a, w);
      }
    }
  }

  /** The row and the requeues after a write landed. */
  lemma {:induction false} LandingCaused(c: Config, s: State, actions: seq<Action>, w: Write)
    requires Inv(c, s) && Caused(c, s, actions) && w in s.writes && w.epoch in s.tasks
    ensures var t, all := Landed(s, w), actions + [Land(w)];
            RowCause(c, t, all) && RequeuesCaused(t.requeues, all)
  {
    var t, all := Landed(s, w), actions + [Land(w)];
    assert ChangeOk(c, Deadline(c, s.row.createdAt), w.epoch, w.change);
    WriteCauseStays(c, s, t, actions, Land(w), w);
    if t.row == s.row && s.row.state.Failed? {
      FailCauseStays(c, s, t, actions, Land(w), s.row.epoch);
    }
    forall i | 0 <= i < |t.requeues|
      ensures Happened(all, Finish(t.requeues[i].attempt, Retryable))
    {
      if i < |s.requeues| {
        assert Happened(actions, Finish(s.requeues[i].attempt, Retryable));
      }
    }
  }

  lemma {:induction false} RowStaysCaused(c: Config, s: State, actions: seq<Action>, a: Action)
    requires Inv(c, s) && Caused(c, s, actions) && Next(c, s, a).Some?
    ensures var t := Next(c, s, a).value; RowCause(c, t, actions + [a]) && RequeuesCaused(t.requeues, actions + [a])
  {
    var t := Next(c, s, a).value;
    if a.Land? {
      LandingCaused(c, s, actions, a.write);
    } else {
      TimePasses(c, s, a);
      assert a in actions + [a];
      if s.row.state.Failed? {
        FailCauseStays(c, s, t, actions, a, s.row.epoch);
      }
      forall i | 0 <= i < |t.requeues|
        ensures Happened(actions + [a], Finish(t.requeues[i].attempt, Retryable))
      {
        assert Happened(actions, Finish(s.requeues[i].attempt, Retryable));
      }
    }
  }

  lemma {:induction false} RunCaused(c: Config, s: State, actions: seq<Action>)
    requires Initial(s) && Run(c, s, actions).Some?
    ensures Caused(c, Run(c, s, actions).value, actions)
  {
    if actions != [] {
      var before, a := actions[..|actions| - 1], actions[|actions| - 1];
      assert actions == before + [a];
      RunCaused(c, s, before);
      RunKeeps(c, s, before);
      var t := Run(c, s, before).value;
      TasksStayCaused(c, t, before, a);
      WritesStayCaused(c, t, before, a);
      RowStaysCaused(c, t, before, a);
    }
  }

  /**
   In every run: a requeue goes back to a retryable failure of its attempt; a completed job to a publication
   under its last claim; a failed one to a terminal failure of it, to a retryable one without attempts or
   time, to too many attempts or to the deadline; a superseded one to a supersession.
   */
  lemma {:induction false} EndsHaveCauses(c: Config, s: State, actions: seq<Action>)
    requires Initial(s) && Run(c, s, actions).Some?
    ensures var t := Run(c, s, actions).value;
            && (forall i :: 0 <= i < |t.requeues| ==> Finish(t.requeues[i].attempt, Retryable) in actions)
            && (t.row.state == Completed ==> Publish(t.row.epoch) in actions)
            && (t.row.state == Superseded ==> Supersede in actions)
            && (t.row.state == Failed ==>
                  || t.clock >= Deadline(c, t.row.createdAt) || t.row.epoch > c.maxAttempts
                  || Finish(t.row.epoch, Terminal) in actions
                  || (Finish(t.row.epoch, Retryable) in actions && !MayRetry(c, t, t.row.epoch)))
  {
    RunCaused(c, s, actions);
    var t := Run(c, s, actions).value;
    forall i | 0 <= i < |t.requeues|
      ensures Finish(t.requeues[i].attempt, Retryable) in actions
    {
      assert Happened(actions, Finish(t.requeues[i].attempt, Retryable));
    }
  }

  // ----- Each end can be reached

  lemma {:induction false} RunSnoc(c: Config, s: State, actions: seq<Action>, a: Action)
    requires Run(c, s, actions).Some?
    ensures Run(c, s, actions + [a]) == Next(c, Run(c, s, actions).value, a)
  {
    var all := actions + [a];
    assert all[..|all| - 1] == actions && all[|all| - 1] == a;
  }

  /** A job that can be claimed now, in time and within its attempts, with a lease of any length. */
  ghost predicate Ready(c: Config, s: State) {
    && Due(s.row, s.clock) && s.clock < Deadline(c, s.row.createdAt) && c.lease > 0
    && s.row.attempts < c.maxAttempts && s.row.attempts < 0x7FFF_FFFF && s.row.epoch < 0x7FFF_FFFF_FFFF_FFFF
  }

  /** Its next claim executes, under a running lease. */
  ghost predicate ExecutesNext(s: State, worker: nat, t: State) {
    var e := s.row.epoch + 1;
    && t.clock == s.clock && t.row.createdAt == s.row.createdAt && t.row.nextAttemptAt == s.row.nextAttemptAt
    && t.row.attempts == s.row.attempts + 1
    && e in t.tasks && t.tasks[e] == Task(worker, s.row.attempts + 1, Executing(false), true)
    && Current(t, Write(worker, e, Complete))
  }

  lemma {:induction false} CanAdmit(c: Config, s: State, worker: nat) returns (actions: seq<Action>)
    requires Ready(c, s)
    ensures var e := s.row.epoch + 1;
            && Next(c, s, Claim(worker, s.clock)).Some? && e in Next(c, s, Claim(worker, s.clock)).value.tasks
            && Run(c, s, actions) == Some(Moved(Next(c, s, Claim(worker, s.clock)).value, e, Admitted))
  {
    var e, claim := s.row.epoch + 1, Claim(worker, s.clock);
    RunSnoc(c, s, [], claim);
    RunSnoc(c, s, [] + [claim], Step(e));
    actions := [] + [claim] + [Step(e)];
  }

  /** An admitted task of a running claim, in time. */
  ghost predicate AdmittedNow(c: Config, t: State, e: nat) {
    && e in t.tasks && t.tasks[e].pc.Admitted? && Current(t, Write(t.tasks[e].worker, e, Complete))
    && t.clock < Deadline(c, t.row.createdAt) && c.lease > 0
  }

  lemma {:induction false} CanCap(c: Config, s: State, actions: seq<Action>, t: State, e: nat)
    returns (all: seq<Action>)
    requires Run(c, s, actions) == Some(t) && AdmittedNow(c, t, e)
    ensures Run(c, s, all).Some?
    ensures var u := Run(c, s, all).value;
            && u.clock == t.clock && e in u.tasks && u.tasks[e] == t.tasks[e].(pc := Executing(false), capped := true)
            && u.row == t.row.(lockedUntil := u.row.lockedUntil)
            && Current(u, Write(t.tasks[e].worker, e, Complete))
  {
    var w := Write(t.tasks[e].worker, e, Renew(t.clock, LeaseUntil(c, t)));
    var issued := Issued(t, e, Capping, w.change);
    RunSnoc(c, s, actions, Step(e));
    all := actions + [Step(e)];
    assert Run(c, s, all) == Some(issued);
    RunSnoc(c, s, all, Land(w));
    all := all + [Land(w)];
    assert Run(c, s, all) == Some(Landed(issued, w));
    RunSnoc(c, s, all, Step(e));
    all := all + [Step(e)];
  }

  lemma {:induction false} CanExecute(c: Config, s: State, worker: nat) returns (actions: seq<Action>)
    requires Ready(c, s)
    ensures Run(c, s, actions).Some? && ExecutesNext(s, worker, Run(c, s, actions).value)
  {
    actions := CanAdmit(c, s, worker);
    actions := CanCap(c, s, actions, Run(c, s, actions).value, s.row.epoch + 1);
  }

  /** Some run from here leaves the row like this. */
  ghost predicate CanEnd(c: Config, s: State, row: Row) {
    exists actions: seq<Action> :: EndsWith(c, s, actions, row)
  }

  ghost predicate EndsWith(c: Config, s: State, actions: seq<Action>, row: Row) {
    Run(c, s, actions).Some? && Run(c, s, actions).value.row == row
  }

  /** The row after its next claim, unlocked in this state. */
  function Left(s: State, state: JobState): Row {
    s.row.(state := state, attempts := s.row.attempts + 1, epoch := s.row.epoch + 1, lockedBy := None,
           lockedUntil := None)
  }

  lemma {:induction false} CanPublish(c: Config, s: State, worker: nat, actions: seq<Action>)
    requires Run(c, s, actions).Some? && ExecutesNext(s, worker, Run(c, s, actions).value)
    ensures CanEnd(c, s, Left(s, Completed))
  {
    var e := s.row.epoch + 1;
    var w := Write(worker, e, Complete);
    RunSnoc(c, s, actions, Publish(e));
    var published := actions + [Publish(e)];
    LandsExactly(c, Run(c, s, published).value, w);
    RunSnoc(c, s, published, Land(w));
    assert EndsWith(c, s, published + [Land(w)], Left(s, Completed));
  }

  /** The pipeline ends; what it settles for is issued and lands. */
  lemma {:induction false} CanSettle(
      c: Config, s: State, worker: nat, actions: seq<Action>, settlement: Settlement, w: Write)
    requires s.clock < Deadline(c, s.row.createdAt) && w.worker == worker && w.epoch == s.row.epoch + 1
    requires Run(c, s, actions).Some? && ExecutesNext(s, worker, Run(c, s, actions).value)
    requires match w.change
             case Fail => settlement.Terminal? || (settlement.Retryable? && !MayRetry(c, s, s.row.attempts + 1))
             case Requeue(a, at, delay) =>
               && settlement.Retryable? && MayRetry(c, s, a) && a == s.row.attempts + 1 && at == s.clock
               && delay == Delay(a, c.hash(a))
             case _ => false
    ensures CanEnd(c, s, if w.change.Fail? then Left(s, Failed)
                         else Left(s, Queued).(nextAttemptAt := w.change.at + w.change.delay * 1_000_000_000))
  {
    var e := s.row.epoch + 1;
    var finish := Finish(e, settlement);
    RunSnoc(c, s, actions, finish);
    var finished := actions + [finish];
    var t := Run(c, s, finished).value;
    SettlesExactly(c, t, e, w);
    RunSnoc(c, s, finished, Step(e));
    var settled := finished + [Step(e)];
    LandsExactly(c, Run(c, s, settled).value, w);
    RunSnoc(c, s, settled, Land(w));
    var row := if w.change.Fail? then Left(s, Failed)
               else Left(s, Queued).(nextAttemptAt := w.change.at + w.change.delay * 1_000_000_000);
    assert EndsWith(c, s, settled + [Land(w)], row);
  }

  /**
   From every state in which the job can be claimed in time and within its attempts, it can still complete; it
   can fail; and it can be queued again for a whole delay later, if that may be retried.
   */
  lemma {:induction false} EndsReachable(c: Config, s: State)
    requires Ready(c, s)
    ensures CanEnd(c, s, Left(s, Completed)) && CanEnd(c, s, Left(s, Failed))
    ensures var attempt := s.row.attempts + 1;
            MayRetry(c, s, attempt) ==>
              var at := s.clock + Delay(attempt, c.hash(attempt)) * 1_000_000_000;
              CanEnd(c, s, Left(s, Queued).(nextAttemptAt := at))
  {
    var actions := CanExecute(c, s, 0);
    CanPublish(c, s, 0, actions);
    CanFail(c, s, actions);
    if MayRetry(c, s, s.row.attempts + 1) {
      CanRequeue(c, s, actions);
    }
  }

  lemma {:induction false} CanFail(c: Config, s: State, actions: seq<Action>)
    requires s.clock < Deadline(c, s.row.createdAt)
    requires Run(c, s, actions).Some? && ExecutesNext(s, 0, Run(c, s, actions).value)
    ensures CanEnd(c, s, Left(s, Failed))
  {
    CanSettle(c, s, 0, actions, Terminal, Write(0, s.row.epoch + 1, Fail));
  }

  lemma {:induction false} CanRequeue(c: Config, s: State, actions: seq<Action>)
    requires s.clock < Deadline(c, s.row.createdAt) && MayRetry(c, s, s.row.attempts + 1)
    requires Run(c, s, actions).Some? && ExecutesNext(s, 0, Run(c, s, actions).value)
    ensures var attempt := s.row.attempts + 1;
            var at := s.clock + Delay(attempt, c.hash(attempt)) * 1_000_000_000;
            CanEnd(c, s, Left(s, Queued).(nextAttemptAt := at))
  {
    var attempt := s.row.attempts + 1;
    var change := Requeue(attempt, s.clock, Delay(attempt, c.hash(attempt)));
    CanSettle(c, s, 0, actions, Retryable, Write(0, s.row.epoch + 1, change));
  }

  // ----- What a task does of its own accord

  /** The first renewal caps the lease; if it is refused, or the deadline has come, nothing will run. */
  lemma {:induction false} CapsExactly(c: Config, s: State, e: nat)
    requires e in s.tasks && s.tasks[e].pc.Admitted?
    ensures var w := Write(s.tasks[e].worker, e, Renew(s.clock, LeaseUntil(c, s)));
            && Next(c, s, Step(e)).Some? && Next(c, Next(c, s, Step(e)).value, Land(w)).Some?
            && var t := Next(c, Next(c, s, Step(e)).value, Land(w)).value;
               if Active(s.row, s.clock, s.tasks[e].worker, e) && c.lease > 0 && s.clock < Deadline(c, s.row.createdAt)
               then t.tasks[e].pc == Capped && t.row == s.row.(lockedUntil := Some(LeaseUntil(c, s)))
               else t.tasks[e].pc == Gone && t.row == s.row
  {
  }

  /** The pipeline starts exactly before the deadline, and its start is recorded. */
  lemma {:induction false} StartsExactly(c: Config, s: State, e: nat)
    requires e in s.tasks && s.tasks[e].pc.Capped?
    ensures Next(c, s, Step(e)).Some?
    ensures var t := Next(c, s, Step(e)).value;
            && t.row == s.row && t.writes == s.writes
            && if s.clock < Deadline(c, s.row.createdAt)
               then t.tasks[e].pc == Executing(false) && t.starts == s.starts + [Start(s.tasks[e].attempt, s.clock)]
               else t.tasks[e].pc == Gone && t.starts == s.starts
  {
  }

  /**
   A renewal of the current claim extends the lease to its end or the deadline and the pipeline goes on; no
   second one is issued meanwhile.
   */
  lemma {:induction false} RenewalExtends(c: Config, s: State, e: nat)
    requires e in s.tasks && s.tasks[e].pc == Executing(false) && Active(s.row, s.clock, s.tasks[e].worker, e)
    requires c.lease > 0 && s.clock < Deadline(c, s.row.createdAt)
    ensures var w := Write(s.tasks[e].worker, e, Renew(s.clock, LeaseUntil(c, s)));
            && Next(c, s, Renewal(e)).Some?
            && var u := Next(c, s, Renewal(e)).value;
               && Next(c, u, Renewal(e)).None? && Next(c, u, Land(w)).Some?
               && var t := Next(c, u, Land(w)).value;
                  t.tasks == s.tasks[e := s.tasks[e].(capped := true)]
                  && t.row == s.row.(lockedUntil := Some(LeaseUntil(c, s)))
  {
  }

  /** A renewal that finds the claim gone stops the pipeline. */
  lemma {:induction false} RefusalStops(c: Config, s: State, e: nat)
    requires e in s.tasks && s.tasks[e].pc == Executing(false) && !Active(s.row, s.clock, s.tasks[e].worker, e)
    ensures var w := Write(s.tasks[e].worker, e, Renew(s.clock, LeaseUntil(c, s)));
            && Next(c, s, Renewal(e)).Some? && Next(c, Next(c, s, Renewal(e)).value, Land(w)).Some?
            && var t := Next(c, Next(c, s, Renewal(e)).value, Land(w)).value;
               t.tasks[e].pc == Gone && t.row == s.row
  {
  }

  /** The pipeline's outcome is settled exactly if it comes before the deadline. */
  lemma {:induction false} FinishesExactly(c: Config, s: State, e: nat, settlement: Settlement)
    requires e in s.tasks && s.tasks[e].pc.Executing?
    ensures Next(c, s, Finish(e, settlement)).Some?
    ensures var t := Next(c, s, Finish(e, settlement)).value;
            && t.row == s.row && t.writes == s.writes
            && t.tasks[e].pc == if s.clock < Deadline(c, s.row.createdAt) then Settling(settlement) else Gone
  {
  }

  ghost predicate HasStart(starts: seq<Start>, attempt: nat) {
    exists i :: 0 <= i < |starts| && starts[i].attempt == attempt
  }

  /** Whatever executes, or did until it was settled, was started. */
  ghost predicate Recorded(s: State) {
    forall e :: e in s.tasks && (s.tasks[e].pc.Executing? || s.tasks[e].pc.Settling?) ==>
      HasStart(s.starts, s.tasks[e].attempt)
  }

  lemma {:induction false} StartSnoc(starts: seq<Start>, start: Start, attempt: nat)
    ensures HasStart(starts + [start], attempt) <==> HasStart(starts, attempt) || start.attempt == attempt
  {
    var all := starts + [start];
    assert all[|starts|] == start && forall i :: 0 <= i < |starts| ==> all[i] == starts[i];
  }

  lemma {:induction false} RecordedStep(c: Config, s: State, a: Action)
    requires Recorded(s) && Next(c, s, a).Some?
    ensures Recorded(Next(c, s, a).value)
  {
    var t := Next(c, s, a).value;
    forall e | e in t.tasks && (t.tasks[e].pc.Executing? || t.tasks[e].pc.Settling?)
      ensures HasStart(t.starts, t.tasks[e].attempt)
    {
      if t.starts != s.starts {
        StartSnoc(s.starts, t.starts[|s.starts|], t.tasks[e].attempt);
      }
    }
  }

  /** In every run each pipeline that runs is counted among the starts. */
  lemma {:induction false} StartsRecorded(c: Config, s: State, actions: seq<Action>)
    requires Initial(s) && Run(c, s, actions).Some?
    ensures Recorded(Run(c, s, actions).value)
  {
    if actions != [] {
      var before := actions[..|actions| - 1];
      StartsRecorded(c, s, before);
      RecordedStep(c, Run(c, s, before).value, actions[|actions| - 1]);
    }
  }

  /** Whoever had the job, another worker can claim it once the lease has lapsed. */
  lemma {:induction false} CanTakeOver(c: Config, s: State, worker: nat) returns (time: nat)
    requires s.row.state.Running? && s.row.lockedUntil.Some?
    requires s.row.attempts < 0x7FFF_FFFF && s.row.epoch < 0x7FFF_FFFF_FFFF_FFFF
    ensures Next(c, s, Wait(time)).Some?
    ensures var t := Next(c, s, Wait(time)).value;
            && t.clock == s.clock + time >= s.row.lockedUntil.value && Next(c, t, Claim(worker, t.clock)).Some?
            && var row := Next(c, t, Claim(worker, t.clock)).value.row;
               row.lockedBy == Some(worker) && row.epoch == s.row.epoch + 1 && row.attempts == s.row.attempts + 1
  {
    time := if s.row.lockedUntil.value <= s.clock then 0 else s.row.lockedUntil.value - s.clock;
  }

  /** A write that was lost never lands, and nothing else is lost with it. */
  lemma {:induction false} LostForGood(c: Config, s: State, w: Write)
    ensures Next(c, s, Lose(w)).Some?
    ensures var t := Next(c, s, Lose(w)).value;
            && Next(c, t, Land(w)).None? && t.row == s.row && t.tasks == s.tasks
            && forall v :: v in t.writes <==> v in s.writes && v != w
  {
  }

  // ----- Every allowed transition

  ghost predicate Moves(c: Config, s: State, a: Action, from: JobState, to: JobState) {
    s.row.state == from && Next(c, s, a).Some? && Next(c, s, a).value.row.state == to
  }

  /** A claimed job one of whose writes is on its way. */
  function OnItsWay(change: Change): State {
    var row := Row(Running, 1, 1, 0, Some(0), Some(1), 0);
    State(0, row, map[1 := Task(0, 1, Gone, true)], {Write(0, 1, change)}, [], [])
  }

  /** A state can follow another exactly when that is allowed. */
  lemma {:induction false} TransitionsExactly(c: Config, from: JobState, to: JobState)
    requires from != to
    ensures CanBecome(from, to) <==> exists s, a :: Moves(c, s, a, from, to)
  {
    if s, a :| Moves(c, s, a, from, to) {
      TransitionsAllowed(c, s, a);
    }
    if from.Queued? && (to.Running? || to.Superseded?) {
      var s := State(0, Row(Queued, 0, 0, 0, None, None, 0), map[], {}, [], []);
      assert Moves(c, s, if to.Running? then Claim(0, 0) else Supersede, from, to);
    }
    if from.Running? {
      if to.Superseded? {
        assert Moves(c, OnItsWay(Fail), Supersede, from, to);
      } else {
        var change := if to.Queued? then Requeue(1, 0, 1) else if to.Failed? then Fail else Complete;
        assert Moves(c, OnItsWay(change), Land(Write(0, 1, change)), from, to);
      }
    }
  }

  /** A job is superseded exactly while it is not finished, and whoever had it loses it. */
  lemma {:induction false} SupersedesExactly(c: Config, s: State)
    ensures Next(c, s, Supersede).Some? <==> s.row.state == Queued || s.row.state == Running
    ensures Next(c, s, Supersede).Some? ==>
              var row := Next(c, s, Supersede).value.row;
              && row == s.row.(state := Superseded, lockedBy := None, lockedUntil := None)
              && forall w: Write, clock: int :: Apply(row, clock, w).None?
  {
  }
}
