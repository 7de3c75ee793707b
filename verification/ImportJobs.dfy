/**
 One import job under many workers. The job's row is changed only by claims, by writes fenced with
 worker and epoch, and by supersession; a task is one execution of a claim. Tasks may be dropped at
 any moment, a write once issued may still land long after its task is gone, or never, and time
 passes as it likes. A run is any list of such actions.
 */
module ImportJobs {
  import opened Prelude
  import opened RetryDelay

  /** Time is counted in nanoseconds. */
  const SECOND: nat := 1_000_000_000
  const MAX_ATTEMPTS_COLUMN: nat := 0x7FFF_FFFF
  const MAX_EPOCH_COLUMN: nat := 0x7FFF_FFFF_FFFF_FFFF

  /** `hash` gives the jitter of each attempt of this job; `lastMoment` is the end of representable time. */
  datatype Config = Config(maxAttempts: nat, lease: nat, timeout: nat, lastMoment: int, hash: nat -> nat)

  datatype JobState = Queued | Running | Completed | Failed | Superseded

  /** `can_transition_to` */
  predicate CanBecome(s: JobState, t: JobState) {
    match s
    case Queued => t.Queued? || t.Running? || t.Superseded?
    case Running => true
    case Completed => false
    case Failed => false
    case Superseded => false
  }

  datatype Row = Row(
    state: JobState, attempts: nat, epoch: nat, nextAttemptAt: int, lockedBy: Option<nat>, lockedUntil: Option<int>,
    createdAt: int)

  /** `job_deadline` */
  function Deadline(c: Config, createdAt: int): (d: int)
    ensures d <= createdAt + c.timeout && d <= c.lastMoment && (d == createdAt + c.timeout || d == c.lastMoment)
  {
    if createdAt + c.timeout <= c.lastMoment then createdAt + c.timeout else c.lastMoment
  }

  // ----- The row

  /** What a claim demands: queued, unlocked and due, or running on a lease that has lapsed. */
  predicate Due(row: Row, now: int) {
    || (row.state.Queued? && row.nextAttemptAt <= now && row.lockedBy.None? && row.lockedUntil.None?)
    || (row.state.Running? && row.lockedUntil.Some? && row.lockedUntil.value <= now)
  }

  function Claimed(row: Row, worker: nat, until: int): Row {
    row.(
      state := Running, attempts := row.attempts + 1, epoch := row.epoch + 1, lockedBy := Some(worker),
      lockedUntil := Some(until))
  }

  /** The fence of every write: this worker, this epoch, and a lease that still runs by the database's clock. */
  predicate Active(row: Row, clock: int, worker: nat, epoch: nat) {
    && row.state.Running? && row.lockedBy == Some(worker) && row.epoch == epoch
    && row.lockedUntil.Some? && row.lockedUntil.value > clock
  }

  datatype Change =
    | Renew(now: int, until: int)
    | Requeue(attempt: nat, at: int, delay: nat)
    | Fail
    | Complete

  datatype Write = Write(worker: nat, epoch: nat, change: Change)

  function NextAttempt(at: int, delay: nat): int {
    at + delay * SECOND
  }

  function Unlocked(row: Row, state: JobState): Row {
    row.(state := state, lockedBy := None, lockedUntil := None)
  }

  /** What a write makes of the row when it reaches the database; none if the fence refuses it. */
  function Apply(row: Row, clock: int, w: Write): Option<Row> {
    if !Active(row, clock, w.worker, w.epoch) then None
    else
      match w.change
      case Renew(now, until) => if until > now && until > clock then Some(row.(lockedUntil := Some(until))) else None
      case Requeue(attempt, at, delay) =>
        if row.attempts == attempt then Some(Unlocked(row, Queued).(nextAttemptAt := NextAttempt(at, delay))) else None
      case Fail => Some(Unlocked(row, Failed))
      case Complete => Some(Unlocked(row, Completed))
  }

  // ----- Executions of a claim

  datatype Settlement = Retryable | Terminal | Nothing

  datatype Pc =
    | Fresh // claimed, nothing checked
    | Admitted // in time and within the attempts
    | Capping // the first renewal is on its way
    | Capped // it was accepted
    | Executing(renewing: bool) // the pipeline runs
    | Settling(settlement: Settlement) // the pipeline ended in time
    | Gone

  /** `capped`: a renewal of this claim was accepted. */
  datatype Task = Task(worker: nat, attempt: nat, pc: Pc, capped: bool)

  datatype Start = Start(attempt: nat, at: int)

  datatype Requeued = Requeued(attempt: nat, at: int, delay: nat)

  /** `tasks` are known by their epoch; `starts` and `requeues` record what happened. */
  datatype State = State(
    clock: int, row: Row, tasks: map<nat, Task>, writes: set<Write>, starts: seq<Start>, requeues: seq<Requeued>)

  ghost predicate Initial(s: State) {
    && s.row.state.Queued? && s.row.attempts == 0 && s.row.epoch == 0
    && s.row.lockedBy.None? && s.row.lockedUntil.None?
    && s.tasks == map[] && s.writes == {} && s.starts == [] && s.requeues == []
  }

  function LeaseUntil(c: Config, s: State): (until: int)
    ensures var deadline := Deadline(c, s.row.createdAt);
            until <= s.clock + c.lease && until <= deadline && (until == s.clock + c.lease || until == deadline)
  {
    var deadline := Deadline(c, s.row.createdAt);
    if s.clock + c.lease <= deadline then s.clock + c.lease else deadline
  }

  function Moved(s: State, e: nat, pc: Pc): State
    requires e in s.tasks
  {
    s.(tasks := s.tasks[e := s.tasks[e].(pc := pc)])
  }

  function Issued(s: State, e: nat, pc: Pc, change: Change): State
    requires e in s.tasks
  {
    Moved(s, e, pc).(writes := s.writes + {Write(s.tasks[e].worker, e, change)})
  }

  /** The checks before anything runs. */
  function Begin(c: Config, s: State, e: nat): State
    requires e in s.tasks
  {
    if s.clock >= Deadline(c, s.row.createdAt) then Issued(s, e, Gone, Fail)
    else if s.tasks[e].attempt > c.maxAttempts then Issued(s, e, Gone, Fail)
    else Moved(s, e, Admitted)
  }

  /** The pipeline starts, unless the deadline's timer has fired. */
  function StartPipeline(c: Config, s: State, e: nat): State
    requires e in s.tasks
  {
    if s.clock >= Deadline(c, s.row.createdAt) then Moved(s, e, Gone)
    else Moved(s, e, Executing(false)).(starts := s.starts + [Start(s.tasks[e].attempt, s.clock)])
  }

  /** The outcome: a final failure, or another attempt if it would come before the deadline. */
  function Settle(c: Config, s: State, e: nat, settlement: Settlement): State
    requires e in s.tasks
  {
    var attempt := s.tasks[e].attempt;
    var delay := Delay(attempt, c.hash(attempt));
    match settlement
    case Nothing => Moved(s, e, Gone)
    case Terminal => Issued(s, e, Gone, Fail)
    case Retryable =>
      if attempt >= c.maxAttempts then Issued(s, e, Gone, Fail)
      else if NextAttempt(s.clock, delay) >= Deadline(c, s.row.createdAt) then Issued(s, e, Gone, Fail)
      else Issued(s, e, Gone, Requeue(attempt, s.clock, delay))
  }

  /** How a task takes the answer to its renewal. */
  function Heard(t: Task, renewal: bool, accepted: bool): Task {
    if !renewal then t
    else
      var pc := if t.pc.Capping? then (if accepted then Capped else Gone)
                else if t.pc == Executing(true) then (if accepted then Executing(false) else Gone)
                else t.pc;
      Task(t.worker, t.attempt, pc, t.capped || accepted)
  }

  /** A write reaches the database. */
  function Landed(s: State, w: Write): State
    requires w.epoch in s.tasks
  {
    var row := Apply(s.row, s.clock, w);
    State(
      s.clock,
      if row.Some? then row.value else s.row,
      s.tasks[w.epoch := Heard(s.tasks[w.epoch], w.change.Renew?, row.Some?)],
      s.writes - {w},
      s.starts,
      if row.Some? && w.change.Requeue?
      then s.requeues + [Requeued(w.change.attempt, w.change.at, w.change.delay)] else s.requeues)
  }

  datatype Action =
    | Wait(time: nat)
    | Claim(worker: nat, now: int)
    | Step(epoch: nat)
    | Renewal(epoch: nat)
    | Publish(epoch: nat)
    | Finish(epoch: nat, settlement: Settlement)
    | Drop(epoch: nat)
    | Land(write: Write)
    | Lose(write: Write)
    | Supersede

  /** The next thing a task does of its own accord. */
  function TaskStep(c: Config, s: State, e: nat): Option<State>
    requires e in s.tasks
  {
    match s.tasks[e].pc
    case Fresh => Some(Begin(c, s, e))
    case Admitted => Some(Issued(s, e, Capping, Renew(s.clock, LeaseUntil(c, s))))
    case Capped => Some(StartPipeline(c, s, e))
    case Settling(settlement) => Some(Settle(c, s, e, settlement))
    case Capping => None
    case Executing(_) => None
    case Gone => None
  }

  function Next(c: Config, s: State, a: Action): Option<State> {
    match a
    case Wait(time) => Some(s.(clock := s.clock + time))
    case Claim(worker, now) =>
      if now <= s.clock && Due(s.row, now) && s.row.attempts < MAX_ATTEMPTS_COLUMN
         && s.row.epoch < MAX_EPOCH_COLUMN then
        var row := Claimed(s.row, worker, now + c.lease);
        Some(s.(row := row, tasks := s.tasks[row.epoch := Task(worker, row.attempts, Fresh, false)]))
      else None
    case Step(e) => if e in s.tasks then TaskStep(c, s, e) else None
    case Renewal(e) =>
      if e in s.tasks && s.tasks[e].pc == Executing(false)
      then Some(Issued(s, e, Executing(true), Renew(s.clock, LeaseUntil(c, s)))) else None
    case Publish(e) =>
      if e in s.tasks && s.tasks[e].pc.Executing? then Some(Issued(s, e, s.tasks[e].pc, Complete)) else None
    case Finish(e, settlement) =>
      if e in s.tasks && s.tasks[e].pc.Executing?
      then Some(Moved(s, e, if s.clock >= Deadline(c, s.row.createdAt) then Gone else Settling(settlement))) else None
    case Drop(e) => if e in s.tasks then Some(Moved(s, e, Gone)) else None
    case Land(w) => if w in s.writes && w.epoch in s.tasks then Some(Landed(s, w)) else None
    case Lose(w) => Some(s.(writes := s.writes - {w}))
    case Supersede =>
      if s.row.state.Queued? || s.row.state.Running? then Some(s.(row := Unlocked(s.row, Superseded))) else None
  }

  function Run(c: Config, s: State, actions: seq<Action>): Option<State> {
    if actions == [] then Some(s)
    else
      match Run(c, s, actions[..|actions| - 1])
      case None => None
      case Some(t) => Next(c, t, actions[|actions| - 1])
  }
}
