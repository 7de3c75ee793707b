/**
 The root of an extracted archive: once Kubo's reply to the root write is complete, the new CID is
 known only to this process until it is retained in the database. The slot that holds it lives
 outside the work, which shutdown, a lost lease or a timeout may drop at any await, but it is gone when
 the supervisor returns or is aborted. A run is any list of actions of the work, of its supervisor, and
 of the database and other workers.
 */
module RootCandidate {
  import opened Prelude

  type Cid = Bytes

  datatype Status = Intent | Reconciling | Invoked | Unknown | Verified | Failed

  /** The root write may have been started under this status. */
  predicate Underway(s: Status) {
    !s.Intent? && !s.Reconciling?
  }

  /** The status changes that other code makes; none goes back before the root write. */
  predicate MayFollow(s: Status, t: Status) {
    Underway(t) || (s.Intent? && t.Reconciling?)
  }

  datatype Build = Build(worker: nat, status: Status)

  /** The root builds of one batch by epoch, the current epoch, and the CIDs retained under each. */
  datatype Database = Database(builds: map<nat, Build>, epoch: nat, retained: set<(nat, Cid)>)

  /** `claim_root`: a new intent under a new epoch. */
  function WithClaim(db: Database, worker: nat): Database {
    db.(builds := db.builds[db.epoch + 1 := Build(worker, Intent)], epoch := db.epoch + 1)
  }

  /** `mark_invoked`, before anything is written to Kubo: only for the current claim, and once. */
  function WithInvoked(db: Database, worker: nat, e: nat): Option<Database> {
    if e in db.builds && db.epoch == e && db.builds[e].worker == worker && !Underway(db.builds[e].status)
    then Some(db.(builds := db.builds[e := Build(worker, Invoked)])) else None
  }

  /** `retain_candidate`: for the claim's own build, current or not, unless it never started or failed. */
  function WithRetained(db: Database, worker: nat, e: nat, cid: Cid): Option<Database> {
    if e in db.builds && db.builds[e].worker == worker && !db.builds[e].status.Intent? && !db.builds[e].status.Failed?
    then Some(db.(retained := db.retained + {(e, cid)})) else None
  }

  // ----- The work and its supervisor

  /** Where control is. `committed` tells that a transaction is through, though its reply is not. */
  datatype Pc =
    | Preparing
    | ClaimingRoot(claimed: Option<nat>)
    | Recording(root: nat)
    | Invoking(root: nat, committed: bool)
    | Writing(root: nat)
    | Checking(root: nat)
    | RetainingKnown(root: nat, cid: Cid, committed: bool)
    | Finishing
    | Retaining(last: bool, committed: bool)
    | Settling
    | Returned

  /**
   `replied` is the root CID whose reply was complete, `tried` the CID last offered for retention, and
   `aborted` tells that the supervisor did not return by itself.
   */
  datatype State = State(
    db: Database, slot: Option<Cid>, claim: Option<nat>, pc: Pc, replied: Option<Cid>, tried: Option<Cid>,
    aborted: bool)

  function Start(db: Database): State {
    State(db, None, None, Preparing, None, None, false)
  }

  /** Inside the part that its timeout drops. */
  predicate Inner(pc: Pc) {
    !pc.Retaining? && !pc.Settling? && !pc.Returned?
  }

  /** `retain_pending_candidate`, entered after the work's core or, the `last` time, after all of the work. */
  function Retain(s: State, last: bool): State {
    if s.slot.None? then End(s, last) else s.(pc := Retaining(last, false), tried := s.slot)
  }

  /** On return the slot is gone. */
  function End(s: State, last: bool): State {
    if last then s.(pc := Returned, slot := None) else s.(pc := Settling)
  }

  /**
   `CoreEnds` by itself, by an error or by its timeout. `OthersRetain` also stands for a transaction of a
   dropped attempt that commits late.
   */
  datatype Action =
    | BeginRoot | ClaimCommits | ClaimReplies
    | Record
    | InvokeCommits | InvokeReplies
    | RootReplies(cid: Cid)
    | BuildEnds | RootFails
    | KnownCommits | KnownReplies
    | CoreEnds
    | RetentionCommits | RetentionReplies | RetentionGivesUp
    | WorkEnds | WorkDropped | Aborted
    | OthersClaim(worker: nat) | OthersMark(epoch: nat, status: Status) | OthersRetain(epoch: nat, cid: Cid)

  /** The steps of `build_root`. */
  function BuildStep(me: nat, s: State, a: Action): Option<State> {
    match a
    case BeginRoot => if s.pc.Preparing? then Some(s.(pc := ClaimingRoot(None))) else None
    case ClaimCommits =>
      if s.pc == ClaimingRoot(None)
      then Some(s.(db := WithClaim(s.db, me), pc := ClaimingRoot(Some(s.db.epoch + 1)))) else None
    case ClaimReplies =>
      if s.pc.ClaimingRoot? && s.pc.claimed.Some? then Some(s.(pc := Recording(s.pc.claimed.value))) else None
    case Record =>
      if s.pc.Recording? then Some(s.(claim := Some(s.pc.root), pc := Invoking(s.pc.root, false))) else None
    case InvokeCommits =>
      if s.pc.Invoking? && !s.pc.committed && WithInvoked(s.db, me, s.pc.root).Some?
      then Some(s.(db := WithInvoked(s.db, me, s.pc.root).value, pc := Invoking(s.pc.root, true))) else None
    case InvokeReplies => if s.pc.Invoking? && s.pc.committed then Some(s.(pc := Writing(s.pc.root))) else None
    case RootReplies(cid) =>
      if s.pc.Writing? then Some(s.(slot := Some(cid), replied := Some(cid), pc := Checking(s.pc.root))) else None
    case BuildEnds =>
      if s.pc.Checking? && s.slot.Some?
      then Some(s.(pc := RetainingKnown(s.pc.root, s.slot.value, false), tried := s.slot)) else None
    case RootFails => if s.pc.Writing? then Some(s.(pc := Finishing)) else None
    case KnownCommits =>
      if s.pc.RetainingKnown? && !s.pc.committed && WithRetained(s.db, me, s.pc.root, s.pc.cid).Some?
      then
        var db := WithRetained(s.db, me, s.pc.root, s.pc.cid).value;
        Some(s.(db := db, pc := RetainingKnown(s.pc.root, s.pc.cid, true)))
      else None
    case KnownReplies =>
      if s.pc.RetainingKnown? && s.pc.committed then Some(s.(slot := None, pc := Finishing)) else None
    case _ => None
  }

  /** The steps of retention and of the supervisor. */
  function SupervisorStep(me: nat, s: State, a: Action): Option<State> {
    match a
    case CoreEnds => if Inner(s.pc) then Some(Retain(s, false)) else None
    case RetentionCommits =>
      if s.pc.Retaining? && !s.pc.committed && s.slot.Some? && s.claim.Some?
         && WithRetained(s.db, me, s.claim.value, s.slot.value).Some?
      then
        var db := WithRetained(s.db, me, s.claim.value, s.slot.value).value;
        Some(s.(db := db, pc := Retaining(s.pc.last, true)))
      else None
    case RetentionReplies =>
      if s.pc.Retaining? && s.pc.committed then Some(End(s.(slot := None), s.pc.last)) else None
    case RetentionGivesUp => if s.pc.Retaining? then Some(End(s, s.pc.last)) else None
    case WorkEnds => if s.pc.Settling? then Some(Retain(s, true)) else None
    case WorkDropped =>
      if Inner(s.pc) || s.pc.Settling? || (s.pc.Retaining? && !s.pc.last) then Some(Retain(s, true)) else None
    case Aborted => if s.pc.Returned? then None else Some(End(s, true).(aborted := true))
    case _ => None
  }

  /** What others do to the database. */
  function OthersStep(s: State, a: Action): Option<State> {
    match a
    case OthersClaim(worker) => Some(s.(db := WithClaim(s.db, worker)))
    case OthersMark(e, status) =>
      if e in s.db.builds && MayFollow(s.db.builds[e].status, status)
      then Some(s.(db := s.db.(builds := s.db.builds[e := s.db.builds[e].(status := status)]))) else None
    case OthersRetain(e, cid) =>
      if e in s.db.builds then Some(s.(db := s.db.(retained := s.db.retained + {(e, cid)}))) else None
    case _ => None
  }

  function Step(me: nat, s: State, a: Action): Option<State> {
    if BuildStep(me, s, a).Some? then BuildStep(me, s, a)
    else if SupervisorStep(me, s, a).Some? then SupervisorStep(me, s, a)
    else OthersStep(s, a)
  }

  function Run(me: nat, s: State, actions: seq<Action>): Option<State> {
    if actions == [] then Some(s)
    else
      match Run(me, s, actions[..|actions| - 1])
      case None => None
      case Some(t) => Step(me, t, actions[|actions| - 1])
  }

  // ----- What every run keeps

  /** A build of ours whose root write may have started. */
  ghost predicate Invokable(me: nat, db: Database, e: nat) {
    e in db.builds && db.builds[e].worker == me && Underway(db.builds[e].status)
  }

  /** No build or retained CID lies beyond the current epoch. */
  ghost predicate Bounded(db: Database) {
    (forall e :: e in db.builds ==> e <= db.epoch) && (forall p :: p in db.retained ==> p.0 <= db.epoch)
  }

  ghost predicate Ours(me: nat, db: Database, e: nat, base: nat) {
    e in db.builds && db.builds[e].worker == me && e > base
  }

  ghost predicate Blank(s: State) {
    s.slot.None? && s.replied.None?
  }

  ghost predicate PcOk(me: nat, s: State, base: nat) {
    match s.pc
    case Preparing => Blank(s) && s.claim.None?
    case ClaimingRoot(claimed) =>
      Blank(s) && s.claim.None? && (claimed.Some? ==> Ours(me, s.db, claimed.value, base))
    case Recording(root) => Blank(s) && s.claim.None? && Ours(me, s.db, root, base)
    case Invoking(root, committed) =>
      Blank(s) && s.claim == Some(root) && (committed ==> Invokable(me, s.db, root))
    case Writing(root) => Blank(s) && s.claim == Some(root) && Invokable(me, s.db, root)
    case Checking(root) => s.slot.Some? && s.claim == Some(root)
    case RetainingKnown(root, cid, committed) =>
      s.slot == Some(cid) && s.tried == s.slot && s.claim == Some(root)
      && (committed ==> (root, cid) in s.db.retained)
    case Finishing => s.slot.None?
    case Retaining(_, committed) =>
      s.slot.Some? && s.tried == s.slot
      && (committed ==> s.claim.Some? && (s.claim.value, s.slot.value) in s.db.retained)
    case Settling => true
    case Returned => s.slot.None?
  }

  /** A filled slot holds the reply, under a recorded claim of ours whose invocation was committed. */
  ghost predicate SlotOk(me: nat, s: State, base: nat) {
    && (s.claim.Some? ==> s.claim.value > base)
    && (s.replied.Some? ==> s.claim.Some? && Invokable(me, s.db, s.claim.value))
    && (s.slot.Some? ==> s.replied == s.slot)
  }

  ghost predicate InDatabase(s: State) {
    s.claim.Some? && s.replied.Some? && (s.claim.value, s.replied.value) in s.db.retained
  }

  /** Until the return, a CID whose reply was complete is in the slot or in the database, under its claim. */
  ghost predicate Kept(s: State) {
    s.replied.Some? ==>
      && (s.pc.Returned? || s.slot == s.replied || InDatabase(s))
      && (s.slot == s.replied || s.tried == s.replied || s.aborted)
  }

  ghost predicate Inv(me: nat, s: State, base: nat) {
    Bounded(s.db) && base <= s.db.epoch && PcOk(me, s, base) && SlotOk(me, s, base) && Kept(s)
  }

  lemma {:induction false} BuildKeeps(me: nat, s: State, base: nat, a: Action)
    requires Inv(me, s, base) && BuildStep(me, s, a).Some?
    ensures Inv(me, BuildStep(me, s, a).value, base)
  {
  }

  lemma {:induction false} SupervisorKeeps(me: nat, s: State, base: nat, a: Action)
    requires Inv(me, s, base) && SupervisorStep(me, s, a).Some?
    ensures Inv(me, SupervisorStep(me, s, a).value, base)
  {
  }

  lemma {:induction false} OthersKeep(me: nat, s: State, base: nat, a: Action)
    requires Inv(me, s, base) && OthersStep(s, a).Some?
    ensures Inv(me, OthersStep(s, a).value, base)
  {
  }

  lemma {:induction false} StepKeeps(me: nat, s: State, base: nat, a: Action)
    requires Inv(me, s, base) && Step(me, s, a).Some?
    ensures Inv(me, Step(me, s, a).value, base)
  {
    if BuildStep(me, s, a).Some? {
      BuildKeeps(me, s, base, a);
    } else if SupervisorStep(me, s, a).Some? {
      SupervisorKeeps(me, s, base, a);
    } else {
      OthersKeep(me, s, base, a);
    }
  }

  lemma {:induction false} RunKeeps(me: nat, db: Database, actions: seq<Action>)
    requires Bounded(db) && Run(me, Start(db), actions).Some?
    ensures Inv(me, Run(me, Start(db), actions).value, db.epoch)
  {
    if actions != [] {
      var before := actions[..|actions| - 1];
      RunKeeps(me, db, before);
      StepKeeps(me, Run(me, Start(db), before).value, db.epoch, actions[|actions| - 1]);
    }
  }

  // ----- Which steps store a CID

  predicate Commits(a: Action) {
    a.KnownCommits? || a.RetentionCommits?
  }

  /** One of our retentions committed. */
  ghost predicate Committed(actions: seq<Action>) {
    exists i :: 0 <= i < |actions| && Commits(actions[i])
  }

  /** Another party retained the CID under this epoch, or a late transaction did. */
  ghost predicate OthersRetained(actions: seq<Action>, e: nat, cid: Cid) {
    exists i :: 0 <= i < |actions| && actions[i] == OthersRetain(e, cid)
  }

  lemma {:induction false} HistorySnoc(actions: seq<Action>, a: Action, e: nat, cid: Cid)
    ensures Committed(actions + [a]) <==> Committed(actions) || Commits(a)
    ensures OthersRetained(actions + [a], e, cid) <==> OthersRetained(actions, e, cid) || a == OthersRetain(e, cid)
  {
    var all := actions + [a];
    assert all[|actions|] == a && forall i :: 0 <= i < |actions| ==> all[i] == actions[i];
  }

  /** What one step does to the retained pairs, the claim and the reply. */
  lemma {:induction false} RetainedStep(me: nat, s: State, base: nat, a: Action, e: nat, cid: Cid)
    requires Inv(me, s, base) && Step(me, s, a).Some?
    ensures var t := Step(me, s, a).value;
            && (s.claim.Some? ==> t.claim == s.claim) && (s.replied.Some? ==> t.replied == s.replied)
            && (Commits(a) ==> s.claim.Some? && s.replied.Some?)
            && ((e, cid) in t.db.retained <==>
                  || (e, cid) in s.db.retained || a == OthersRetain(e, cid)
                  || (Commits(a) && s.claim == Some(e) && s.replied == Some(cid)))
  {
  }

  /** A pair of a new epoch is retained exactly if one of our retentions or another party retained it. */
  lemma {:induction false} RetainedExactly(me: nat, db: Database, actions: seq<Action>, e: nat, cid: Cid)
    requires Bounded(db) && Run(me, Start(db), actions).Some? && e > db.epoch
    ensures var s := Run(me, Start(db), actions).value;
            && ((e, cid) in s.db.retained <==>
                  || OthersRetained(actions, e, cid)
                  || (Committed(actions) && s.claim == Some(e) && s.replied == Some(cid)))
            && (Committed(actions) ==> s.claim.Some? && s.replied.Some?)
  {
    if actions != [] {
      var before, a := actions[..|actions| - 1], actions[|actions| - 1];
      assert actions == before + [a];
      RetainedExactly(me, db, before, e, cid);
      RunKeeps(me, db, before);
      RetainedStep(me, Run(me, Start(db), before).value, db.epoch, a, e, cid);
      HistorySnoc(before, a, e, cid);
    }
  }

  // ----- What that means

  /** Until the supervisor returns, a root whose reply was complete is in the slot or in the database. */
  lemma {:induction false} KeptUntilReturn(me: nat, db: Database, actions: seq<Action>, cid: Cid)
    requires Bounded(db) && Run(me, Start(db), actions).Some? && Run(me, Start(db), actions).value.replied == Some(cid)
    ensures var s := Run(me, Start(db), actions).value;
            s.claim.Some? && (s.pc.Returned? || s.slot == Some(cid) || (s.claim.value, cid) in s.db.retained)
  {
    RunKeeps(me, db, actions);
  }

  /** The build can be picked up again: `recovery` lists it. */
  ghost predicate Recoverable(me: nat, db: Database, e: nat) {
    e in db.builds && db.builds[e].worker == me && !db.builds[e].status.Failed?
  }

  /** Someone marked the build of this epoch as failed. */
  ghost predicate MarkedFailed(actions: seq<Action>, e: nat) {
    exists i :: 0 <= i < |actions| && actions[i] == OthersMark(e, Failed)
  }

  /**
   After the return only the database counts. It has the root under its claim exactly when one of our
   retentions committed or another party retained it. If it does not, the invoked build is still there, and
   recoverable unless someone marked it as failed.
   */
  lemma {:induction false} DurableExactly(me: nat, db: Database, actions: seq<Action>, cid: Cid)
    requires Bounded(db) && Run(me, Start(db), actions).Some?
    requires Run(me, Start(db), actions).value.pc.Returned? && Run(me, Start(db), actions).value.replied == Some(cid)
    ensures var s := Run(me, Start(db), actions).value;
            && s.slot.None? && s.claim.Some? && Invokable(me, s.db, s.claim.value)
            && ((s.claim.value, cid) in s.db.retained <==>
                  Committed(actions) || OthersRetained(actions, s.claim.value, cid))
            && (!MarkedFailed(actions, s.claim.value) ==> Recoverable(me, s.db, s.claim.value))
  {
    RunKeeps(me, db, actions);
    var s := Run(me, Start(db), actions).value;
    RetainedExactly(me, db, actions, s.claim.value, cid);
    if !MarkedFailed(actions, s.claim.value) {
      FailedOnlyIfMarked(me, db, actions, s.claim.value);
    }
  }

  // ----- The two ways to lose it

  /** The slot is dropped: by an abort, or by a last retention that gives up without having committed. */
  predicate Drops(s: State, a: Action) {
    a.Aborted? || (a.RetentionGivesUp? && s.pc == Retaining(true, false))
  }

  /** A root whose reply was complete is neither in the slot nor in the database. */
  ghost predicate Lost(s: State) {
    s.replied.Some? && s.slot != s.replied && !InDatabase(s)
  }

  /** A step loses the root exactly when it drops the slot while the database has not got the CID. */
  lemma {:induction false} LostExactly(me: nat, db: Database, actions: seq<Action>, a: Action)
    requires Bounded(db) && Run(me, Start(db), actions).Some? && Step(me, Run(me, Start(db), actions).value, a).Some?
    requires var s := Run(me, Start(db), actions).value; s.replied.Some? && !s.pc.Returned?
    ensures var s := Run(me, Start(db), actions).value;
            Lost(Step(me, s, a).value) <==> Drops(s, a) && !InDatabase(s)
  {
    RunKeeps(me, db, actions);
  }

  predicate GivesUp(a: Action) {
    a.RetentionGivesUp? || a.Aborted?
  }

  /** In a run in which no retention gives up and nothing is aborted, the root is never lost. */
  lemma {:induction false} NeverLostUnlessGivenUp(me: nat, db: Database, actions: seq<Action>)
    requires Bounded(db) && Run(me, Start(db), actions).Some?
    requires forall i :: 0 <= i < |actions| ==> !GivesUp(actions[i])
    ensures var s := Run(me, Start(db), actions).value;
            !Lost(s) && (s.pc.Returned? && s.replied.Some? ==> InDatabase(s))
  {
    if actions != [] {
      var before, a := actions[..|actions| - 1], actions[|actions| - 1];
      assert forall i :: 0 <= i < |before| ==> before[i] == actions[i];
      NeverLostUnlessGivenUp(me, db, before);
      RunKeeps(me, db, before);
      RunKeeps(me, db, actions);
      StepUnlessGivenUp(me, Run(me, Start(db), before).value, db.epoch, a);
    }
  }

  lemma {:induction false} StepUnlessGivenUp(me: nat, s: State, base: nat, a: Action)
    requires Inv(me, s, base) && Step(me, s, a).Some? && !GivesUp(a) && !Lost(s)
    ensures !Lost(Step(me, s, a).value)
  {
  }

  lemma {:induction false} FailedOnlyIfMarked(me: nat, db: Database, actions: seq<Action>, e: nat)
    requires Bounded(db) && Run(me, Start(db), actions).Some? && e > db.epoch && !MarkedFailed(actions, e)
    ensures var s := Run(me, Start(db), actions).value; e in s.db.builds ==> !s.db.builds[e].status.Failed?
  {
    if actions != [] {
      var before, a := actions[..|actions| - 1], actions[|actions| - 1];
      assert forall i :: 0 <= i < |before| ==> before[i] == actions[i];
      FailedOnlyIfMarked(me, db, before, e);
    }
  }

  /** A filled slot implies a recorded root claim of ours whose invocation the database has. */
  lemma {:induction false} FilledMeansClaimed(me: nat, db: Database, actions: seq<Action>)
    requires Bounded(db) && Run(me, Start(db), actions).Some? && Run(me, Start(db), actions).value.slot.Some?
    ensures var s := Run(me, Start(db), actions).value; s.claim.Some? && Invokable(me, s.db, s.claim.value)
  {
    RunKeeps(me, db, actions);
  }

  /**
   The slot changes only from empty to a fresh reply, or to empty: when the database has its CID by then, or
   with the return.
   */
  lemma {:induction false} ClearedAfterCommit(me: nat, db: Database, actions: seq<Action>, a: Action)
    requires Bounded(db) && Run(me, Start(db), actions).Some? && Step(me, Run(me, Start(db), actions).value, a).Some?
    ensures var s, t := Run(me, Start(db), actions).value, Step(me, Run(me, Start(db), actions).value, a).value;
            t.slot != s.slot ==>
              || (s.slot.None? && t.slot == t.replied)
              || (t.slot.None? && s.claim.Some? && (s.claim.value, s.slot.value) in s.db.retained)
              || (t.slot.None? && t.pc.Returned? && (t.tried == s.slot || t.aborted))
  {
    RunKeeps(me, db, actions);
  }

  /** Every return but an abort has offered the very CID of a complete reply for retention. */
  lemma {:induction false} ExitTriesRetention(me: nat, db: Database, actions: seq<Action>)
    requires Bounded(db) && Run(me, Start(db), actions).Some? && Run(me, Start(db), actions).value.pc.Returned?
    ensures var s := Run(me, Start(db), actions).value; s.replied.Some? && !s.aborted ==> s.tried == s.replied
  {
    RunKeeps(me, db, actions);
  }

  /** Retained CIDs are never forgotten. */
  lemma {:induction false} RetainedForGood(me: nat, s: State, actions: seq<Action>)
    requires Run(me, s, actions).Some?
    ensures s.db.retained <= Run(me, s, actions).value.db.retained
  {
    if actions != [] {
      RetainedForGood(me, s, actions[..|actions| - 1]);
    }
  }

  lemma {:induction false} RunSnoc(me: nat, s: State, actions: seq<Action>, a: Action)
    requires Run(me, s, actions).Some?
    ensures Run(me, s, actions + [a]) == Step(me, Run(me, s, actions).value, a)
  {
    var all := actions + [a];
    assert all[..|all| - 1] == actions && all[|all| - 1] == a;
  }

  /** While nothing marked the build as failed, the last retention of a filled slot is open to commit. */
  lemma {:induction false} RetentionIsOpen(me: nat, db: Database, actions: seq<Action>)
    requires Bounded(db) && Run(me, Start(db), actions).Some?
    requires Run(me, Start(db), actions).value.pc == Retaining(true, false)
    requires var s := Run(me, Start(db), actions).value;
             s.claim.Some? && s.claim.value in s.db.builds && !s.db.builds[s.claim.value].status.Failed?
    ensures var s := Run(me, Start(db), actions).value;
            var after := Run(me, Start(db), actions + [RetentionCommits] + [RetentionReplies]);
            && after.Some? && after.value.pc.Returned?
            && s.replied.Some? && (s.claim.value, s.replied.value) in after.value.db.retained
  {
    RunKeeps(me, db, actions);
    RunSnoc(me, Start(db), actions, RetentionCommits);
    RunSnoc(me, Start(db), actions + [RetentionCommits], RetentionReplies);
  }

  // ----- When the root write may start

  /** Another worker claimed the root after we did. */
  ghost predicate Overtaken(actions: seq<Action>) {
    exists i, j :: 0 <= i < j < |actions| && actions[i].ClaimCommits? && actions[j].OthersClaim?
  }

  /** Someone recorded that the root write of this epoch may have started. */
  ghost predicate MarkedStarted(actions: seq<Action>, e: nat) {
    exists i :: 0 <= i < |actions| && actions[i].OthersMark? && actions[i].epoch == e && Underway(actions[i].status)
  }

  /** The root we claimed, while its write has not been invoked. */
  function Pending(pc: Pc): Option<nat> {
    match pc
    case ClaimingRoot(claimed) => claimed
    case Recording(root) => Some(root)
    case Invoking(root, committed) => if committed then None else Some(root)
    case _ => None
  }

  /** What the build and the epoch tell of the past, as long as the root is pending. */
  ghost predicate Traced(me: nat, s: State, actions: seq<Action>, root: nat) {
    && root in s.db.builds && s.db.builds[root].worker == me && root <= s.db.epoch
    && ClaimCommits in actions && (root == s.db.epoch <==> !Overtaken(actions))
    && (Underway(s.db.builds[root].status) <==> MarkedStarted(actions, root))
  }

  predicate Unclaimed(pc: Pc) {
    pc.Preparing? || pc == ClaimingRoot(None)
  }

  predicate Written(pc: Pc) {
    !Unclaimed(pc) && Pending(pc).None? && !pc.Invoking? && !pc.Writing?
  }

  /** Which commits lie behind us. */
  ghost predicate Behind(s: State, actions: seq<Action>) {
    && (RootFails in actions ==> Written(s.pc))
    && (Unclaimed(s.pc) ==> ClaimCommits !in actions)
    && (Unclaimed(s.pc) || Pending(s.pc).Some? ==> InvokeCommits !in actions)
    && (s.pc.Writing? || (s.pc.Invoking? && s.pc.committed) || s.replied.Some? ==> InvokeCommits in actions)
  }

  /** No build was marked before its claim. */
  ghost predicate MarksBounded(s: State, actions: seq<Action>) {
    forall i :: 0 <= i < |actions| && actions[i].OthersMark? ==> actions[i].epoch <= s.db.epoch
  }

  ghost predicate History(me: nat, s: State, actions: seq<Action>) {
    && (Pending(s.pc).Some? ==> Traced(me, s, actions, Pending(s.pc).value))
    && Behind(s, actions) && MarksBounded(s, actions)
  }

  lemma {:induction false} OvertakenSnoc(actions: seq<Action>, a: Action)
    ensures Overtaken(actions + [a]) <==> Overtaken(actions) || (ClaimCommits in actions && a.OthersClaim?)
  {
    var all := actions + [a];
    assert all[|actions|] == a && forall i :: 0 <= i < |actions| ==> all[i] == actions[i];
    if ClaimCommits in actions && a.OthersClaim? {
      var i :| 0 <= i < |actions| && actions[i] == ClaimCommits;
      assert all[i].ClaimCommits? && all[|actions|].OthersClaim?;
    }
    if Overtaken(actions) {
      var i, j :| 0 <= i < j < |actions| && actions[i].ClaimCommits? && actions[j].OthersClaim?;
      assert all[i].ClaimCommits? && all[j].OthersClaim?;
    }
  }

  lemma {:induction false} StartedSnoc(actions: seq<Action>, a: Action, e: nat)
    ensures MarkedStarted(actions + [a], e) <==>
              MarkedStarted(actions, e) || (a.OthersMark? && a.epoch == e && Underway(a.status))
  {
    var all := actions + [a];
    assert all[|actions|] == a && forall i :: 0 <= i < |actions| ==> all[i] == actions[i];
  }

  /** Nothing of the past contradicts a fresh claim. */
  lemma {:induction false} FreshClaim(me: nat, s: State, actions: seq<Action>, root: nat)
    requires History(me, s, actions) && Unclaimed(s.pc) && root > s.db.epoch
    ensures !Overtaken(actions) && !MarkedStarted(actions, root)
  {
  }

  lemma {:induction false} MarksStep(me: nat, s: State, base: nat, actions: seq<Action>, a: Action, t: State)
    requires Inv(me, s, base) && Step(me, s, a) == Some(t) && MarksBounded(s, actions)
    ensures MarksBounded(t, actions + [a])
  {
  }

  lemma {:induction false} BehindStep(me: nat, s: State, actions: seq<Action>, a: Action, t: State)
    requires Step(me, s, a) == Some(t) && Behind(s, actions)
    ensures Behind(t, actions + [a])
  {
    assert forall x :: x in actions + [a] <==> x in actions || x == a;
  }

  lemma {:induction false} TracedStep(me: nat, s: State, base: nat, actions: seq<Action>, a: Action, t: State)
    requires Inv(me, s, base) && History(me, s, actions) && Step(me, s, a) == Some(t) && Pending(t.pc).Some?
    ensures Traced(me, t, actions + [a], Pending(t.pc).value)
  {
    OvertakenSnoc(actions, a);
    StartedSnoc(actions, a, Pending(t.pc).value);
    if Unclaimed(s.pc) {
      FreshClaim(me, s, actions, s.db.epoch + 1);
    }
  }

  lemma {:induction false} HistoryStep(me: nat, s: State, base: nat, actions: seq<Action>, a: Action, t: State)
    requires Inv(me, s, base) && History(me, s, actions) && Step(me, s, a) == Some(t)
    ensures History(me, t, actions + [a])
  {
    MarksStep(me, s, base, actions, a, t);
    BehindStep(me, s, actions, a, t);
    if Pending(t.pc).Some? {
      TracedStep(me, s, base, actions, a, t);
    }
  }

  lemma {:induction false} RunHistory(me: nat, db: Database, actions: seq<Action>)
    requires Bounded(db) && Run(me, Start(db), actions).Some?
    ensures History(me, Run(me, Start(db), actions).value, actions)
  {
    if actions != [] {
      var before, a := actions[..|actions| - 1], actions[|actions| - 1];
      assert actions == before + [a];
      RunHistory(me, db, before);
      RunKeeps(me, db, before);
      HistoryStep(me, Run(me, Start(db), before).value, db.epoch, before, a, Run(me, Start(db), actions).value);
    }
  }

  /**
   In every run the root write can be invoked exactly as long as no other worker claimed the root after us and
   nobody recorded a start under our claim.
   */
  lemma {:induction false} InvokesExactly(me: nat, db: Database, actions: seq<Action>, root: nat)
    requires Bounded(db) && Run(me, Start(db), actions).Some?
    requires Run(me, Start(db), actions).value.pc == Invoking(root, false)
    ensures Run(me, Start(db), actions + [InvokeCommits]).Some? <==>
              !Overtaken(actions) && !MarkedStarted(actions, root)
  {
    RunHistory(me, db, actions);
    RunSnoc(me, Start(db), actions, InvokeCommits);
  }

  predicate Writes(a: Action) {
    a.InvokeCommits? || a.RootReplies? || a.RootFails?
  }

  /** In every run there is at most one invocation and then one answer to the root write. */
  lemma {:induction false} WrittenOnce(me: nat, db: Database, actions: seq<Action>, i: nat, j: nat)
    requires Bounded(db) && Run(me, Start(db), actions).Some?
    requires i < j < |actions| && Writes(actions[i]) && Writes(actions[j])
    ensures actions[i].InvokeCommits? && !actions[j].InvokeCommits?
  {
    var before, a := actions[..|actions| - 1], actions[|actions| - 1];
    if j < |before| {
      WrittenOnce(me, db, before, i, j);
    } else {
      RunHistory(me, db, before);
      RunKeeps(me, db, before);
      RepliedIfReply(me, db, before);
      assert before[i] == actions[i];
    }
  }

  ghost predicate Replied(actions: seq<Action>) {
    exists i :: 0 <= i < |actions| && actions[i].RootReplies?
  }

  lemma {:induction false} RepliedSnoc(actions: seq<Action>, a: Action)
    ensures Replied(actions + [a]) <==> Replied(actions) || a.RootReplies?
  {
    var all := actions + [a];
    assert all[|actions|] == a && forall i :: 0 <= i < |actions| ==> all[i] == actions[i];
  }

  lemma {:induction false} RepliedIfReply(me: nat, db: Database, actions: seq<Action>)
    requires Bounded(db) && Run(me, Start(db), actions).Some?
    ensures Replied(actions) <==> Run(me, Start(db), actions).value.replied.Some?
  {
    if actions != [] {
      var before, a := actions[..|actions| - 1], actions[|actions| - 1];
      assert actions == before + [a];
      RepliedIfReply(me, db, before);
      RepliedSnoc(before, a);
    }
  }

  // ----- What can happen

  /** The build of our claim is there and not marked as failed. */
  ghost predicate Open(s: State) {
    s.claim.Some? && s.claim.value in s.db.builds && !s.db.builds[s.claim.value].status.Failed?
  }

  /** In every run, a retention that is under way can commit exactly unless its build is marked as failed. */
  lemma {:induction false} RetainsExactly(me: nat, db: Database, actions: seq<Action>)
    requires Bounded(db) && Run(me, Start(db), actions).Some?
    ensures var pc := Run(me, Start(db), actions).value.pc;
            && (pc.RetainingKnown? && !pc.committed ==>
                  (Run(me, Start(db), actions + [KnownCommits]).Some? <==> Open(Run(me, Start(db), actions).value)))
            && (pc.Retaining? && !pc.committed ==>
                  (Run(me, Start(db), actions + [RetentionCommits]).Some? <==> Open(Run(me, Start(db), actions).value)))
  {
    RunKeeps(me, db, actions);
    RunSnoc(me, Start(db), actions, KnownCommits);
    RunSnoc(me, Start(db), actions, RetentionCommits);
  }

  /**
   The work can be dropped at any moment before the last retention: what the slot holds is then offered, and
   an empty slot is a return. The supervisor can be aborted at any moment.
   */
  lemma {:induction false} DroppedAnywhere(me: nat, db: Database, actions: seq<Action>)
    requires Bounded(db) && Run(me, Start(db), actions).Some? && !Run(me, Start(db), actions).value.pc.Returned?
    ensures var s := Run(me, Start(db), actions).value;
            var dropped := Run(me, Start(db), actions + [WorkDropped]);
            && Run(me, Start(db), actions + [Aborted]).Some?
            && (dropped.Some? <==> !(s.pc.Retaining? && s.pc.last))
            && (dropped.Some? && s.slot.None? ==> dropped.value.pc.Returned? && dropped.value.aborted == s.aborted)
            && (dropped.Some? && s.slot.Some? ==>
                  dropped.value.pc == Retaining(true, false) && dropped.value.tried == dropped.value.slot == s.slot)
  {
    RunKeeps(me, db, actions);
    RunSnoc(me, Start(db), actions, WorkDropped);
    RunSnoc(me, Start(db), actions, Aborted);
  }

  /** The database once our claim of the next epoch was invoked. */
  function AfterInvoke(me: nat, db: Database): Database {
    db.(builds := db.builds[db.epoch + 1 := Build(me, Invoked)], epoch := db.epoch + 1)
  }

  /** Nothing gave up, and nothing was retained by us. */
  ghost predicate Plain(actions: seq<Action>) {
    forall i :: 0 <= i < |actions| ==> !GivesUp(actions[i]) && !Commits(actions[i])
  }

  lemma {:induction false} PlainSnoc(actions: seq<Action>, a: Action)
    requires Plain(actions) && !GivesUp(a) && !Commits(a)
    ensures Plain(actions + [a]) && a in actions + [a] && forall x :: x in actions ==> x in actions + [a]
  {
    assert (actions + [a])[|actions|] == a;
  }

  lemma {:induction false} ClaimingRun(me: nat, db: Database) returns (actions: seq<Action>)
    requires Bounded(db)
    ensures Run(me, Start(db), actions) ==
              Some(Start(db).(db := WithClaim(db, me), pc := ClaimingRoot(Some(db.epoch + 1))))
    ensures ClaimCommits in actions && Plain(actions)
  {
    actions := [];
    RunSnoc(me, Start(db), actions, BeginRoot);
    PlainSnoc(actions, BeginRoot);
    actions := actions + [BeginRoot];
    RunSnoc(me, Start(db), actions, ClaimCommits);
    PlainSnoc(actions, ClaimCommits);
    actions := actions + [ClaimCommits];
  }

  lemma {:induction false} ClaimedRun(me: nat, db: Database) returns (actions: seq<Action>)
    requires Bounded(db)
    ensures var e := db.epoch + 1;
            Run(me, Start(db), actions) ==
              Some(Start(db).(db := WithClaim(db, me), claim := Some(e), pc := Invoking(e, false)))
    ensures ClaimCommits in actions && Plain(actions)
  {
    actions := ClaimingRun(me, db);
    RunSnoc(me, Start(db), actions, ClaimReplies);
    PlainSnoc(actions, ClaimReplies);
    actions := actions + [ClaimReplies];
    RunSnoc(me, Start(db), actions, Record);
    PlainSnoc(actions, Record);
    actions := actions + [Record];
  }

  lemma {:induction false} InvokedRun(me: nat, db: Database) returns (actions: seq<Action>)
    requires Bounded(db)
    ensures Run(me, Start(db), actions) ==
              Some(State(AfterInvoke(me, db), None, Some(db.epoch + 1), Writing(db.epoch + 1), None, None, false))
    ensures Plain(actions)
  {
    actions := ClaimedRun(me, db);
    var e := db.epoch + 1;
    assert db.builds[e := Build(me, Intent)][e := Build(me, Invoked)] == db.builds[e := Build(me, Invoked)];
    RunSnoc(me, Start(db), actions, InvokeCommits);
    RunSnoc(me, Start(db), actions + [InvokeCommits], InvokeReplies);
    actions := actions + [InvokeCommits] + [InvokeReplies];
  }

  /** Another worker can claim the root in time to keep ours from being written. */
  lemma {:induction false} OvertakenRun(me: nat, db: Database, other: nat) returns (actions: seq<Action>)
    requires Bounded(db)
    ensures Run(me, Start(db), actions).Some? && OthersClaim(other) in actions
    ensures Run(me, Start(db), actions).value.pc == Invoking(db.epoch + 1, false)
    ensures Run(me, Start(db), actions + [InvokeCommits]).None?
  {
    actions := ClaimedRun(me, db);
    RunSnoc(me, Start(db), actions, OthersClaim(other));
    OvertakenSnoc(actions, OthersClaim(other));
    actions := actions + [OthersClaim(other)];
    InvokesExactly(me, db, actions, db.epoch + 1);
  }

  /** A root write that fails leaves nothing to retain, and the worker returns by itself. */
  lemma {:induction false} RefusedRun(me: nat, db: Database) returns (actions: seq<Action>)
    requires Bounded(db)
    ensures Run(me, Start(db), actions) ==
              Some(State(AfterInvoke(me, db), None, Some(db.epoch + 1), Returned, None, None, false))
    ensures Plain(actions)
  {
    actions := InvokedRun(me, db);
    RunSnoc(me, Start(db), actions, RootFails);
    RunSnoc(me, Start(db), actions + [RootFails], CoreEnds);
    actions := actions + [RootFails] + [CoreEnds];
    RunSnoc(me, Start(db), actions, WorkEnds);
    actions := actions + [WorkEnds];
  }

  lemma {:induction false} RepliedRun(me: nat, db: Database, cid: Cid) returns (actions: seq<Action>)
    requires Bounded(db)
    ensures var e := db.epoch + 1;
            Run(me, Start(db), actions) ==
              Some(State(AfterInvoke(me, db), Some(cid), Some(e), Checking(e), Some(cid), None, false))
    ensures Plain(actions)
  {
    actions := InvokedRun(me, db);
    RunSnoc(me, Start(db), actions, RootReplies(cid));
    actions := actions + [RootReplies(cid)];
  }

  /**
   The root can be lost to the database: dropped after a complete reply, with a retention that gives up, the
   supervisor returns and nothing is retained.
   */
  lemma {:induction false} LostAfterReturn(me: nat, db: Database, cid: Cid) returns (actions: seq<Action>)
    requires Bounded(db)
    ensures Run(me, Start(db), actions).Some?
    ensures var s := Run(me, Start(db), actions).value;
            && s.pc.Returned? && s.replied == Some(cid) && !s.aborted && s.db.retained == db.retained
            && s.claim.Some? && (s.claim.value, cid) !in s.db.retained
  {
    actions := RepliedRun(me, db, cid);
    RunSnoc(me, Start(db), actions, WorkDropped);
    actions := actions + [WorkDropped];
    RunSnoc(me, Start(db), actions, RetentionGivesUp);
    actions := actions + [RetentionGivesUp];
  }

  lemma {:induction false} KnownRun(me: nat, db: Database, cid: Cid) returns (actions: seq<Action>)
    requires Bounded(db)
    ensures var e, stored := db.epoch + 1, AfterInvoke(me, db).(retained := db.retained + {(db.epoch + 1, cid)});
            Run(me, Start(db), actions) ==
              Some(State(stored, Some(cid), Some(e), RetainingKnown(e, cid, true), Some(cid), Some(cid), false))
    ensures forall i :: 0 <= i < |actions| ==> !GivesUp(actions[i])
  {
    actions := RepliedRun(me, db, cid);
    RunSnoc(me, Start(db), actions, BuildEnds);
    RunSnoc(me, Start(db), actions + [BuildEnds], KnownCommits);
    actions := actions + [BuildEnds] + [KnownCommits];
  }

  /** A run without any mishap: the build retains its root and the worker returns by itself. */
  lemma {:induction false} StoredRun(me: nat, db: Database, cid: Cid) returns (actions: seq<Action>)
    requires Bounded(db)
    ensures Run(me, Start(db), actions).Some? && forall i :: 0 <= i < |actions| ==> !GivesUp(actions[i])
    ensures var s := Run(me, Start(db), actions).value;
            && s.pc.Returned? && !s.aborted && s.replied == Some(cid)
            && s.db.retained == db.retained + {(db.epoch + 1, cid)}
  {
    actions := KnownRun(me, db, cid);
    RunSnoc(me, Start(db), actions, KnownReplies);
    RunSnoc(me, Start(db), actions + [KnownReplies], CoreEnds);
    actions := actions + [KnownReplies] + [CoreEnds];
    RunSnoc(me, Start(db), actions, WorkEnds);
    actions := actions + [WorkEnds];
  }

  /** The first retention can store a root that the build did not, and the worker then returns. */
  lemma {:induction false} RescuedRun(me: nat, db: Database, cid: Cid) returns (actions: seq<Action>)
    requires Bounded(db)
    ensures Run(me, Start(db), actions).Some?
    ensures forall i :: 0 <= i < |actions| ==> !GivesUp(actions[i]) && !actions[i].KnownCommits?
    ensures var s := Run(me, Start(db), actions).value;
            && s.pc.Returned? && !s.aborted && s.replied == Some(cid)
            && s.db.retained == db.retained + {(db.epoch + 1, cid)}
  {
    actions := RepliedRun(me, db, cid);
    RunSnoc(me, Start(db), actions, CoreEnds);
    RunSnoc(me, Start(db), actions + [CoreEnds], RetentionCommits);
    actions := actions + [CoreEnds] + [RetentionCommits];
    var e, stored := db.epoch + 1, AfterInvoke(me, db).(retained := db.retained + {(db.epoch + 1, cid)});
    assert Run(me, Start(db), actions) ==
           Some(State(stored, Some(cid), Some(e), Retaining(false, true), Some(cid), Some(cid), false));
    RunSnoc(me, Start(db), actions, RetentionReplies);
    RunSnoc(me, Start(db), actions + [RetentionReplies], WorkEnds);
    actions := actions + [RetentionReplies] + [WorkEnds];
  }

  /** Someone can mark the build as failed while its CID waits to be retained, which then is refused. */
  lemma {:induction false} FailedRun(me: nat, db: Database, cid: Cid) returns (actions: seq<Action>)
    requires Bounded(db)
    ensures Run(me, Start(db), actions).Some?
    ensures var s := Run(me, Start(db), actions).value; s.pc == Retaining(false, false) && s.replied == Some(cid)
    ensures Run(me, Start(db), actions + [RetentionCommits]).None?
  {
    actions := RepliedRun(me, db, cid);
    RunSnoc(me, Start(db), actions, CoreEnds);
    RunSnoc(me, Start(db), actions + [CoreEnds], OthersMark(db.epoch + 1, Failed));
    actions := actions + [CoreEnds] + [OthersMark(db.epoch + 1, Failed)];
    RetainsExactly(me, db, actions);
  }
}
