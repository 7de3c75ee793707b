/**
 The wrapping keyset scan that finds claimable batches. Only the order of batch ids matters, so an
 id is given by its rank in the database's order; 0 stands for the empty cursor, below every id.
 */
module ClaimScan {
  import opened Prelude

  const PAGE: nat := 32
  const MAX_PAGES_PER_POLL: nat := 4

  datatype Answer = Claimed | NotClaimed | ClaimFailed

  /**
   The database during one call: the page listed after a cursor (or its failure), by number of the
   listing, and the answer to each claim tried. What is pending may change between listings.
   */
  datatype Database = Database(listing: (nat, int) -> Option<seq<int>>, claim: nat -> Answer)

  /** What a call did: the number claimed or a failure, the cursor after it, and the ids tried. */
  datatype Scan = Scan(claimed: Option<nat>, after: int, tried: seq<int>)

  // ----- The scan

  datatype Ending = Exhausted | Full | Broken

  /** How many of `ids` are tried, the claims then held, and why it stopped. */
  datatype Trial = Trial(count: nat, claimed: nat, ending: Ending)

  function TryIds(db: Database, capacity: nat, ids: seq<int>, tried: nat, claimed: nat): (r: Trial)
    ensures r.count <= |ids| && (r.ending == Exhausted ==> r.count == |ids|) && (ids != [] ==> r.count > 0)
  {
    if ids == [] then Trial(0, claimed, Exhausted)
    else
      match db.claim(tried)
      case ClaimFailed => Trial(1, claimed, Broken)
      case Claimed =>
        if claimed + 1 >= capacity then Trial(1, claimed + 1, Full)
        else var rest := TryIds(db, capacity, ids[1..], tried + 1, claimed + 1); rest.(count := rest.count + 1)
      case NotClaimed =>
        var rest := TryIds(db, capacity, ids[1..], tried + 1, claimed); rest.(count := rest.count + 1)
  }

  /** The pages from the k-th on, when `tried` were tried before and the cursor is at `after`. */
  function ScanPages(db: Database, capacity: nat, k: nat, after: int, tried: seq<int>, claimed: nat): Scan
    requires k <= MAX_PAGES_PER_POLL
    decreases MAX_PAGES_PER_POLL - k, |tried|
  {
    if k == MAX_PAGES_PER_POLL then Scan(Some(claimed), after, tried)
    else
      var page := db.listing(k, after);
      if page.None? then Scan(None, after, tried)
      else if page.value == [] then Scan(Some(claimed), 0, tried)
      else
        var trial := TryIds(db, capacity, page.value, |tried|, claimed);
        var now, cursor := tried + page.value[..trial.count], page.value[trial.count - 1];
        match trial.ending
        case Broken => Scan(None, cursor, now)
        case Full => Scan(Some(trial.claimed), cursor, now)
        case Exhausted =>
          if |page.value| < PAGE then Scan(Some(trial.claimed), 0, now)
          else ScanPages(db, capacity, k + 1, cursor, now, trial.claimed)
  }

  /** The ids of one page, in turn. */
  method TryPage(
      db: Database, capacity: nat, ids: seq<int>, tried: nat, held: nat)
    returns (count: nat, claimed: nat, ending: Ending)
    ensures Trial(count, claimed, ending) == TryIds(db, capacity, ids, tried, held)
  {
    claimed := held;
    for i := 0 to |ids|
      invariant var trial := TryIds(db, capacity, ids, tried, held);
                var rest := TryIds(db, capacity, ids[i..], tried + i, claimed);
                trial == rest.(count := rest.count + i)
    {
      assert ids[i..][1..] == ids[i + 1..];
      match db.claim(tried + i) {
        case ClaimFailed => return i + 1, claimed, Broken;
        case Claimed =>
          claimed := claimed + 1;
          if claimed >= capacity {
            return i + 1, claimed, Full;
          }
        case NotClaimed =>
      }
    }
    return |ids|, claimed, Exhausted;
  }

  /** `claim_due` */
  method ClaimDue(db: Database, capacity: nat, start: int) returns (r: Scan)
    ensures r == ScanPages(db, capacity, 0, start, [], 0)
  {
    var tried: seq<int>, after, claimed := [], start, 0;
    for k := 0 to MAX_PAGES_PER_POLL
      invariant ScanPages(db, capacity, k, after, tried, claimed) == ScanPages(db, capacity, 0, start, [], 0)
    {
      var page := db.listing(k, after);
      if page.None? {
        return Scan(None, after, tried);
      }
      var ids := page.value;
      if ids == [] {
        return Scan(Some(claimed), 0, tried);
      }
      var count, held, ending := TryPage(db, capacity, ids, |tried|, claimed);
      tried, after, claimed := tried + ids[..count], ids[count - 1], held;
      if ending == Broken {
        return Scan(None, after, tried);
      }
      if ending == Full {
        return Scan(Some(claimed), after, tried);
      }
      if |ids| < PAGE {
        return Scan(Some(claimed), 0, tried);
      }
    }
    return Scan(Some(claimed), after, tried);
  }

  // ----- Order and bounds

  ghost predicate Increasing(s: seq<int>) {
    forall i, j :: 0 <= i < j < |s| ==> s[i] < s[j]
  }

  /** The first `PAGE` of the pending ids after the cursor, in order. */
  ghost predicate IsPage(pending: set<int>, after: int, page: seq<int>) {
    && |page| <= PAGE && Increasing(page)
    && (forall i :: 0 <= i < |page| ==> page[i] in pending && page[i] > after)
    && (forall y :: y in pending && y > after ==> y in page || (|page| == PAGE && y > page[PAGE - 1]))
  }

  /** `listing(k, after)`, if it succeeds, is the page of some set of pending ids. */
  ghost predicate HonestAt(db: Database, k: nat, after: int) {
    db.listing(k, after).Some? ==> exists pending: set<int> :: IsPage(pending, after, db.listing(k, after).value)
  }

  ghost predicate Honest(db: Database) {
    forall k: nat, after: int :: HonestAt(db, k, after)
  }

  /** Ids after `start`, in order. */
  ghost predicate Ascends(start: int, tried: seq<int>) {
    Increasing(tried) && forall i :: 0 <= i < |tried| ==> start < tried[i]
  }

  function Last(start: int, tried: seq<int>): int {
    if tried == [] then start else tried[|tried| - 1]
  }

  lemma {:induction false} AscendsOn(start: int, tried: seq<int>, pending: set<int>, ids: seq<int>, n: nat)
    requires Ascends(start, tried) && IsPage(pending, Last(start, tried), ids) && 0 < n <= |ids|
    ensures Ascends(start, tried + ids[..n]) && Last(start, tried + ids[..n]) == ids[n - 1]
  {
    var now := tried + ids[..n];
    forall i | 0 <= i < |now| ensures start < now[i] {
      if i >= |tried| { assert now[i] == ids[i - |tried|]; }
    }
    forall i, j | 0 <= i < j < |now| ensures now[i] < now[j] {
      if j >= |tried| {
        assert now[j] == ids[j - |tried|];
        if i < |tried| {
          assert i < |tried| - 1 ==> tried[i] < tried[|tried| - 1];
        }
      }
    }
  }

  /** In order, at most 128, and the cursor on the last one tried unless it was cleared. */
  ghost predicate Ordered(start: int, r: Scan) {
    Ascends(start, r.tried) && |r.tried| <= 128 && (r.after == 0 || r.after == Last(start, r.tried))
  }

  lemma {:induction false} ScanOrdered(db: Database, capacity: nat, k: nat, start: int, tried: seq<int>, claimed: nat)
    requires k <= MAX_PAGES_PER_POLL && Honest(db) && Ascends(start, tried) && |tried| <= 32 * k
    ensures Ordered(start, ScanPages(db, capacity, k, Last(start, tried), tried, claimed))
    decreases MAX_PAGES_PER_POLL - k
  {
    var after := Last(start, tried);
    if k < MAX_PAGES_PER_POLL && db.listing(k, after).Some? && db.listing(k, after).value != [] {
      var ids := db.listing(k, after).value;
      assert HonestAt(db, k, after);
      var pending: set<int> :| IsPage(pending, after, ids);
      var trial := TryIds(db, capacity, ids, |tried|, claimed);
      AscendsOn(start, tried, pending, ids, trial.count);
      if trial.ending == Exhausted && |ids| == PAGE {
        ScanOrdered(db, capacity, k + 1, start, tried + ids[..trial.count], trial.claimed);
      }
    }
  }

  /** One call tries ids in strictly increasing order from its cursor on, at most 128, whatever the answers. */
  lemma {:induction false} CallOrdered(db: Database, capacity: nat, start: int)
    requires Honest(db)
    ensures Ordered(start, ScanPages(db, capacity, 0, start, [], 0))
  {
    ScanOrdered(db, capacity, 0, start, [], 0);
  }

  // ----- What the database granted

  /** How many of the first `n` claims tried the database granted. */
  function Granted(db: Database, n: nat): (g: nat)
    ensures g <= n
  {
    if n == 0 then 0 else Granted(db, n - 1) + if db.claim(n - 1) == Claimed then 1 else 0
  }

  /** No claim failed among the answers `from .. to`. */
  ghost predicate NoneFailed(db: Database, from: nat, to: nat) {
    forall k: nat :: from <= k < to ==> db.claim(k) != ClaimFailed
  }

  /** The count is what was granted; a page stops exactly at a failure or when the capacity is reached. */
  ghost predicate PageOk(db: Database, capacity: nat, tried: nat, r: Trial) {
    var n := tried + r.count;
    && r.claimed == Granted(db, n) <= capacity
    && (r.ending == Full <==> Granted(db, n) == capacity)
    && (r.ending == Full ==> n > tried && db.claim(n - 1) == Claimed)
    && (r.ending == Broken ==> n > tried && db.claim(n - 1) == ClaimFailed && NoneFailed(db, tried, n - 1))
    && (r.ending != Broken ==> NoneFailed(db, tried, n))
  }

  lemma {:induction false} PageOkCons(db: Database, capacity: nat, tried: nat, rest: Trial)
    requires db.claim(tried) != ClaimFailed && PageOk(db, capacity, tried + 1, rest)
    ensures PageOk(db, capacity, tried, rest.(count := rest.count + 1))
  {
    assert tried + (rest.count + 1) == tried + 1 + rest.count;
  }

  lemma {:induction false} PageCounts(db: Database, capacity: nat, ids: seq<int>, tried: nat, claimed: nat)
    requires claimed == Granted(db, tried) < capacity
    ensures PageOk(db, capacity, tried, TryIds(db, capacity, ids, tried, claimed))
    decreases |ids|
  {
    if ids != [] {
      var next := if db.claim(tried) == Claimed then claimed + 1 else claimed;
      assert Granted(db, tried + 1) == next;
      if db.claim(tried) != ClaimFailed && next < capacity {
        PageCounts(db, capacity, ids[1..], tried + 1, next);
        PageOkCons(db, capacity, tried, TryIds(db, capacity, ids[1..], tried + 1, next));
      }
    }
  }

  /** The last claim tried failed, and none before it. */
  ghost predicate ClaimBroke(db: Database, n: nat) {
    n > 0 && db.claim(n - 1) == ClaimFailed && NoneFailed(db, 0, n - 1)
  }

  /** A listing from the cursor failed. */
  ghost predicate ListingBroke(db: Database, n: nat, cursor: int) {
    NoneFailed(db, 0, n) && exists k: nat :: k < MAX_PAGES_PER_POLL && db.listing(k, cursor).None?
  }

  /**
   A call reports what it was granted, at most its capacity. When the capacity is reached, it was by the last id
   tried, and the cursor stays there. A failure is reported exactly for a claim that failed, which is then the
   last one, or for a listing. Otherwise the call saw the end of the list or four full pages.
   */
  ghost predicate Accounted(db: Database, capacity: nat, start: int, r: Scan) {
    var n, last := |r.tried|, Last(start, r.tried);
    && Granted(db, n) <= capacity
    && (r.claimed.Some? ==> r.claimed.value == Granted(db, n) && NoneFailed(db, 0, n))
    && (Granted(db, n) == capacity ==> r.claimed.Some? && n > 0 && db.claim(n - 1) == Claimed && r.after == last)
    && (r.claimed.None? ==> r.after == last && (ClaimBroke(db, n) || ListingBroke(db, n, last)))
    && (r.claimed.Some? && Granted(db, n) < capacity ==> r.after == 0 || (n >= 128 && r.after == last))
  }

  /** A call that ends with this page. */
  lemma {:induction false} EndsAccounted(
      db: Database, capacity: nat, start: int, tried: seq<int>, ids: seq<int>, trial: Trial, r: Scan)
    requires NoneFailed(db, 0, |tried|) && 0 < trial.count <= |ids| && PageOk(db, capacity, |tried|, trial)
    requires r.tried == tried + ids[..trial.count]
    requires match trial.ending
             case Broken => r.claimed == None && r.after == ids[trial.count - 1]
             case Full => r.claimed == Some(trial.claimed) && r.after == ids[trial.count - 1]
             case Exhausted => r.claimed == Some(trial.claimed) && r.after == 0
    ensures Accounted(db, capacity, start, r)
  {
    assert Last(start, r.tried) == ids[trial.count - 1];
  }

  lemma {:induction false} ScanAccounts(
      db: Database, capacity: nat, k: nat, start: int, tried: seq<int>, claimed: nat)
    requires k <= MAX_PAGES_PER_POLL && claimed == Granted(db, |tried|) < capacity
    requires NoneFailed(db, 0, |tried|) && |tried| >= 32 * k
    ensures Accounted(db, capacity, start, ScanPages(db, capacity, k, Last(start, tried), tried, claimed))
    decreases MAX_PAGES_PER_POLL - k
  {
    var after := Last(start, tried);
    if k < MAX_PAGES_PER_POLL && db.listing(k, after).Some? && db.listing(k, after).value != [] {
      var ids := db.listing(k, after).value;
      var trial := TryIds(db, capacity, ids, |tried|, claimed);
      var now := tried + ids[..trial.count];
      PageCounts(db, capacity, ids, |tried|, claimed);
      if trial.ending == Exhausted && |ids| >= PAGE {
        assert Last(start, now) == ids[trial.count - 1];
        ScanAccounts(db, capacity, k + 1, start, now, trial.claimed);
      } else {
        EndsAccounted(db, capacity, start, tried, ids, trial, ScanPages(db, capacity, k, after, tried, claimed));
      }
    }
  }

  /** Every call with a positive capacity is so accounted for. */
  lemma {:induction false} CapacityKept(db: Database, capacity: nat, start: int)
    requires capacity > 0
    ensures Accounted(db, capacity, start, ScanPages(db, capacity, 0, start, [], 0))
  {
    ScanAccounts(db, capacity, 0, start, [], 0);
  }

  // ----- No id is missed

  /** The listing succeeds, shows ids of `all` only, and shows `x` if it lies after the cursor. */
  ghost predicate ShowsAt(db: Database, all: set<int>, x: int, k: nat, after: int) {
    && db.listing(k, after).Some?
    && exists pending: set<int> :: pending <= all && x in pending && IsPage(pending, after, db.listing(k, after).value)
  }

  /** `x` stays pending among at most the ids in `all`, throughout the call. */
  ghost predicate Shows(db: Database, all: set<int>, x: int) {
    forall k: nat, after: int :: ShowsAt(db, all, x, k, after)
  }

  /** `x` was tried, or the cursor moved towards it: on below it, or on above it until it wraps. */
  ghost predicate Advances(all: set<int>, x: int, after: int, r: Scan) {
    || x in r.tried
    || (after < x && after < r.after < x && r.after in all)
    || (after >= x && (r.after == 0 || (after < r.after && r.after in all)))
  }

  /** One page: `x` is among the ids tried, or the cursor comes to rest before it. */
  lemma {:induction false} PageAdvances(pending: set<int>, x: int, after: int, ids: seq<int>, n: nat)
    requires IsPage(pending, after, ids) && x in pending && 0 < n <= |ids|
    ensures after < ids[n - 1]
    ensures x > after ==> x in ids[..n] || ids[n - 1] < x
    ensures x > after && n == |ids| < PAGE ==> x in ids[..n]
  {
    if x > after && x in ids {
      var p :| 0 <= p < |ids| && ids[p] == x;
      if p < n { assert ids[..n][p] == x; } else { assert ids[n - 1] < ids[p]; }
    } else if x > after {
      assert n < PAGE ==> ids[n - 1] < ids[PAGE - 1];
    }
  }

  lemma {:induction false} TriedStays(db: Database, capacity: nat, k: nat, after: int, tried: seq<int>, claimed: nat)
    requires k <= MAX_PAGES_PER_POLL
    ensures tried <= ScanPages(db, capacity, k, after, tried, claimed).tried
    decreases MAX_PAGES_PER_POLL - k
  {
    if k < MAX_PAGES_PER_POLL && db.listing(k, after).Some? && db.listing(k, after).value != [] {
      var ids := db.listing(k, after).value;
      var trial := TryIds(db, capacity, ids, |tried|, claimed);
      if trial.ending == Exhausted && |ids| >= PAGE {
        TriedStays(db, capacity, k + 1, ids[trial.count - 1], tried + ids[..trial.count], trial.claimed);
      }
    }
  }

  lemma {:induction false} ScanAdvances(
      db: Database, all: set<int>, x: int, capacity: nat, k: nat, after: int, tried: seq<int>, claimed: nat)
    requires k < MAX_PAGES_PER_POLL && Shows(db, all, x) && x > 0
    ensures Advances(all, x, after, ScanPages(db, capacity, k, after, tried, claimed))
    decreases MAX_PAGES_PER_POLL - k
  {
    assert ShowsAt(db, all, x, k, after);
    var ids := db.listing(k, after).value;
    var pending: set<int> :| pending <= all && x in pending && IsPage(pending, after, ids);
    if ids != [] {
      var trial := TryIds(db, capacity, ids, |tried|, claimed);
      var n := trial.count;
      var now := tried + ids[..n];
      PageAdvances(pending, x, after, ids, n);
      assert x in ids[..n] ==> x in now;
      if trial.ending == Exhausted && |ids| >= PAGE {
        TriedStays(db, capacity, k + 1, ids[n - 1], now, trial.claimed);
        if k + 1 < MAX_PAGES_PER_POLL {
          ScanAdvances(db, all, x, capacity, k + 1, ids[n - 1], now, trial.claimed);
        }
      }
    }
  }

  function Between(all: set<int>, low: int, high: int): set<int> {
    set y | y in all && low < y < high
  }

  function Above(all: set<int>, low: int): set<int> {
    set y | y in all && low < y
  }

  /** How many calls can pass before `x` is tried, with the cursor at `after`. */
  function Distance(all: set<int>, x: int, after: int): nat {
    if after < x then |Between(all, after, x)| else |Above(all, after)| + 1 + |Between(all, 0, x)|
  }

  lemma {:induction false} Fewer(small: set<int>, big: set<int>, y: int)
    requires small <= big && y in big && y !in small
    ensures |small| < |big|
  {
    assert big == small + (big - small);
    assert y in big - small;
  }

  lemma {:induction false} AdvanceCloser(all: set<int>, x: int, after: int, r: Scan)
    requires Advances(all, x, after, r) && x !in r.tried && x > 0
    ensures Distance(all, x, r.after) < Distance(all, x, after)
  {
    if after < x {
      Fewer(Between(all, r.after, x), Between(all, after, x), r.after);
    } else if r.after != 0 {
      Fewer(Above(all, r.after), Above(all, after), r.after);
    }
  }

  lemma {:induction false} DistanceBound(all: set<int>, x: int, after: int)
    requires x in all && x > 0
    ensures Distance(all, x, after) <= |all|
  {
    if after < x {
      Fewer(Between(all, after, x), all, x);
    } else {
      var above, below := Above(all, after), Between(all, 0, x);
      assert above !! below;
      assert |above + below| == |above| + |below|;
      Fewer(above + below, all, x);
    }
  }

  /**
   However the claims go and whatever else comes and goes among n ids, an id that stays pending is
   tried within n + 1 calls, from any cursor.
   */
  method ScanRepeatedly(dbs: seq<Database>, all: set<int>, x: int, capacity: nat, start: int) returns (calls: seq<Scan>)
    requires x in all && x > 0 && |dbs| == |all| + 1
    requires forall i :: 0 <= i < |dbs| ==> Shows(dbs[i], all, x)
    ensures |calls| == |dbs|
    ensures exists i :: 0 <= i < |calls| && x in calls[i].tried
  {
    var after := start;
    calls := [];
    ghost var found := false;
    DistanceBound(all, x, start);
    for i := 0 to |dbs|
      invariant |calls| == i
      invariant found ==> exists j :: 0 <= j < i && x in calls[j].tried
      invariant !found ==> Distance(all, x, after) + i <= |all|
    {
      var call := ClaimDue(dbs[i], capacity, after);
      ScanAdvances(dbs[i], all, x, capacity, 0, after, [], 0);
      ghost var before := calls;
      calls := calls + [call];
      if x in call.tried {
        found := true;
        assert calls[i] == call;
      } else if found {
        ghost var j :| 0 <= j < i && x in before[j].tried;
        assert calls[j] == before[j];
      } else {
        AdvanceCloser(all, x, after, call);
      }
      after := call.after;
    }
  }
}
