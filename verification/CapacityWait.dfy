/**
 The bounded wait of a claim for capacity.  Times are nanoseconds; the stamp on
 the claim holds whole seconds.
 */
module CapacityWait {
  import opened Clock
  import opened Wrappers

  const DEFAULT_MAX_PENDING := 300 * SECOND

  datatype Phase = Pending | Failed

  // The annotation: absent, a time in whole seconds, or text that is no time.
  datatype Stamp = Absent | Since(seconds: int) | Unreadable

  // How one reconcile that leaves the claim waiting went: no node admits the
  // fork; no node is there to ask; a node was chosen and turned the fork down
  // for want of capacity; or it was chosen and does not hold the snapshot yet.
  datatype Event = NoCapacity(at: int) | NoNode(at: int) | Rejected(at: int) | NotBuilt(at: int)

  function Bound(configured: int): (bound: int)
    ensures bound > 0 && (configured > 0 ==> bound == configured)
    ensures configured <= 0 ==> bound == 300_000_000_000
  {
    if configured > 0 then configured else DEFAULT_MAX_PENDING
  }

  class PendingClaim {
    var phase: Phase
    var stamp: Stamp
    var finishedAt: Option<int>
    ghost var stamped: nat  // how often the stamp was written

    constructor ()
      ensures phase == Pending && stamp == Absent && finishedAt == None && stamped == 0
    {
      phase, stamp, finishedAt, stamped := Pending, Absent, None, 0;
    }

    method ReconcileNoCapacity(now: int, configured: int)
      modifies this
      ensures stamp == (if old(stamp).Absent? then Since(now / SECOND) else old(stamp))
      ensures stamped == old(stamped) + (if old(stamp).Absent? then 1 else 0)
      ensures phase ==
        if old(stamp).Since? && now - old(stamp).seconds * SECOND >= Bound(configured) then Failed else Pending
      ensures finishedAt == (if phase == Failed then Some(now) else old(finishedAt))
    {
      var pendingSince := now;
      if stamp != Absent {
        if stamp.Since? { pendingSince := stamp.seconds * SECOND; }
      } else {
        stamp, stamped := Since(now / SECOND), stamped + 1;
      }
      var waited := now - pendingSince;
      if waited >= Bound(configured) {
        phase, finishedAt := Failed, Some(now);
        return;
      }
      phase := Pending;
    }

    // One reconcile of a claim that is not terminal yet.  When no node is there
    // the stamp is dropped in memory only, and the status write that follows
    // does not store it; a chosen node clears it for good.
    method Reconcile(e: Event, configured: int)
      requires phase == Pending
      modifies this
      ensures e.NoNode? ==> phase == Pending && stamp == old(stamp) && stamped == old(stamped)
      ensures e.NoCapacity? ==>
        && stamp == (if old(stamp).Absent? then Since(e.at / SECOND) else old(stamp))
        && stamped == old(stamped) + (if old(stamp).Absent? then 1 else 0)
        && (phase == Failed <==> old(stamp).Since? && e.at - old(stamp).seconds * SECOND >= Bound(configured))
      ensures e.Rejected? ==> phase == Pending && stamp == Since(e.at / SECOND) && stamped == old(stamped) + 1
      ensures e.NotBuilt? ==> phase == Pending && stamp == Absent && stamped == old(stamped)
    {
      match e
      case NoNode(_) => phase := Pending;
      case NoCapacity(at) => ReconcileNoCapacity(at, configured);
      case Rejected(at) =>
        if stamp != Absent { stamp := Absent; }
        ReconcileNoCapacity(at, configured);
      case NotBuilt(_) =>
        if stamp != Absent { stamp := Absent; }
        phase := Pending;
    }
  }

  // ---------------------------------------------------------------- any run

  predicate Placed(e: Event) { e.Rejected? || e.NotBuilt? }
  predicate Shortage(e: Event) { e.NoCapacity? || e.Rejected? }

  // The last of the first n reconciles at which a node was chosen, or -1.
  function LastPlaced(events: seq<Event>, n: nat): (p: int)
    requires n <= |events|
    ensures -1 <= p < n && (p >= 0 ==> Placed(events[p]))
    ensures forall i :: p < i < n ==> !Placed(events[i])
  {
    if n == 0 then -1 else if Placed(events[n - 1]) then n - 1 else LastPlaced(events, n - 1)
  }

  // The first shortage among reconciles from .. end, or `end`.
  function FirstIn(events: seq<Event>, from: nat, end: nat): (k: nat)
    requires from <= end <= |events|
    ensures from <= k <= end && (k < end ==> Shortage(events[k]))
    ensures forall i :: from <= i < k ==> !Shortage(events[i])
    decreases end - from
  {
    if from == end || Shortage(events[from]) then from else FirstIn(events, from + 1, end)
  }

  // After n reconciles the wait is counted from the first shortage since a node
  // was last chosen, a rejection by that node included.
  function Anchor(events: seq<Event>, n: nat): Option<nat>
    requires n <= |events|
  {
    var p := LastPlaced(events, n);
    var k := FirstIn(events, if p < 0 then 0 else p, n);
    if k < n then Some(k) else None
  }

  // The stamp holds the whole seconds of the anchor's time.
  function StampOf(events: seq<Event>, n: nat): Stamp
    requires n <= |events|
  {
    match Anchor(events, n) case None => Absent case Some(k) => Since(events[k].at / SECOND)
  }

  // At reconcile n the wait counted from the stamp is over.
  predicate Fails(events: seq<Event>, n: nat, bound: int) {
    && n < |events|
    && events[n].NoCapacity?
    && StampOf(events, n).Since?
    && events[n].at - StampOf(events, n).seconds * SECOND >= bound
  }

  ghost predicate NoneFails(events: seq<Event>, n: nat, bound: int) {
    forall i: nat :: i < n ==> !Fails(events, i, bound)
  }

  // What one reconcile does to the anchor.
  lemma AnchorMoves(events: seq<Event>, n: nat)
    requires n < |events|
    ensures Anchor(events, n + 1) ==
      match events[n]
      case Rejected(_) => Some(n)
      case NotBuilt(_) => None
      case NoNode(_) => Anchor(events, n)
      case NoCapacity(_) => if Anchor(events, n).None? then Some(n) else Anchor(events, n)
  {
  }

  lemma StampMoves(events: seq<Event>, n: nat)
    requires n < |events|
    ensures StampOf(events, n + 1) ==
      match events[n]
      case Rejected(at) => Since(at / SECOND)
      case NotBuilt(_) => Absent
      case NoNode(_) => StampOf(events, n)
      case NoCapacity(at) => if StampOf(events, n).Absent? then Since(at / SECOND) else StampOf(events, n)
    ensures Becomes(events, n) == (events[n].Rejected? || (events[n].NoCapacity? && StampOf(events, n).Absent?))
  {
    AnchorMoves(events, n);
  }

  predicate Becomes(events: seq<Event>, i: nat) { i < |events| && Anchor(events, i + 1) == Some(i) }

  // Reconciles at which the stamp is written: those that become the anchor.
  ghost predicate StampedAt(events: seq<Event>, n: nat, stamped: set<nat>)
    requires n <= |events|
  {
    forall i: nat :: i in stamped <==> i < n && Becomes(events, i)
  }

  lemma StampedNext(events: seq<Event>, n: nat, stamped: set<nat>, more: set<nat>)
    requires n < |events| && StampedAt(events, n, stamped)
    requires more == if Becomes(events, n) then stamped + {n} else stamped
    ensures StampedAt(events, n + 1, more)
  {
  }

  lemma NoneFailsNext(events: seq<Event>, n: nat, bound: int)
    requires NoneFails(events, n, bound) && !Fails(events, n, bound)
    ensures NoneFails(events, n + 1, bound)
  {
  }

  // Any run of reconciles, until the claim is terminal: it fails at the first
  // shortage found at selection that is at least the bound after the anchor's
  // whole second, or never.
  method RunAll(events: seq<Event>, configured: int)
    returns (failed: Option<nat>, ghost stamped: set<nat>, ghost stamp: Stamp)
    ensures failed.Some? ==> Fails(events, failed.value, Bound(configured))
    ensures NoneFails(events, if failed.Some? then failed.value else |events|, Bound(configured))
    ensures var ran := if failed.Some? then failed.value + 1 else |events|;
      ran <= |events| && stamp == StampOf(events, ran) && StampedAt(events, ran, stamped)
  {
    var claim := new PendingClaim();
    failed, stamped := None, {};
    for n := 0 to |events|
      invariant claim.phase == Pending && failed == None && fresh(claim)
      invariant claim.stamp == StampOf(events, n) && NoneFails(events, n, Bound(configured))
      invariant StampedAt(events, n, stamped)
    {
      ghost var writes, earlier := claim.stamped, stamped;
      claim.Reconcile(events[n], configured);
      StampMoves(events, n);
      if claim.stamped > writes { stamped := stamped + {n}; }
      StampedNext(events, n, earlier, stamped);
      if claim.phase == Failed {
        return Some(n), stamped, claim.stamp;
      }
      NoneFailsNext(events, n, Bound(configured));
    }
    stamp := claim.stamp;
  }

  // ------------------------------------------------------- while no node is chosen

  ghost predicate NeverPlaced(events: seq<Event>) { forall i :: 0 <= i < |events| ==> !Placed(events[i]) }

  // The first reconcile at which selection found no capacity.
  ghost predicate FirstShortage(events: seq<Event>, k: nat) {
    k < |events| && events[k].NoCapacity? && forall i :: 0 <= i < k ==> !events[i].NoCapacity?
  }

  // At reconcile i the wait counted from the whole second of reconcile k is over.
  predicate Over(events: seq<Event>, k: nat, i: nat, bound: int) {
    k < i < |events| && events[i].NoCapacity? && events[i].at - events[k].at / SECOND * SECOND >= bound
  }

  // The wait is counted from the first shortage of all, and the stamp is written
  // then and only then.
  lemma NeverPlacedFails(events: seq<Event>, n: nat, bound: int)
    requires NeverPlaced(events) && n < |events|
    ensures Fails(events, n, bound) <==> exists k: nat :: FirstShortage(events, k) && Over(events, k, n, bound)
    ensures Becomes(events, n) <==> FirstShortage(events, n)
  {
    if Fails(events, n, bound) {
      var k := Anchor(events, n).value;
      assert FirstShortage(events, k) && Over(events, k, n, bound);
    }
  }

  // That is never more than a second before the bound as counted from the first
  // shortage itself, and never after it.
  lemma WithinASecond(events: seq<Event>, k: nat, i: nat, bound: int)
    requires FirstShortage(events, k) && k < i < |events| && events[i].NoCapacity?
    ensures Over(events, k, i, bound) ==> events[i].at - events[k].at > bound - SECOND
    ensures events[i].at - events[k].at >= bound ==> Over(events, k, i, bound)
  {
  }

  // ---------------------------------------------------- when a node is chosen

  ghost predicate InOrder(events: seq<Event>) { forall i, j :: 0 <= i < j < |events| ==> events[i].at <= events[j].at }

  // A choice within the bound, less a second, keeps the claim waiting.
  lemma RestartedInTime(events: seq<Event>, p: nat, n: nat, bound: int)
    requires InOrder(events) && p < n < |events| && Placed(events[p])
    requires events[n].at - events[p].at <= bound - SECOND
    ensures !Fails(events, n, bound)
  {
    var k := Anchor(events, n);
    if k.Some? { assert p <= LastPlaced(events, n) <= k.value; }
  }

  // A claim whose chosen node turns it down every time never fails.
  lemma RejectedForever(events: seq<Event>, bound: int)
    requires forall i :: 0 <= i < |events| ==> events[i].Rejected?
    ensures NoneFails(events, |events|, bound)
  {
  }

  // Nor does one that also meets shortages at selection, for as long as nodes
  // chosen in between turn it down: the wait has no bound.
  function Alternating(rounds: nat): seq<Event> {
    seq(2 * rounds, i requires 0 <= i < 2 * rounds =>
      if i % 2 == 0 then Rejected(100 * i * SECOND) else NoCapacity(100 * i * SECOND))
  }

  lemma WaitsWithoutBound(rounds: nat)
    ensures NoneFails(Alternating(rounds), 2 * rounds, DEFAULT_MAX_PENDING)
    ensures rounds > 0 ==> Alternating(rounds)[2 * rounds - 1] == NoCapacity((200 * rounds - 100) * SECOND)
  {
    var events := Alternating(rounds);
    forall n: nat | n < 2 * rounds ensures !Fails(events, n, DEFAULT_MAX_PENDING) {
      if n % 2 == 1 { RestartedInTime(events, n - 1, n, DEFAULT_MAX_PENDING); }
    }
  }
}
