/**
 The warm pool: one pass drives the number of dormant husk pods of a pool to the
 number wanted, leaving claimed pods and everything else alone.
 */
module WarmPool {
  import opened Wrappers
  import opened Names
  import opened Outside
  import opened Sorting

  datatype Pool = Pool(name: string, uid: nat)
  datatype Pod = Pod(husk: bool, pool: string, owner: Option<nat>, claimed: bool, terminating: bool)

  // Pods the pool owns that are not on their way out; the dormant ones are
  // those no claim has taken.
  predicate Owned(p: Pod, pool: Pool) { p.husk && p.pool == pool.name && !p.terminating && p.owner == Some(pool.uid) }
  predicate Dormant(p: Pod, pool: Pool) { Owned(p, pool) && !p.claimed }

  function NewPod(pool: Pool): Pod { Pod(true, pool.name, Some(pool.uid), false, false) }

  function OwnedPods(pods: map<string, Pod>, pool: Pool): set<string> { set n | n in pods && Owned(pods[n], pool) }
  function DormantPods(pods: map<string, Pod>, pool: Pool): set<string> { set n | n in pods && Dormant(pods[n], pool) }

  ghost function InUse(pods: map<string, Pod>, pool: Pool): set<string> {
    set n | n in pods && Owned(pods[n], pool) && pods[n].claimed
  }

  lemma InUseCount(pods: map<string, Pod>, pool: Pool)
    ensures |InUse(pods, pool)| == |OwnedPods(pods, pool)| - |DormantPods(pods, pool)|
  {
    assert OwnedPods(pods, pool) == InUse(pods, pool) + DormantPods(pods, pool);
    assert InUse(pods, pool) !! DormantPods(pods, pool);
  }

  // Nothing happens but that pods of the pool are added ...
  ghost predicate Grown(before: map<string, Pod>, after: map<string, Pod>, pool: Pool) {
    && (forall n :: n in before ==> n in after && after[n] == before[n])
    && (forall n :: n in after && n !in before ==> after[n] == NewPod(pool))
  }

  // ... or that dormant ones go, at once or by terminating.
  ghost predicate Culled(before: map<string, Pod>, after: map<string, Pod>, pool: Pool) {
    && (forall n :: n in after ==> n in before)
    && (forall n :: n in before && !Dormant(before[n], pool) ==> n in after && after[n] == before[n])
    && (forall n :: n in after ==> after[n] == before[n] || after[n] == before[n].(terminating := true))
  }

  ghost predicate OthersKept(before: map<string, Pod>, after: map<string, Pod>, pool: Pool) {
    forall n :: n in before && !Dormant(before[n], pool) ==> n in after && after[n] == before[n]
  }

  lemma GrownTwice(a: map<string, Pod>, b: map<string, Pod>, c: map<string, Pod>, pool: Pool)
    requires Grown(a, b, pool) && Grown(b, c, pool)
    ensures Grown(a, c, pool)
  {
  }

  lemma CulledTwice(a: map<string, Pod>, b: map<string, Pod>, c: map<string, Pod>, pool: Pool)
    requires Culled(a, b, pool) && Culled(b, c, pool)
    ensures Culled(a, c, pool)
  {
  }

  ghost function First(names: seq<string>, k: nat): set<string>
    requires k <= |names|
  {
    set i | 0 <= i < k :: names[i]
  }

  lemma FirstStep(names: seq<string>, k: nat)
    requires Distinct(names) && k < |names|
    ensures First(names, k + 1) == First(names, k) + {names[k]} && names[k] !in First(names, k)
    ensures First(names, k + 1) - {names[k]} == First(names, k)
  {
  }

  datatype Report = Report(dormant: int, inUse: int, scaledUp: bool, scaledDown: bool)

  // What comes of one call: done and said so, done although the answer was an
  // error, or not done.
  datatype Reply = Applied | Lost | Refused

  ghost predicate AllApplied(replies: nat -> Reply, from: nat, n: nat) {
    forall i :: from <= i < from + n ==> replies(i) == Applied
  }

  lemma AppliedMore(replies: nat -> Reply, from: nat, n: nat)
    requires AllApplied(replies, from, n) && replies(from + n) == Applied
    ensures AllApplied(replies, from, n + 1)
  {
  }

  // How many of the next n calls come before the first that answers an error.
  function Streak(replies: nat -> Reply, from: nat, n: nat): (m: nat)
    ensures m <= n
    decreases n
  {
    if n == 0 || replies(from) != Applied then 0 else 1 + Streak(replies, from + 1, n - 1)
  }

  lemma {:induction false} StreakEnds(replies: nat -> Reply, from: nat, n: nat)
    ensures var m := Streak(replies, from, n);
      && (m < n ==> replies(from + m) != Applied)
      && AllApplied(replies, from, m)
    decreases n
  {
    if n > 0 && replies(from) == Applied { StreakEnds(replies, from + 1, n - 1); }
  }

  lemma {:induction false} StreakIs(replies: nat -> Reply, from: nat, n: nat, m: nat)
    requires m <= n && (m < n ==> replies(from + m) != Applied)
    requires AllApplied(replies, from, m)
    ensures m == Streak(replies, from, n)
    decreases n
  {
    if m > 0 { StreakIs(replies, from + 1, n - 1, m - 1); }
  }

  // From a dormant pods, k steps towards b.
  function Toward(a: nat, b: nat, k: nat): int { if a < b then a + k else a - k }

  function Gap(a: nat, b: nat): nat { if a < b then b - a else a - b }

  // The pass over a dormant pods: the calls that answer without an error, and
  // whether the one that ends the pass took effect all the same.
  function Steps(replies: nat -> Reply, calls: nat, a: nat, b: nat, replicated: bool): nat {
    if a < b && !replicated then 0 else Streak(replies, calls, Gap(a, b))
  }

  predicate LastLost(replies: nat -> Reply, calls: nat, a: nat, b: nat, replicated: bool) {
    && !(a < b && !replicated)
    && Steps(replies, calls, a, b, replicated) < Gap(a, b)
    && replies(calls + Steps(replies, calls, a, b, replicated)) == Lost
  }

  lemma {:induction false} Longest(names: set<string>) returns (n: nat)
    ensures forall x :: x in names ==> |x| <= n
  {
    if names == {} { return 0; }
    var y :| y in names;
    n := Longest(names - {y});
    n := if |y| <= n then n else |y|;
  }

  lemma FreeName(names: set<string>)
    ensures exists x: string :: x !in names
  {
    var n := Longest(names);
    assert seq(n + 1, _ => 'x') !in names;
  }

  class PodApi {
    const replies: nat -> Reply   // what comes of each call
    var calls: nat                // ... and how many were made
    var pods: map<string, Pod>

    constructor (replies: nat -> Reply, pods: map<string, Pod>)
      ensures this.replies == replies && this.pods == pods && calls == 0
    {
      this.replies, this.pods, calls := replies, pods, 0;
    }

    // The server picks a name no pod has.
    method Create(pool: Pool) returns (ok: bool)
      modifies this
      ensures calls == old(calls) + 1 && ok == (replies(old(calls)) == Applied)
      ensures Grown(old(pods), pods, pool)
      ensures |DormantPods(pods, pool)| == |DormantPods(old(pods), pool)| + Effect(replies(old(calls)))
    {
      var reply := replies(calls);
      calls := calls + 1;
      if reply != Refused {
        FreeName(pods.Keys);
        var name: string :| name !in pods;
        ghost var before := DormantPods(pods, pool);
        pods := pods[name := NewPod(pool)];
        assert DormantPods(pods, pool) == before + {name};
      }
      return reply == Applied;
    }

    // A deleted pod is gone or terminating.
    method Delete(name: string, ghost pool: Pool) returns (ok: bool)
      requires name in DormantPods(pods, pool)
      modifies this
      ensures calls == old(calls) + 1 && ok == (replies(old(calls)) == Applied)
      ensures Culled(old(pods), pods, pool)
      ensures DormantPods(pods, pool) ==
        if replies(old(calls)) == Refused then DormantPods(old(pods), pool) else DormantPods(old(pods), pool) - {name}
    {
      var reply := replies(calls);
      var graceful := AnyOutcome();
      calls := calls + 1;
      if reply != Refused {
        ghost var before := DormantPods(pods, pool);
        pods := if graceful then pods[name := pods[name].(terminating := true)] else pods - {name};
        assert DormantPods(pods, pool) == before - {name};
      }
      return reply == Applied;
    }

    // Lists the pool's pods and sorts them into owned and dormant.
    method Count(pool: Pool) returns (owned: set<string>, dormant: set<string>)
      ensures owned == OwnedPods(pods, pool) && dormant == DormantPods(pods, pool)
      ensures forall n :: n in owned <==> n in pods && pods[n].husk && pods[n].pool == pool.name &&
                                          !pods[n].terminating && pods[n].owner == Some(pool.uid)
      ensures forall n :: n in dormant <==> n in owned && !pods[n].claimed
    {
      owned, dormant := {}, {};
      var todo := pods.Keys;
      while todo != {}
        invariant todo <= pods.Keys
        invariant forall n :: n in owned <==> n in OwnedPods(pods, pool) && n !in todo
        invariant forall n :: n in dormant <==> n in DormantPods(pods, pool) && n !in todo
        decreases todo
      {
        var name :| name in todo;
        todo := todo - {name};
        if Owned(pods[name], pool) {
          owned := owned + {name};
          if !pods[name].claimed { dormant := dormant + {name}; }
        }
      }
    }

    // Creates `deficit` pods, stopping at the first error.
    method Grow(pool: Pool, deficit: nat) returns (made: nat, err: bool)
      modifies this
      ensures made == Streak(replies, old(calls), deficit) && err == (made < deficit)
      ensures Grown(old(pods), pods, pool)
      ensures |DormantPods(pods, pool)| == |DormantPods(old(pods), pool)| + made +
                                           (if err then Effect(replies(old(calls) + made)) else 0)
    {
      made, err := 0, false;
      while made < deficit
        invariant made <= deficit && !err && calls == old(calls) + made
        invariant AllApplied(replies, old(calls), made)
        invariant Grown(old(pods), pods, pool)
        invariant |DormantPods(pods, pool)| == |DormantPods(old(pods), pool)| + made
      {
        ghost var before := pods;
        var ok := Create(pool);
        GrownTwice(old(pods), before, pods, pool);
        if !ok {
          err := true;
          break;
        }
        AppliedMore(replies, old(calls), made);
        made := made + 1;
      }
      StreakIs(replies, old(calls), deficit, made);
    }

    method DeleteAt(pool: Pool, names: seq<string>, k: nat) returns (ok: bool)
      requires Distinct(names) && k < |names| && DormantPods(pods, pool) == First(names, k + 1)
      modifies this
      ensures calls == old(calls) + 1 && ok == (replies(old(calls)) == Applied) && Culled(old(pods), pods, pool)
      ensures DormantPods(pods, pool) == First(names, k + 1 - Effect(replies(old(calls))))
    {
      FirstStep(names, k);
      ok := Delete(names[k], pool);
    }

    // Deletes `surplus` pods from the end of the sorted names, stopping at the
    // first error; the names before those deleted remain.
    method Shrink(pool: Pool, names: seq<string>, surplus: nat) returns (gone: nat, err: bool, ghost left: nat)
      requires Distinct(names) && surplus <= |names| && DormantPods(pods, pool) == First(names, |names|)
      modifies this
      ensures gone == Streak(replies, old(calls), surplus) && err == (gone < surplus)
      ensures left == |names| - gone - (if err then Effect(replies(old(calls) + gone)) else 0)
      ensures Culled(old(pods), pods, pool) && DormantPods(pods, pool) == First(names, left)
    {
      gone, err, left := 0, false, |names|;
      while gone < surplus
        invariant gone <= surplus && !err && left == |names| - gone && calls == old(calls) + gone
        invariant Culled(old(pods), pods, pool) && DormantPods(pods, pool) == First(names, left)
        invariant AllApplied(replies, old(calls), gone)
      {
        ghost var before := pods;
        var ok := DeleteAt(pool, names, |names| - 1 - gone);
        CulledTwice(old(pods), before, pods, pool);
        left := left - Effect(replies(old(calls) + gone));
        if !ok {
          err := true;
          break;
        }
        AppliedMore(replies, old(calls), gone);
        gone := gone + 1;
      }
      StreakIs(replies, old(calls), surplus, gone);
    }

    // One pass.  It stops at the first call that answers an error; the count
    // reported is the count before moved by the calls before that one, and the
    // count left is one further towards the count wanted exactly when that call
    // took effect all the same.  Without an error the dormant pods are those
    // wanted.  No other pod is touched, pods are deleted from the end of the
    // name order, and a pool that is right already is not changed.
    method Reconcile(pool: Pool, desired: nat, replicated: bool) returns (report: Report, err: bool)
      modifies this
      ensures forall n | n in old(pods) ::
        var p := old(pods)[n];
        (!p.husk || p.pool != pool.name || p.owner != Some(pool.uid) || p.claimed || p.terminating) ==>
          n in pods && pods[n] == p
      ensures forall n :: n in pods && n !in old(pods) ==>
        pods[n].husk && pods[n].pool == pool.name && pods[n].owner == Some(pool.uid) &&
        !pods[n].claimed && !pods[n].terminating
      ensures report.inUse == |InUse(old(pods), pool)|
      ensures forall n :: n in InUse(old(pods), pool) <==>
        n in old(pods) && old(pods)[n].husk && old(pods)[n].pool == pool.name && !old(pods)[n].terminating &&
        old(pods)[n].owner == Some(pool.uid) && old(pods)[n].claimed
      ensures forall n :: n in DormantPods(pods, pool) <==>
        n in pods && pods[n].husk && pods[n].pool == pool.name && !pods[n].terminating &&
        pods[n].owner == Some(pool.uid) && !pods[n].claimed
      ensures var before, after := |DormantPods(old(pods), pool)|, |DormantPods(pods, pool)|;
        && Counted(replies, old(calls), before, after, desired, replicated, report.dormant, err)
        && report.scaledUp == (!err && before < desired)
        && report.scaledDown == (!err && before > desired)
      ensures var before := DormantPods(old(pods), pool);
        && (|before| == desired ==> pods == old(pods))
        && (|before| < desired ==> Grown(old(pods), pods, pool))
        && (|before| > desired ==> Culled(old(pods), pods, pool) && TailGone(before, DormantPods(pods, pool)))
    {
      var owned, dormant := Count(pool);
      InUseCount(pods, pool);
      var existing, inUse := |dormant|, |owned| - |dormant|;
      if existing < desired {
        if !replicated { return Report(existing, inUse, false, false), true; }
        var made;
        made, err := Grow(pool, desired - existing);
        CountedMove(replies, old(calls), existing, desired, replicated, made);
        report := Report(existing + made, inUse, !err, false);
      } else if existing > desired {
        var gone;
        gone, err := Cull(pool, dormant, existing - desired);
        CountedMove(replies, old(calls), existing, desired, replicated, gone);
        report := Report(existing - gone, inUse, false, !err);
      } else {
        report, err := Report(existing, inUse, false, false), false;
      }
    }

    method Cull(pool: Pool, dormant: set<string>, surplus: nat) returns (gone: nat, err: bool)
      requires dormant == DormantPods(pods, pool) && surplus <= |dormant|
      modifies this
      ensures gone == Streak(replies, old(calls), surplus) && err == (gone < surplus)
      ensures Culled(old(pods), pods, pool) && TailGone(dormant, DormantPods(pods, pool))
      ensures |DormantPods(pods, pool)| == |dormant| - gone - (if err then Effect(replies(old(calls) + gone)) else 0)
    {
      var names := SortedNames(dormant);
      DistinctSize(names, dormant);
      assert dormant == First(names, |names|);
      ghost var left;
      gone, err, left := Shrink(pool, names, surplus);
      FirstSize(names, left);
      FirstLeft(names, dormant, left);
    }

    // A pass that fails nowhere leaves what is wanted, and a second pass then
    // makes no call and changes nothing.
    method ReconcileTwice(pool: Pool, desired: nat) returns (settled: bool, ghost between: map<string, Pod>)
      modifies this
      ensures var gap := Gap(|DormantPods(old(pods), pool)|, desired);
        settled == AllApplied(replies, old(calls), gap)
      ensures settled ==> pods == between && |DormantPods(pods, pool)| == desired && OthersKept(old(pods), pods, pool)
    {
      StreakEnds(replies, calls, Gap(|DormantPods(pods, pool)|, desired));
      var first, err := Reconcile(pool, desired, true);
      between := pods;
      if err { return false, between; }
      var second;
      second, err := Reconcile(pool, desired, true);
      return true, between;
    }
  }

  // How many pods a call adds or removes.
  function Effect(reply: Reply): nat { if reply == Refused then 0 else 1 }

  // What is left of the dormant pods precedes, in the order of names, what went.
  ghost predicate TailGone(before: set<string>, after: set<string>) {
    after <= before && forall a, b :: a in after && b in before - after ==> StringLe(a, b)
  }

  // The count reported and the count left, by the calls made.
  ghost predicate Counted(replies: nat -> Reply, calls: nat, before: nat, after: int, desired: nat, replicated: bool,
                          reported: int, err: bool)
  {
    var steps := Steps(replies, calls, before, desired, replicated);
    var lost := LastLost(replies, calls, before, desired, replicated);
    && err == (steps < Gap(before, desired))
    && reported == Toward(before, desired, steps)
    && after == Toward(before, desired, steps + (if lost then 1 else 0))
  }

  lemma CountedMove(replies: nat -> Reply, calls: nat, before: nat, desired: nat, replicated: bool, moved: nat)
    requires before != desired && (before < desired ==> replicated)
    requires moved == Streak(replies, calls, Gap(before, desired))
    ensures var err := moved < Gap(before, desired);
      var after := Toward(before, desired, moved + (if err then Effect(replies(calls + moved)) else 0));
      Counted(replies, calls, before, after, desired, replicated, Toward(before, desired, moved), err)
  {
    StreakEnds(replies, calls, Gap(before, desired));
  }

  lemma FirstLeft(names: seq<string>, all: set<string>, k: nat)
    requires k <= |names| && all == First(names, |names|)
    requires forall i, j :: 0 <= i < j < |names| ==> StringLe(names[i], names[j])
    ensures TailGone(all, First(names, k))
  {
  }

  lemma {:induction false} FirstSize(names: seq<string>, k: nat)
    requires Distinct(names) && k <= |names|
    ensures |First(names, k)| == k
  {
    if k == 0 {
      assert First(names, k) == {};
    } else {
      FirstStep(names, k - 1);
      FirstSize(names, k - 1);
    }
  }

  // The count left is the count reported exactly when the call that ended the
  // pass, if one did, had no effect; otherwise it is one more than reported for
  // a pool that was short and one less for one that had too many.  Without an
  // error it is the count wanted.
  lemma ReportedIsLeft(replies: nat -> Reply, calls: nat, before: nat, after: nat, desired: nat, replicated: bool,
                       reported: int, err: bool)
    requires Counted(replies, calls, before, after, desired, replicated, reported, err)
    ensures var lost := LastLost(replies, calls, before, desired, replicated);
      && (reported == after <==> !lost)
      && (lost ==> err && after == if before < desired then reported + 1 else reported - 1)
      && (!err ==> after == desired)
  {
  }

  // Both happen: a creation and a deletion that the server carries out while
  // the answer is lost.
  method ReportedOneOff(pool: Pool) returns (short: Report, left: set<string>, surplus: Report, rest: set<string>)
    ensures short.dormant == 0 && |left| == 1
    ensures surplus.dormant == 1 && |rest| == 0
  {
    var replies := (i: nat) => Lost;
    var empty := new PodApi(replies, map[]);
    assert DormantPods(empty.pods, pool) == {};
    var err;
    short, err := empty.Reconcile(pool, 1, true);
    var owned;
    owned, left := empty.Count(pool);
    var full := new PodApi(replies, map["husk-1" := NewPod(pool)]);
    assert DormantPods(full.pods, pool) == {"husk-1"};
    surplus, err := full.Reconcile(pool, 0, true);
    owned, rest := full.Count(pool);
  }
}
