/**
 Releasing a husk claim gives its pods back.  Runs here serialise the passes of
 one claim, and a release lists the pods the claim has labelled as they are now.
 Crashes, lost replies, stale dormant lists and stale copies of the claim are
 allowed, but for one kind of copy.  From a copy that has the finalizer, is
 Restoring and is not deleting a pass labels a pod without writing the claim
 first, so the claim has to have its finalizer when such a pass begins.
 */
module HuskRelease {
  import opened Wrappers
  import opened HuskClaims

  ghost predicate Labelled(s: State, pod: string, claim: string) {
    pod in s.pods && s.pods[pod].owner == Some(claim)
  }

  // The list shows the pods the claim has labelled; others may be stale.
  ghost predicate Shows(s: State, claim: string, list: seq<PodRead>) {
    forall n :: Labelled(s, n, claim) ==> PodRead(n, s.pods[n]) in list
  }

  // A pass over this copy reaches the label patch without a guarded write.
  predicate Unguarded(copy: Claim) { copy.finalizer && copy.phase.Restoring? && !copy.deleting }

  ghost predicate Idle(s: State, claim: string) { forall id :: id in s.workers ==> s.workers[id].claim != claim }

  ghost predicate Serialised(s: State, a: Action) {
    && (a.Begin? ==> Idle(s, a.name))
    && (a.ListClaimed? && At(s, a.w) ==> Shows(s, s.workers[a.w].claim, a.list))
  }

  ghost predicate Fresh(s: State, a: Action) {
    && Serialised(s, a)
    && (a.Begin? && Unguarded(a.copy) ==> Finalized(s, a.name))
  }

  ghost predicate FreshNext(s: State, s': State) {
    exists a :: Enabled(s, a) && Fresh(s, a) && s' == Apply(s, a)
  }

  ghost predicate FreshAt(run: seq<State>, i: int) { 0 < i < |run| && FreshNext(run[i - 1], run[i]) }

  ghost predicate FreshRun(run: seq<State>) {
    run != [] && Init(run[0]) && forall i :: 0 < i < |run| ==> FreshAt(run, i)
  }

  // --------------------------------------------------------------- invariant

  ghost predicate Finalized(s: State, claim: string) {
    claim in s.claims && s.claims[claim].finalizer
  }

  // A versioned object has one value per version, and workers hold real copies.
  ghost predicate VersionsUnique(s: State) {
    && (forall r :: r in s.claimReads ==> r.claim.version <= s.rev)
    && (forall r, q :: r in s.claimReads && q in s.claimReads && r.claim.version == q.claim.version ==> r == q)
    && (forall n :: n in s.claims ==> ClaimRead(n, s.claims[n]) in s.claimReads)
    && (forall id :: id in s.workers ==> ClaimRead(s.workers[id].claim, s.workers[id].copy) in s.claimReads)
  }

  // What is left of the pass may label a pod without another write of the claim.
  predicate MayLabel(k: Worker) {
    || (k.pc.Decide? && Unguarded(k.copy))
    || (k.pc.Select? && k.copy.phase.Restoring?)
    || k.pc.Mark?
  }

  ghost predicate WorkerOwns(s: State, k: Worker) {
    && (MayLabel(k) ==> Finalized(s, k.claim))
    && (k.pc.Select? ==> k.copy.finalizer)
    && (k.pc.Release? ==> forall n :: Labelled(s, n, k.claim) ==> n in k.pc.left)
    && (k.pc.Unfinalize? ==> forall n :: !Labelled(s, n, k.claim))
  }

  ghost predicate Serial(s: State) {
    forall i, j :: i in s.workers && j in s.workers && s.workers[i].claim == s.workers[j].claim ==> i == j
  }

  ghost predicate Owned(s: State) {
    && VersionsUnique(s)
    && Serial(s)
    && (forall n, c :: Labelled(s, n, c) ==> Finalized(s, c))
    && (forall id :: id in s.workers ==> WorkerOwns(s, s.workers[id]))
  }

  // An accepted update was made against the very object the worker holds.
  lemma CopyIsCurrent(s: State, id: nat)
    requires Owned(s) && id in s.workers && CanUpdate(s, s.workers[id])
    ensures s.claims[s.workers[id].claim] == s.workers[id].copy
  {
  }

  lemma PodsKeep(s: State, s': State)
    requires Owned(s)
    requires s'.claims == s.claims && s'.claimReads == s.claimReads && s'.workers == s.workers && s.rev <= s'.rev
    requires forall n, c :: Labelled(s', n, c) ==> Labelled(s, n, c)
    ensures Owned(s')
  {
  }

  lemma SetKeeps(s: State, id: nat, k: Worker)
    requires Owned(s) && WorkerOwns(s, k) && ClaimRead(k.claim, k.copy) in s.claimReads
    requires forall j :: j in s.workers && s.workers[j].claim == k.claim ==> j == id
    ensures Owned(SetWorker(s, id, k))
  {
    var s' := SetWorker(s, id, k);
    assert forall n, c :: Labelled(s', n, c) ==> Labelled(s, n, c);
    forall i | i in s'.workers ensures WorkerOwns(s', s'.workers[i]) {
      assert i == id || WorkerOwns(s, s.workers[i]);
    }
  }

  lemma DropKeeps(s: State, id: nat)
    requires Owned(s)
    ensures Owned(DropWorker(s, id))
  {
    var s' := DropWorker(s, id);
    assert forall n, c :: Labelled(s', n, c) ==> Labelled(s, n, c);
    forall i | i in s'.workers ensures WorkerOwns(s', s'.workers[i]) {
      assert WorkerOwns(s, s.workers[i]);
    }
  }

  lemma PutClaimKeepsOwned(s: State, name: string, claim: Claim)
    requires Owned(s) && (Finalized(s, name) ==> claim.finalizer)
    ensures Owned(PutClaim(s, name, claim))
  {
    var s' := PutClaim(s, name, claim);
    assert forall c :: Finalized(s, c) ==> Finalized(s', c);
    assert forall n, c :: Labelled(s', n, c) ==> Labelled(s, n, c);
    forall i | i in s'.workers ensures WorkerOwns(s', s'.workers[i]) {
      assert WorkerOwns(s, s.workers[i]);
    }
  }

  lemma RemoveClaimKeeps(s: State, name: string)
    requires Owned(s)
    requires forall n :: !Labelled(s, n, name)
    requires forall id :: id in s.workers && s.workers[id].claim == name ==> !MayLabel(s.workers[id])
    ensures Owned(s.(claims := s.claims - {name}))
  {
    var s' := s.(claims := s.claims - {name});
    assert forall c :: c != name && Finalized(s, c) ==> Finalized(s', c);
    assert forall n, c :: Labelled(s', n, c) ==> Labelled(s, n, c);
    forall i | i in s'.workers ensures WorkerOwns(s', s'.workers[i]) {
      assert WorkerOwns(s, s.workers[i]);
    }
  }

  lemma FinalKeeps(s: State, id: nat, claim: Claim, reply: Reply)
    requires Owned(s) && id in s.workers && claim.finalizer == s.workers[id].copy.finalizer
    requires !reply.Refused? ==> CanUpdate(s, s.workers[id])
    ensures Owned(FinalUpdate(s, id, s.workers[id], claim, reply))
  {
    var k := s.workers[id];
    if reply.Refused? {
      DropKeeps(s, id);
    } else {
      CopyIsCurrent(s, id);
      PutClaimKeepsOwned(s, k.claim, claim);
      DropKeeps(PutClaim(s, k.claim, claim), id);
    }
  }

  lemma UpdateKeeps(s: State, id: nat, claim: Claim, reply: Reply, pc: Pc)
    requires Owned(s) && id in s.workers && claim.finalizer && (pc.Select? || pc.Mark?)
    requires !reply.Refused? ==> CanUpdate(s, s.workers[id])
    ensures Owned(UpdateClaim(s, id, s.workers[id], claim, reply, pc))
  {
    var k := s.workers[id];
    if reply.Refused? {
      DropKeeps(s, id);
    } else {
      PutClaimKeepsOwned(s, k.claim, claim);
      var s1 := PutClaim(s, k.claim, claim);
      if reply.Applied? {
        SetKeeps(s1, id, k.(copy := claim.(version := s.rev + 1), pc := pc));
      } else {
        DropKeeps(s1, id);
      }
    }
  }

  // A pod gains the label of a claim that has its finalizer and is not being released.
  lemma LabelKeeps(s: State, name: string, pod: Pod, claim: string, labelled: seq<Event>)
    requires Owned(s) && Finalized(s, claim) && pod.owner == Some(claim)
    requires forall i :: i in s.workers && s.workers[i].claim == claim ==> s.workers[i].pc.Mark?
    ensures Owned(PutPod(s, name, pod).(labelled := labelled))
  {
    var s1 := PutPod(s, name, pod).(labelled := labelled);
    assert forall n, c :: Labelled(s1, n, c) ==> Labelled(s, n, c) || c == claim;
    forall i | i in s1.workers ensures WorkerOwns(s1, s1.workers[i]) {
      assert WorkerOwns(s, s.workers[i]);
    }
  }

  lemma MarkKeeps(s: State, w: nat, reply: Reply)
    requires Owned(s) && Enabled(s, MarkPod(w, reply))
    ensures Owned(Apply(s, MarkPod(w, reply)))
  {
    var k := s.workers[w];
    assert WorkerOwns(s, k);
    if reply.Refused? {
      SetKeeps(s, w, k.(pc := GiveUp(Pending, false)));
    } else {
      MarkedKeeps(s, w, reply);
    }
  }

  lemma MarkedKeeps(s: State, w: nat, reply: Reply)
    requires Owned(s) && Enabled(s, MarkPod(w, reply)) && !reply.Refused?
    ensures Owned(Apply(s, MarkPod(w, reply)))
  {
    var k := s.workers[w];
    var t := k.pc.target;
    assert WorkerOwns(s, k);
    assert forall i :: i in s.workers && s.workers[i].claim == k.claim ==> i == w;
    var pod := s.pods[t.name].(owner := Some(k.claim));
    var labelled := s.labelled + [Event(t.pod.uid, k.claim, t.name)];
    LabelKeeps(s, t.name, pod, k.claim, labelled);
    FinishMark(PutPod(s, t.name, pod).(labelled := labelled), w, k.(pc := Dial(t.name, t.pod.uid)));
  }

  lemma FinishMark(s: State, w: nat, k: Worker)
    requires Owned(s) && w in s.workers && s.workers[w].claim == k.claim && s.workers[w].copy == k.copy && k.pc.Dial?
    ensures Owned(SetWorker(s, w, k)) && Owned(DropWorker(s, w))
  {
    assert WorkerOwns(s, s.workers[w]);
    SetKeeps(s, w, k);
    DropKeeps(s, w);
  }

  lemma ListKeeps(s: State, w: nat, list: seq<PodRead>)
    requires Owned(s) && Enabled(s, ListClaimed(w, list)) && Shows(s, s.workers[w].claim, list)
    ensures Owned(Apply(s, ListClaimed(w, list)))
  {
    var k := s.workers[w];
    assert WorkerOwns(s, k);
    var left := set r | r in list && r.pod.owner == Some(k.claim) :: r.name;
    forall n | Labelled(s, n, k.claim) ensures n in left {
      assert PodRead(n, s.pods[n]) in list;
    }
    SetKeeps(s, w, k.(pc := ReleaseOf(left)));
  }

  // The pod goes; the pass may end there ...
  lemma DeletedKeeps(s: State, name: string)
    requires Owned(s)
    ensures Owned(s.(pods := s.pods - {name}))
  {
    PodsKeep(s, s.(pods := s.pods - {name}));
  }

  // ... or go on with the rest.
  lemma FewerLeft(s: State, k: Worker, name: string)
    requires WorkerOwns(s, k) && k.pc.Release?
    ensures WorkerOwns(s.(pods := s.pods - {name}), k.(pc := ReleaseOf(k.pc.left - {name})))
  {
    var s1 := s.(pods := s.pods - {name});
    assert forall n :: Labelled(s1, n, k.claim) ==> Labelled(s, n, k.claim) && n != name;
  }

  lemma DeletedMoves(s: State, w: nat, name: string)
    requires Owned(s) && Enabled(s, DeleteClaimed(w, name, Applied))
    ensures Owned(Apply(s, DeleteClaimed(w, name, Applied)))
  {
    var k := s.workers[w];
    DeletedKeeps(s, name);
    FewerLeft(s, k, name);
    SetKeeps(s.(pods := s.pods - {name}), w, k.(pc := ReleaseOf(k.pc.left - {name})));
  }

  lemma DeleteKeeps(s: State, w: nat, name: string, reply: Reply)
    requires Owned(s) && Enabled(s, DeleteClaimed(w, name, reply))
    ensures Owned(Apply(s, DeleteClaimed(w, name, reply)))
  {
    match reply
    case Applied => DeletedMoves(s, w, name);
    case AppliedButLost =>
      DeletedKeeps(s, name);
      DropKeeps(s.(pods := s.pods - {name}), w);
    case Refused => DropKeeps(s, w);
  }

  // The claim leaves the API server only after every pod it labelled is gone.
  lemma DropFinalizerOwned(s: State, w: nat, reply: Reply)
    requires Owned(s) && Enabled(s, DropFinalizer(w, reply))
    ensures Owned(Apply(s, DropFinalizer(w, reply)))
  {
    var k := s.workers[w];
    assert WorkerOwns(s, k);
    DropKeeps(s, w);
    if !reply.Refused? {
      var s0 := DropWorker(s, w);
      assert forall n :: Labelled(s0, n, k.claim) ==> Labelled(s, n, k.claim);
      RemoveClaimKeeps(s0, k.claim);
      assert Apply(s, DropFinalizer(w, reply)) == s0.(claims := s0.claims - {k.claim});
    }
  }

  lemma PodActionKeeps(s: State, a: Action)
    requires Owned(s) && Enabled(s, a) && (a.CreatePod? || a.UpdatePodStatus? || a.MarkTerminating? || a.RemovePod?)
    ensures Owned(Apply(s, a))
  {
    var s' := Apply(s, a);
    assert forall n, c :: Labelled(s', n, c) ==> Labelled(s, n, c);
    PodsKeep(s, s');
  }

  lemma ClaimActionKeeps(s: State, a: Action)
    requires Owned(s) && Enabled(s, a) && (a.CreateClaim? || a.EditClaim? || a.DeleteClaim?)
    ensures Owned(Apply(s, a))
  {
    match a
    case CreateClaim(name, pool) => PutClaimKeepsOwned(s, name, Claim(0, pool, false, false, Pending, None));
    case EditClaim(name) => PutClaimKeepsOwned(s, name, s.claims[name]);
    case DeleteClaim(name) =>
      if s.claims[name].finalizer {
        PutClaimKeepsOwned(s, name, s.claims[name].(deleting := true));
      } else {
        assert forall id :: id in s.workers ==> WorkerOwns(s, s.workers[id]);
        RemoveClaimKeeps(s, name);
      }
  }

  lemma FinalizerKeeps(s: State, w: nat, reply: Reply)
    requires Owned(s) && Enabled(s, AddFinalizer(w, reply))
    ensures Owned(Apply(s, AddFinalizer(w, reply)))
  {
    var k := s.workers[w];
    assert WorkerOwns(s, k);
    if k.copy.finalizer { SetKeeps(s, w, k.(pc := Select)); }
    else { UpdateKeeps(s, w, k.copy.(finalizer := true), reply, Select); }
  }

  lemma SelectKeeps(s: State, w: nat, list: seq<PodRead>, reply: Reply)
    requires Owned(s) && Enabled(s, SelectPod(w, list, reply))
    ensures Owned(Apply(s, SelectPod(w, list, reply)))
  {
    var k := s.workers[w];
    assert WorkerOwns(s, k);
    var chosen := SelectDormant(list, k.copy.pool);
    if chosen.None? { SetKeeps(s, w, k.(pc := GiveUp(Pending, true))); }
    else if k.copy.phase.Restoring? { SetKeeps(s, w, k.(pc := Mark(chosen.value))); }
    else { UpdateKeeps(s, w, k.copy.(phase := Restoring), reply, Mark(chosen.value)); }
  }

  lemma ExpireKeeps(s: State, w: nat, reply: Reply)
    requires Owned(s) && Enabled(s, Expire(w, reply))
    ensures Owned(Apply(s, Expire(w, reply)))
  {
    FinalKeeps(s, w, s.workers[w].copy.(phase := Terminated), reply);
  }

  lemma RependKeeps(s: State, w: nat, reply: Reply)
    requires Owned(s) && Enabled(s, RependClaim(w, reply))
    ensures Owned(Apply(s, RependClaim(w, reply)))
  {
    FinalKeeps(s, w, s.workers[w].copy.(phase := Pending, bound := None), reply);
  }

  lemma ReadyKeeps(s: State, w: nat, reply: Reply)
    requires Owned(s) && Enabled(s, WriteReady(w, reply))
    ensures Owned(Apply(s, WriteReady(w, reply)))
  {
    var k := s.workers[w];
    FinalKeeps(s, w, k.copy.(phase := Ready, bound := Some(Binding(k.pc.pod, k.pc.uid))), reply);
  }

  lemma GiveUpKeeps(s: State, w: nat, reply: Reply)
    requires Owned(s) && Enabled(s, WriteGiveUp(w, reply))
    ensures Owned(Apply(s, WriteGiveUp(w, reply)))
  {
    var k := s.workers[w];
    FinalKeeps(s, w, k.copy.(phase := k.pc.phase, bound := if k.pc.unbind then None else k.copy.bound), reply);
  }

  lemma BeginKeeps(s: State, w: nat, name: string, copy: Claim)
    requires Owned(s) && Enabled(s, Begin(w, name, copy)) && Fresh(s, Begin(w, name, copy))
    ensures Owned(Apply(s, Begin(w, name, copy)))
  {
    SetKeeps(s, w, Worker(name, copy, Decide));
  }

  lemma MoveKeeps(s: State, w: nat, pc: Pc)
    requires Owned(s) && w in s.workers && (pc.Repend? || pc.GiveUp?)
    ensures Owned(SetWorker(s, w, s.workers[w].(pc := pc)))
  {
    assert WorkerOwns(s, s.workers[w]);
    SetKeeps(s, w, s.workers[w].(pc := pc));
  }

  lemma ActivateKeeps(s: State, w: nat, ok: bool)
    requires Owned(s) && Enabled(s, Activate(w, ok))
    ensures Owned(Apply(s, Activate(w, ok)))
  {
    var k := s.workers[w];
    assert WorkerOwns(s, k);
    var k' := k.(pc := if ok then Publish(k.pc.pod, k.pc.uid) else GiveUp(Pending, false));
    SetKeeps(s, w, k');
    PodsKeep(SetWorker(s, w, k'), Apply(s, Activate(w, ok)));
  }

  lemma TakeActionKeeps(s: State, a: Action)
    requires Owned(s) && Enabled(s, a) && (a.AddFinalizer? || a.SelectPod? || a.MarkPod?)
    ensures Owned(Apply(s, a))
  {
    if a.AddFinalizer? { FinalizerKeeps(s, a.w, a.reply); }
    else if a.SelectPod? { SelectKeeps(s, a.w, a.list, a.reply); }
    else { MarkKeeps(s, a.w, a.reply); }
  }

  lemma LastActionKeeps(s: State, a: Action)
    requires Owned(s) && Enabled(s, a) && (a.Expire? || a.RependClaim? || a.WriteReady? || a.WriteGiveUp?)
    ensures Owned(Apply(s, a))
  {
    if a.Expire? { ExpireKeeps(s, a.w, a.reply); }
    else if a.RependClaim? { RependKeeps(s, a.w, a.reply); }
    else if a.WriteReady? { ReadyKeeps(s, a.w, a.reply); }
    else { GiveUpKeeps(s, a.w, a.reply); }
  }

  lemma MoveActionKeeps(s: State, a: Action)
    requires Owned(s) && Enabled(s, a) && (a.Stop? || a.CheckLost? || a.FailSecrets? || a.Activate?)
    ensures Owned(Apply(s, a))
  {
    if a.Stop? { DropKeeps(s, a.w); }
    else if a.CheckLost? { MoveKeeps(s, a.w, Repend); }
    else if a.FailSecrets? { MoveKeeps(s, a.w, GiveUp(Failed, false)); }
    else { ActivateKeeps(s, a.w, a.ok); }
  }

  lemma ReleaseActionKeeps(s: State, a: Action)
    requires Owned(s) && Enabled(s, a) && Fresh(s, a)
    requires a.Begin? || a.ListClaimed? || a.DeleteClaimed? || a.DropFinalizer?
    ensures Owned(Apply(s, a))
  {
    if a.Begin? { BeginKeeps(s, a.w, a.name, a.copy); }
    else if a.ListClaimed? { ListKeeps(s, a.w, a.list); }
    else if a.DeleteClaimed? { DeleteKeeps(s, a.w, a.name, a.reply); }
    else { DropFinalizerOwned(s, a.w, a.reply); }
  }

  lemma FreshStepKeeps(s: State, a: Action)
    requires Owned(s) && Enabled(s, a) && Fresh(s, a)
    ensures Owned(Apply(s, a))
  {
    if a.CreatePod? || a.UpdatePodStatus? || a.MarkTerminating? || a.RemovePod? { PodActionKeeps(s, a); }
    else if a.CreateClaim? || a.EditClaim? || a.DeleteClaim? { ClaimActionKeeps(s, a); }
    else if a.AddFinalizer? || a.SelectPod? || a.MarkPod? { TakeActionKeeps(s, a); }
    else if a.Expire? || a.RependClaim? || a.WriteReady? || a.WriteGiveUp? { LastActionKeeps(s, a); }
    else if a.Begin? || a.ListClaimed? || a.DeleteClaimed? || a.DropFinalizer? { ReleaseActionKeeps(s, a); }
    else { MoveActionKeeps(s, a); }
  }

  lemma {:induction false} FreshRunKeeps(run: seq<State>, i: nat)
    requires FreshRun(run) && i < |run|
    ensures Owned(run[i])
  {
    if i > 0 {
      FreshRunKeeps(run, i - 1);
      assert FreshAt(run, i);
      var a :| Enabled(run[i - 1], a) && Fresh(run[i - 1], a) && run[i] == Apply(run[i - 1], a);
      FreshStepKeeps(run[i - 1], a);
    }
  }

  // Release conserves the warm pool: at every moment of every such run a
  // labelled pod belongs to a claim that is still in the API server and still
  // has to release it, so a claim that is gone has left no pod behind.
  lemma ReleaseConserves(run: seq<State>, i: nat, pod: string)
    requires FreshRun(run) && i < |run| && pod in run[i].pods && run[i].pods[pod].owner.Some?
    ensures var claim := run[i].pods[pod].owner.value;
      claim in run[i].claims && run[i].claims[claim].finalizer
  {
    FreshRunKeeps(run, i);
    assert Labelled(run[i], pod, run[i].pods[pod].owner.value);
  }

  // ----------------------------------------- a stale copy of a claim that is gone

  ghost predicate SerialNext(s: State, s': State) {
    exists a :: Enabled(s, a) && Serialised(s, a) && s' == Apply(s, a)
  }

  ghost predicate SerialAt(run: seq<State>, i: int) { 0 < i < |run| && SerialNext(run[i - 1], run[i]) }

  ghost predicate SerialRun(run: seq<State>) {
    run != [] && Init(run[0]) && forall i :: 0 < i < |run| ==> SerialAt(run, i)
  }

  ghost predicate Reachable(s: State) {
    exists run :: SerialRun(run) && run[|run| - 1] == s
  }

  lemma Reach(s: State, a: Action) returns (s': State)
    requires Reachable(s) && Enabled(s, a) && Serialised(s, a)
    ensures s' == Apply(s, a) && Reachable(s')
  {
    s' := Apply(s, a);
    var run :| SerialRun(run) && run[|run| - 1] == s;
    var more := run + [s'];
    forall i | 0 < i < |more| ensures SerialAt(more, i) {
      if i < |run| {
        assert SerialAt(run, i);
        assert more[i - 1] == run[i - 1] && more[i] == run[i];
      } else {
        assert more[i - 1] == s && SerialNext(s, s');
      }
    }
    assert SerialRun(more);
  }

  // The steps of a lone pass, one by one.
  lemma Begins(s: State, name: string, copy: Claim) returns (s': State)
    requires Reachable(s) && s.workers == map[] && ClaimRead(name, copy) in s.claimReads
    ensures Reachable(s') && s' == s.(workers := map[0 := Worker(name, copy, Decide)])
  {
    s' := Reach(s, Begin(0, name, copy));
  }

  lemma Finalizes(s: State, k: Worker) returns (s': State)
    requires Reachable(s) && s.workers == map[0 := k] && Enabled(s, AddFinalizer(0, Applied))
    ensures Reachable(s')
    ensures k.copy.finalizer ==> s' == s.(workers := map[0 := k.(pc := Select)])
    ensures !k.copy.finalizer ==> s' == UpdateClaim(s, 0, k, k.copy.(finalizer := true), Applied, Select)
  {
    s' := Reach(s, AddFinalizer(0, Applied));
    assert map[0 := k][0 := k.(pc := Select)] == map[0 := k.(pc := Select)];
  }

  // selectDormantHuskPod sees one dormant pod.
  lemma Selects(s: State, k: Worker, r: PodRead) returns (s': State)
    requires Reachable(s) && s.workers == map[0 := k] && k.pc.Select?
    requires r in s.podReads && Dormant(r, k.copy.pool) && (!k.copy.phase.Restoring? ==> CanUpdate(s, k))
    ensures Reachable(s')
    ensures k.copy.phase.Restoring? ==> s' == s.(workers := map[0 := k.(pc := Mark(r))])
    ensures !k.copy.phase.Restoring? ==> s' == UpdateClaim(s, 0, k, k.copy.(phase := Restoring), Applied, Mark(r))
  {
    OnlyOne(r, k.copy.pool);
    s' := Reach(s, SelectPod(0, [r], Applied));
    assert map[0 := k][0 := k.(pc := Mark(r))] == map[0 := k.(pc := Mark(r))];
  }

  lemma OnlyOne(r: PodRead, pool: string)
    requires Dormant(r, pool)
    ensures SelectDormant([r], pool) == Some(r)
  {
    assert r in [r];
  }

  // A ready dormant pod h is all there is.
  ghost predicate PodWaits(s: State, pod: Pod) {
    && Reachable(s)
    && s.workers == map[]
    && s.pods == map["h" := pod]
    && PodRead("h", pod) in s.podReads
    && Dormant(PodRead("h", pod), "p")
  }

  lemma PodAndClaim() returns (s: State, pod: Pod, claim: Claim)
    ensures PodWaits(s, pod) && s.claims == map["c" := claim]
    ensures ClaimRead("c", claim) in s.claimReads && claim == Claim(s.rev, "p", false, false, Pending, None)
  {
    s, pod := OnePod();
    s := Reach(s, CreateClaim("c", "p"));
    claim := s.claims["c"];
  }

  lemma OnePod() returns (s: State, pod: Pod)
    ensures PodWaits(s, pod) && s.claims == map[]
  {
    s := State(map[], {}, map[], {}, 0, 0, map[], [], []);
    assert SerialRun([s]);
    s := Reach(s, CreatePod("h", "p"));
    s := Reach(s, UpdatePodStatus("h", true));
    pod := s.pods["h"];
  }

  // A first pass records Restoring and then crashes.
  lemma RestoringStored() returns (s: State, pod: Pod, claim: Claim)
    ensures PodWaits(s, pod) && s.claims == map["c" := claim]
    ensures ClaimRead("c", claim) in s.claimReads && claim.pool == "p" && Unguarded(claim)
  {
    s, pod, claim := PodAndClaim();
    s := Begins(s, "c", claim);
    s := Finalizes(s, s.workers[0]);
    s, claim := RecordsRestoring(s, pod, s.workers[0]);
  }

  lemma RecordsRestoring(s: State, pod: Pod, k: Worker) returns (s': State, claim: Claim)
    requires Reachable(s) && s.workers == map[0 := k] && k.pc.Select? && k.claim == "c" && k.copy.pool == "p"
    requires s.pods == map["h" := pod] && PodRead("h", pod) in s.podReads && Dormant(PodRead("h", pod), "p")
    requires s.claims == map["c" := k.copy] && k.copy.phase.Pending? && k.copy.finalizer && !k.copy.deleting
    ensures PodWaits(s', pod) && s'.claims == map["c" := claim]
    ensures ClaimRead("c", claim) in s'.claimReads && claim.pool == "p" && Unguarded(claim)
  {
    s' := Selects(s, k, PodRead("h", pod));
    claim := s'.claims["c"];
    s' := Reach(s', Stop(0));
    assert s'.workers == map[];
  }

  // The claim is deleted and released; nothing carries its label.
  lemma Released() returns (s: State, pod: Pod, stale: Claim)
    ensures PodWaits(s, pod) && s.claims == map[]
    ensures ClaimRead("c", stale) in s.claimReads && stale.pool == "p" && Unguarded(stale)
  {
    s, pod, stale := RestoringStored();
    s := Reach(s, DeleteClaim("c"));
    s := Begins(s, "c", s.claims["c"]);
    s := ReleasesNothing(s, s.workers[0]);
  }

  lemma ReleasesNothing(s: State, k: Worker) returns (s': State)
    requires Reachable(s) && s.workers == map[0 := k] && k.pc.Decide? && k.copy.deleting && k.copy.finalizer
    requires s.claims == map[k.claim := k.copy] && forall n :: !Labelled(s, n, k.claim)
    ensures Reachable(s') && s' == s.(workers := map[], claims := map[])
  {
    s' := Reach(s, ListClaimed(0, []));
    s' := Reach(s', DropFinalizer(0, Applied));
    assert s'.workers == map[] && s'.claims == map[];
  }

  // So the condition on copies is needed: a pass over the stale Restoring copy
  // makes no guarded write and labels a pod for a claim that no longer exists,
  // which nobody will release.
  lemma StaleCopyStrandsPod() returns (s: State, pod: string)
    ensures Reachable(s) && pod in s.pods && s.pods[pod].owner.Some? && s.pods[pod].owner.value !in s.claims
  {
    var h, stale;
    s, h, stale := Released();
    s := Begins(s, "c", stale);
    s := Finalizes(s, s.workers[0]);
    s := Selects(s, s.workers[0], PodRead("h", h));
    s := Reach(s, MarkPod(0, Applied));
    pod := "h";
  }

  // ------------------------------------------------ exactly when a pass can strand

  ghost predicate Works(s: State, w: nat, claim: string) { w in s.workers && s.workers[w].claim == claim }

  // The step in which worker w labels the pod.
  ghost predicate LabelStep(s: State, s': State, w: nat, pod: string) {
    exists reply :: LabelledBy(s, s', w, pod, reply)
  }

  ghost predicate LabelledBy(s: State, s': State, w: nat, pod: string, reply: Reply) {
    && !reply.Refused? && Enabled(s, MarkPod(w, reply)) && s' == Apply(s, MarkPod(w, reply))
    && s.workers[w].pc.target.name == pod
  }

  // Serialised steps from s on, during which the pass of worker w over the claim
  // goes on until it labels the pod.
  ghost predicate PassLabels(path: seq<State>, s: State, w: nat, claim: string, pod: string) {
    && |path| > 1 && path[0] == s
    && (forall i :: 0 < i < |path| ==> SerialAt(path, i))
    && (forall i :: 0 <= i < |path| - 1 ==> Works(path[i], w, claim))
    && LabelStep(path[|path| - 2], path[|path| - 1], w, pod)
  }

  // The pass can label the pod for a claim that does not have its finalizer.
  ghost predicate CanStrand(s: State, w: nat, claim: string, pod: string) {
    exists path :: PassLabels(path, s, w, claim, pod) && !Finalized(path[|path| - 1], claim)
  }

  // Serialised runs are runs.
  lemma {:induction false} SerialRunKeeps(run: seq<State>, i: nat)
    requires SerialRun(run) && i < |run|
    ensures Inv(run[i]) && Serial(run[i])
  {
    if i > 0 {
      SerialRunKeeps(run, i - 1);
      assert SerialAt(run, i);
      var a :| Enabled(run[i - 1], a) && Serialised(run[i - 1], a) && run[i] == Apply(run[i - 1], a);
      StepKeeps(run[i - 1], a);
      SerialKeeps(run[i - 1], a);
    }
  }

  lemma SerialKeeps(s: State, a: Action)
    requires Serial(s) && Enabled(s, a) && Serialised(s, a)
    ensures Serial(Apply(s, a))
  {
    if !a.Begin? { WorkersStay(s, a); }
  }

  // A worker keeps to its claim.
  lemma WorkersStay(s: State, a: Action)
    requires Enabled(s, a) && !a.Begin?
    ensures var s' := Apply(s, a);
      forall i :: i in s'.workers ==> i in s.workers && s'.workers[i].claim == s.workers[i].claim
  {
  }

  // ------------------------------------ with the finalizer the pass strands nothing

  // The pass works from a copy with the finalizer that is not deleting, so it
  // never comes to remove the finalizer.
  ghost predicate Keeper(s: State, w: nat, claim: string) {
    && Works(s, w, claim) && s.workers[w].copy.finalizer && !s.workers[w].copy.deleting
    && !s.workers[w].pc.Release? && !s.workers[w].pc.Unfinalize?
  }

  predicate OfWorker(a: Action) {
    !(a.CreatePod? || a.UpdatePodStatus? || a.MarkTerminating? || a.RemovePod?
      || a.CreateClaim? || a.EditClaim? || a.DeleteClaim? || a.Begin?)
  }

  // Nobody else has anything to do with the claim ...
  lemma OthersLeave(s: State, a: Action, w: nat, claim: string)
    requires Serial(s) && Works(s, w, claim) && Enabled(s, a) && OfWorker(a) && a.w != w && Finalized(s, claim)
    ensures Finalized(Apply(s, a), claim) && Works(Apply(s, a), w, claim) && Apply(s, a).workers[w] == s.workers[w]
  {
    assert a.w in s.workers && s.workers[a.w].claim != claim;
  }

  // ... and users and the cluster do not take the finalizer away.
  lemma WorldLeaves(s: State, a: Action, w: nat, claim: string)
    requires Works(s, w, claim) && Enabled(s, a) && !OfWorker(a) && Finalized(s, claim)
    ensures Finalized(Apply(s, a), claim) && Works(Apply(s, a), w, claim) && Apply(s, a).workers[w] == s.workers[w]
  {
  }

  lemma KeeperSteps(s: State, a: Action, w: nat, claim: string)
    requires Keeper(s, w, claim) && Enabled(s, a) && OfWorker(a) && a.w == w && Finalized(s, claim)
    ensures Finalized(Apply(s, a), claim) && (w in Apply(s, a).workers ==> Keeper(Apply(s, a), w, claim))
  {
  }

  lemma KeptFinalized(s: State, a: Action, w: nat, claim: string)
    requires Serial(s) && Keeper(s, w, claim) && Finalized(s, claim) && Enabled(s, a)
    ensures Finalized(Apply(s, a), claim) && (w in Apply(s, a).workers ==> Keeper(Apply(s, a), w, claim))
  {
    if !OfWorker(a) { WorldLeaves(s, a, w, claim); }
    else if a.w != w { OthersLeave(s, a, w, claim); }
    else { KeeperSteps(s, a, w, claim); }
  }

  lemma {:induction false} PathKeepsFinalizer(path: seq<State>, s: State, w: nat, claim: string, pod: string, i: nat)
    requires PassLabels(path, s, w, claim, pod) && i < |path|
    requires Serial(s) && Keeper(s, w, claim) && Finalized(s, claim)
    ensures Serial(path[i]) && Finalized(path[i], claim) && (i < |path| - 1 ==> Keeper(path[i], w, claim))
  {
    if i > 0 {
      PathKeepsFinalizer(path, s, w, claim, pod, i - 1);
      assert SerialAt(path, i);
      var a :| Enabled(path[i - 1], a) && Serialised(path[i - 1], a) && path[i] == Apply(path[i - 1], a);
      SerialKeeps(path[i - 1], a);
      KeptFinalized(path[i - 1], a, w, claim);
      assert i < |path| - 1 ==> Works(path[i], w, claim);
    }
  }

  // ------------------------------------------------- without it the pass can strand

  lemma LabelsAtOnce(s: State, w: nat, k: Worker, r: PodRead)
    requires w in s.workers && s.workers[w] == k && k.pc.Decide? && Unguarded(k.copy)
    requires r in s.podReads && r.name in s.pods && s.pods[r.name] == r.pod && Dormant(r, k.copy.pool)
    requires !Finalized(s, k.claim)
    ensures CanStrand(s, w, k.claim, r.name)
  {
    var s1 := SetWorker(s, w, k.(pc := Select));
    var s2 := SetWorker(s1, w, k.(pc := Mark(r)));
    OnlyOne(r, k.copy.pool);
    SelectsNow(s, w, k);
    MarksNow(s1, w, k.(pc := Select), r);
    var s3 := Apply(s2, MarkPod(w, Applied));
    var path := [s, s1, s2, s3];
    assert LabelledBy(s2, s3, w, r.name, Applied) && SerialNext(s2, s3);
    assert SerialAt(path, 1) && SerialAt(path, 2) && SerialAt(path, 3);
    assert Works(path[0], w, k.claim) && Works(path[1], w, k.claim) && Works(path[2], w, k.claim);
    assert PassLabels(path, s, w, k.claim, r.name);
    assert !Finalized(s3, k.claim);
  }

  lemma SelectsNow(s: State, w: nat, k: Worker)
    requires w in s.workers && s.workers[w] == k && k.pc.Decide? && Unguarded(k.copy)
    ensures SerialNext(s, SetWorker(s, w, k.(pc := Select)))
  {
    assert Enabled(s, AddFinalizer(w, Applied)) && Serialised(s, AddFinalizer(w, Applied));
    assert Apply(s, AddFinalizer(w, Applied)) == SetWorker(s, w, k.(pc := Select));
  }

  lemma MarksNow(s: State, w: nat, k: Worker, r: PodRead)
    requires w in s.workers && s.workers[w] == k && k.pc.Select? && k.copy.phase.Restoring?
    requires r in s.podReads && Dormant(r, k.copy.pool)
    ensures SerialNext(s, SetWorker(s, w, k.(pc := Mark(r))))
  {
    OnlyOne(r, k.copy.pool);
    var a := SelectPod(w, [r], Applied);
    assert Enabled(s, a) && Serialised(s, a) && Apply(s, a) == SetWorker(s, w, k.(pc := Mark(r)));
  }

  // A pass begun on such a copy, when there is a dormant pod of its pool, can
  // strand that pod if and only if the claim does not have its finalizer then:
  // from any state of any serialised run.
  lemma StrandsExactlyWithoutFinalizer(s: State, w: nat, name: string, copy: Claim, pod: string)
    requires Reachable(s) && Enabled(s, Begin(w, name, copy)) && Idle(s, name) && Unguarded(copy)
    requires pod in s.pods && Dormant(PodRead(pod, s.pods[pod]), copy.pool)
    ensures CanStrand(Apply(s, Begin(w, name, copy)), w, name, pod) <==> !Finalized(s, name)
  {
    var run :| SerialRun(run) && run[|run| - 1] == s;
    SerialRunKeeps(run, |run| - 1);
    var s1 := Apply(s, Begin(w, name, copy));
    SerialKeeps(s, Begin(w, name, copy));
    if Finalized(s, name) {
      forall path | PassLabels(path, s1, w, name, pod) ensures Finalized(path[|path| - 1], name) {
        PathKeepsFinalizer(path, s1, w, name, pod, |path| - 1);
      }
    } else {
      LabelsAtOnce(s1, w, Worker(name, copy, Decide), PodRead(pod, s.pods[pod]));
    }
  }

  // ------------------------------------------------------------ a release succeeds

  // The release of worker w stands at the pods in `left`, and has removed those in
  // `gone` and changed nothing else since s.
  ghost predicate Releasing(s: State, m: State, w: nat, k: Worker, gone: set<string>) {
    && Leads(s, m) && w !in s.workers && m.workers == s.workers[w := k]
    && m.claims == s.claims && m.pods == s.pods - gone
    && k.claim in s.claims && k.copy == s.claims[k.claim]
  }

  lemma {:induction false} DeletesAll(s: State, m: State, w: nat, k: Worker, gone: set<string>, left: set<string>)
      returns (m': State, k': Worker)
    requires Releasing(s, m, w, k, gone) && k.pc == ReleaseOf(left)
    ensures Releasing(s, m', w, k', gone + left) && k' == k.(pc := Unfinalize)
    decreases |left|
  {
    if left == {} {
      assert gone + left == gone;
      m', k' := m, k;
    } else {
      var n :| n in left;
      var a := DeleteClaimed(w, n, Applied);
      LeadsNext(s, m, a);
      var m1, k1 := Apply(m, a), k.(pc := ReleaseOf(left - {n}));
      assert s.workers[w := k][w := k1] == s.workers[w := k1];
      assert s.pods - gone - {n} == s.pods - (gone + {n});
      m', k' := DeletesAll(s, m1, w, k1, gone + {n}, left - {n});
      assert gone + {n} + (left - {n}) == gone + left;
    }
  }

  function OwnedBy(pods: map<string, Pod>, claim: string): set<string> {
    set n | n in pods && pods[n].owner == Some(claim)
  }

  lemma ReleaseLists(s: State, w: nat, name: string, list: seq<PodRead>) returns (m: State, k: Worker)
    requires w !in s.workers && name in s.claims && ClaimRead(name, s.claims[name]) in s.claimReads
    requires s.claims[name].deleting && s.claims[name].finalizer
    requires forall r :: r in list <==> r.name in s.pods && s.pods[r.name] == r.pod
    requires forall r :: r in list ==> r in s.podReads
    ensures Releasing(s, m, w, k, {}) && k.claim == name && k.pc == ReleaseOf(OwnedBy(s.pods, name))
  {
    var m0, k0 := PassBegins(s, w, name);
    ListsLabelled(s.pods, list, name);
    LeadsNext(s, m0, ListClaimed(w, list));
    m, k := Apply(m0, ListClaimed(w, list)), k0.(pc := ReleaseOf(OwnedBy(s.pods, name)));
    assert s.workers[w := k0][w := k] == s.workers[w := k] && s.pods - {} == s.pods;
    assert s.claims[name := s.claims[name]] == s.claims;
  }

  lemma ReleaseEnds(s: State, m: State, w: nat, k: Worker, gone: set<string>) returns (s': State)
    requires Releasing(s, m, w, k, gone) && k.pc.Unfinalize?
    ensures Leads(s, s') && s'.workers == s.workers && s'.claims == s.claims - {k.claim} && s'.pods == s.pods - gone
  {
    LeadsNext(s, m, DropFinalizer(w, Applied));
    s' := Apply(m, DropFinalizer(w, Applied));
    assert s.workers[w := k] - {w} == s.workers;
  }

  // A release that reads the claim as it is, lists the pods as they are and whose
  // writes go through removes the claim and exactly the pods it labelled.
  lemma ClaimReleased(s: State, w: nat, name: string, list: seq<PodRead>) returns (s': State)
    requires w !in s.workers && name in s.claims && ClaimRead(name, s.claims[name]) in s.claimReads
    requires s.claims[name].deleting && s.claims[name].finalizer
    requires forall r :: r in list <==> r.name in s.pods && s.pods[r.name] == r.pod
    requires forall r :: r in list ==> r in s.podReads
    ensures Leads(s, s') && s'.workers == s.workers && s'.claims == s.claims - {name}
    ensures s'.pods == map n | n in s.pods && s.pods[n].owner != Some(name) :: s.pods[n]
  {
    var m, k := ReleaseLists(s, w, name, list);
    var left := OwnedBy(s.pods, name);
    m, k := DeletesAll(s, m, w, k, {}, left);
    assert {} + left == left;
    s' := ReleaseEnds(s, m, w, k, left);
  }

  lemma ListsLabelled(pods: map<string, Pod>, list: seq<PodRead>, claim: string)
    requires forall r :: r in list <==> r.name in pods && pods[r.name] == r.pod
    ensures (set r | r in list && r.pod.owner == Some(claim) :: r.name) == OwnedBy(pods, claim)
  {
    forall n | n in OwnedBy(pods, claim) ensures exists r :: r in list && r.pod.owner == Some(claim) && r.name == n {
      assert PodRead(n, pods[n]) in list;
    }
  }

  // -------------------------------------------------- a name given to a second pod

  // While a release is under way its pod goes away and another one gets its name
  // and is taken by another claim: the release removes it.
  lemma ReusedNameReleasesOther() returns (s: State, w: nat, name: string)
    ensures Reachable(s) && Enabled(s, DeleteClaimed(w, name, Applied)) && name in s.pods
    ensures s.pods[name].owner.Some? && s.pods[name].owner.value != s.workers[w].claim
  {
    s := OneTaken();
    w, name := 0, "h";
    s := Reach(s, RemovePod("h"));
    s := Reach(s, CreatePod("h", "p"));
    s := Reach(s, UpdatePodStatus("h", true));
    s := TakenByOther(s);
  }

  // Claim c has taken pod h and its release has listed it.
  lemma OneTaken() returns (s: State)
    ensures Reachable(s) && s.workers.Keys == {0} && s.workers[0].claim == "c" && s.workers[0].pc == Release({"h"})
    ensures "h" in s.pods && "d" !in s.claims
  {
    s := TakenByFirst();
    s := Reach(s, DeleteClaim("c"));
    s := ListsOne(s, s.pods["h"]);
  }

  lemma TakenByFirst() returns (s: State)
    ensures Reachable(s) && s.workers == map[] && s.pods.Keys == {"h"} && s.pods["h"].owner == Some("c")
    ensures PodRead("h", s.pods["h"]) in s.podReads && s.claims.Keys == {"c"} && s.claims["c"].finalizer
  {
    var pod, claim;
    s, pod, claim := PodAndClaim();
    s := Begins(s, "c", claim);
    s := Finalizes(s, s.workers[0]);
    s := Selects(s, s.workers[0], PodRead("h", pod));
    s := Reach(s, MarkPod(0, Applied));
    s := Reach(s, Stop(0));
    assert s.workers == map[];
  }

  lemma ListsOne(s: State, taken: Pod) returns (s': State)
    requires Reachable(s) && s.workers == map[] && s.pods == map["h" := taken] && taken.owner == Some("c")
    requires PodRead("h", taken) in s.podReads && s.claims.Keys == {"c"}
    requires s.claims["c"].deleting && s.claims["c"].finalizer && ClaimRead("c", s.claims["c"]) in s.claimReads
    ensures Reachable(s') && s'.workers.Keys == {0} && s'.workers[0].claim == "c" && s'.workers[0].pc == Release({"h"})
    ensures s'.pods == s.pods && s'.claims == s.claims
  {
    s' := Begins(s, "c", s.claims["c"]);
    var list := [PodRead("h", taken)];
    s' := Reach(s', ListClaimed(0, list));
    assert (set r | r in list && r.pod.owner == Some("c") :: r.name) == {"h"};
  }

  // Claim d takes the pod that has the name now.
  lemma TakenByOther(s: State) returns (s': State)
    requires Reachable(s) && s.workers.Keys == {0} && s.workers[0].claim == "c" && "d" !in s.claims
    requires "h" in s.pods && PodRead("h", s.pods["h"]) in s.podReads && Dormant(PodRead("h", s.pods["h"]), "p")
    ensures Reachable(s') && 0 in s'.workers && s'.workers[0] == s.workers[0]
    ensures "h" in s'.pods && s'.pods["h"].owner == Some("d")
  {
    s' := OtherSelects(s);
    s' := Reach(s', MarkPod(1, Applied));
  }

  lemma OtherBegins(s: State) returns (s': State)
    requires Reachable(s) && s.workers.Keys == {0} && s.workers[0].claim == "c" && "d" !in s.claims
    ensures Reachable(s') && s'.pods == s.pods && s'.podReads == s.podReads
    ensures 0 in s'.workers && s'.workers[0] == s.workers[0] && 1 in s'.workers && s'.workers[1].claim == "d"
    ensures s'.workers[1].pc.Select? && s'.workers[1].copy.pool == "p" && CanUpdate(s', s'.workers[1])
  {
    s' := Reach(s, CreateClaim("d", "p"));
    s' := Reach(s', Begin(1, "d", s'.claims["d"]));
    s' := Reach(s', AddFinalizer(1, Applied));
  }

  lemma OtherSelects(s: State) returns (s': State)
    requires Reachable(s) && s.workers.Keys == {0} && s.workers[0].claim == "c" && "d" !in s.claims
    requires "h" in s.pods && PodRead("h", s.pods["h"]) in s.podReads && Dormant(PodRead("h", s.pods["h"]), "p")
    ensures Reachable(s') && s'.pods == s.pods && 0 in s'.workers && s'.workers[0] == s.workers[0]
    ensures 1 in s'.workers && s'.workers[1].claim == "d" && s'.workers[1].pc == Mark(PodRead("h", s.pods["h"]))
  {
    var r := PodRead("h", s.pods["h"]);
    s' := OtherBegins(s);
    OnlyOne(r, "p");
    s' := Reach(s', SelectPod(1, [r], Applied));
  }
}
