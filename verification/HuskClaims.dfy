/**
 The husk claim protocol (internal/controller/sandboxclaim_controller.go,
 internal/controller/huskpod.go, internal/controller/huskdrain.go) as a
 transition system: an API server holding versioned claims and pods, any number
 of reconcile workers that may crash anywhere, reads that may be stale, and
 writes whose reply may be lost.
 */
module HuskClaims {
  import opened Wrappers
  import opened Utf8

  datatype Phase = Pending | Restoring | Ready | Failed | Terminated

  // A warm pod; `owner` is its claim label.  `uid` names the incarnation: a later pod of the same name has another.
  datatype Pod = Pod(uid: nat, version: nat, pool: string, owner: Option<string>, terminating: bool, ready: bool)

  datatype PodRead = PodRead(name: string, pod: Pod)

  // Status.SandboxID, and the incarnation Status.Endpoint addresses.
  datatype Binding = Binding(pod: string, uid: nat)

  datatype Claim =
    Claim(version: nat, pool: string, deleting: bool, finalizer: bool, phase: Phase, bound: Option<Binding>)

  datatype ClaimRead = ClaimRead(name: string, claim: Claim)

  // Where a reconcile pass stands; `copy` is the claim object it holds.
  datatype Pc =
    | Decide                                // the claim was read
    | Select                                // the finalizer is on; about to list pods
    | Mark(target: PodRead)                 // Restoring is recorded; about to label the pod
    | Dial(pod: string, uid: nat)           // the label patch won; about to activate
    | Publish(pod: string, uid: nat)        // activation succeeded; about to write Ready
    | GiveUp(phase: Phase, unbind: bool)    // about to make a best-effort status write
    | Repend                                // the bound pod is lost
    | Release(left: set<string>)            // deleting the labelled pods
    | Unfinalize                            // all deleted; about to remove the finalizer

  datatype Worker = Worker(claim: string, copy: Claim, pc: Pc)

  // A claim takes an incarnation of a pod, by the name it has; and what came of
  // asking it to activate.
  datatype Event = Event(uid: nat, claim: string, pod: string)
  datatype Activation = Activation(event: Event, ok: bool)

  datatype State = State(
    pods: map<string, Pod>,
    podReads: set<PodRead>,       // every pod version ever stored
    claims: map<string, Claim>,
    claimReads: set<ClaimRead>,   // every claim version ever stored
    rev: nat,                     // last version issued
    nextUid: nat,
    workers: map<nat, Worker>,
    labelled: seq<Event>,         // label patches that took effect
    activated: seq<Activation>)   // Activate requests sent, with their answers

  // A write takes effect or not, and its reply arrives or not.
  datatype Reply = Applied | AppliedButLost | Refused

  datatype Action =
    | CreatePod(name: string, pool: string)
    | UpdatePodStatus(name: string, ready: bool)
    | MarkTerminating(name: string)
    | RemovePod(name: string)
    | CreateClaim(name: string, pool: string)
    | EditClaim(name: string)
    | DeleteClaim(name: string)
    | Begin(w: nat, name: string, copy: Claim)
    | Stop(w: nat)
    | AddFinalizer(w: nat, reply: Reply)
    | CheckLost(w: nat, seen: Option<Pod>)
    | Expire(w: nat, reply: Reply)
    | RependClaim(w: nat, reply: Reply)
    | SelectPod(w: nat, list: seq<PodRead>, reply: Reply)
    | FailSecrets(w: nat)
    | MarkPod(w: nat, reply: Reply)
    | Activate(w: nat, ok: bool)
    | WriteReady(w: nat, reply: Reply)
    | WriteGiveUp(w: nat, reply: Reply)
    | ListClaimed(w: nat, list: seq<PodRead>)
    | DeleteClaimed(w: nat, name: string, reply: Reply)
    | DropFinalizer(w: nat, reply: Reply)

  // ------------------------------------------------------------- selection

  predicate Dormant(r: PodRead, pool: string) {
    r.pod.pool == pool && !r.pod.terminating && r.pod.owner.None? && r.pod.ready
  }

  // A pod a claim may take.
  ghost predicate Usable(p: Pod, pool: string) { p.ready && !p.terminating && p.owner.None? && p.pool == pool }

  // selectDormantHuskPod: the usable dormant pod with the lowest name.
  function SelectDormant(list: seq<PodRead>, pool: string): (r: Option<PodRead>)
    ensures r.Some? ==> r.value in list && Dormant(r.value, pool)
    ensures r.Some? ==> forall q :: q in list && Dormant(q, pool) ==> !Less(q.name, r.value.name)
    ensures r.None? ==> forall q :: q in list ==> !Dormant(q, pool)
  {
    if list == [] then None
    else
      var rest, last := SelectDormant(list[..|list| - 1], pool), list[|list| - 1];
      if !Dormant(last, pool) then rest
      else if rest.None? then (LessIsStrictTotal(last.name, last.name); Some(last))
      else if Less(last.name, rest.value.name) then (LowestStep(list[..|list| - 1], pool, rest.value, last); Some(last))
      else rest
  }

  lemma LowestStep(list: seq<PodRead>, pool: string, best: PodRead, last: PodRead)
    requires Less(last.name, best.name)
    requires forall q :: q in list && Dormant(q, pool) ==> !Less(q.name, best.name)
    ensures forall q :: q in list && Dormant(q, pool) ==> !Less(q.name, last.name)
    ensures !Less(last.name, last.name)
  {
    LessIsStrictTotal(last.name, last.name);
    forall q | q in list && Dormant(q, pool) ensures !Less(q.name, last.name) {
      LessIsStrictTotal(q.name, best.name);
      if Less(q.name, last.name) {
        BytesLessTransitive(Encode(q.name), Encode(last.name), Encode(best.name));
      }
    }
  }

  // A pod is found whenever one is ready, not terminating, not labelled and of the
  // pool; it is one of those and has the lowest name of them.
  lemma SelectsLowestUsable(list: seq<PodRead>, pool: string)
    ensures SelectDormant(list, pool).Some? <==> exists q :: q in list && Usable(q.pod, pool)
    ensures var r := SelectDormant(list, pool);
      && (r.Some? ==> r.value in list && Usable(r.value.pod, pool))
      && (r.Some? ==> forall q :: q in list && Usable(q.pod, pool) ==> !Less(q.name, r.value.name))
  {
    var r := SelectDormant(list, pool);
    if r.None? {
      forall q | q in list ensures !Usable(q.pod, pool) { assert !Dormant(q, pool); }
    } else {
      forall q | q in list && Usable(q.pod, pool) ensures !Less(q.name, r.value.name) { assert Dormant(q, pool); }
    }
  }

  // checkHuskPodLost, given what the Get of the bound pod returned.
  predicate Lost(claim: string, seen: Option<Pod>) {
    seen.None? || seen.value.owner != Some(claim) || seen.value.terminating
  }

  // ---------------------------------------------------------------- writes

  // Store a pod under the next version.
  function PutPod(s: State, name: string, pod: Pod): State {
    var p := pod.(version := s.rev + 1);
    s.(pods := s.pods[name := p], podReads := s.podReads + {PodRead(name, p)}, rev := s.rev + 1)
  }

  function PutClaim(s: State, name: string, claim: Claim): State {
    var c := claim.(version := s.rev + 1);
    s.(claims := s.claims[name := c], claimReads := s.claimReads + {ClaimRead(name, c)}, rev := s.rev + 1)
  }

  // The API server accepts an update only against the current version.
  predicate CanUpdate(s: State, w: Worker) {
    w.claim in s.claims && s.claims[w.claim].version == w.copy.version
  }

  function SetWorker(s: State, id: nat, w: Worker): State {
    s.(workers := s.workers[id := w])
  }

  function DropWorker(s: State, id: nat): State {
    s.(workers := s.workers - {id})
  }

  // Update the claim from the worker's copy; go on at `pc` if the reply says so,
  // otherwise end the pass.
  function UpdateClaim(s: State, id: nat, w: Worker, claim: Claim, reply: Reply, pc: Pc): State {
    match reply
    case Refused => DropWorker(s, id)
    case AppliedButLost => DropWorker(PutClaim(s, w.claim, claim), id)
    case Applied => SetWorker(PutClaim(s, w.claim, claim), id, w.(copy := claim.(version := s.rev + 1), pc := pc))
  }

  // The last write of a pass: nothing depends on its reply.
  function FinalUpdate(s: State, id: nat, w: Worker, claim: Claim, reply: Reply): State {
    if reply.Refused? then DropWorker(s, id) else DropWorker(PutClaim(s, w.claim, claim), id)
  }

  // ----------------------------------------------------------------- steps

  predicate At(s: State, id: nat) { id in s.workers }

  ghost predicate Enabled(s: State, a: Action) {
    match a
    case CreatePod(name, _) => name !in s.pods
    case UpdatePodStatus(name, _) => name in s.pods
    case MarkTerminating(name) => name in s.pods
    case RemovePod(name) => name in s.pods
    case CreateClaim(name, _) => name !in s.claims && name != ""
    case EditClaim(name) => name in s.claims
    case DeleteClaim(name) => name in s.claims
    case Begin(w, name, copy) => w !in s.workers && ClaimRead(name, copy) in s.claimReads
    case Stop(w) => At(s, w)
    case AddFinalizer(w, reply) =>
      At(s, w) && s.workers[w].pc.Decide? && !s.workers[w].copy.deleting
      && (s.workers[w].copy.phase.Pending? || s.workers[w].copy.phase.Restoring?)
      && (s.workers[w].copy.finalizer ==> reply.Applied?)
      && (!reply.Refused? && !s.workers[w].copy.finalizer ==> CanUpdate(s, s.workers[w]))
    case CheckLost(w, seen) =>
      At(s, w) && s.workers[w].pc.Decide? && !s.workers[w].copy.deleting && s.workers[w].copy.phase.Ready?
      && s.workers[w].copy.bound.Some?
      && (seen.Some? ==> PodRead(s.workers[w].copy.bound.value.pod, seen.value) in s.podReads)
      && Lost(s.workers[w].claim, seen)
    case Expire(w, reply) =>
      At(s, w) && s.workers[w].pc.Decide? && !s.workers[w].copy.deleting && s.workers[w].copy.phase.Ready?
      && (!reply.Refused? ==> CanUpdate(s, s.workers[w]))
    case RependClaim(w, reply) =>
      At(s, w) && s.workers[w].pc.Repend? && (!reply.Refused? ==> CanUpdate(s, s.workers[w]))
    case SelectPod(w, list, reply) =>
      At(s, w) && s.workers[w].pc.Select? && (forall r :: r in list ==> r in s.podReads)
      && (s.workers[w].copy.phase.Restoring? ==> reply.Applied?)
      && (!reply.Refused? && !s.workers[w].copy.phase.Restoring? ==> CanUpdate(s, s.workers[w]))
    case FailSecrets(w) => At(s, w) && (s.workers[w].pc.Mark? || s.workers[w].pc.Publish?)
    case MarkPod(w, reply) =>
      At(s, w) && s.workers[w].pc.Mark?
      && (!reply.Refused? ==>
            var t := s.workers[w].pc.target;
            t.name in s.pods && s.pods[t.name].version == t.pod.version)
    case Activate(w, _) => At(s, w) && s.workers[w].pc.Dial?
    case WriteReady(w, reply) =>
      At(s, w) && s.workers[w].pc.Publish? && (!reply.Refused? ==> CanUpdate(s, s.workers[w]))
    case WriteGiveUp(w, reply) =>
      At(s, w) && s.workers[w].pc.GiveUp? && (!reply.Refused? ==> CanUpdate(s, s.workers[w]))
    case ListClaimed(w, list) =>
      At(s, w) && s.workers[w].pc.Decide? && s.workers[w].copy.deleting && s.workers[w].copy.finalizer
      && forall r :: r in list ==> r in s.podReads
    case DeleteClaimed(w, name, _) => At(s, w) && s.workers[w].pc.Release? && name in s.workers[w].pc.left
    case DropFinalizer(w, reply) =>
      At(s, w) && s.workers[w].pc.Unfinalize? && (!reply.Refused? ==> CanUpdate(s, s.workers[w]))
  }

  function Apply(s: State, a: Action): State
    requires Enabled(s, a)
  {
    match a
    case CreatePod(name, pool) =>
      PutPod(s, name, Pod(s.nextUid, 0, pool, None, false, false)).(nextUid := s.nextUid + 1)
    case UpdatePodStatus(name, ready) => PutPod(s, name, s.pods[name].(ready := ready))
    case MarkTerminating(name) => PutPod(s, name, s.pods[name].(terminating := true))
    case RemovePod(name) => s.(pods := s.pods - {name})
    case CreateClaim(name, pool) => PutClaim(s, name, Claim(0, pool, false, false, Pending, None))
    case EditClaim(name) => PutClaim(s, name, s.claims[name])
    case DeleteClaim(name) =>
      if s.claims[name].finalizer then PutClaim(s, name, s.claims[name].(deleting := true))
      else s.(claims := s.claims - {name})
    case Begin(w, name, copy) => SetWorker(s, w, Worker(name, copy, Decide))
    case Stop(w) => DropWorker(s, w)
    case AddFinalizer(w, reply) =>
      var k := s.workers[w];
      if k.copy.finalizer then SetWorker(s, w, k.(pc := Select))
      else UpdateClaim(s, w, k, k.copy.(finalizer := true), reply, Select)
    case CheckLost(w, seen) => SetWorker(s, w, s.workers[w].(pc := Repend))
    case Expire(w, reply) => FinalUpdate(s, w, s.workers[w], s.workers[w].copy.(phase := Terminated), reply)
    case RependClaim(w, reply) =>
      FinalUpdate(s, w, s.workers[w], s.workers[w].copy.(phase := Pending, bound := None), reply)
    case SelectPod(w, list, reply) =>
      var k := s.workers[w];
      var chosen := SelectDormant(list, k.copy.pool);
      if chosen.None? then SetWorker(s, w, k.(pc := GiveUp(Pending, true)))
      else if k.copy.phase.Restoring? then SetWorker(s, w, k.(pc := Mark(chosen.value)))
      else UpdateClaim(s, w, k, k.copy.(phase := Restoring), reply, Mark(chosen.value))
    case FailSecrets(w) => SetWorker(s, w, s.workers[w].(pc := GiveUp(Failed, false)))
    case MarkPod(w, reply) =>
      var k := s.workers[w];
      var t := k.pc.target;
      if reply.Refused? then SetWorker(s, w, k.(pc := GiveUp(Pending, false)))
      else
        var s1 := PutPod(s, t.name, s.pods[t.name].(owner := Some(k.claim)))
                  .(labelled := s.labelled + [Event(t.pod.uid, k.claim, t.name)]);
        if reply.Applied? then SetWorker(s1, w, k.(pc := Dial(t.name, t.pod.uid))) else DropWorker(s1, w)
    case Activate(w, ok) =>
      var k := s.workers[w];
      SetWorker(s, w, k.(pc := if ok then Publish(k.pc.pod, k.pc.uid) else GiveUp(Pending, false)))
        .(activated := s.activated + [Activation(Event(k.pc.uid, k.claim, k.pc.pod), ok)])
    case WriteReady(w, reply) =>
      var k := s.workers[w];
      FinalUpdate(s, w, k, k.copy.(phase := Ready, bound := Some(Binding(k.pc.pod, k.pc.uid))), reply)
    case WriteGiveUp(w, reply) =>
      var k := s.workers[w];
      FinalUpdate(s, w, k, k.copy.(phase := k.pc.phase, bound := if k.pc.unbind then None else k.copy.bound), reply)
    case ListClaimed(w, list) =>
      var k := s.workers[w];
      SetWorker(s, w, k.(pc := ReleaseOf(set r | r in list && r.pod.owner == Some(k.claim) :: r.name)))
    case DeleteClaimed(w, name, reply) =>
      var k := s.workers[w];
      var s1 := if reply.Refused? then s else s.(pods := s.pods - {name});
      if reply.Applied? then SetWorker(s1, w, k.(pc := ReleaseOf(k.pc.left - {name}))) else DropWorker(s1, w)
    case DropFinalizer(w, reply) =>
      var k := s.workers[w];
      if reply.Refused? then DropWorker(s, w)
      else DropWorker(s.(claims := s.claims - {k.claim}), w)
  }

  // Once nothing is left to delete the pass goes on to the finalizer.
  function ReleaseOf(left: set<string>): Pc {
    if left == {} then Unfinalize else Release(left)
  }

  ghost predicate Init(s: State) {
    s == State(map[], {}, map[], {}, 0, 0, map[], [], [])
  }

  ghost predicate Next(s: State, s': State) {
    exists a :: Enabled(s, a) && s' == Apply(s, a)
  }

  ghost predicate StepAt(run: seq<State>, i: int) { 0 < i < |run| && Next(run[i - 1], run[i]) }

  ghost predicate Run(run: seq<State>) {
    run != [] && Init(run[0]) && forall i :: 0 < i < |run| ==> StepAt(run, i)
  }

  // --------------------------------------------------------------- invariant

  ghost predicate PodsKnown(s: State) {
    && (forall n :: n in s.pods ==> PodRead(n, s.pods[n]) in s.podReads)
    && (forall r :: r in s.podReads ==> r.pod.version <= s.rev && r.pod.uid < s.nextUid)
    && (forall r, q :: r in s.podReads && q in s.podReads && r.pod.version == q.pod.version ==> r == q)
    && (forall r, q :: r in s.podReads && q in s.podReads && r.pod.uid == q.pod.uid ==> r.name == q.name)
  }

  // One event per incarnation.
  ghost predicate OncePerPod(log: seq<Event>) {
    forall i, j :: 0 <= i < j < |log| ==> log[i].uid != log[j].uid
  }

  ghost predicate LabelsLogged(s: State) {
    && OncePerPod(s.labelled)
    && (forall e :: e in s.labelled ==> e.uid < s.nextUid)
    && (forall n, e :: n in s.pods && e in s.labelled && e.uid == s.pods[n].uid ==> s.pods[n].owner == Some(e.claim))
    && (forall r :: r in s.podReads && r.pod.owner.Some? ==>
          Event(r.pod.uid, r.pod.owner.value, r.name) in s.labelled)
  }

  ghost predicate Sent(log: seq<Activation>, uid: nat) {
    exists a :: a in log && a.event.uid == uid
  }

  ghost predicate SentOnce(log: seq<Activation>) {
    forall i, j :: 0 <= i < j < |log| ==> log[i].event.uid != log[j].event.uid
  }

  ghost predicate ActivationsLogged(s: State) {
    && SentOnce(s.activated)
    && (forall a :: a in s.activated ==> a.event in s.labelled)
  }

  // The claim's own Activate of that incarnation, under that name, answered ok.
  ghost predicate Earned(s: State, claim: string, b: Binding) {
    Activation(Event(b.uid, claim, b.pod), true) in s.activated
  }

  // Some stored version of the pod carried the claim's label.
  ghost predicate WasLabelled(s: State, name: string, claim: string) {
    exists p :: PodRead(name, p) in s.podReads && p.owner == Some(claim)
  }

  ghost predicate WorkerSound(s: State, k: Worker) {
    && (k.copy.bound.Some? ==> Earned(s, k.claim, k.copy.bound.value))
    && (k.copy.phase.Ready? ==> k.copy.bound.Some?)
    && (k.pc.Mark? ==> k.pc.target in s.podReads && Usable(k.pc.target.pod, k.copy.pool))
    && (k.pc.Dial? ==> Event(k.pc.uid, k.claim, k.pc.pod) in s.labelled && !Sent(s.activated, k.pc.uid))
    && (k.pc.Publish? ==> Earned(s, k.claim, Binding(k.pc.pod, k.pc.uid)))
    && (k.pc.GiveUp? ==> !k.pc.phase.Ready?)
    && (k.pc.Release? ==> forall n :: n in k.pc.left ==> WasLabelled(s, n, k.claim))
  }

  ghost predicate Dials(s: State, id: nat, uid: nat) {
    id in s.workers && s.workers[id].pc.Dial? && s.workers[id].pc.uid == uid
  }

  ghost predicate WorkersSound(s: State) {
    && (forall id :: id in s.workers ==> WorkerSound(s, s.workers[id]))
    && (forall i, j, uid :: Dials(s, i, uid) && Dials(s, j, uid) ==> i == j)
  }

  ghost predicate ClaimsSound(s: State) {
    && (forall n :: n in s.claims ==> ClaimRead(n, s.claims[n]) in s.claimReads)
    && (forall r :: r in s.claimReads && r.claim.bound.Some? ==> Earned(s, r.name, r.claim.bound.value))
    && (forall r :: r in s.claimReads && r.claim.phase.Ready? ==> r.claim.bound.Some?)
  }

  ghost predicate Inv(s: State) {
    PodsKnown(s) && LabelsLogged(s) && ActivationsLogged(s) && WorkersSound(s) && ClaimsSound(s)
  }

  // Workers only rely on logs and histories that grow.
  lemma WorkersCarry(s: State, s': State)
    requires WorkersSound(s) && s'.workers == s.workers && s'.activated == s.activated
    requires forall r :: r in s.podReads ==> r in s'.podReads
    requires forall e :: e in s.labelled ==> e in s'.labelled
    ensures WorkersSound(s')
  {
    forall id | id in s'.workers ensures WorkerSound(s', s'.workers[id]) {
      assert WorkerSound(s, s.workers[id]);
    }
    forall i, j, uid | Dials(s', i, uid) && Dials(s', j, uid) ensures i == j {
      assert Dials(s, i, uid) && Dials(s, j, uid);
    }
  }

  lemma PutPodKnown(s: State, name: string, pod: Pod)
    requires PodsKnown(s) && name in s.pods && pod.uid == s.pods[name].uid
    ensures PodsKnown(PutPod(s, name, pod))
  {
  }

  // A pod write that keeps its incarnation and its label.
  lemma PutPodKeeps(s: State, name: string, pod: Pod)
    requires Inv(s) && name in s.pods && pod.uid == s.pods[name].uid && pod.owner == s.pods[name].owner
    ensures Inv(PutPod(s, name, pod))
  {
    PutPodKnown(s, name, pod);
    WorkersCarry(s, PutPod(s, name, pod));
  }

  lemma CreatePodKeeps(s: State, name: string, pool: string)
    requires Inv(s) && name !in s.pods
    ensures Inv(Apply(s, CreatePod(name, pool)))
  {
    var s' := Apply(s, CreatePod(name, pool));
    assert PodsKnown(s');
    WorkersCarry(s, s');
  }

  lemma PutClaimKeeps(s: State, name: string, claim: Claim)
    requires Inv(s)
    requires claim.bound.Some? ==> Earned(s, name, claim.bound.value)
    requires claim.phase.Ready? ==> claim.bound.Some?
    ensures Inv(PutClaim(s, name, claim))
  {
    WorkersCarry(s, PutClaim(s, name, claim));
  }

  lemma SetWorkerKeeps(s: State, id: nat, k: Worker)
    requires Inv(s) && WorkerSound(s, k)
    requires k.pc.Dial? ==> forall j :: Dials(s, j, k.pc.uid) ==> j == id
    ensures Inv(SetWorker(s, id, k))
  {
    var s' := SetWorker(s, id, k);
    assert forall i :: i in s'.workers ==> WorkerSound(s', s'.workers[i]);
    forall i, j, uid | Dials(s', i, uid) && Dials(s', j, uid) ensures i == j {
      assert i == id || Dials(s, i, uid);
      assert j == id || Dials(s, j, uid);
    }
  }

  lemma DropWorkerKeeps(s: State, id: nat)
    requires Inv(s)
    ensures Inv(DropWorker(s, id))
  {
    var s' := DropWorker(s, id);
    assert forall i :: i in s'.workers ==> WorkerSound(s', s'.workers[i]);
    assert forall i, uid :: Dials(s', i, uid) ==> Dials(s, i, uid);
  }

  lemma RemoveKeeps(s: State, pods: map<string, Pod>, claims: map<string, Claim>)
    requires Inv(s)
    requires forall n :: n in pods ==> n in s.pods && pods[n] == s.pods[n]
    requires forall n :: n in claims ==> n in s.claims && claims[n] == s.claims[n]
    ensures Inv(s.(pods := pods, claims := claims))
  {
    WorkersCarry(s, s.(pods := pods, claims := claims));
  }

  lemma UpdateClaimKeeps(s: State, id: nat, w: Worker, claim: Claim, reply: Reply, pc: Pc)
    requires Inv(s) && id in s.workers && s.workers[id] == w
    requires claim.bound == w.copy.bound && claim.pool == w.copy.pool && !claim.phase.Ready?
    requires pc.Select? || (pc.Mark? && pc.target in s.podReads && Usable(pc.target.pod, claim.pool))
    ensures Inv(UpdateClaim(s, id, w, claim, reply, pc))
  {
    if reply.Refused? { DropWorkerKeeps(s, id); }
    else if reply.Applied? { StoredAndOn(s, id, w, claim, pc); }
    else { StoredAndOver(s, id, w, claim); }
  }

  lemma StoredAndOn(s: State, id: nat, w: Worker, claim: Claim, pc: Pc)
    requires Inv(s) && id in s.workers && s.workers[id] == w
    requires claim.bound == w.copy.bound && claim.pool == w.copy.pool && !claim.phase.Ready?
    requires pc.Select? || (pc.Mark? && pc.target in s.podReads && Usable(pc.target.pod, claim.pool))
    ensures Inv(SetWorker(PutClaim(s, w.claim, claim), id, w.(copy := claim.(version := s.rev + 1), pc := pc)))
  {
    CopyStoredKeeps(s, id, w, claim);
    AppliedKeeps(PutClaim(s, w.claim, claim), id, w, w.(copy := claim.(version := s.rev + 1), pc := pc));
  }

  lemma StoredAndOver(s: State, id: nat, w: Worker, claim: Claim)
    requires Inv(s) && id in s.workers && s.workers[id] == w && claim.bound == w.copy.bound && !claim.phase.Ready?
    ensures Inv(DropWorker(PutClaim(s, w.claim, claim), id))
  {
    CopyStoredKeeps(s, id, w, claim);
    DropWorkerKeeps(PutClaim(s, w.claim, claim), id);
  }

  lemma CopyStoredKeeps(s: State, id: nat, w: Worker, claim: Claim)
    requires Inv(s) && id in s.workers && s.workers[id] == w && claim.bound == w.copy.bound && !claim.phase.Ready?
    ensures Inv(PutClaim(s, w.claim, claim))
  {
    assert WorkerSound(s, w);
    PutClaimKeeps(s, w.claim, claim);
  }

  lemma AppliedKeeps(s: State, id: nat, w: Worker, k: Worker)
    requires Inv(s) && id in s.workers && s.workers[id] == w && k.claim == w.claim
    requires k.copy.bound == w.copy.bound && !k.copy.phase.Ready?
    requires k.pc.Select? || (k.pc.Mark? && k.pc.target in s.podReads && Usable(k.pc.target.pod, k.copy.pool))
    ensures Inv(SetWorker(s, id, k))
  {
    assert WorkerSound(s, w);
    SetWorkerKeeps(s, id, k);
  }

  lemma FinalUpdateKeeps(s: State, id: nat, w: Worker, claim: Claim, reply: Reply)
    requires Inv(s)
    requires claim.bound.Some? ==> Earned(s, w.claim, claim.bound.value)
    requires claim.phase.Ready? ==> claim.bound.Some?
    ensures Inv(FinalUpdate(s, id, w, claim, reply))
  {
    if reply.Refused? {
      DropWorkerKeeps(s, id);
    } else {
      PutClaimKeeps(s, w.claim, claim);
      DropWorkerKeeps(PutClaim(s, w.claim, claim), id);
    }
  }

  // The state after worker w has won the label patch.
  function LabelledState(s: State, w: nat): State
    requires w in s.workers && s.workers[w].pc.Mark? && s.workers[w].pc.target.name in s.pods
  {
    var k := s.workers[w];
    var t := k.pc.target;
    PutPod(s, t.name, s.pods[t.name].(owner := Some(k.claim)))
      .(labelled := s.labelled + [Event(t.pod.uid, k.claim, t.name)])
  }

  ghost predicate Wins(s: State, w: nat) {
    && w in s.workers && s.workers[w].pc.Mark?
    && var t := s.workers[w].pc.target; t.name in s.pods && s.pods[t.name].version == t.pod.version
  }

  // Winning the version-guarded patch: the pod was unlabelled, so its incarnation is new to the log.
  lemma WinnerIsNew(s: State, w: nat)
    requires Inv(s) && Wins(s, w)
    ensures var t := s.workers[w].pc.target;
      && s.pods[t.name] == t.pod && t.pod.owner.None? && (forall x :: x in s.labelled ==> x.uid != t.pod.uid)
  {
    var t := s.workers[w].pc.target;
    assert WorkerSound(s, s.workers[w]);
    assert PodRead(t.name, s.pods[t.name]) == t;
  }

  lemma LabelLogged(s: State, w: nat)
    requires Inv(s) && Wins(s, w)
    ensures LabelsLogged(LabelledState(s, w))
  {
    WinnerIsNew(s, w);
    var k, t, s1 := s.workers[w], s.workers[w].pc.target, LabelledState(s, w);
    var e := Event(t.pod.uid, k.claim, t.name);
    assert s1.labelled[|s.labelled|] == e;
    assert forall x :: x in s1.labelled <==> x in s.labelled || x == e;
    forall n, x | n in s1.pods && x in s1.labelled && x.uid == s1.pods[n].uid
      ensures s1.pods[n].owner == Some(x.claim)
    {
      assert n == t.name || (PodRead(n, s.pods[n]) in s.podReads && s.pods[n].uid != t.pod.uid);
    }
  }

  lemma LabelKeeps(s: State, w: nat)
    requires Inv(s) && Wins(s, w)
    ensures var s1 := LabelledState(s, w); var uid := s.workers[w].pc.target.pod.uid;
      Inv(s1) && (forall j :: !Dials(s1, j, uid)) && !Sent(s1.activated, uid)
  {
    WinnerIsNew(s, w);
    LabelLogged(s, w);
    var k, t, s1 := s.workers[w], s.workers[w].pc.target, LabelledState(s, w);
    forall j ensures !Dials(s1, j, t.pod.uid) {
      if j in s.workers && s.workers[j].pc.Dial? { assert WorkerSound(s, s.workers[j]); }
    }
    PutPodKnown(s, t.name, s.pods[t.name].(owner := Some(k.claim)));
    WorkersCarry(s, s1);
  }

  lemma MarkPodKeeps(s: State, w: nat, reply: Reply)
    requires Inv(s) && Enabled(s, MarkPod(w, reply))
    ensures Inv(Apply(s, MarkPod(w, reply)))
  {
    var k := s.workers[w];
    if reply.Refused? {
      SetWorkerKeeps(s, w, k.(pc := GiveUp(Pending, false)));
    } else {
      LabelKeeps(s, w);
      if reply.Applied? {
        SetWorkerKeeps(LabelledState(s, w), w, k.(pc := Dial(k.pc.target.name, k.pc.target.pod.uid)));
      } else {
        DropWorkerKeeps(LabelledState(s, w), w);
      }
    }
  }

  // The log grows by a request to an incarnation that nobody is about to dial.
  lemma OthersCarry(s: State, k: Worker, a: Activation)
    requires WorkerSound(s, k) && (k.pc.Dial? ==> k.pc.uid != a.event.uid)
    ensures WorkerSound(s.(activated := s.activated + [a]), k)
  {
    var log := s.activated + [a];
    assert forall x :: x in log <==> x in s.activated || x == a;
  }

  lemma LogKeeps(s: State, a: Activation)
    requires Inv(s) && a.event in s.labelled && !Sent(s.activated, a.event.uid)
    requires forall j :: !Dials(s, j, a.event.uid)
    ensures Inv(s.(activated := s.activated + [a]))
  {
    var s' := s.(activated := s.activated + [a]);
    assert s'.activated[|s.activated|] == a;
    forall id | id in s'.workers ensures WorkerSound(s', s'.workers[id]) {
      assert WorkerSound(s, s.workers[id]) && !Dials(s, id, a.event.uid);
      OthersCarry(s, s.workers[id], a);
    }
    assert forall i, uid :: Dials(s', i, uid) ==> Dials(s, i, uid);
  }

  lemma ActivateKeeps(s: State, w: nat, ok: bool)
    requires Inv(s) && Enabled(s, Activate(w, ok))
    ensures Inv(Apply(s, Activate(w, ok)))
  {
    var k := s.workers[w];
    var a := Activation(Event(k.pc.uid, k.claim, k.pc.pod), ok);
    assert WorkerSound(s, k);
    var s0 := Hung(s, w, k);
    LogKeeps(s0, a);
    var s1 := s0.(activated := s0.activated + [a]);
    assert s1.activated[|s0.activated|] == a;
    Answered(s1, w, k, ok);
    ActivateIs(s, w, ok, s1);
  }

  lemma ActivateIs(s: State, w: nat, ok: bool, s1: State)
    requires Enabled(s, Activate(w, ok))
    requires var k := s.workers[w];
      s1 == SetWorker(s, w, k.(pc := GiveUp(Pending, false)))
            .(activated := s.activated + [Activation(Event(k.pc.uid, k.claim, k.pc.pod), ok)])
    ensures Apply(s, Activate(w, ok)) == SetWorker(s1, w, Outcome(s.workers[w], ok))
  {
    var k := s.workers[w];
    assert s1.workers[w := Outcome(k, ok)] == s.workers[w := Outcome(k, ok)];
  }

  // The worker has sent its request and holds nothing any more.
  lemma Hung(s: State, w: nat, k: Worker) returns (s0: State)
    requires Inv(s) && w in s.workers && s.workers[w] == k && k.pc.Dial?
    ensures s0 == SetWorker(s, w, k.(pc := GiveUp(Pending, false))) && Inv(s0)
    ensures forall j :: !Dials(s0, j, k.pc.uid)
  {
    s0 := SetWorker(s, w, k.(pc := GiveUp(Pending, false)));
    assert WorkerSound(s, k);
    SetWorkerKeeps(s, w, k.(pc := GiveUp(Pending, false)));
    assert Dials(s, w, k.pc.uid);
    assert forall j :: Dials(s0, j, k.pc.uid) ==> j != w && Dials(s, j, k.pc.uid);
  }

  function Outcome(k: Worker, ok: bool): Worker
    requires k.pc.Dial?
  {
    k.(pc := if ok then Publish(k.pc.pod, k.pc.uid) else GiveUp(Pending, false))
  }

  lemma Answered(s: State, w: nat, k: Worker, ok: bool)
    requires Inv(s) && k.pc.Dial? && w in s.workers && s.workers[w] == k.(pc := GiveUp(Pending, false))
    requires Activation(Event(k.pc.uid, k.claim, k.pc.pod), ok) in s.activated
    ensures Inv(SetWorker(s, w, Outcome(k, ok)))
  {
    assert WorkerSound(s, s.workers[w]);
    SetWorkerKeeps(s, w, Outcome(k, ok));
  }

  lemma ClaimUpdateKeeps(s: State, a: Action)
    requires Inv(s) && Enabled(s, a) && (a.AddFinalizer? || a.SelectPod?)
    ensures Inv(Apply(s, a))
  {
    var k := s.workers[a.w];
    assert WorkerSound(s, k);
    match a
    case AddFinalizer(w, reply) =>
      if k.copy.finalizer { SetWorkerKeeps(s, w, k.(pc := Select)); }
      else { UpdateClaimKeeps(s, w, k, k.copy.(finalizer := true), reply, Select); }
    case SelectPod(w, list, reply) =>
      var chosen := SelectDormant(list, k.copy.pool);
      if chosen.None? { SetWorkerKeeps(s, w, k.(pc := GiveUp(Pending, true))); }
      else if k.copy.phase.Restoring? { SetWorkerKeeps(s, w, k.(pc := Mark(chosen.value))); }
      else { UpdateClaimKeeps(s, w, k, k.copy.(phase := Restoring), reply, Mark(chosen.value)); }
  }

  lemma LastWriteKeeps(s: State, a: Action)
    requires Inv(s) && Enabled(s, a) && (a.Expire? || a.RependClaim? || a.WriteReady? || a.WriteGiveUp?)
    ensures Inv(Apply(s, a))
  {
    var k := s.workers[a.w];
    assert WorkerSound(s, k);
    if a.Expire? {
      FinalUpdateKeeps(s, a.w, k, k.copy.(phase := Terminated), a.reply);
    } else if a.RependClaim? {
      FinalUpdateKeeps(s, a.w, k, k.copy.(phase := Pending, bound := None), a.reply);
    } else if a.WriteReady? {
      FinalUpdateKeeps(s, a.w, k, k.copy.(phase := Ready, bound := Some(Binding(k.pc.pod, k.pc.uid))), a.reply);
    } else {
      var bound := if k.pc.unbind then None else k.copy.bound;
      FinalUpdateKeeps(s, a.w, k, k.copy.(phase := k.pc.phase, bound := bound), a.reply);
    }
  }

  lemma MoveKeeps(s: State, a: Action)
    requires Inv(s) && Enabled(s, a) && (a.CheckLost? || a.FailSecrets? || a.Begin? || a.Stop?)
    ensures Inv(Apply(s, a))
  {
    if a.CheckLost? { SetWorkerKeeps(s, a.w, s.workers[a.w].(pc := Repend)); }
    else if a.FailSecrets? { SetWorkerKeeps(s, a.w, s.workers[a.w].(pc := GiveUp(Failed, false))); }
    else if a.Begin? { SetWorkerKeeps(s, a.w, Worker(a.name, a.copy, Decide)); }
    else { DropWorkerKeeps(s, a.w); }
  }

  lemma ListClaimedKeeps(s: State, w: nat, list: seq<PodRead>)
    requires Inv(s) && Enabled(s, ListClaimed(w, list))
    ensures Inv(Apply(s, ListClaimed(w, list)))
  {
    var k := s.workers[w];
    var left := set r | r in list && r.pod.owner == Some(k.claim) :: r.name;
    forall n | n in left ensures WasLabelled(s, n, k.claim) {
      var r :| r in list && r.pod.owner == Some(k.claim) && r.name == n;
      assert PodRead(n, r.pod) in s.podReads;
    }
    SetWorkerKeeps(s, w, k.(pc := ReleaseOf(left)));
  }

  lemma DeleteClaimedKeeps(s: State, w: nat, name: string, reply: Reply)
    requires Inv(s) && Enabled(s, DeleteClaimed(w, name, reply))
    ensures Inv(Apply(s, DeleteClaimed(w, name, reply)))
  {
    var k := s.workers[w];
    var s1 := if reply.Refused? then s else s.(pods := s.pods - {name});
    RemoveKeeps(s, s1.pods, s.claims);
    if reply.Applied? { SetWorkerKeeps(s1, w, k.(pc := ReleaseOf(k.pc.left - {name}))); }
    else { DropWorkerKeeps(s1, w); }
  }

  lemma DropFinalizerKeeps(s: State, w: nat, reply: Reply)
    requires Inv(s) && Enabled(s, DropFinalizer(w, reply))
    ensures Inv(Apply(s, DropFinalizer(w, reply)))
  {
    var s1 := if reply.Refused? then s else s.(claims := s.claims - {s.workers[w].claim});
    RemoveKeeps(s, s.pods, s1.claims);
    DropWorkerKeeps(s1, w);
  }

  lemma EnvironmentKeeps(s: State, a: Action)
    requires Inv(s) && Enabled(s, a)
    requires
      || a.UpdatePodStatus? || a.MarkTerminating? || a.RemovePod?
      || a.CreateClaim? || a.EditClaim? || a.DeleteClaim?
    ensures Inv(Apply(s, a))
  {
    match a
    case UpdatePodStatus(name, ready) => PutPodKeeps(s, name, s.pods[name].(ready := ready));
    case MarkTerminating(name) => PutPodKeeps(s, name, s.pods[name].(terminating := true));
    case RemovePod(name) => RemoveKeeps(s, s.pods - {name}, s.claims);
    case CreateClaim(name, pool) => PutClaimKeeps(s, name, Claim(0, pool, false, false, Pending, None));
    case EditClaim(name) =>
      assert ClaimRead(name, s.claims[name]) in s.claimReads;
      PutClaimKeeps(s, name, s.claims[name]);
    case DeleteClaim(name) =>
      assert ClaimRead(name, s.claims[name]) in s.claimReads;
      if s.claims[name].finalizer {
        PutClaimKeeps(s, name, s.claims[name].(deleting := true));
      } else {
        RemoveKeeps(s, s.pods, s.claims - {name});
      }
  }

  // Every step keeps the invariant, whatever it read and whatever reply was lost.
  lemma StepKeeps(s: State, a: Action)
    requires Inv(s) && Enabled(s, a)
    ensures Inv(Apply(s, a))
  {
    if a.CreatePod? { CreatePodKeeps(s, a.name, a.pool); }
    else if a.MarkPod? { MarkPodKeeps(s, a.w, a.reply); }
    else if a.Activate? { ActivateKeeps(s, a.w, a.ok); }
    else if a.AddFinalizer? || a.SelectPod? { ClaimUpdateKeeps(s, a); }
    else if a.Expire? || a.RependClaim? || a.WriteReady? || a.WriteGiveUp? { LastWriteKeeps(s, a); }
    else if a.ListClaimed? { ListClaimedKeeps(s, a.w, a.list); }
    else if a.DeleteClaimed? { DeleteClaimedKeeps(s, a.w, a.name, a.reply); }
    else if a.DropFinalizer? { DropFinalizerKeeps(s, a.w, a.reply); }
    else if a.CheckLost? || a.FailSecrets? || a.Begin? || a.Stop? { MoveKeeps(s, a); }
    else { EnvironmentKeeps(s, a); }
  }

  // -------------------------------------------------------------- exclusivity

  // Each pod incarnation is labelled at most once and activated at most once,
  // only by the claim in its label; and no two Ready claims hold one incarnation.
  ghost predicate OneTenantPerPod(s: State) {
    && OncePerPod(s.labelled)
    && SentOnce(s.activated)
    && (forall a :: a in s.activated ==> a.event in s.labelled)
    && (forall n, a :: n in s.pods && a in s.activated && a.event.uid == s.pods[n].uid ==>
          s.pods[n].owner == Some(a.event.claim) && n == a.event.pod)
    && (forall c, d, uid :: Holds(s, c, uid) && Holds(s, d, uid) ==> c == d)
  }

  // A Ready claim is bound to an incarnation that it labelled under that name and
  // that answered its Activate with ok.
  ghost predicate ReadyIsEarned(s: State) {
    forall c :: c in s.claims && s.claims[c].phase.Ready? ==>
      && s.claims[c].bound.Some?
      && var b := s.claims[c].bound.value;
         Activation(Event(b.uid, c, b.pod), true) in s.activated && Event(b.uid, c, b.pod) in s.labelled
  }

  // A Ready claim publishes the address of this incarnation.
  ghost predicate Holds(s: State, claim: string, uid: nat) {
    && claim in s.claims
    && s.claims[claim].phase.Ready?
    && s.claims[claim].bound.Some?
    && s.claims[claim].bound.value.uid == uid
  }

  lemma InvExclusive(s: State)
    requires Inv(s)
    ensures OneTenantPerPod(s) && ReadyIsEarned(s)
  {
    forall n, a | n in s.pods && a in s.activated && a.event.uid == s.pods[n].uid
      ensures s.pods[n].owner == Some(a.event.claim) && n == a.event.pod
    {
      assert PodRead(n, s.pods[n]) in s.podReads;
      assert Event(s.pods[n].uid, a.event.claim, n) in s.labelled;
    }
  }

  lemma {:induction false} RunKeeps(run: seq<State>, i: nat)
    requires Run(run) && i < |run|
    ensures Inv(run[i])
  {
    if i > 0 {
      RunKeeps(run, i - 1);
      assert StepAt(run, i);
      var a :| Enabled(run[i - 1], a) && run[i] == Apply(run[i - 1], a);
      StepKeeps(run[i - 1], a);
    }
  }

  // Claim exclusivity over every run: any interleaving of passes, losses and
  // crashes, with stale reads of pods and claims.
  lemma ClaimsAreExclusive(run: seq<State>, i: nat)
    requires Run(run) && i < |run|
    ensures OneTenantPerPod(run[i]) && ReadyIsEarned(run[i])
  {
    RunKeeps(run, i);
    InvExclusive(run[i]);
  }

  // ----------------------------------------------------- what a pass may touch

  // The label goes only on a pod that is ready, not terminating, not labelled and
  // of the claim's pool, as it is at that moment.
  lemma LabelsOnlyUsable(run: seq<State>, i: nat, w: nat, reply: Reply)
    requires Run(run) && i < |run| && Enabled(run[i], MarkPod(w, reply)) && !reply.Refused?
    ensures var s := run[i]; var k := s.workers[w]; var p := s.pods[k.pc.target.name];
      p.ready && !p.terminating && p.owner.None? && p.pool == k.copy.pool
  {
    RunKeeps(run, i);
    var s := run[i];
    WinnerIsNew(s, w);
    assert WorkerSound(s, s.workers[w]);
  }

  // A release names only pods some stored version of which carried its claim's
  // label; the pod it removes carries that label exactly when it is an incarnation
  // that did.  A pod keeps its label for life, so this is so unless the name has
  // passed to another pod since the listing.
  lemma ReleasesOwnExactly(run: seq<State>, i: nat, w: nat, name: string, reply: Reply)
    requires Run(run) && i < |run| && Enabled(run[i], DeleteClaimed(w, name, reply))
    ensures var s := run[i]; var claim := s.workers[w].claim;
      && WasLabelled(s, name, claim)
      && (name in s.pods ==>
            (s.pods[name].owner == Some(claim) <==>
             exists p :: PodRead(name, p) in s.podReads && p.owner == Some(claim) && p.uid == s.pods[name].uid))
  {
    RunKeeps(run, i);
    var s := run[i];
    assert WorkerSound(s, s.workers[w]);
    if name in s.pods {
      assert PodRead(name, s.pods[name]) in s.podReads;
      forall p | PodRead(name, p) in s.podReads && p.owner == Some(s.workers[w].claim) && p.uid == s.pods[name].uid
        ensures s.pods[name].owner == Some(s.workers[w].claim)
      {
        assert Event(p.uid, s.workers[w].claim, name) in s.labelled;
      }
    }
  }

  // No name was ever given to two pods, as generated names are not.
  ghost predicate NamesUsedOnce(s: State) {
    forall r, q :: r in s.podReads && q in s.podReads && r.name == q.name ==> r.pod.uid == q.pod.uid
  }

  // Then a pass on one claim never removes a pod labelled by another.
  lemma ReleasesOnlyOwn(run: seq<State>, i: nat, w: nat, name: string, reply: Reply)
    requires Run(run) && i < |run| && Enabled(run[i], DeleteClaimed(w, name, reply)) && NamesUsedOnce(run[i])
    ensures name in run[i].pods ==> run[i].pods[name].owner == Some(run[i].workers[w].claim)
  {
    ReleasesOwnExactly(run, i, w, name, reply);
    RunKeeps(run, i);
    var s := run[i];
    if name in s.pods {
      assert PodRead(name, s.pods[name]) in s.podReads;
      var p :| PodRead(name, p) in s.podReads && p.owner == Some(s.workers[w].claim);
    }
  }

  // ------------------------------------------------------------ a pass succeeds

  // Steps lead from one state to the other.
  ghost predicate Leads(s: State, s': State) {
    exists path :: path != [] && path[0] == s && path[|path| - 1] == s' &&
      forall i :: 0 < i < |path| ==> StepAt(path, i)
  }

  lemma LeadsNext(s: State, m: State, a: Action)
    requires Leads(s, m) && Enabled(m, a)
    ensures Leads(s, Apply(m, a))
  {
    var path :| path != [] && path[0] == s && path[|path| - 1] == m && forall i :: 0 < i < |path| ==> StepAt(path, i);
    var more := path + [Apply(m, a)];
    forall i | 0 < i < |more| ensures StepAt(more, i) {
      if i < |path| {
        assert StepAt(path, i);
        assert more[i - 1] == path[i - 1] && more[i] == path[i];
      } else {
        assert more[i - 1] == m && Next(m, Apply(m, a));
      }
    }
    assert more[0] == s && more[|more| - 1] == Apply(m, a);
  }

  // The pass of worker w over the claim stands at k, its copy of the claim is
  // current, and nothing else about claims and workers has changed since s.
  ghost predicate Midway(s: State, m: State, w: nat, k: Worker) {
    && Leads(s, m) && w !in s.workers
    && m.workers == s.workers[w := k] && m.claims == s.claims[k.claim := k.copy] && s.podReads <= m.podReads
  }

  lemma PassBegins(s: State, w: nat, name: string) returns (m: State, k: Worker)
    requires w !in s.workers && name in s.claims && ClaimRead(name, s.claims[name]) in s.claimReads
    ensures Midway(s, m, w, k) && k == Worker(name, s.claims[name], Decide)
    ensures m.pods == s.pods && m.activated == s.activated
  {
    assert Leads(s, s) by { assert [s][0] == s; }
    LeadsNext(s, s, Begin(w, name, s.claims[name]));
    m, k := Apply(s, Begin(w, name, s.claims[name])), Worker(name, s.claims[name], Decide);
    assert s.claims[name := s.claims[name]] == s.claims;
  }

  lemma PassFinalizes(s: State, m: State, w: nat, k: Worker) returns (m': State, k': Worker)
    requires Midway(s, m, w, k) && k.pc.Decide? && !k.copy.deleting
    requires k.copy.phase.Pending? || k.copy.phase.Restoring?
    ensures Midway(s, m', w, k')
    ensures k' == k.(pc := Select, copy := k.copy.(finalizer := true, version := k'.copy.version))
    ensures m'.pods == m.pods && m'.activated == m.activated
  {
    LeadsNext(s, m, AddFinalizer(w, Applied));
    m' := Apply(m, AddFinalizer(w, Applied));
    k' := m'.workers[w];
    assert s.workers[w := k][w := k'] == s.workers[w := k'];
    assert s.claims[k.claim := k.copy][k.claim := k'.copy] == s.claims[k.claim := k'.copy];
  }

  lemma PassSelects(s: State, m: State, w: nat, k: Worker, list: seq<PodRead>, t: PodRead)
    returns (m': State, k': Worker)
    requires Midway(s, m, w, k) && k.pc.Select? && (forall r :: r in list ==> r in m.podReads)
    requires SelectDormant(list, k.copy.pool) == Some(t)
    ensures Midway(s, m', w, k')
    ensures k' == k.(pc := Mark(t), copy := k.copy.(phase := Restoring, version := k'.copy.version))
    ensures m'.pods == m.pods && m'.activated == m.activated
  {
    LeadsNext(s, m, SelectPod(w, list, Applied));
    m' := Apply(m, SelectPod(w, list, Applied));
    k' := m'.workers[w];
    assert s.workers[w := k][w := k'] == s.workers[w := k'];
    assert s.claims[k.claim := k.copy][k.claim := k'.copy] == s.claims[k.claim := k'.copy];
  }

  lemma PassLabels(s: State, m: State, w: nat, k: Worker) returns (m': State, k': Worker)
    requires Midway(s, m, w, k) && k.pc.Mark?
    requires k.pc.target.name in m.pods && m.pods[k.pc.target.name] == k.pc.target.pod
    ensures Midway(s, m', w, k') && k' == k.(pc := Dial(k.pc.target.name, k.pc.target.pod.uid))
    ensures m'.pods == m.pods[k.pc.target.name := k.pc.target.pod.(owner := Some(k.claim), version := m'.rev)]
    ensures m'.activated == m.activated
  {
    LeadsNext(s, m, MarkPod(w, Applied));
    m' := Apply(m, MarkPod(w, Applied));
    k' := m'.workers[w];
    assert s.workers[w := k][w := k'] == s.workers[w := k'];
  }

  lemma PassActivates(s: State, m: State, w: nat, k: Worker, ok: bool) returns (m': State, k': Worker)
    requires Midway(s, m, w, k) && k.pc.Dial?
    ensures Midway(s, m', w, k') && k' == Outcome(k, ok) && m'.pods == m.pods
    ensures m'.activated == m.activated + [Activation(Event(k.pc.uid, k.claim, k.pc.pod), ok)]
  {
    LeadsNext(s, m, Activate(w, ok));
    m' := Apply(m, Activate(w, ok));
    k' := m'.workers[w];
    assert s.workers[w := k][w := k'] == s.workers[w := k'];
  }

  // The pass is over and the claim has these fields.
  ghost predicate Ends(s: State, s': State, name: string, phase: Phase, bound: Option<Binding>) {
    && Leads(s, s') && name in s.claims && name in s'.claims && s'.workers == s.workers
    && s'.claims == s.claims[name := s'.claims[name]]
    && s'.claims[name] == s.claims[name].(finalizer := true, phase := phase, bound := bound,
                                          version := s'.claims[name].version)
  }

  lemma PassReports(s: State, m: State, w: nat, k: Worker) returns (s': State)
    requires Midway(s, m, w, k) && (k.pc.Publish? || k.pc.GiveUp?) && k.claim in s.claims
    requires k.copy == s.claims[k.claim].(finalizer := true, phase := k.copy.phase, version := k.copy.version)
    ensures k.pc.Publish? ==> Ends(s, s', k.claim, Ready, Some(Binding(k.pc.pod, k.pc.uid)))
    ensures k.pc.GiveUp? ==>
      Ends(s, s', k.claim, k.pc.phase, if k.pc.unbind then None else s.claims[k.claim].bound)
    ensures s'.pods == m.pods && s'.activated == m.activated
  {
    var a := if k.pc.Publish? then WriteReady(w, Applied) else WriteGiveUp(w, Applied);
    LeadsNext(s, m, a);
    s' := Apply(m, a);
    assert s.workers[w := k] - {w} == s.workers;
    assert s.claims[k.claim := k.copy][k.claim := s'.claims[k.claim]] == s.claims[k.claim := s'.claims[k.claim]];
  }

  // A pass over a waiting claim that reads the claim as it is, whose chosen pod is
  // as it was listed and whose writes go through: the pod gets the label and
  // nothing else changes there; the claim is Ready and bound to that pod if the
  // pod answers ok, and goes back to Pending if not.
  lemma ClaimServed(s: State, w: nat, name: string, list: seq<PodRead>, t: PodRead, ok: bool) returns (s': State)
    requires w !in s.workers && name in s.claims && ClaimRead(name, s.claims[name]) in s.claimReads
    requires var c := s.claims[name]; !c.deleting && (c.phase.Pending? || c.phase.Restoring?)
    requires (forall r :: r in list ==> r in s.podReads) && SelectDormant(list, s.claims[name].pool) == Some(t)
    requires t.name in s.pods && s.pods[t.name] == t.pod
    ensures var bound := if ok then Some(Binding(t.name, t.pod.uid)) else s.claims[name].bound;
      Ends(s, s', name, if ok then Ready else Pending, bound)
    ensures t.name in s'.pods && s'.pods == s.pods[t.name := s'.pods[t.name]]
    ensures s'.pods[t.name] == t.pod.(owner := Some(name), version := s'.pods[t.name].version)
    ensures s'.activated == s.activated + [Activation(Event(t.pod.uid, name, t.name), ok)]
  {
    var m, k := PassBegins(s, w, name);
    m, k := PassFinalizes(s, m, w, k);
    m, k := PassSelects(s, m, w, k, list, t);
    m, k := PassLabels(s, m, w, k);
    m, k := PassActivates(s, m, w, k, ok);
    s' := PassReports(s, m, w, k);
  }

  // With no usable pod in its list the pass leaves the claim Pending and unbound,
  // and every pod as it is.
  lemma ClaimPends(s: State, w: nat, name: string, list: seq<PodRead>) returns (s': State)
    requires w !in s.workers && name in s.claims && ClaimRead(name, s.claims[name]) in s.claimReads
    requires var c := s.claims[name]; !c.deleting && (c.phase.Pending? || c.phase.Restoring?)
    requires forall r :: r in list ==> r in s.podReads && !Usable(r.pod, s.claims[name].pool)
    ensures Ends(s, s', name, Pending, None) && s'.pods == s.pods && s'.activated == s.activated
  {
    var m, k := PassBegins(s, w, name);
    m, k := PassFinalizes(s, m, w, k);
    var chosen := SelectDormant(list, k.copy.pool);
    assert chosen.Some? ==> Usable(chosen.value.pod, k.copy.pool);
    LeadsNext(s, m, SelectPod(w, list, Applied));
    var m1 := Apply(m, SelectPod(w, list, Applied));
    var k1 := k.(pc := GiveUp(Pending, true));
    assert s.workers[w := k][w := k1] == s.workers[w := k1];
    s' := PassReports(s, m1, w, k1);
  }

  // The claim as it was but for these fields, and nothing else has changed.
  ghost predicate Becomes(s: State, s': State, name: string, phase: Phase, bound: Option<Binding>) {
    && Leads(s, s') && name in s.claims && name in s'.claims && s'.workers == s.workers
    && s'.pods == s.pods && s'.activated == s.activated
    && s'.claims == s.claims[name := s'.claims[name]]
    && s'.claims[name] == s.claims[name].(phase := phase, bound := bound, version := s'.claims[name].version)
  }

  // A pass over a Ready claim gives it up if and only if the pod it reads is gone,
  // terminating or not labelled by the claim.
  lemma RependsExactlyWhenLost(s: State, w: nat, seen: Option<Pod>)
    requires w in s.workers && s.workers[w].pc.Decide? && !s.workers[w].copy.deleting
    requires s.workers[w].copy.phase.Ready? && s.workers[w].copy.bound.Some?
    requires seen.Some? ==> PodRead(s.workers[w].copy.bound.value.pod, seen.value) in s.podReads
    ensures Enabled(s, CheckLost(w, seen)) <==>
      seen.None? || seen.value.terminating || seen.value.owner != Some(s.workers[w].claim)
  {
  }

  // Then the claim waits again, unbound.
  lemma ClaimRepends(s: State, w: nat, name: string, seen: Option<Pod>) returns (s': State)
    requires w !in s.workers && name in s.claims && ClaimRead(name, s.claims[name]) in s.claimReads
    requires !s.claims[name].deleting && s.claims[name].phase.Ready? && s.claims[name].bound.Some?
    requires seen.Some? ==> PodRead(s.claims[name].bound.value.pod, seen.value) in s.podReads
    requires seen.None? || seen.value.terminating || seen.value.owner != Some(name)
    ensures Becomes(s, s', name, Pending, None)
  {
    var m, k := PassBegins(s, w, name);
    LeadsNext(s, m, CheckLost(w, seen));
    var m1, k1 := Apply(m, CheckLost(w, seen)), k.(pc := Repend);
    assert s.workers[w := k][w := k1] == s.workers[w := k1];
    s' := PassCloses(s, m1, w, k1, RependClaim(w, Applied));
  }

  // A claim past its lifetime is Terminated.
  lemma ClaimExpires(s: State, w: nat, name: string) returns (s': State)
    requires w !in s.workers && name in s.claims && ClaimRead(name, s.claims[name]) in s.claimReads
    requires !s.claims[name].deleting && s.claims[name].phase.Ready?
    ensures Becomes(s, s', name, Terminated, s.claims[name].bound)
  {
    var m, k := PassBegins(s, w, name);
    s' := PassCloses(s, m, w, k, Expire(w, Applied));
  }

  lemma PassCloses(s: State, m: State, w: nat, k: Worker, a: Action) returns (s': State)
    requires Midway(s, m, w, k) && k.claim in s.claims && k.copy == s.claims[k.claim]
    requires (a == RependClaim(w, Applied) || a == Expire(w, Applied)) && Enabled(m, a)
    requires m.pods == s.pods && m.activated == s.activated
    ensures a.RependClaim? ==> Becomes(s, s', k.claim, Pending, None)
    ensures a.Expire? ==> Becomes(s, s', k.claim, Terminated, s.claims[k.claim].bound)
  {
    LeadsNext(s, m, a);
    s' := Apply(m, a);
    assert s.workers[w := k] - {w} == s.workers;
    assert s.claims[k.claim := k.copy][k.claim := s'.claims[k.claim]] == s.claims[k.claim := s'.claims[k.claim]];
  }

  // A claim whose secrets cannot be had is Failed and no pod is touched.
  lemma ClaimFails(s: State, w: nat, name: string, list: seq<PodRead>, t: PodRead) returns (s': State)
    requires w !in s.workers && name in s.claims && ClaimRead(name, s.claims[name]) in s.claimReads
    requires var c := s.claims[name]; !c.deleting && (c.phase.Pending? || c.phase.Restoring?)
    requires (forall r :: r in list ==> r in s.podReads) && SelectDormant(list, s.claims[name].pool) == Some(t)
    ensures Ends(s, s', name, Failed, s.claims[name].bound) && s'.pods == s.pods && s'.activated == s.activated
  {
    var m, k := PassBegins(s, w, name);
    m, k := PassFinalizes(s, m, w, k);
    m, k := PassSelects(s, m, w, k, list, t);
    LeadsNext(s, m, FailSecrets(w));
    var m1, k1 := Apply(m, FailSecrets(w)), k.(pc := GiveUp(Failed, false));
    assert s.workers[w := k][w := k1] == s.workers[w := k1];
    s' := PassReports(s, m1, w, k1);
  }
}
