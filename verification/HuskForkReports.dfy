/**
 What a SandboxFork records about its children, and that a recorded child is not
 activated again.
 */
module HuskForkReports {
  import opened Wrappers
  import opened HuskForks

  // --------------------------------------------------------- the list of a pass

  function NameOf(k: Worker, i: nat): string { SlotName(k.key.name, i) }

  // The pass found the pod of slot i, and the slot was recorded before or the pass
  // activated it with success.
  predicate Counts(k: Worker, i: nat) {
    i < |k.visits| && k.visits[i].child.Some? && (Recorded(k.copy.forks, NameOf(k, i)) || k.visits[i].activated)
  }

  // The entry for such a slot: what was recorded, or the name and node of the pod.
  predicate Tells(k: Worker, i: nat, info: Info) {
    && Counts(k, i) && info.name == NameOf(k, i)
    && if Recorded(k.copy.forks, NameOf(k, i)) then info in k.copy.forks else info.node == k.visits[i].child.value.node
  }

  // The list has an entry for exactly those slots, each once and in order.
  ghost predicate Lists(k: Worker, done: seq<Info>, slots: seq<nat>) {
    && |slots| == |done|
    && (forall a, b :: 0 <= a < b < |slots| ==> slots[a] < slots[b])
    && (forall i: nat :: Counts(k, i) <==> i in slots)
    && (forall a :: 0 <= a < |slots| ==> Tells(k, slots[a], done[a]))
  }

  ghost predicate ListsExactly(k: Worker, done: seq<Info>) { exists slots: seq<nat> :: Lists(k, done, slots) }

  function Size(replicas: int): nat { if replicas < 0 then 0 else replicas }

  // The pod of a visit is its slot's.
  ghost predicate VisitsOwn(k: Worker) {
    forall i :: 0 <= i < |k.visits| && k.visits[i].child.Some? ==> k.visits[i].child.value.key == SlotKey(k.key, i)
  }

  ghost predicate Faithful(k: Worker) {
    && VisitsOwn(k)
    && (k.pc.Slot? ==> |k.visits| == k.pc.i <= Size(k.copy.replicas) && ListsExactly(k, k.pc.done))
    && (k.pc.Dial? ==> |k.visits| == k.pc.i < k.copy.replicas && ListsExactly(k, k.pc.done))
    && (k.pc.Dial? ==> k.pc.child.key == SlotKey(k.key, k.pc.i) && !Recorded(k.copy.forks, NameOf(k, k.pc.i)))
    && (!k.pc.Slot? && !k.pc.Dial? ==> k.visits == [])
  }

  // Only the visits up to a slot matter for it.
  ghost predicate VisitedMore(k: Worker, k': Worker, v: Visit) {
    k'.key == k.key && k'.copy == k.copy && k'.visits == k.visits + [v]
  }

  lemma EarlierCounts(k: Worker, k': Worker, v: Visit, i: nat)
    requires VisitedMore(k, k', v) && i != |k.visits|
    ensures Counts(k', i) <==> Counts(k, i)
  {
    if i < |k.visits| { assert k'.visits[i] == k.visits[i]; }
  }

  lemma EarlierTells(k: Worker, k': Worker, v: Visit, i: nat, info: Info)
    requires VisitedMore(k, k', v) && Tells(k, i, info)
    ensures Tells(k', i, info) && i < |k.visits|
  {
    assert k'.visits[i] == k.visits[i];
  }

  lemma AllTell(k: Worker, k': Worker, v: Visit, done: seq<Info>, slots: seq<nat>)
    requires VisitedMore(k, k', v) && Lists(k, done, slots)
    ensures forall a :: 0 <= a < |slots| ==> slots[a] < |k.visits| && Tells(k', slots[a], done[a])
  {
    forall a | 0 <= a < |slots| ensures slots[a] < |k.visits| && Tells(k', slots[a], done[a]) {
      EarlierTells(k, k', v, slots[a], done[a]);
    }
  }

  // One slot more: it does not count ...
  lemma PassedOver(k: Worker, k': Worker, v: Visit, done: seq<Info>)
    requires ListsExactly(k, done) && VisitedMore(k, k', v) && !Counts(k', |k.visits|)
    ensures ListsExactly(k', done)
  {
    var slots: seq<nat> :| Lists(k, done, slots);
    AllTell(k, k', v, done, slots);
    forall i: nat ensures Counts(k', i) <==> i in slots {
      if i != |k.visits| { EarlierCounts(k, k', v, i); }
    }
    assert Lists(k', done, slots);
  }

  lemma CountsMore(k: Worker, k': Worker, v: Visit, slots: seq<nat>, i: nat)
    requires VisitedMore(k, k', v) && Counts(k', |k.visits|) && (Counts(k, i) <==> i in slots)
    ensures Counts(k', i) <==> i in slots + [|k.visits|]
  {
    if i != |k.visits| { EarlierCounts(k, k', v, i); }
  }

  // ... or its entry goes at the end.
  lemma Appended(k: Worker, k': Worker, v: Visit, done: seq<Info>, info: Info)
    requires ListsExactly(k, done) && VisitedMore(k, k', v) && Tells(k', |k.visits|, info)
    ensures ListsExactly(k', done + [info])
  {
    var slots: seq<nat> :| Lists(k, done, slots);
    AllTell(k, k', v, done, slots);
    var slots', done' := slots + [|k.visits|], done + [info];
    forall i: nat ensures Counts(k', i) <==> i in slots' { CountsMore(k, k', v, slots, i); }
    forall a | 0 <= a < |slots'| ensures Tells(k', slots'[a], done'[a]) {
      if a < |slots| { assert slots'[a] == slots[a] && done'[a] == done[a]; }
    }
    assert Lists(k', done', slots');
  }

  lemma CarriedFaithful(k: Worker, child: Option<Child>)
    requires Faithful(k) && k.pc.Slot? && k.pc.i < k.copy.replicas && Ensured(k, child).pc.Slot?
    ensures var k' := Ensured(k, child); ListsExactly(k', k'.pc.done)
  {
    var k', v := Ensured(k, child), Visit(child, false);
    assert k'.visits[|k.visits|] == v;
    if child.Some? {
      Appended(k, k', v, k.pc.done, LastRecorded(k.copy.forks, NameOf(k, k.pc.i)));
    } else {
      PassedOver(k, k', v, k.pc.done);
    }
  }

  lemma EnsuredFaithful(k: Worker, child: Option<Child>)
    requires Faithful(k) && k.pc.Slot? && k.pc.i < k.copy.replicas
    requires child.Some? ==> child.value.key == SlotKey(k.key, k.pc.i)
    ensures Faithful(Ensured(k, child))
  {
    var k' := Ensured(k, child);
    if k'.pc.Slot? {
      CarriedFaithful(k, child);
      VisitsOwnMore(k, k', Visit(child, false));
    } else {
      SameList(k, k', k.pc.done);
    }
  }

  lemma SameList(k: Worker, k': Worker, done: seq<Info>)
    requires ListsExactly(k, done) && k'.key == k.key && k'.copy == k.copy && k'.visits == k.visits
    ensures ListsExactly(k', done)
  {
    var slots: seq<nat> :| Lists(k, done, slots);
    assert forall i: nat :: Counts(k', i) <==> Counts(k, i);
    assert forall i: nat, info :: Tells(k', i, info) <==> Tells(k, i, info);
    assert Lists(k', done, slots);
  }

  lemma DialledTells(k: Worker)
    requires Faithful(k) && k.pc.Dial?
    ensures Tells(Dialled(k, true), |k.visits|, Info(k.pc.child.key.name, k.pc.child.node))
  {
    assert Dialled(k, true).visits[|k.visits|] == Visit(Some(k.pc.child), true);
  }

  lemma SkippedDoesNotCount(k: Worker)
    requires Faithful(k) && k.pc.Dial?
    ensures !Counts(Dialled(k, false), |k.visits|)
  {
    assert Dialled(k, false).visits[|k.visits|] == Visit(Some(k.pc.child), false);
  }

  lemma DialledLists(k: Worker, recorded: bool)
    requires Faithful(k) && k.pc.Dial?
    ensures ListsExactly(Dialled(k, recorded), Dialled(k, recorded).pc.done)
  {
    var k', v := Dialled(k, recorded), Visit(Some(k.pc.child), recorded);
    if recorded {
      DialledTells(k);
      Appended(k, k', v, k.pc.done, Info(k.pc.child.key.name, k.pc.child.node));
    } else {
      SkippedDoesNotCount(k);
      PassedOver(k, k', v, k.pc.done);
    }
  }

  lemma VisitsOwnMore(k: Worker, k': Worker, v: Visit)
    requires VisitsOwn(k) && VisitedMore(k, k', v)
    requires v.child.Some? ==> v.child.value.key == SlotKey(k.key, |k.visits|)
    ensures VisitsOwn(k')
  {
    forall i | 0 <= i < |k'.visits| && k'.visits[i].child.Some?
      ensures k'.visits[i].child.value.key == SlotKey(k.key, i)
    {
      if i < |k.visits| { assert k'.visits[i] == k.visits[i]; }
    }
  }

  lemma DialledFaithful(k: Worker, recorded: bool)
    requires Faithful(k) && k.pc.Dial?
    ensures Faithful(Dialled(k, recorded))
  {
    DialledLists(k, recorded);
    VisitsOwnMore(k, Dialled(k, recorded), Visit(Some(k.pc.child), recorded));
  }

  lemma EmptyFaithful(k: Worker)
    requires k.visits == [] && (k.pc.Slot? ==> k.pc == Slot(0, [])) && !k.pc.Dial?
    ensures Faithful(k)
  {
    assert Lists(k, [], []);
  }

  lemma PassFaithful(d: World, k: Worker, a: Action, d': World, next: Option<Worker>)
    requires Faithful(k) && PassStep(d, k, a, d', next)
    ensures next.Some? ==> Faithful(next.value)
  {
    if a.EnsureChild? {
      EnsuredFaithful(k, a.child);
    } else if a.ActivateChild? {
      DialledFaithful(k, a.recorded);
    } else if a.SkipChild? {
      DialledFaithful(k, false);
    } else if next.Some? {
      EmptyFaithful(next.value);
    }
  }

  ghost predicate AllFaithful(s: State) { forall w :: w in s.workers ==> Faithful(s.workers[w]) }

  lemma StepFaithful(s: State, a: Action, s': State)
    requires AllFaithful(s) && Step(s, a, s')
    ensures AllFaithful(s')
  {
    if a.CreateFork? || a.EditReplicas? || a.DeleteFork? || a.RemovePod? {
    } else if a.Begin? {
      EmptyFaithful(Started(s.world, a.key, a.source));
    } else {
      var next :| PassStep(s.world, s.workers[a.w], a, s'.world, next) && Moved(s, a.w, next, s');
      PassFaithful(s.world, s.workers[a.w], a, s'.world, next);
    }
  }

  lemma {:induction false} RunFaithful(run: seq<State>, i: nat)
    requires Run(run) && i < |run|
    ensures AllFaithful(run[i])
  {
    if i > 0 {
      RunFaithful(run, i - 1);
      assert StepAt(run, i);
      var a :| Step(run[i - 1], a, run[i]);
      StepFaithful(run[i - 1], a, run[i]);
    }
  }

  // In every run: the list a pass stores when it is through has an entry for
  // exactly the slots below the replica count whose pod it found and that were
  // recorded before or that it activated with success, each once, in slot order,
  // with the child's name and node.
  lemma ReportsExactly(run: seq<State>, i: nat, w: nat, reply: Reply, d': World, next: Option<Worker>)
    requires Run(run) && i < |run| && w in run[i].workers && !reply.Refused?
    requires PassStep(run[i].world, run[i].workers[w], Report(w, reply), d', next)
    ensures var k := run[i].workers[w];
      && |k.visits| == Size(k.copy.replicas) && VisitsOwn(k)
      && k.key in d'.forks && ListsExactly(k, d'.forks[k.key].forks)
  {
    RunFaithful(run, i);
  }

  // ------------------------------------------------------------ recorded for good

  // The step finds the pod of the slot if it looks for it, and does not scale the
  // fork to fewer replicas.
  ghost predicate Finds(s: State, a: Action, key: Key, slot: nat) {
    && (a.EnsureChild? && a.w in s.workers && s.workers[a.w].key == key && |s.workers[a.w].visits| == slot ==>
          a.child.Some?)
    && (a.EditReplicas? && a.key == key ==> a.replicas > slot)
  }

  ghost predicate FindsNext(s: State, s': State, key: Key, slot: nat) {
    exists a :: Step(s, a, s') && Finds(s, a, key, slot)
  }

  ghost predicate FindsAt(run: seq<State>, m: int, key: Key, slot: nat) {
    0 < m < |run| && FindsNext(run[m - 1], run[m], key, slot)
  }

  // The object records the slot, and a pass under way has found it or will look.
  ghost predicate Kept(s: State, key: Key, uid: nat, slot: nat) {
    && uid in s.world.lives && s.world.lives[uid].key == key
    && (key in s.world.forks && s.world.forks[key].uid == uid ==>
          && s.world.forks[key].replicas > slot && Recorded(s.world.forks[key].forks, SlotName(key.name, slot))
          && forall w :: w in s.workers && s.workers[w].key == key ==> Keeps(s.workers[w], uid, slot))
  }

  ghost predicate Keeps(k: Worker, uid: nat, slot: nat) {
    && k.copy.uid == uid && k.copy.replicas > slot && Recorded(k.copy.forks, NameOf(k, slot))
    && (slot < |k.visits| ==> k.visits[slot].child.Some?)
  }

  lemma StoredKeepsRecord(k: Worker, uid: nat, slot: nat)
    requires Faithful(k) && Keeps(k, uid, slot) && k.pc.Slot? && k.pc.i >= k.copy.replicas
    ensures Recorded(k.pc.done, NameOf(k, slot))
  {
    var slots: seq<nat> :| Lists(k, k.pc.done, slots);
    assert Counts(k, slot);
    var a :| 0 <= a < |slots| && slots[a] == slot;
    assert Tells(k, slots[a], k.pc.done[a]);
  }

  lemma PassKeepsSlot(d: World, k: Worker, a: Action, d': World, next: Option<Worker>, uid: nat, slot: nat)
    requires Faithful(k) && Keeps(k, uid, slot) && PassStep(d, k, a, d', next)
    requires a.EnsureChild? && |k.visits| == slot ==> a.child.Some?
    ensures next.Some? ==> next.value.key == k.key && Keeps(next.value, uid, slot)
  {
    if next.Some? && slot < |next.value.visits| && |k.visits| <= slot { assert |k.visits| == slot; }
  }

  lemma PassKeepsRecord(d: World, k: Worker, a: Action, d': World, next: Option<Worker>, uid: nat, slot: nat)
    requires WorkerOk(d, k) && Faithful(k) && Keeps(k, uid, slot) && PassStep(d, k, a, d', next)
    requires k.key in d.forks && d.forks[k.key].uid == uid && Recorded(d.forks[k.key].forks, NameOf(k, slot))
    requires d.forks[k.key].replicas > slot
    ensures k.key in d'.forks ==>
      && d'.forks[k.key].uid == uid && d'.forks[k.key].replicas > slot
      && Recorded(d'.forks[k.key].forks, NameOf(k, slot))
  {
    if a.Report? { StoredKeepsRecord(k, uid, slot); }
  }

  ghost predicate Lives(d: World, key: Key, uid: nat) { key in d.forks && d.forks[key].uid == uid }

  lemma OtherKept(s: State, a: Action, s': State, key: Key, uid: nat, slot: nat)
    requires Kept(s, key, uid, slot) && OtherStep(s.world, a, s'.world) && s'.workers == s.workers
    requires Finds(s, a, key, slot) && uid < s.world.nextUid && s.world.nextUid !in s.world.lives
    requires a.EditReplicas? ==> s.world.forks[a.key].uid in s.world.lives
    ensures Kept(s', key, uid, slot)
  {
  }

  lemma BeginKept(s: State, a: Action, s': State, key: Key, uid: nat, slot: nat)
    requires Kept(s, key, uid, slot) && a.Begin? && Step(s, a, s')
    ensures Kept(s', key, uid, slot)
  {
  }

  // A pass over another fork.
  lemma AwayKept(s: State, s': State, w: nat, next: Option<Worker>, key: Key, uid: nat, slot: nat)
    requires Kept(s, key, uid, slot) && w in s.workers && s.workers[w].key != key && Moved(s, w, next, s')
    requires Away(s.world, s'.world, s.workers[w].key) && (next.Some? ==> next.value.key == s.workers[w].key)
    ensures Kept(s', key, uid, slot)
  {
  }

  // A pass over the fork itself: it is the only one.
  lemma OwnKept(s: State, w: nat, a: Action, s': State, next: Option<Worker>, key: Key, uid: nat, slot: nat)
    requires Inv(s) && AllFaithful(s) && Kept(s, key, uid, slot) && w in s.workers && s.workers[w].key == key
    requires PassStep(s.world, s.workers[w], a, s'.world, next) && Moved(s, w, next, s')
    requires a.EnsureChild? && |s.workers[w].visits| == slot ==> a.child.Some?
    ensures Kept(s', key, uid, slot)
  {
    var k, d, d' := s.workers[w], s.world, s'.world;
    assert WorkerOk(d, k);
    LifeStays(d, k, a, d', next, uid);
    if Lives(d', key, uid) {
      assert Keeps(k, uid, slot);
      PassKeepsSlot(d, k, a, d', next, uid, slot);
      PassKeepsRecord(d, k, a, d', next, uid, slot);
      OnlyPass(s, w, s', next, key, uid, slot);
    }
  }

  lemma OnlyPass(s: State, w: nat, s': State, next: Option<Worker>, key: Key, uid: nat, slot: nat)
    requires Serial(s.workers) && w in s.workers && s.workers[w].key == key && Moved(s, w, next, s')
    requires next.Some? ==> Keeps(next.value, uid, slot)
    ensures forall v :: v in s'.workers && s'.workers[v].key == key ==> Keeps(s'.workers[v], uid, slot)
  {
  }

  lemma LifeStays(d: World, k: Worker, a: Action, d': World, next: Option<Worker>, uid: nat)
    requires WorkerOk(d, k) && PassStep(d, k, a, d', next) && uid in d.lives
    ensures uid in d'.lives && d'.lives[uid].key == d.lives[uid].key
    ensures Lives(d', k.key, uid) ==> Lives(d, k.key, uid)
  {
  }

  lemma StepKept(s: State, a: Action, s': State, key: Key, uid: nat, slot: nat)
    requires Inv(s) && AllFaithful(s) && Kept(s, key, uid, slot) && Step(s, a, s') && Finds(s, a, key, slot)
    ensures Kept(s', key, uid, slot)
  {
    if a.CreateFork? || a.EditReplicas? || a.DeleteFork? || a.RemovePod? {
      assert forall u :: u in s.world.lives ==> LifeOk(s.world, u);
      if a.EditReplicas? { assert ForkOk(s.world, a.key); }
      OtherKept(s, a, s', key, uid, slot);
    } else if a.Begin? {
      BeginKept(s, a, s', key, uid, slot);
    } else {
      var next :| PassStep(s.world, s.workers[a.w], a, s'.world, next) && Moved(s, a.w, next, s');
      assert WorkerOk(s.world, s.workers[a.w]);
      if s.workers[a.w].key == key {
        OwnKept(s, a.w, a, s', next, key, uid, slot);
      } else {
        PassAway(s.world, s.workers[a.w], a, s'.world, next);
        PassNext(s.world, s.workers[a.w], a, s'.world, next);
        AwayKept(s, s', a.w, next, key, uid, slot);
      }
    }
  }

  // The activations of the slot so far.
  ghost function Activations(d: World, uid: nat, child: Key): set<Restore> {
    set r | r in d.restores && r.uid == uid && r.child.key == child
  }

  lemma PassNoActivation(d: World, k: Worker, a: Action, d': World, next: Option<Worker>, key: Key, uid: nat, slot: nat)
    requires WorkerOk(d, k) && PassStep(d, k, a, d', next) && uid in d.lives && d.lives[uid].key == key
    requires k.key == key && Lives(d, key, uid) ==> Keeps(k, uid, slot)
    ensures Activations(d', uid, SlotKey(key, slot)) == Activations(d, uid, SlotKey(key, slot))
  {
    if a.ActivateChild? && a.effect && k.copy.uid == uid && k.pc.child.key == SlotKey(key, slot) {
      SlotKeyInjective(k.key, k.pc.i, key, slot);
      assert false;
    }
  }

  lemma StepNoActivation(s: State, a: Action, s': State, key: Key, uid: nat, slot: nat)
    requires Inv(s) && Kept(s, key, uid, slot) && Step(s, a, s')
    ensures Activations(s'.world, uid, SlotKey(key, slot)) == Activations(s.world, uid, SlotKey(key, slot))
  {
    if !(a.CreateFork? || a.EditReplicas? || a.DeleteFork? || a.RemovePod? || a.Begin?) {
      var k := s.workers[a.w];
      var next :| PassStep(s.world, k, a, s'.world, next) && Moved(s, a.w, next, s');
      assert WorkerOk(s.world, k);
      PassNoActivation(s.world, k, a, s'.world, next, key, uid, slot);
    }
  }

  // In every run: a slot that the object records while no pass is under way, and
  // whose pod every later pass finds, stays recorded for as long as the object
  // exists and keeps more replicas than that, and is not activated again.
  lemma {:induction false} RecordedForGood(run: seq<State>, i: nat, j: nat, key: Key, uid: nat, slot: nat)
    requires Run(run) && i <= j < |run| && Lives(run[i].world, key, uid) && Idle(run[i].workers, key)
    requires var f := run[i].world.forks[key]; f.replicas > slot && Recorded(f.forks, SlotName(key.name, slot))
    requires forall m :: i < m <= j ==> FindsAt(run, m, key, slot)
    ensures Kept(run[j], key, uid, slot)
    ensures Lives(run[j].world, key, uid) ==> Recorded(run[j].world.forks[key].forks, SlotName(key.name, slot))
    ensures Activations(run[j].world, uid, SlotKey(key, slot)) == Activations(run[i].world, uid, SlotKey(key, slot))
    decreases j
  {
    RunKeeps(run, i);
    assert ForkOk(run[i].world, key);
    if i < j {
      RecordedForGood(run, i, j - 1, key, uid, slot);
      RunKeeps(run, j - 1);
      RunFaithful(run, j - 1);
      assert FindsAt(run, j, key, slot);
      var a :| Step(run[j - 1], a, run[j]) && Finds(run[j - 1], a, key, slot);
      StepKept(run[j - 1], a, run[j], key, uid, slot);
      StepNoActivation(run[j - 1], a, run[j], key, uid, slot);
    }
  }

  // ------------------------------------------------------------ a pass succeeds

  // All slots from i on are free.
  ghost predicate Free(d: World, key: Key, i: nat) { forall j: nat :: i <= j ==> SlotKey(key, j) !in d.pods }

  function Entries(key: Key, node: string, n: nat): (infos: seq<Info>)
    ensures |infos| == n && forall i :: 0 <= i < n ==> infos[i] == Info(SlotName(key.name, i), node)
  {
    seq(n, i requires 0 <= i < n => Info(SlotName(key.name, i), node))
  }

  // The pass has filled the slots before i.
  ghost predicate Filling(d: World, k: Worker, i: nat) {
    && Busy(d, k) && k.pc == Slot(i, Entries(k.key, k.source, i)) && i <= k.copy.replicas && k.copy.forks == []
    && CanUpdate(d, k) && (k.source, k.key.name) in d.snaps && Free(d, k.key, i)
  }

  lemma FreeNext(d: World, d': World, key: Key, i: nat)
    requires Free(d, key, i) && d'.pods.Keys == d.pods.Keys + {SlotKey(key, i)}
    ensures Free(d', key, i + 1)
  {
    forall j: nat | i + 1 <= j ensures SlotKey(key, j) !in d'.pods {
      if SlotKey(key, j) == SlotKey(key, i) { SlotKeyInjective(key, j, key, i); }
    }
  }

  lemma DialsOne(d: World, k: Worker, c: Child) returns (d': World, k': Worker)
    requires Busy(d, k) && k.pc.Dial? && k.pc.child == c && (c.node, k.key.name) in d.snaps
    ensures k' == Dialled(k, true) && Busy(d', k') && d' == Restored(d, k, c)
  {
    d', k' := Restored(d, k, c), Dialled(k, true);
    ReachPass(d, k, ActivateChild(0, true, true), d', Some(k'));
  }

  lemma MakesOne(d: World, k: Worker) returns (d': World, k': Worker, c: Child)
    requires Busy(d, k) && k.pc.Slot? && k.pc.i < k.copy.replicas && k.copy.forks == []
    requires SlotKey(k.key, k.pc.i) !in d.pods
    ensures c == Child(SlotKey(k.key, k.pc.i), d.nextUid, k.copy.uid, k.source)
    ensures k' == k.(pc := Dial(k.pc.i, k.pc.done, c)) && Busy(d', k') && d' == Made(d, k, k.pc.i)
  {
    c := Child(SlotKey(k.key, k.pc.i), d.nextUid, k.copy.uid, k.source);
    d', k' := Made(d, k, k.pc.i), k.(pc := Dial(k.pc.i, k.pc.done, c));
    ReachPass(d, k, EnsureChild(0, true, Some(c)), d', Some(k'));
  }

  // The restore of the slot's child from that snapshot.
  predicate Fresh(r: Restore, uid: nat, version: nat, slot: Key) {
    r.uid == uid && r.version == version && r.child.key == slot
  }

  lemma FillsOne(d: World, k: Worker, i: nat) returns (d': World, k': Worker, r: Restore)
    requires Filling(d, k, i) && i < k.copy.replicas
    ensures Filling(d', k', i + 1) && k'.key == k.key && k'.copy == k.copy && k'.source == k.source
    ensures d'.forks == d.forks && d'.snaps == d.snaps && d'.pods.Keys == d.pods.Keys + {SlotKey(k.key, i)}
    ensures d'.restores == d.restores + {r}
    ensures Fresh(r, k.copy.uid, d.snaps[(k.source, k.key.name)], SlotKey(k.key, i))
  {
    var d1, k1, c := MakesOne(d, k);
    d', k' := DialsOne(d1, k1, c);
    r := Restore(k.copy.uid, c, d.snaps[(k.source, k.key.name)], d.nextSnap);
    FreeNext(d, d', k.key, i);
    assert Entries(k.key, k.source, i) + [Info(c.key.name, c.node)] == Entries(k.key, k.source, i + 1);
  }

  ghost predicate Served(d: World, uid: nat, version: nat, slot: Key) {
    slot in d.pods && exists r :: r in d.restores && Fresh(r, uid, version, slot)
  }

  lemma ServedStill(d: World, d': World, uid: nat, version: nat, slot: Key)
    requires Served(d, uid, version, slot) && d.pods.Keys <= d'.pods.Keys && d.restores <= d'.restores
    ensures Served(d', uid, version, slot)
  {
  }

  // A restore made for one of the first n slots.
  ghost predicate Belongs(r: Restore, uid: nat, version: nat, key: Key, n: int) {
    exists j: nat :: j < n && Fresh(r, uid, version, SlotKey(key, j))
  }

  lemma {:induction false} FillsAll(d: World, k: Worker, i: nat, version: nat) returns (d': World, k': Worker)
    requires Filling(d, k, i) && version == d.snaps[(k.source, k.key.name)]
    ensures Filling(d', k', k.copy.replicas) && k'.key == k.key && k'.copy == k.copy && k'.source == k.source
    ensures d'.forks == d.forks && d'.snaps == d.snaps
    ensures d.pods.Keys <= d'.pods.Keys && d.restores <= d'.restores
    ensures forall j: nat :: i <= j < k.copy.replicas ==> Served(d', k.copy.uid, version, SlotKey(k.key, j))
    ensures forall r :: r in d'.restores - d.restores ==> Belongs(r, k.copy.uid, version, k.key, k.copy.replicas)
    decreases k.copy.replicas - i
  {
    if i == k.copy.replicas {
      d', k' := d, k;
    } else {
      var d1, k1, r := FillsOne(d, k, i);
      d', k' := FillsAll(d1, k1, i + 1, version);
      assert Served(d1, k.copy.uid, version, SlotKey(k.key, i));
      ServedStill(d1, d', k.copy.uid, version, SlotKey(k.key, i));
      assert Belongs(r, k.copy.uid, version, k.key, k.copy.replicas);
    }
  }

  // A pass over a fork that has its snapshot and no child yet, with calls that go
  // through, makes a pod in every slot, has each restore the snapshot on the
  // source's node and nothing else, and records them all in slot order.
  lemma ForkServed(d: World, key: Key, node: string) returns (d': World)
    requires Quiet(d) && key in d.forks && (node, key.name) in d.snaps && Free(d, key, 0)
    requires var f := d.forks[key]; f.taken && f.finalizer && !f.deleting && f.forks == [] && f.replicas > 0
    ensures Quiet(d') && key in d'.forks && d'.forks[key].forks == Entries(key, node, d.forks[key].replicas)
    ensures var uid, version := d.forks[key].uid, d.snaps[(node, key.name)];
      && (forall j: nat :: j < d.forks[key].replicas ==> Served(d', uid, version, SlotKey(key, j)))
      && (forall r :: r in d'.restores - d.restores ==> Belongs(r, uid, version, key, d.forks[key].replicas))
  {
    var version := d.snaps[(node, key.name)];
    ReachBegin(d, key, node);
    var k := Started(d, key, node);
    assert Entries(key, node, 0) == [];
    var d1, k1 := FillsAll(d, k, 0, version);
    d' := PutFork(d1, key, k1.copy.(forks := k1.pc.done));
    ReachPass(d1, k1, Report(0, Applied), d', None);
    forall j: nat | j < d.forks[key].replicas ensures Served(d', k.copy.uid, version, SlotKey(key, j)) {
      ServedStill(d1, d', k.copy.uid, version, SlotKey(key, j));
    }
  }
}
