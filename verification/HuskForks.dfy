/**
 Live forks of a husk sandbox as a transition system.  A pass of the fork
 reconciler is a worker that snapshots the source once, records that it did,
 then creates and activates one child pod per fixed slot.  It may stop at any
 step, and a call that reports failure may still have taken effect.

 A pass reads the SandboxFork as it is and passes on one fork are serialised.
 Everything else it reads is arbitrary: the node the source is on may differ
 from pass to pass, and child pods may be read stale.  SandboxForks and pods
 belong to a namespace.  A fork snapshot is a directory on one node named after
 the fork alone, so forks of one name in different namespaces share it.
 */
module HuskForks {
  import opened Wrappers

  datatype Key = Key(ns: string, name: string)

  datatype Info = Info(name: string, node: string)
  datatype Fork =
    Fork(uid: nat, version: nat, replicas: int, deleting: bool, finalizer: bool, taken: bool, forks: seq<Info>)
  datatype Child = Child(key: Key, uid: nat, owner: nat, node: string)

  datatype Pc =
    | AddFinalizer
    | Snapshot
    | Persist(version: nat)
    | Slot(i: nat, done: seq<Info>)
    | Dial(i: nat, done: seq<Info>, child: Child)
    | Finalize
    | Unfinalize

  // How a pass found one slot: its pod, if any, and whether the pass activated it
  // with success.
  datatype Visit = Visit(child: Option<Child>, activated: bool)

  // `source` is the node the pass found the source sandbox on; `visits` are the
  // slots it is done with.
  datatype Worker = Worker(key: Key, copy: Fork, source: string, pc: Pc, visits: seq<Visit>)

  datatype Reply = Applied | AppliedButLost | Refused

  // What one SandboxFork object has done so far, by its uid: the largest replica
  // count it ever asked for and the snapshot its taken flag stands for.
  datatype Take = Take(node: string, version: nat)
  datatype Life = Life(key: Key, most: int, take: Option<Take>)
  datatype Snap = Snap(uid: nat, key: Key, node: string)

  // A child activated from snapshot `version` when `at` snapshots had been made.
  datatype Restore = Restore(uid: nat, child: Child, version: nat, at: nat)

  // A snapshot directory: a node and a fork name.
  type Dir = (string, string)

  // The API objects, the snapshot directories on the nodes, and what happened;
  // `snapped` numbers the snapshots in the order they were made.
  datatype World = World(
    forks: map<Key, Fork>,
    pods: map<Key, Child>,
    seen: set<Child>,
    snaps: map<Dir, nat>,
    rev: nat,
    nextUid: nat,
    lives: map<nat, Life>,
    snapped: map<nat, Snap>,
    nextSnap: nat,
    restores: set<Restore>)

  datatype State = State(world: World, workers: map<nat, Worker>)

  datatype Action =
    | CreateFork(key: Key, replicas: int)
    | EditReplicas(key: Key, replicas: int)
    | DeleteFork(key: Key)
    | RemovePod(pod: Key)
    | Begin(w: nat, key: Key, source: string)
    | Stop(w: nat)
    | WriteFinalizer(w: nat, reply: Reply)
    | TakeSnapshot(w: nat, effect: bool, ok: bool)
    | PersistTaken(w: nat, reply: Reply)
    | EnsureChild(w: nat, made: bool, child: Option<Child>)
    | SkipChild(w: nat)
    | ActivateChild(w: nat, effect: bool, recorded: bool)
    | Report(w: nat, reply: Reply)
    | RemoveSnapshot(w: nat, effect: bool)
    | DropFinalizer(w: nat, reply: Reply)

  // ------------------------------------------------------------- slot names

  function Digits(n: nat): (s: string)
    ensures |s| > 0 && forall k :: 0 <= k < |s| ==> '0' <= s[k] <= '9'
  {
    (if n < 10 then "" else Digits(n / 10)) + ['0' + (n % 10) as char]
  }

  function SlotName(fork: string, i: nat): string {
    fork + "-fork-" + Digits(i)
  }

  lemma {:induction false} DigitsInjective(m: nat, n: nat)
    requires Digits(m) == Digits(n)
    ensures m == n
  {
    var a, b := Digits(m), Digits(n);
    assert a[|a| - 1] == b[|b| - 1];
    assert m % 10 == n % 10;
    assert a[..|a| - 1] == (if m < 10 then "" else Digits(m / 10));
    assert b[..|b| - 1] == (if n < 10 then "" else Digits(n / 10));
    if m >= 10 && n >= 10 { DigitsInjective(m / 10, n / 10); }
  }

  lemma DashBound(a: string, b: string, x: string, y: string)
    requires a + x == b + y && |b| > 0 && b[|b| - 1] == '-'
    requires forall k :: 0 <= k < |x| ==> x[k] != '-'
    ensures |b| <= |a|
  {
    assert forall k :: |a| <= k < |a + x| ==> (a + x)[k] == x[k - |a|];
    assert (b + y)[|b| - 1] == '-';
  }

  // Two texts that end in '-' and then only digits split at the same place.
  lemma LastDash(a: string, b: string, x: string, y: string)
    requires a + x == b + y && |a| > 0 && |b| > 0 && a[|a| - 1] == '-' && b[|b| - 1] == '-'
    requires forall k :: 0 <= k < |x| ==> x[k] != '-'
    requires forall k :: 0 <= k < |y| ==> y[k] != '-'
    ensures a == b && x == y
  {
    DashBound(a, b, x, y);
    DashBound(b, a, y, x);
    assert a == (a + x)[..|a|] && b == (b + y)[..|b|];
    assert x == (a + x)[|a|..] && y == (b + y)[|b|..];
  }

  // No two slots, of one fork or of two, share a pod name.
  lemma SlotNameInjective(f: string, i: nat, g: string, j: nat)
    requires SlotName(f, i) == SlotName(g, j)
    ensures f == g && i == j
  {
    LastDash(f + "-fork-", g + "-fork-", Digits(i), Digits(j));
    assert f == (f + "-fork-")[..|f|] && g == (g + "-fork-")[..|g|];
    DigitsInjective(i, j);
  }

  // A child pod is in its fork's namespace.
  function SlotKey(fork: Key, i: nat): Key { Key(fork.ns, SlotName(fork.name, i)) }

  lemma SlotKeyInjective(f: Key, i: nat, g: Key, j: nat)
    requires SlotKey(f, i) == SlotKey(g, j)
    ensures f == g && i == j
  {
    SlotNameInjective(f.name, i, g.name, j);
  }

  // ------------------------------------------------------------------ steps

  predicate Recorded(forks: seq<Info>, name: string) {
    exists k :: 0 <= k < |forks| && forks[k].name == name
  }

  function LastRecorded(forks: seq<Info>, name: string): (info: Info)
    requires Recorded(forks, name)
    ensures info in forks && info.name == name
  {
    if forks[|forks| - 1].name == name then forks[|forks| - 1] else LastRecorded(forks[..|forks| - 1], name)
  }

  predicate CanUpdate(d: World, k: Worker) {
    k.key in d.forks && d.forks[k.key].version == k.copy.version
  }

  ghost predicate Idle(workers: map<nat, Worker>, key: Key) {
    forall w :: w in workers ==> workers[w].key != key
  }

  function PutFork(d: World, key: Key, fork: Fork): World {
    d.(forks := d.forks[key := fork.(version := d.rev + 1)], rev := d.rev + 1)
  }

  function LifeOf(d: World, uid: nat): Life {
    if uid in d.lives then d.lives[uid] else Life(Key("", ""), 0, None)
  }

  function Asked(life: Life, replicas: int): Life {
    life.(most := if replicas > life.most then replicas else life.most)
  }

  function Created(d: World, key: Key, replicas: int): World {
    PutFork(d, key, Fork(d.nextUid, 0, replicas, false, false, false, []))
      .(nextUid := d.nextUid + 1, lives := d.lives[d.nextUid := Life(key, replicas, None)])
  }

  function Resized(d: World, key: Key, replicas: int): World
    requires key in d.forks
  {
    var f := d.forks[key];
    PutFork(d.(lives := d.lives[f.uid := Asked(LifeOf(d, f.uid), replicas)]), key, f.(replicas := replicas))
  }

  function Deleted(d: World, key: Key): World
    requires key in d.forks
  {
    if d.forks[key].finalizer then PutFork(d, key, d.forks[key].(deleting := true))
    else d.(forks := d.forks - {key})
  }

  // The pod for the slot is created, pinned to the node this pass found.
  function Made(d: World, k: Worker, i: nat): World {
    var c := Child(SlotKey(k.key, i), d.nextUid, k.copy.uid, k.source);
    d.(pods := d.pods[c.key := c], seen := d.seen + {c}, nextUid := d.nextUid + 1)
  }

  // The source stub writes the fork's snapshot directory on its own node.
  function Snapped(d: World, k: Worker): World {
    d.(snaps := d.snaps[(k.source, k.key.name) := d.nextSnap],
       snapped := d.snapped[d.nextSnap := Snap(k.copy.uid, k.key, k.source)],
       nextSnap := d.nextSnap + 1)
  }

  function Taken(d: World, k: Worker, version: nat): World {
    var life := LifeOf(d, k.copy.uid).(take := Some(Take(k.source, version)));
    PutFork(d, k.key, k.copy.(taken := true)).(lives := d.lives[k.copy.uid := life])
  }

  function Restored(d: World, k: Worker, c: Child): World
    requires (c.node, k.key.name) in d.snaps
  {
    d.(restores := d.restores + {Restore(k.copy.uid, c, d.snaps[(c.node, k.key.name)], d.nextSnap)})
  }

  function Forgotten(d: World, k: Worker): World {
    d.(snaps := d.snaps - {(k.source, k.key.name)})
  }

  function StartOf(copy: Fork): Pc {
    if copy.deleting then Finalize
    else if !copy.finalizer then AddFinalizer
    else if copy.taken then Slot(0, [])
    else Snapshot
  }

  // Where a pass goes once it has looked up the child of its slot.
  function AfterEnsure(k: Worker, child: Option<Child>): Pc
    requires k.pc.Slot?
  {
    var name := SlotName(k.key.name, k.pc.i);
    if child.None? then Slot(k.pc.i + 1, k.pc.done)
    else if Recorded(k.copy.forks, name) then Slot(k.pc.i + 1, k.pc.done + [LastRecorded(k.copy.forks, name)])
    else Dial(k.pc.i, k.pc.done, child.value)
  }

  function Ensured(k: Worker, child: Option<Child>): Worker
    requires k.pc.Slot?
  {
    var pc := AfterEnsure(k, child);
    k.(pc := pc, visits := if pc.Dial? then k.visits else k.visits + [Visit(child, false)])
  }

  function Dialled(k: Worker, recorded: bool): Worker
    requires k.pc.Dial?
  {
    var c := k.pc.child;
    var done := if recorded then k.pc.done + [Info(c.key.name, c.node)] else k.pc.done;
    k.(pc := Slot(k.pc.i + 1, done), visits := k.visits + [Visit(Some(c), recorded)])
  }

  // A step of one pass: what it may do to the world, and its next position,
  // or None when it is over.
  ghost predicate PassStep(d: World, k: Worker, a: Action, d': World, next: Option<Worker>) {
    match a
    case WriteFinalizer(_, reply) =>
      && k.pc.AddFinalizer? && next.None?
      && LastWrite(d, k, k.copy.(finalizer := true), reply, d')
    case TakeSnapshot(_, effect, ok) =>
      && k.pc.Snapshot? && (ok ==> effect)
      && d' == (if effect then Snapped(d, k) else d)
      && next == (if ok then Some(k.(pc := Persist(d.nextSnap))) else None)
    case PersistTaken(_, reply) =>
      && k.pc.Persist? && (!reply.Refused? ==> CanUpdate(d, k))
      && d' == (if reply.Refused? then d else Taken(d, k, k.pc.version))
      && var copy := k.copy.(taken := true, version := d.rev + 1);
         next == if reply.Applied? then Some(k.(copy := copy, pc := Slot(0, []))) else None
    case EnsureChild(_, made, child) =>
      && k.pc.Slot? && k.pc.i < k.copy.replicas
      && (made ==> SlotKey(k.key, k.pc.i) !in d.pods)
      && d' == (if made then Made(d, k, k.pc.i) else d)
      && (child.Some? ==> child.value in d'.seen && child.value.key == SlotKey(k.key, k.pc.i))
      && next == Some(Ensured(k, child))
    case SkipChild(_) =>
      && k.pc.Dial? && d' == d
      && next == Some(k.(pc := Slot(k.pc.i + 1, k.pc.done), visits := k.visits + [Visit(Some(k.pc.child), false)]))
    case ActivateChild(_, effect, recorded) =>
      && k.pc.Dial? && (recorded ==> effect)
      && (effect ==> (k.pc.child.node, k.key.name) in d.snaps)
      && d' == (if effect then Restored(d, k, k.pc.child) else d)
      && next == Some(Dialled(k, recorded))
    case Report(_, reply) =>
      && k.pc.Slot? && k.pc.i >= k.copy.replicas && next.None?
      && LastWrite(d, k, k.copy.(forks := k.pc.done), reply, d')
    case RemoveSnapshot(_, effect) =>
      && k.pc.Finalize?
      && d' == (if effect then Forgotten(d, k) else d)
      && next == Some(k.(pc := Unfinalize))
    case DropFinalizer(_, reply) =>
      && k.pc.Unfinalize? && next.None? && (!reply.Refused? ==> CanUpdate(d, k))
      && d' == (if reply.Refused? then d else d.(forks := d.forks - {k.key}))
    case Stop(_) => d' == d && next.None?
    case _ => false
  }

  // A write that ends the pass, whatever becomes of it.
  ghost predicate LastWrite(d: World, k: Worker, fork: Fork, reply: Reply, d': World) {
    (!reply.Refused? ==> CanUpdate(d, k)) && d' == if reply.Refused? then d else PutFork(d, k.key, fork)
  }

  // A step outside any pass.
  ghost predicate OtherStep(d: World, a: Action, d': World) {
    match a
    case CreateFork(key, replicas) => key !in d.forks && d' == Created(d, key, replicas)
    case EditReplicas(key, replicas) => key in d.forks && d' == Resized(d, key, replicas)
    case DeleteFork(key) => key in d.forks && d' == Deleted(d, key)
    case RemovePod(pod) => d' == d.(pods := d.pods - {pod})
    case _ => false
  }

  ghost predicate CanBegin(s: State, w: nat, key: Key) {
    && w !in s.workers && key in s.world.forks && Idle(s.workers, key)
    && var f := s.world.forks[key];
       (f.deleting ==> f.finalizer) && (f.deleting || !f.finalizer || |f.forks| < f.replicas)
  }

  function Started(d: World, key: Key, source: string): Worker
    requires key in d.forks
  {
    Worker(key, d.forks[key], source, StartOf(d.forks[key]), [])
  }

  ghost predicate Step(s: State, a: Action, s': State) {
    if a.CreateFork? || a.EditReplicas? || a.DeleteFork? || a.RemovePod? then
      OtherStep(s.world, a, s'.world) && s'.workers == s.workers
    else if a.Begin? then
      && CanBegin(s, a.w, a.key) && s'.world == s.world
      && s'.workers == s.workers[a.w := Started(s.world, a.key, a.source)]
    else
      && a.w in s.workers
      && exists next :: PassStep(s.world, s.workers[a.w], a, s'.world, next) && Moved(s, a.w, next, s')
  }

  ghost predicate Moved(s: State, w: nat, next: Option<Worker>, s': State) {
    s'.workers == if next.None? then s.workers - {w} else s.workers[w := next.value]
  }

  // -------------------------------------------------------------- invariant

  // The snapshot was written to the directory.
  predicate InDir(snap: Snap, dir: Dir) { snap.node == dir.0 && snap.key.name == dir.1 }

  // Of the first `at` snapshots `v` is the last one written to the directory.
  ghost predicate Latest(snapped: map<nat, Snap>, dir: Dir, v: nat, at: nat) {
    && v in snapped && v < at && InDir(snapped[v], dir)
    && forall u :: v < u < at && u in snapped ==> !InDir(snapped[u], dir)
  }

  // Snapshots made for the fork itself are none later than `v`.
  ghost predicate OwnUpTo(snapped: map<nat, Snap>, key: Key, v: nat) {
    forall u :: u in snapped && snapped[u].key == key ==> u <= v
  }

  ghost predicate ForkOk(d: World, n: Key)
    requires n in d.forks
  {
    var f := d.forks[n];
    && f.version <= d.rev
    && f.uid in d.lives && d.lives[f.uid].key == n && f.replicas <= d.lives[f.uid].most
    && (f.taken <==> d.lives[f.uid].take.Some?)
    && (f.taken ==> OwnUpTo(d.snapped, n, d.lives[f.uid].take.value.version))
  }

  ghost predicate LifeOk(d: World, u: nat)
    requires u in d.lives
  {
    && u < d.nextUid
    && (d.lives[u].take.Some? ==>
          var take := d.lives[u].take.value;
          take.version in d.snapped && d.snapped[take.version] == Snap(u, d.lives[u].key, take.node))
  }

  ghost predicate SnapOk(d: World, v: nat)
    requires v in d.snapped
  {
    v < d.nextSnap && d.snapped[v].uid in d.lives && d.lives[d.snapped[v].uid].key == d.snapped[v].key
  }

  // A restore found the latest snapshot in its directory; those in it that are
  // later than the recorded one are other forks'.
  ghost predicate RestoreOk(d: World, r: Restore) {
    && r.uid in d.lives && d.lives[r.uid].take.Some?
    && d.lives[r.uid].take.value.version < r.at <= d.nextSnap
    && Latest(d.snapped, (r.child.node, d.lives[r.uid].key.name), r.version, r.at)
    && forall v :: d.lives[r.uid].take.value.version < v < r.at && v in d.snapped ==>
         d.snapped[v].key != d.lives[r.uid].key
  }

  ghost predicate InSlot(key: Key, most: int, child: Key) {
    exists i: nat :: i < most && child == SlotKey(key, i)
  }

  ghost predicate ChildOk(d: World, c: Child) {
    c.owner in d.lives && InSlot(d.lives[c.owner].key, d.lives[c.owner].most, c.key)
  }

  ghost predicate ForksOk(d: World) { forall n :: n in d.forks ==> ForkOk(d, n) }
  ghost predicate LivesOk(d: World) { forall u :: u in d.lives ==> LifeOk(d, u) }
  ghost predicate SnapsOk(d: World) {
    && (forall dir :: dir in d.snaps ==> Latest(d.snapped, dir, d.snaps[dir], d.nextSnap))
    && (forall v :: v in d.snapped ==> SnapOk(d, v))
  }
  ghost predicate RestoresOk(d: World) { forall r :: r in d.restores ==> RestoreOk(d, r) }
  ghost predicate ChildrenOk(d: World) {
    && (forall c :: c in d.seen ==> ChildOk(d, c))
    && (forall n :: n in d.pods ==> d.pods[n] in d.seen && d.pods[n].key == n)
  }
  ghost predicate WorldOk(d: World) {
    ForksOk(d) && LivesOk(d) && SnapsOk(d) && RestoresOk(d) && ChildrenOk(d)
  }

  // A pass past its finalizer check works on an object that cannot go away
  // under it, and only the pass itself changes that object's status.
  ghost predicate Held(d: World, k: Worker) {
    && k.key in d.forks && d.forks[k.key].uid == k.copy.uid && d.forks[k.key].finalizer
    && d.forks[k.key].taken == k.copy.taken && d.forks[k.key].forks == k.copy.forks
    && k.copy.uid in d.lives && k.copy.replicas <= d.lives[k.copy.uid].most && d.lives[k.copy.uid].key == k.key
    && (k.copy.deleting ==> d.forks[k.key].deleting)
  }

  ghost predicate WorkerOk(d: World, k: Worker) {
    && k.copy.version <= d.rev
    && (CanUpdate(d, k) ==> d.forks[k.key] == k.copy)
    && (!k.pc.AddFinalizer? ==> Held(d, k))
    && (k.pc.Snapshot? || k.pc.Persist? ==> !k.copy.taken)
    && (k.pc.Persist? ==> k.pc.version in d.snapped && d.snapped[k.pc.version] == Snap(k.copy.uid, k.key, k.source)
                          && OwnUpTo(d.snapped, k.key, k.pc.version))
    && (k.pc.Slot? || k.pc.Dial? ==> k.copy.taken)
    && (k.pc.Dial? ==> k.pc.child in d.seen && k.pc.child.key == SlotKey(k.key, k.pc.i)
                       && !Recorded(k.copy.forks, SlotName(k.key.name, k.pc.i)))
    && (k.pc.Finalize? || k.pc.Unfinalize? ==> k.copy.deleting)
  }

  ghost predicate Serial(workers: map<nat, Worker>) {
    forall v, w :: v in workers && w in workers && workers[v].key == workers[w].key ==> v == w
  }

  ghost predicate WorkersOk(d: World, workers: map<nat, Worker>) {
    forall w :: w in workers ==> WorkerOk(d, workers[w])
  }

  ghost predicate Inv(s: State) {
    WorldOk(s.world) && Serial(s.workers) && WorkersOk(s.world, s.workers)
  }

  // -------------------------------------- what each change does to the world

  lemma PutForkKeeps(d: World, key: Key, f: Fork)
    requires WorldOk(d) && key in d.forks && f.uid == d.forks[key].uid && f.taken == d.forks[key].taken
    requires f.replicas <= LifeOf(d, f.uid).most
    ensures WorldOk(PutFork(d, key, f))
  {
  }

  lemma CreatedKeeps(d: World, key: Key, replicas: int)
    requires WorldOk(d) && key !in d.forks
    ensures WorldOk(Created(d, key, replicas))
  {
    assert d.nextUid !in d.lives by { assert forall u :: u in d.lives ==> LifeOk(d, u); }
    CreatedForks(d, key, replicas);
    CreatedRest(d, key, replicas);
  }

  lemma CreatedForks(d: World, key: Key, replicas: int)
    requires ForksOk(d) && LivesOk(d) && key !in d.forks && d.nextUid !in d.lives
    ensures ForksOk(Created(d, key, replicas)) && LivesOk(Created(d, key, replicas))
  {
  }

  lemma CreatedRest(d: World, key: Key, replicas: int)
    requires SnapsOk(d) && RestoresOk(d) && ChildrenOk(d) && d.nextUid !in d.lives
    ensures var d' := Created(d, key, replicas); SnapsOk(d') && RestoresOk(d') && ChildrenOk(d')
  {
  }

  lemma AskedKeeps(d: World, u: nat, replicas: int)
    requires WorldOk(d) && u in d.lives
    ensures WorldOk(d.(lives := d.lives[u := Asked(LifeOf(d, u), replicas)]))
  {
  }

  lemma RemovedKeeps(d: World, key: Key)
    requires WorldOk(d)
    ensures WorldOk(d.(forks := d.forks - {key}))
  {
  }

  lemma PodGoneKeeps(d: World, pod: Key)
    requires WorldOk(d)
    ensures WorldOk(d.(pods := d.pods - {pod}))
  {
  }

  // A snapshot is the latest in its directory, and made for a fork without the
  // taken flag.
  lemma SnappedKeeps(d: World, k: Worker)
    requires WorldOk(d) && WorkerOk(d, k) && k.pc.Snapshot?
    ensures WorldOk(Snapped(d, k))
  {
    SnappedForks(d, k);
    SnappedDirs(d, k);
  }

  lemma SnappedForks(d: World, k: Worker)
    requires WorldOk(d) && WorkerOk(d, k) && k.pc.Snapshot?
    ensures ForksOk(Snapped(d, k)) && LivesOk(Snapped(d, k))
  {
    assert d.nextSnap !in d.snapped by { assert forall v :: v in d.snapped ==> SnapOk(d, v); }
    assert ForkOk(d, k.key);
  }

  lemma SnappedDirs(d: World, k: Worker)
    requires WorldOk(d) && WorkerOk(d, k) && k.pc.Snapshot?
    ensures SnapsOk(Snapped(d, k)) && RestoresOk(Snapped(d, k)) && ChildrenOk(Snapped(d, k))
  {
    assert d.nextSnap !in d.snapped by { assert forall v :: v in d.snapped ==> SnapOk(d, v); }
  }

  lemma TakenKeeps(d: World, k: Worker)
    requires WorldOk(d) && WorkerOk(d, k) && k.pc.Persist? && CanUpdate(d, k)
    ensures WorldOk(Taken(d, k, k.pc.version))
  {
  }

  lemma MadeKeeps(d: World, k: Worker)
    requires WorldOk(d) && WorkerOk(d, k) && k.pc.Slot? && k.pc.i < k.copy.replicas
    ensures WorldOk(Made(d, k, k.pc.i))
  {
  }

  // An activation restores what its directory holds.
  lemma RestoredKeeps(d: World, k: Worker)
    requires WorldOk(d) && WorkerOk(d, k) && k.pc.Dial? && (k.pc.child.node, k.key.name) in d.snaps
    ensures WorldOk(Restored(d, k, k.pc.child))
  {
    assert ForkOk(d, k.key) && LifeOk(d, k.copy.uid);
    assert SnapOk(d, d.lives[k.copy.uid].take.value.version);
  }

  lemma ForgottenKeeps(d: World, k: Worker)
    requires WorldOk(d)
    ensures WorldOk(Forgotten(d, k))
  {
  }

  lemma PassWorld(d: World, k: Worker, a: Action, d': World, next: Option<Worker>)
    requires WorldOk(d) && WorkerOk(d, k) && PassStep(d, k, a, d', next)
    ensures WorldOk(d')
  {
    if k.key in d.forks { assert ForkOk(d, k.key); }
    if a.WriteFinalizer? {
      if !a.reply.Refused? { PutForkKeeps(d, k.key, k.copy.(finalizer := true)); }
    } else if a.Report? {
      if !a.reply.Refused? { PutForkKeeps(d, k.key, k.copy.(forks := k.pc.done)); }
    } else if a.TakeSnapshot? {
      if a.effect { SnappedKeeps(d, k); }
    } else if a.PersistTaken? {
      if !a.reply.Refused? { TakenKeeps(d, k); }
    } else if a.EnsureChild? {
      if a.made { MadeKeeps(d, k); }
    } else if a.ActivateChild? {
      if a.effect { RestoredKeeps(d, k); }
    } else if a.RemoveSnapshot? {
      if a.effect { ForgottenKeeps(d, k); }
    } else if a.DropFinalizer? {
      if !a.reply.Refused? { RemovedKeeps(d, k.key); }
    }
  }

  lemma OtherWorld(d: World, a: Action, d': World)
    requires WorldOk(d) && OtherStep(d, a, d')
    ensures WorldOk(d')
  {
    if a.CreateFork? {
      CreatedKeeps(d, a.key, a.replicas);
    } else if a.EditReplicas? {
      assert ForkOk(d, a.key);
      var u := d.forks[a.key].uid;
      AskedKeeps(d, u, a.replicas);
      var asked := d.(lives := d.lives[u := Asked(LifeOf(d, u), a.replicas)]);
      PutForkKeeps(asked, a.key, d.forks[a.key].(replicas := a.replicas));
    } else if a.DeleteFork? {
      assert ForkOk(d, a.key);
      if d.forks[a.key].finalizer { PutForkKeeps(d, a.key, d.forks[a.key].(deleting := true)); }
      else { RemovedKeeps(d, a.key); }
    } else {
      PodGoneKeeps(d, a.pod);
    }
  }

  // ------------------------------------ what each change does to the passes

  // Nothing about any fork but `key` has changed.
  ghost predicate Away(d: World, d': World, key: Key) {
    && d.rev <= d'.rev
    && (forall n :: n != key ==> (n in d.forks <==> n in d'.forks))
    && (forall n :: n != key && n in d.forks ==> d'.forks[n] == d.forks[n])
    && (forall u :: u in d.lives && d.lives[u].key != key ==> u in d'.lives && d'.lives[u] == d.lives[u])
    && (forall v :: v in d.snapped ==> v in d'.snapped && d'.snapped[v] == d.snapped[v])
    && (forall v :: v in d'.snapped && v !in d.snapped ==> d'.snapped[v].key == key)
    && d.seen <= d'.seen
  }

  lemma AwayKeeps(d: World, d': World, key: Key, k: Worker)
    requires Away(d, d', key) && WorkerOk(d, k) && k.key != key
    ensures WorkerOk(d', k)
  {
  }

  lemma WriteAway(d: World, k: Worker, a: Action, d': World, next: Option<Worker>)
    requires WorkerOk(d, k) && PassStep(d, k, a, d', next)
    requires a.WriteFinalizer? || a.Report? || a.PersistTaken? || a.DropFinalizer?
    ensures Away(d, d', k.key)
  {
  }

  lemma SnapAway(d: World, k: Worker, a: Action, d': World, next: Option<Worker>)
    requires SnapsOk(d) && PassStep(d, k, a, d', next) && (a.TakeSnapshot? || a.RemoveSnapshot?)
    ensures Away(d, d', k.key)
  {
    assert forall v :: v in d.snapped ==> SnapOk(d, v);
  }

  lemma ChildAway(d: World, k: Worker, a: Action, d': World, next: Option<Worker>)
    requires PassStep(d, k, a, d', next) && (a.EnsureChild? || a.SkipChild? || a.ActivateChild? || a.Stop?)
    ensures Away(d, d', k.key)
  {
  }

  lemma PassAway(d: World, k: Worker, a: Action, d': World, next: Option<Worker>)
    requires SnapsOk(d) && WorkerOk(d, k) && PassStep(d, k, a, d', next)
    ensures Away(d, d', k.key)
  {
    if a.WriteFinalizer? || a.Report? || a.PersistTaken? || a.DropFinalizer? { WriteAway(d, k, a, d', next); }
    else if a.TakeSnapshot? || a.RemoveSnapshot? { SnapAway(d, k, a, d', next); }
    else { ChildAway(d, k, a, d', next); }
  }

  lemma PassNext(d: World, k: Worker, a: Action, d': World, next: Option<Worker>)
    requires SnapsOk(d) && WorkerOk(d, k) && PassStep(d, k, a, d', next)
    ensures next.Some? ==> next.value.key == k.key && WorkerOk(d', next.value)
  {
    assert forall v :: v in d.snapped ==> SnapOk(d, v);
  }

  lemma OtherWorker(d: World, a: Action, d': World, k: Worker)
    requires WorldOk(d) && OtherStep(d, a, d') && WorkerOk(d, k)
    ensures WorkerOk(d', k)
  {
    if a.CreateFork? {
      assert d.nextUid !in d.lives by { assert forall u :: u in d.lives ==> LifeOk(d, u); }
      CreatedWorker(d, a.key, a.replicas, k);
    } else if a.EditReplicas? {
      assert ForkOk(d, a.key);
      ResizedWorker(d, a.key, a.replicas, k);
    } else if a.DeleteFork? {
      DeletedWorker(d, a.key, k);
    }
  }

  lemma CreatedWorker(d: World, key: Key, replicas: int, k: Worker)
    requires WorkerOk(d, k) && key !in d.forks && d.nextUid !in d.lives
    ensures WorkerOk(Created(d, key, replicas), k)
  {
  }

  lemma ResizedWorker(d: World, key: Key, replicas: int, k: Worker)
    requires WorkerOk(d, k) && key in d.forks && d.forks[key].uid in d.lives
    ensures WorkerOk(Resized(d, key, replicas), k)
  {
  }

  lemma DeletedWorker(d: World, key: Key, k: Worker)
    requires WorkerOk(d, k) && key in d.forks
    ensures WorkerOk(Deleted(d, key), k)
  {
  }

  lemma PassKeeps(s: State, w: nat, a: Action, s': State, next: Option<Worker>)
    requires Inv(s) && w in s.workers && PassStep(s.world, s.workers[w], a, s'.world, next) && Moved(s, w, next, s')
    ensures Inv(s')
  {
    var k := s.workers[w];
    assert WorkerOk(s.world, k);
    PassWorld(s.world, k, a, s'.world, next);
    PassAway(s.world, k, a, s'.world, next);
    PassNext(s.world, k, a, s'.world, next);
    PassWorkers(s, w, s', next);
  }

  lemma PassWorkers(s: State, w: nat, s': State, next: Option<Worker>)
    requires Serial(s.workers) && WorkersOk(s.world, s.workers) && w in s.workers && Moved(s, w, next, s')
    requires Away(s.world, s'.world, s.workers[w].key)
    requires next.Some? ==> next.value.key == s.workers[w].key && WorkerOk(s'.world, next.value)
    ensures Serial(s'.workers) && WorkersOk(s'.world, s'.workers)
  {
    forall v | v in s'.workers ensures WorkerOk(s'.world, s'.workers[v]) {
      if v != w { AwayKeeps(s.world, s'.world, s.workers[w].key, s.workers[v]); }
    }
  }

  lemma BeginKeeps(s: State, a: Action, s': State)
    requires Inv(s) && a.Begin? && Step(s, a, s')
    ensures Inv(s')
  {
  }

  lemma StepKeeps(s: State, a: Action, s': State)
    requires Inv(s) && Step(s, a, s')
    ensures Inv(s')
  {
    if a.CreateFork? || a.EditReplicas? || a.DeleteFork? || a.RemovePod? {
      OtherWorld(s.world, a, s'.world);
      forall v | v in s'.workers ensures WorkerOk(s'.world, s'.workers[v]) {
        OtherWorker(s.world, a, s'.world, s.workers[v]);
      }
    } else if a.Begin? {
      BeginKeeps(s, a, s');
    } else {
      var next :| PassStep(s.world, s.workers[a.w], a, s'.world, next) && Moved(s, a.w, next, s');
      PassKeeps(s, a.w, a, s', next);
    }
  }

  // ------------------------------------------------------------------- runs

  ghost predicate Init(s: State) {
    s == State(World(map[], map[], {}, map[], 0, 0, map[], map[], 0, {}), map[])
  }

  ghost predicate Next(s: State, s': State) { exists a :: Step(s, a, s') }

  ghost predicate StepAt(run: seq<State>, i: int) {
    0 < i < |run| && Next(run[i - 1], run[i])
  }

  ghost predicate Run(run: seq<State>) {
    run != [] && Init(run[0]) && forall i :: 0 < i < |run| ==> StepAt(run, i)
  }

  lemma {:induction false} RunKeeps(run: seq<State>, i: nat)
    requires Run(run) && i < |run|
    ensures Inv(run[i])
  {
    if i > 0 {
      RunKeeps(run, i - 1);
      assert StepAt(run, i);
      var a :| Step(run[i - 1], a, run[i]);
      StepKeeps(run[i - 1], a, run[i]);
    }
  }

  // No snapshot was added for the fork, and the one its flag stands for is the same.
  ghost predicate Frozen(d: World, d': World, uid: nat) {
    && uid in d.lives && uid in d'.lives && d.lives[uid].take.Some? && d'.lives[uid].take == d.lives[uid].take
    && forall v :: v in d'.snapped && d'.snapped[v].uid == uid ==> v in d.snapped && d.snapped[v] == d'.snapped[v]
  }

  lemma NoMoreSnapshots(s: State, a: Action, s': State, uid: nat)
    requires Inv(s) && Step(s, a, s') && uid in s.world.lives && s.world.lives[uid].take.Some?
    ensures Frozen(s.world, s'.world, uid)
  {
    assert LifeOk(s.world, uid);
    if !(a.CreateFork? || a.EditReplicas? || a.DeleteFork? || a.RemovePod? || a.Begin?) {
      var k := s.workers[a.w];
      var next :| PassStep(s.world, k, a, s'.world, next) && Moved(s, a.w, next, s');
      assert WorkerOk(s.world, k);
      NoMoreInPass(s.world, k, a, s'.world, next, uid);
    }
  }

  lemma NoMoreInPass(d: World, k: Worker, a: Action, d': World, next: Option<Worker>, uid: nat)
    requires ForksOk(d) && WorkerOk(d, k) && PassStep(d, k, a, d', next)
    requires uid in d.lives && d.lives[uid].take.Some?
    ensures Frozen(d, d', uid)
  {
  }

  // No snapshot of the source is taken for a fork after its taken flag is persisted.
  lemma {:induction false} SnapshotOnce(run: seq<State>, i: nat, j: nat, uid: nat)
    requires Run(run) && i <= j < |run|
    requires uid in run[i].world.lives && run[i].world.lives[uid].take.Some?
    ensures Frozen(run[i].world, run[j].world, uid)
    decreases j
  {
    if i < j {
      SnapshotOnce(run, i, j - 1, uid);
      FrozenStep(run, j, uid);
    }
  }

  lemma FrozenStep(run: seq<State>, j: nat, uid: nat)
    requires Run(run) && 0 < j < |run|
    requires uid in run[j - 1].world.lives && run[j - 1].world.lives[uid].take.Some?
    ensures Frozen(run[j - 1].world, run[j].world, uid)
  {
    RunKeeps(run, j - 1);
    assert StepAt(run, j);
    var a :| Step(run[j - 1], a, run[j]);
    NoMoreSnapshots(run[j - 1], a, run[j], uid);
  }

  // ------------------------------------------------ which snapshot a child restores

  // A fork of the same name in another namespace wrote the recorded snapshot's
  // directory after it was recorded and before snapshot number `at`.
  ghost predicate Overwritten(d: World, life: Life, at: nat)
    requires life.take.Some?
  {
    exists v: nat :: OverwrittenBy(d, life, v) && v < at
  }

  ghost predicate OverwrittenBy(d: World, life: Life, v: nat)
    requires life.take.Some?
  {
    && life.take.value.version < v && v in d.snapped
    && InDir(d.snapped[v], (life.take.value.node, life.key.name)) && d.snapped[v].key.ns != life.key.ns
  }

  // An activated child restores the snapshot its fork's flag stands for exactly
  // when its pod is on the node that snapshot is on and no fork of the same name
  // in another namespace has taken a snapshot there in between.
  lemma RestoresRecordedExactly(run: seq<State>, r: Restore)
    requires Run(run) && r in run[|run| - 1].world.restores
    ensures var d := run[|run| - 1].world;
      && r.uid in d.lives && d.lives[r.uid].take.Some?
      && var life := d.lives[r.uid];
         (r.version == life.take.value.version <==> r.child.node == life.take.value.node && !Overwritten(d, life, r.at))
  {
    RunKeeps(run, |run| - 1);
    RecordedExactly(run[|run| - 1].world, r);
  }

  lemma RecordedExactly(d: World, r: Restore)
    requires WorldOk(d) && r in d.restores
    ensures r.uid in d.lives && d.lives[r.uid].take.Some?
    ensures var life := d.lives[r.uid];
      (r.version == life.take.value.version <==> r.child.node == life.take.value.node && !Overwritten(d, life, r.at))
  {
    assert RestoreOk(d, r) && LifeOk(d, r.uid);
    var life := d.lives[r.uid];
    if r.child.node == life.take.value.node && r.version != life.take.value.version {
      assert OverwrittenBy(d, life, r.version);
    }
  }

  // Between the two restores a snapshot was written to the directory, by a fork
  // in another namespace.
  ghost predicate WrittenBetween(d: World, key: Key, r: Restore, q: Restore) {
    exists v: nat :: WrittenAt(d, key, r, q, v)
  }

  ghost predicate WrittenAt(d: World, key: Key, r: Restore, q: Restore, v: nat) {
    && v in d.snapped && InDir(d.snapped[v], (r.child.node, key.name)) && d.snapped[v].key.ns != key.ns
    && (r.at <= v < q.at || q.at <= v < r.at)
  }

  // Two children of one fork restore the same snapshot exactly when their pods
  // are on the same node and no fork of the same name in another namespace took
  // a snapshot there between their activations.
  lemma SameSnapshotExactly(run: seq<State>, r: Restore, q: Restore)
    requires Run(run) && r.uid == q.uid
    requires r in run[|run| - 1].world.restores && q in run[|run| - 1].world.restores
    ensures var d := run[|run| - 1].world;
      && r.uid in d.lives
      && (r.version == q.version <==>
            r.child.node == q.child.node && !WrittenBetween(d, d.lives[r.uid].key, r, q))
  {
    RunKeeps(run, |run| - 1);
    SameExactly(run[|run| - 1].world, r, q);
  }

  lemma SameExactly(d: World, r: Restore, q: Restore)
    requires WorldOk(d) && r in d.restores && q in d.restores && r.uid == q.uid
    ensures r.uid in d.lives
    ensures r.version == q.version <==>
              r.child.node == q.child.node && !WrittenBetween(d, d.lives[r.uid].key, r, q)
  {
    assert RestoreOk(d, r) && RestoreOk(d, q);
    var key := d.lives[r.uid].key;
    if r.child.node == q.child.node && r.version < q.version { assert WrittenAt(d, key, r, q, q.version); }
    if r.child.node == q.child.node && q.version < r.version { assert WrittenAt(d, key, r, q, r.version); }
  }

  // A slot that the object records as ready is never activated again by a pass
  // that finds its pod.
  lemma RecordedNotReactivated(run: seq<State>, w: nat)
    requires Run(run) && w in run[|run| - 1].workers && run[|run| - 1].workers[w].pc.Dial?
    ensures var s := run[|run| - 1];
      && s.workers[w].key in s.world.forks
      && !Recorded(s.world.forks[s.workers[w].key].forks, s.workers[w].pc.child.key.name)
  {
    RunKeeps(run, |run| - 1);
    var s := run[|run| - 1];
    assert WorkerOk(s.world, s.workers[w]);
  }

  // ------------------------------------------------------------- child pods

  function Slots(fork: Key, most: nat): (slots: set<Key>)
    ensures forall i: nat :: i < most ==> SlotKey(fork, i) in slots
    ensures |slots| <= most
  {
    if most == 0 then {} else Slots(fork, most - 1) + {SlotKey(fork, most - 1)}
  }

  lemma SubsetSize<T>(a: set<T>, b: set<T>)
    requires a <= b
    ensures |a| <= |b|
  {
    assert b == a + (b - a);
  }

  ghost function ChildPods(d: World, uid: nat): set<Key> {
    set n | n in d.pods && d.pods[n].owner == uid
  }

  // A fork's child pods carry slot names below the largest replica count it
  // ever asked for, so there are never more of them than that.
  lemma ChildPodsFitReplicas(run: seq<State>, uid: nat)
    requires Run(run)
    ensures var d := run[|run| - 1].world;
      && (forall c :: c in d.seen && c.owner == uid ==>
            uid in d.lives && InSlot(d.lives[uid].key, d.lives[uid].most, c.key))
      && (ChildPods(d, uid) != {} ==> uid in d.lives && |ChildPods(d, uid)| <= d.lives[uid].most)
  {
    RunKeeps(run, |run| - 1);
    var d := run[|run| - 1].world;
    assert forall c :: c in d.seen ==> ChildOk(d, c);
    var pods := ChildPods(d, uid);
    if n :| n in pods {
      assert ChildOk(d, d.pods[n]);
      var life := d.lives[uid];
      assert life.most > 0;
      var slots := Slots(life.key, life.most);
      forall m | m in pods ensures m in slots {
        assert ChildOk(d, d.pods[m]);
      }
      SubsetSize(pods, slots);
    }
  }

  // ------------------------------------------------- a source that stays put

  // `home` gives each fork the node its source is on in every pass.
  ghost predicate SteadyStep(s: State, a: Action, s': State, home: Key -> string) {
    Step(s, a, s') && (a.Begin? ==> a.source == home(a.key))
  }

  ghost predicate SteadyNext(s: State, s': State, home: Key -> string) { exists a :: SteadyStep(s, a, s', home) }

  ghost predicate SteadyAt(run: seq<State>, i: int, home: Key -> string) {
    0 < i < |run| && SteadyNext(run[i - 1], run[i], home)
  }

  ghost predicate SteadyRun(run: seq<State>, home: Key -> string) {
    run != [] && Init(run[0]) && forall i :: 0 < i < |run| ==> SteadyAt(run, i, home)
  }

  ghost predicate SlotOf(fork: Key, child: Key) { exists i: nat :: child == SlotKey(fork, i) }

  ghost predicate TakesHome(d: World, home: Key -> string) {
    forall u :: u in d.lives && d.lives[u].take.Some? ==> d.lives[u].take.value.node == home(d.lives[u].key)
  }

  ghost predicate ChildrenHome(d: World, home: Key -> string) {
    forall c :: c in d.seen ==> c.owner in d.lives && c.node == home(d.lives[c.owner].key)
  }

  ghost predicate RestoresSlotted(d: World) {
    forall r :: r in d.restores ==> r.child in d.seen && r.uid in d.lives && SlotOf(d.lives[r.uid].key, r.child.key)
  }

  ghost predicate NodesHome(d: World, home: Key -> string) {
    TakesHome(d, home) && ChildrenHome(d, home) && RestoresSlotted(d)
  }

  // The key a fork object has is the key it was created with.
  ghost predicate SameKeys(d: World, d': World) {
    forall u :: u in d.lives ==> u in d'.lives && d'.lives[u].key == d.lives[u].key
  }

  lemma KeysCarry(d: World, d': World, home: Key -> string)
    requires NodesHome(d, home) && SameKeys(d, d') && TakesHome(d', home)
    requires d'.seen == d.seen && d'.restores == d.restores
    ensures NodesHome(d', home)
  {
  }

  ghost predicate AtHome(s: State, home: Key -> string) {
    && NodesHome(s.world, home)
    && (forall w :: w in s.workers ==> s.workers[w].source == home(s.workers[w].key))
  }

  lemma OtherAtHome(d: World, a: Action, d': World, home: Key -> string)
    requires LivesOk(d) && ForksOk(d) && NodesHome(d, home) && OtherStep(d, a, d')
    ensures NodesHome(d', home)
  {
    assert d.nextUid !in d.lives by { assert forall u :: u in d.lives ==> LifeOk(d, u); }
    if a.EditReplicas? { assert ForkOk(d, a.key); }
    KeysCarry(d, d', home);
  }

  lemma PassAtHome(d: World, k: Worker, a: Action, d': World, next: Option<Worker>, home: Key -> string)
    requires WorkerOk(d, k) && PassStep(d, k, a, d', next)
    requires NodesHome(d, home) && k.source == home(k.key)
    ensures NodesHome(d', home) && (next.Some? ==> next.value.source == k.source && next.value.key == k.key)
  {
  }

  lemma SteadyKeeps(s: State, a: Action, s': State, home: Key -> string)
    requires Inv(s) && AtHome(s, home) && SteadyStep(s, a, s', home)
    ensures AtHome(s', home)
  {
    if a.CreateFork? || a.EditReplicas? || a.DeleteFork? || a.RemovePod? {
      OtherAtHome(s.world, a, s'.world, home);
    } else if !a.Begin? {
      var next :| PassStep(s.world, s.workers[a.w], a, s'.world, next) && Moved(s, a.w, next, s');
      PassAllAtHome(s, a.w, a, s', next, home);
    }
  }

  lemma PassAllAtHome(s: State, w: nat, a: Action, s': State, next: Option<Worker>, home: Key -> string)
    requires Inv(s) && AtHome(s, home) && w in s.workers
    requires PassStep(s.world, s.workers[w], a, s'.world, next) && Moved(s, w, next, s')
    ensures AtHome(s', home)
  {
    assert WorkerOk(s.world, s.workers[w]);
    PassAtHome(s.world, s.workers[w], a, s'.world, next, home);
  }

  lemma {:induction false} SteadyRunKeeps(run: seq<State>, home: Key -> string, i: nat)
    requires SteadyRun(run, home) && i < |run|
    ensures Inv(run[i]) && AtHome(run[i], home)
  {
    if i > 0 {
      SteadyRunKeeps(run, home, i - 1);
      assert SteadyAt(run, i, home);
      var a :| SteadyStep(run[i - 1], a, run[i], home);
      StepKeeps(run[i - 1], a, run[i]);
      SteadyKeeps(run[i - 1], a, run[i], home);
    }
  }

  // No other namespace ever had a fork of this one's name.
  ghost predicate NameUnshared(d: World, uid: nat)
    requires uid in d.lives
  {
    forall u :: u in d.lives && d.lives[u].key.name == d.lives[uid].key.name ==> d.lives[u].key == d.lives[uid].key
  }

  // One fork point: when the source of a fork stays on its node and the fork's
  // name is unique across namespaces, all children ever activated for the
  // SandboxFork restore the same snapshot of it.
  lemma ForkCoherence(run: seq<State>, home: Key -> string, r: Restore, q: Restore)
    requires SteadyRun(run, home) && r.uid == q.uid
    requires r in run[|run| - 1].world.restores && q in run[|run| - 1].world.restores
    requires r.uid in run[|run| - 1].world.lives && NameUnshared(run[|run| - 1].world, r.uid)
    ensures r.version == q.version
  {
    SteadyRunKeeps(run, home, |run| - 1);
    var d := run[|run| - 1].world;
    RestoredAtHome(d, home, r);
    RestoredAtHome(d, home, q);
  }

  lemma RestoredAtHome(d: World, home: Key -> string, r: Restore)
    requires WorldOk(d) && NodesHome(d, home) && r in d.restores && r.uid in d.lives && NameUnshared(d, r.uid)
    ensures d.lives[r.uid].take.Some? && r.version == d.lives[r.uid].take.value.version
  {
    RecordedExactly(d, r);
    ChildAtHome(d, home, r);
    var life := d.lives[r.uid];
    forall v | v in d.snapped && d.snapped[v].key.name == life.key.name ensures d.snapped[v].key == life.key {
      assert SnapOk(d, v);
    }
  }

  lemma ChildAtHome(d: World, home: Key -> string, r: Restore)
    requires WorldOk(d) && NodesHome(d, home) && r in d.restores
    ensures r.uid in d.lives && r.child.node == home(d.lives[r.uid].key)
  {
    assert ChildOk(d, r.child);
    var owner := d.lives[r.child.owner];
    var i: nat :| r.child.key == SlotKey(d.lives[r.uid].key, i);
    var j: nat :| r.child.key == SlotKey(owner.key, j);
    SlotKeyInjective(d.lives[r.uid].key, i, owner.key, j);
  }

  // --------------------------------------------------- runs that split a fork

  ghost predicate Reachable(s: State) {
    exists run :: Run(run) && run[|run| - 1] == s
  }

  lemma ReachStep(s: State, a: Action, s': State)
    requires Reachable(s) && Step(s, a, s')
    ensures Reachable(s')
  {
    var run :| Run(run) && run[|run| - 1] == s;
    var more := run + [s'];
    forall i | 0 < i < |more| ensures StepAt(more, i) {
      if i < |run| {
        assert StepAt(run, i);
        assert more[i - 1] == run[i - 1] && more[i] == run[i];
      } else {
        assert more[i - 1] == s && Next(s, s');
      }
    }
    assert Run(more);
  }

  // One pass at a time, so its worker is the only one.
  function Alone(d: World, next: Option<Worker>): State {
    State(d, if next.None? then map[] else map[0 := next.value])
  }

  ghost predicate Quiet(d: World) { Reachable(Alone(d, None)) }
  ghost predicate Busy(d: World, k: Worker) { Reachable(Alone(d, Some(k))) }

  lemma ReachPass(d: World, k: Worker, a: Action, d': World, next: Option<Worker>)
    requires Busy(d, k) && PassStep(d, k, a, d', next) && a.w == 0
    ensures Reachable(Alone(d', next))
  {
    assert Moved(Alone(d, Some(k)), 0, next, Alone(d', next));
    ReachStep(Alone(d, Some(k)), a, Alone(d', next));
  }

  lemma ReachBegin(d: World, key: Key, source: string)
    requires Quiet(d) && CanBegin(Alone(d, None), 0, key)
    ensures Busy(d, Started(d, key, source))
  {
    var k := Started(d, key, source);
    assert Alone(d, Some(k)).workers == Alone(d, None).workers[0 := k];
    ReachStep(Alone(d, None), Begin(0, key, source), Alone(d, Some(k)));
  }

  // A fork of two replicas that has its finalizer and no child recorded yet.
  predicate Waiting(f: Fork, taken: bool) {
    f.replicas == 2 && !f.deleting && f.finalizer && f.taken == taken && f.forks == []
  }

  // Nothing but the fork and its history has changed.
  ghost predicate Only(d: World, d': World, key: Key) {
    && d'.pods == d.pods && d'.restores == d.restores && d'.forks.Keys == d.forks.Keys + {key}
    && forall n :: n in d.forks && n != key ==> n in d'.forks && d'.forks[n] == d.forks[n]
  }

  lemma NewFork(d: World, key: Key) returns (d': World)
    requires Quiet(d) && key !in d.forks
    ensures Quiet(d') && Only(d, d', key) && d'.snaps == d.snaps && d'.nextSnap == d.nextSnap
    ensures key in d'.forks && Waiting(d'.forks[key], false)
  {
    var d1 := Created(d, key, 2);
    ReachStep(Alone(d, None), CreateFork(key, 2), Alone(d1, None));
    ReachBegin(d1, key, "");
    var k := Started(d1, key, "");
    d' := PutFork(d1, key, k.copy.(finalizer := true));
    ReachPass(d1, k, WriteFinalizer(0, Applied), d', None);
  }

  // The snapshot is made on the node but the reply is lost.
  lemma LostSnapshot(d: World, key: Key, node: string) returns (d': World)
    requires Quiet(d) && key in d.forks && Waiting(d.forks[key], false)
    ensures Quiet(d') && Only(d, d', key) && d'.nextSnap == d.nextSnap + 1
    ensures d'.snaps == d.snaps[(node, key.name) := d.nextSnap] && d'.forks == d.forks
  {
    ReachBegin(d, key, node);
    var k := Started(d, key, node);
    d' := Snapped(d, k);
    ReachPass(d, k, TakeSnapshot(0, true, false), d', None);
  }

  // The snapshot is made on the node and recorded.
  lemma TakenOn(d: World, key: Key, node: string) returns (d': World)
    requires Quiet(d) && key in d.forks && Waiting(d.forks[key], false)
    ensures Quiet(d') && Only(d, d', key) && d'.nextSnap == d.nextSnap + 1
    ensures d'.snaps == d.snaps[(node, key.name) := d.nextSnap]
    ensures key in d'.forks && Waiting(d'.forks[key], true) && d'.forks[key].uid == d.forks[key].uid
  {
    ReachBegin(d, key, node);
    var k := Started(d, key, node);
    var d1 := Snapped(d, k);
    ReachPass(d, k, TakeSnapshot(0, true, true), d1, Some(k.(pc := Persist(d.nextSnap))));
    d' := Taken(d1, k, d.nextSnap);
    var copy := k.copy.(taken := true, version := d1.rev + 1);
    var k' := k.(copy := copy, pc := Slot(0, []));
    ReachPass(d1, k.(pc := Persist(d.nextSnap)), PersistTaken(0, Applied), d', Some(k'));
    ReachPass(d', k', Stop(0), d', None);
  }

  // A pass creates and activates the child of its slot.
  lemma OneChild(d: World, k: Worker) returns (d': World, r: Restore)
    requires Busy(d, k) && k.pc.Slot? && k.pc.i < k.copy.replicas && k.copy.forks == []
    requires SlotKey(k.key, k.pc.i) !in d.pods && (k.source, k.key.name) in d.snaps
    ensures Quiet(d') && d'.forks == d.forks && d'.snaps == d.snaps && d'.nextSnap == d.nextSnap
    ensures d'.restores == d.restores + {r} && r.uid == k.copy.uid && r.child.node == k.source
    ensures r.version == d.snaps[(k.source, k.key.name)] && d'.pods.Keys == d.pods.Keys + {SlotKey(k.key, k.pc.i)}
  {
    var c := Child(SlotKey(k.key, k.pc.i), d.nextUid, k.copy.uid, k.source);
    var d1 := Made(d, k, k.pc.i);
    var k1 := k.(pc := Dial(k.pc.i, k.pc.done, c));
    ReachPass(d, k, EnsureChild(0, true, Some(c)), d1, Some(k1));
    var k2 := Dialled(k1, true);
    d' := Restored(d1, k1, c);
    ReachPass(d1, k1, ActivateChild(0, true, true), d', Some(k2));
    ReachPass(d', k2, Stop(0), d', None);
    r := Restore(k.copy.uid, c, d.snaps[(k.source, k.key.name)], d.nextSnap);
  }

  lemma FirstChild(d: World, key: Key, node: string) returns (d': World, r: Restore)
    requires Quiet(d) && key in d.forks && Waiting(d.forks[key], true) && d.pods == map[] && (node, key.name) in d.snaps
    ensures Quiet(d') && d'.forks == d.forks && d'.snaps == d.snaps && d'.nextSnap == d.nextSnap
    ensures r in d'.restores && r.uid == d.forks[key].uid && r.version == d.snaps[(node, key.name)]
    ensures r.child.node == node && d'.pods.Keys == {SlotKey(key, 0)}
  {
    ReachBegin(d, key, node);
    d', r := OneChild(d, Started(d, key, node));
  }

  // A later pass passes over the first slot, whose pod it fails to read.
  lemma SecondChild(d: World, key: Key, node: string) returns (d': World, q: Restore)
    requires Quiet(d) && key in d.forks && Waiting(d.forks[key], true) && (node, key.name) in d.snaps
    requires d.pods.Keys == {SlotKey(key, 0)}
    ensures Quiet(d') && d.restores <= d'.restores && q in d'.restores
    ensures q.uid == d.forks[key].uid && q.version == d.snaps[(node, key.name)] && q.child.node == node
  {
    ReachBegin(d, key, node);
    var k := Started(d, key, node);
    var k1 := Ensured(k, None);
    ReachPass(d, k, EnsureChild(0, false, None), d, Some(k1));
    assert SlotKey(key, 1) != SlotKey(key, 0) by {
      if SlotKey(key, 1) == SlotKey(key, 0) { SlotKeyInjective(key, 1, key, 0); }
    }
    d', q := OneChild(d, k1);
  }

  lemma NothingYet() returns (d: World)
    ensures Quiet(d) && d.forks == map[] && d.pods == map[] && d.restores == {} && d.snaps == map[]
  {
    d := World(map[], map[], {}, map[], 0, 0, map[], map[], 0, {});
    assert Run([Alone(d, None)]);
  }

  // A source that changes its node: a child on node a and a later one on node b
  // restore different snapshots of one fork.
  lemma MovingSourceSplitsFork() returns (d: World, r: Restore, q: Restore)
    ensures Quiet(d) && r in d.restores && q in d.restores && r.uid == q.uid && r.version != q.version
  {
    var f := Key("tenant", "f");
    d := NothingYet();
    d := NewFork(d, f);
    d := LostSnapshot(d, f, "b");
    d := TakenOn(d, f, "a");
    d, r := FirstChild(d, f, "a");
    d, q := SecondChild(d, f, "b");
  }

  // A source that stays put, and a fork of the same name in another namespace:
  // a child and a later one on the same node restore different snapshots, the
  // second one the other namespace's.
  lemma OtherNamespaceSplitsFork() returns (d: World, r: Restore, q: Restore)
    ensures Quiet(d) && r in d.restores && q in d.restores && r.uid == q.uid
    ensures r.child.node == q.child.node && r.version != q.version
  {
    var f, g := Key("tenant", "f"), Key("other", "f");
    d := NothingYet();
    d := NewFork(d, f);
    d := TakenOn(d, f, "n");
    d, r := FirstChild(d, f, "n");
    d := NewFork(d, g);
    d := LostSnapshot(d, g, "n");
    d, q := SecondChild(d, f, "n");
  }

  // Deleting the other fork removes this one's snapshot.
  lemma OtherNamespaceRemovesSnapshot() returns (d: World, f: Key)
    ensures Quiet(d) && f in d.forks && Waiting(d.forks[f], true) && forall node :: (node, f.name) !in d.snaps
  {
    var g := Key("other", "f");
    f := Key("tenant", "f");
    d := NothingYet();
    d := NewFork(d, f);
    d := TakenOn(d, f, "n");
    d := NewFork(d, g);
    var d1 := Deleted(d, g);
    ReachStep(Alone(d, None), DeleteFork(g), Alone(d1, None));
    ReachBegin(d1, g, "n");
    var k := Started(d1, g, "n");
    d := Forgotten(d1, k);
    ReachPass(d1, k, RemoveSnapshot(0, true), d, Some(k.(pc := Unfinalize)));
    ReachPass(d, k.(pc := Unfinalize), Stop(0), d, None);
  }
}
