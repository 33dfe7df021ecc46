/**
 The garbage collector's orphan sweep on raw forkd, and the time argument its
 safety rests on.  Times are nanoseconds.
 */
module GarbageCollector {
  import opened Clock
  import opened Wrappers

  datatype Phase = Pending | Restoring | Ready | Terminating | Terminated | Failed

  datatype Claim = Claim(name: string, phase: Phase, node: string, sandboxId: string)
  datatype ForkChild = ForkChild(phase: Phase, node: string, sandboxId: string)
  datatype Vm = Vm(id: string, uptimeSeconds: int)

  // A registered node as the sweep meets it: its listing is empty when forkd
  // cannot be reached.
  datatype Node = Node(name: string, healthy: bool, vms: seq<Vm>)
  datatype Target = Target(node: string, id: string)

  predicate Terminal(p: Phase) { p == Terminated || p == Failed }

  // What the control plane expects alive on a node.
  predicate Expected(claims: seq<Claim>, children: seq<ForkChild>, node: string, id: string) {
    && node != "" && id != ""
    && ( (exists i :: 0 <= i < |claims| &&
            claims[i].phase == Ready && claims[i].node == node && claims[i].sandboxId == id)
      || (exists i :: 0 <= i < |children| &&
            children[i].phase == Ready && children[i].node == node && children[i].sandboxId == id))
  }

  // What some live object still answers for, on whatever node.
  predicate Backed(claims: seq<Claim>, children: seq<ForkChild>, id: string) {
    || (exists i :: 0 <= i < |claims| && !Terminal(claims[i].phase) && claims[i].name == id)
    || (id != "" && exists i :: 0 <= i < |children| && !Terminal(children[i].phase) && children[i].sandboxId == id)
  }

  function Add(desired: map<string, set<string>>, node: string, id: string): (more: map<string, set<string>>)
    ensures forall n, x :: Has(more, n, x) <==> Has(desired, n, x) || (n == node && x == id && n != "" && x != "")
  {
    if node == "" || id == "" then desired
    else desired[node := (if node in desired then desired[node] else {}) + {id}]
  }

  predicate Has(desired: map<string, set<string>>, node: string, id: string) {
    node in desired && id in desired[node]
  }

  method DesiredAlive(claims: seq<Claim>, children: seq<ForkChild>) returns (desired: map<string, set<string>>)
    ensures forall node, id :: Has(desired, node, id) <==> Expected(claims, children, node, id)
  {
    desired := map[];
    for i := 0 to |claims|
      invariant forall node, id :: Has(desired, node, id) <==> Expected(claims[..i], [], node, id)
    {
      assert claims[..i + 1] == claims[..i] + [claims[i]];
      if claims[i].phase == Ready { desired := Add(desired, claims[i].node, claims[i].sandboxId); }
    }
    assert claims[..|claims|] == claims;
    for i := 0 to |children|
      invariant forall node, id :: Has(desired, node, id) <==> Expected(claims, children[..i], node, id)
    {
      assert children[..i + 1] == children[..i] + [children[i]];
      if children[i].phase == Ready { desired := Add(desired, children[i].node, children[i].sandboxId); }
    }
    assert children[..|children|] == children;
  }

  method LiveIds(claims: seq<Claim>, children: seq<ForkChild>) returns (live: set<string>)
    ensures forall id :: id in live <==> Backed(claims, children, id)
    ensures forall id :: id in live <==>
      || (exists i :: 0 <= i < |claims| && claims[i].name == id &&
            claims[i].phase in {Pending, Restoring, Ready, Terminating})
      || (exists i :: 0 <= i < |children| && children[i].sandboxId == id && id != "" &&
            children[i].phase in {Pending, Restoring, Ready, Terminating})
  {
    live := {};
    for i := 0 to |claims|
      invariant forall id :: id in live <==> Backed(claims[..i], [], id)
    {
      assert claims[..i + 1] == claims[..i] + [claims[i]];
      if !Terminal(claims[i].phase) { live := live + {claims[i].name}; }
    }
    assert claims[..|claims|] == claims;
    for i := 0 to |children|
      invariant forall id :: id in live <==> Backed(claims, children[..i], id)
    {
      assert children[..i + 1] == children[..i] + [children[i]];
      if !Terminal(children[i].phase) && children[i].sandboxId != "" { live := live + {children[i].sandboxId}; }
    }
    assert children[..|children|] == children;
  }

  // A duration in whole seconds, truncated as a conversion to int64 does.
  function Seconds(d: int): int {
    if d >= 0 then d / SECOND else -(-d / SECOND)
  }

  predicate Orphaned(claims: seq<Claim>, children: seq<ForkChild>, grace: int, node: string, vm: Vm) {
    !Expected(claims, children, node, vm.id) && !Backed(claims, children, vm.id) && vm.uptimeSeconds >= Seconds(grace)
  }

  ghost predicate DoomedOn(claims: seq<Claim>, children: seq<ForkChild>, node: Node, grace: int, t: Target) {
    node.healthy && t.node == node.name
    && exists j :: 0 <= j < |node.vms| && node.vms[j].id == t.id &&
         Orphaned(claims, children, grace, node.name, node.vms[j])
  }

  ghost predicate Doomed(claims: seq<Claim>, children: seq<ForkChild>, nodes: seq<Node>, grace: int, t: Target) {
    exists i :: 0 <= i < |nodes| && DoomedOn(claims, children, nodes[i], grace, t)
  }

  method SweepNode(node: Node, desired: map<string, set<string>>, live: set<string>, grace: int,
                   ghost claims: seq<Claim>, ghost children: seq<ForkChild>) returns (sent: seq<Target>)
    requires forall n, id :: Has(desired, n, id) <==> Expected(claims, children, n, id)
    requires forall id :: id in live <==> Backed(claims, children, id)
    ensures forall t :: t in sent <==> DoomedOn(claims, children, node, grace, t)
  {
    sent := [];
    if !node.healthy { return; }
    for j := 0 to |node.vms|
      invariant forall t :: t in sent <==> DoomedOn(claims, children, node.(vms := node.vms[..j]), grace, t)
    {
      var vm := node.vms[j];
      assert node.vms[..j + 1] == node.vms[..j] + [vm];
      if !Has(desired, node.name, vm.id) && vm.id !in live && vm.uptimeSeconds >= Seconds(grace) {
        sent := sent + [Target(node.name, vm.id)];
      }
    }
    assert node.vms[..|node.vms|] == node.vms;
  }

  // No object in a phase other than Terminated and Failed answers for the VM.
  ghost predicate Unanswered(claims: seq<Claim>, children: seq<ForkChild>, t: Target) {
    && (forall i :: 0 <= i < |claims| && claims[i].name == t.id ==> claims[i].phase in {Terminated, Failed})
    && (forall i :: 0 <= i < |children| && children[i].sandboxId == t.id && t.id != "" ==>
          children[i].phase in {Terminated, Failed})
    && (forall i :: 0 <= i < |claims| && claims[i].node == t.node != "" && claims[i].sandboxId == t.id != "" ==>
          claims[i].phase != Ready)
  }

  // A healthy node lists the VM, up for the grace in whole seconds.
  ghost predicate ListedPast(nodes: seq<Node>, grace: int, t: Target) {
    exists i, j :: 0 <= i < |nodes| && 0 <= j < |nodes[i].vms| && nodes[i].healthy && nodes[i].name == t.node &&
      nodes[i].vms[j].id == t.id && (nodes[i].vms[j].uptimeSeconds + 1) * SECOND > grace
  }

  ghost predicate Forsaken(claims: seq<Claim>, children: seq<ForkChild>, id: string) {
    && (forall i :: 0 <= i < |claims| && (claims[i].name == id || claims[i].sandboxId == id) ==>
          claims[i].phase in {Terminated, Failed})
    && (forall i :: 0 <= i < |children| && children[i].sandboxId == id ==> children[i].phase in {Terminated, Failed})
  }

  lemma DoomedOnlyUnanswered(claims: seq<Claim>, children: seq<ForkChild>, nodes: seq<Node>, grace: int, t: Target)
    requires Doomed(claims, children, nodes, grace, t)
    ensures Unanswered(claims, children, t) && ListedPast(nodes, grace, t)
  {
  }

  lemma ForsakenIsDoomed(claims: seq<Claim>, children: seq<ForkChild>, nodes: seq<Node>, grace: int, i: nat, j: nat)
    requires i < |nodes| && j < |nodes[i].vms| && nodes[i].healthy
    requires nodes[i].vms[j].uptimeSeconds * SECOND >= grace >= 0
    requires Forsaken(claims, children, nodes[i].vms[j].id)
    ensures Doomed(claims, children, nodes, grace, Target(nodes[i].name, nodes[i].vms[j].id))
  {
    assert DoomedOn(claims, children, nodes[i], grace, Target(nodes[i].name, nodes[i].vms[j].id));
  }

  // One pass asks for the termination of exactly the orphans: VMs on healthy
  // reachable nodes, past the grace, that no live object answers for.
  method RunOnce(claims: seq<Claim>, children: seq<ForkChild>, nodes: seq<Node>, grace: int) returns (sent: seq<Target>)
    ensures forall t :: t in sent <==> Doomed(claims, children, nodes, grace, t)
    ensures forall t, i :: t in sent && 0 <= i < |claims| && claims[i].name == t.id ==>
      claims[i].phase in {Terminated, Failed}
    ensures forall t, i :: t in sent && 0 <= i < |children| && children[i].sandboxId == t.id && t.id != "" ==>
      children[i].phase in {Terminated, Failed}
    ensures forall t, i | t in sent && 0 <= i < |claims| ::
      claims[i].node == t.node != "" && claims[i].sandboxId == t.id != "" ==> claims[i].phase != Ready
    ensures forall t :: t in sent ==> ListedPast(nodes, grace, t)
    ensures forall i, j | 0 <= i < |nodes| && 0 <= j < |nodes[i].vms| && nodes[i].healthy ::
      nodes[i].vms[j].uptimeSeconds * SECOND >= grace >= 0 && Forsaken(claims, children, nodes[i].vms[j].id) ==>
        Target(nodes[i].name, nodes[i].vms[j].id) in sent
  {
    var desired := DesiredAlive(claims, children);
    var live := LiveIds(claims, children);
    sent := [];
    for i := 0 to |nodes|
      invariant forall t :: t in sent <==> Doomed(claims, children, nodes[..i], grace, t)
    {
      assert nodes[..i + 1] == nodes[..i] + [nodes[i]];
      var more := SweepNode(nodes[i], desired, live, grace, claims, children);
      sent := sent + more;
    }
    assert nodes[..|nodes|] == nodes;
    forall t | t in sent
      ensures Unanswered(claims, children, t) && ListedPast(nodes, grace, t)
    {
      DoomedOnlyUnanswered(claims, children, nodes, grace, t);
    }
    forall i, j | 0 <= i < |nodes| && 0 <= j < |nodes[i].vms| && nodes[i].healthy &&
      nodes[i].vms[j].uptimeSeconds * SECOND >= grace >= 0 && Forsaken(claims, children, nodes[i].vms[j].id)
      ensures Target(nodes[i].name, nodes[i].vms[j].id) in sent
    {
      ForsakenIsDoomed(claims, children, nodes, grace, i, j);
    }
  }

  // ---------------------------------------------------------- the time argument

  // A VM as one pass meets it.  `phase(c, t)` is the phase at time t of the claim
  // named c, if there is one.
  datatype Scene = Scene(
    phase: (string, int) -> Option<Phase>,
    claims: seq<Claim>,
    children: seq<ForkChild>,
    node: string,
    vm: string,
    forkedAt: int,
    claimsAt: int,
    listedAt: int)

  // The listing shows every claim in the phase it has at time t.
  ghost predicate ShowsAll(phase: (string, int) -> Option<Phase>, t: int, claims: seq<Claim>) {
    forall id :: phase(id, t).Some? ==>
      exists i :: 0 <= i < |claims| && claims[i].name == id && claims[i].phase == phase(id, t).value
  }

  // The claim listing shows the claims as they are at claimsAt; the VM listing
  // comes `lag` later; and since the fork the VM's claim has been there and
  // neither Terminated nor Failed.
  ghost predicate Honest(s: Scene, lag: int) {
    && s.listedAt == s.claimsAt + lag && s.forkedAt <= s.listedAt
    && ShowsAll(s.phase, s.claimsAt, s.claims)
    && (forall t :: s.forkedAt <= t <= s.listedAt ==>
          s.phase(s.vm, t) in {Some(Pending), Some(Restoring), Some(Ready), Some(Terminating)})
  }

  predicate Spared(s: Scene, grace: int) {
    !Orphaned(s.claims, s.children, grace, s.node, Vm(s.vm, Seconds(s.listedAt - s.forkedAt)))
  }

  lemma SpareLive(s: Scene, lag: nat, grace: int)
    requires Honest(s, lag) && lag <= Seconds(grace) * SECOND
    ensures Spared(s, grace)
  {
    if s.forkedAt <= s.claimsAt {
      assert s.phase(s.vm, s.claimsAt).Some?;
    } else {
      assert s.listedAt - s.forkedAt < Seconds(grace) * SECOND;
    }
  }

  // ------------------------------------------------------------- a whole pass

  // What really happens around one pass: the phases of the claims over time, when
  // each VM was forked, and when the claims and each node's VMs are listed.
  datatype Story = Story(
    phase: (string, int) -> Option<Phase>,
    forkedAt: (string, string) -> int,
    claimsAt: int,
    listedAt: seq<int>)

  // The claims are listed as they are at claimsAt; every node lists its VMs with
  // their true uptimes, later than that but within the grace in whole seconds.
  ghost predicate Truthful(w: Story, claims: seq<Claim>, nodes: seq<Node>, grace: int) {
    && |w.listedAt| == |nodes|
    && ShowsAll(w.phase, w.claimsAt, claims)
    && (forall i :: 0 <= i < |nodes| ==> 0 <= w.listedAt[i] - w.claimsAt <= Seconds(grace) * SECOND)
    && (forall i :: 0 <= i < |nodes| ==> TrueUptimes(w, nodes[i], w.listedAt[i]))
  }

  ghost predicate TrueUptimes(w: Story, node: Node, at: int) {
    forall vm :: vm in node.vms ==>
      w.forkedAt(node.name, vm.id) <= at && vm.uptimeSeconds == Seconds(at - w.forkedAt(node.name, vm.id))
  }

  // From the fork to each listing of its node the VM's claim is there and neither
  // Terminated nor Failed.
  ghost predicate KeptAlive(w: Story, nodes: seq<Node>, t: Target)
    requires |w.listedAt| == |nodes|
  {
    forall i, at :: 0 <= i < |nodes| && nodes[i].name == t.node && w.forkedAt(t.node, t.id) <= at <= w.listedAt[i] ==>
      w.phase(t.id, at) in {Some(Pending), Some(Restoring), Some(Ready), Some(Terminating)}
  }

  lemma KeptIsNotDoomed(w: Story, claims: seq<Claim>, children: seq<ForkChild>, nodes: seq<Node>, grace: int, t: Target,
                        i: nat)
    requires Truthful(w, claims, nodes, grace) && KeptAlive(w, nodes, t) && i < |nodes|
    ensures !DoomedOn(claims, children, nodes[i], grace, t)
  {
    if nodes[i].name == t.node {
      var scene := Scene(w.phase, claims, children, t.node, t.id, w.forkedAt(t.node, t.id), w.claimsAt, w.listedAt[i]);
      forall j | 0 <= j < |nodes[i].vms| && nodes[i].vms[j].id == t.id
        ensures !Orphaned(claims, children, grace, t.node, nodes[i].vms[j])
      {
        assert nodes[i].vms[j] in nodes[i].vms && TrueUptimes(w, nodes[i], w.listedAt[i]);
        SpareLive(scene, w.listedAt[i] - w.claimsAt, grace);
        assert nodes[i].vms[j] == Vm(t.id, Seconds(w.listedAt[i] - w.forkedAt(t.node, t.id)));
      }
    }
  }

  // The VM's claim is gone, Terminated or Failed at some time from the fork to a
  // listing of its node.
  ghost predicate Lapsed(w: Story, nodes: seq<Node>, t: Target)
    requires |w.listedAt| == |nodes|
  {
    exists i, at :: 0 <= i < |nodes| && nodes[i].name == t.node && w.forkedAt(t.node, t.id) <= at <= w.listedAt[i] &&
      (w.phase(t.id, at) == None || w.phase(t.id, at) == Some(Terminated) || w.phase(t.id, at) == Some(Failed))
  }

  lemma NotKeptLapsed(w: Story, nodes: seq<Node>, t: Target)
    requires |w.listedAt| == |nodes|
    ensures KeptAlive(w, nodes, t) <==> !Lapsed(w, nodes, t)
  {
    if !KeptAlive(w, nodes, t) {
      var i, at :| 0 <= i < |nodes| && nodes[i].name == t.node && w.forkedAt(t.node, t.id) <= at <= w.listedAt[i] &&
        w.phase(t.id, at) !in {Some(Pending), Some(Restoring), Some(Ready), Some(Terminating)};
      var phase := w.phase(t.id, at);
      if phase.Some? {
        match phase.value
        case Terminated =>
        case Failed =>
        case _ =>
      }
    }
  }

  // The pass asks for the termination of no VM whose claim is kept alive.
  method RunInTime(claims: seq<Claim>, children: seq<ForkChild>, nodes: seq<Node>, grace: int, ghost w: Story)
    returns (sent: seq<Target>)
    requires Truthful(w, claims, nodes, grace)
    ensures forall t :: t in sent ==> !KeptAlive(w, nodes, t)
    ensures forall t :: t in sent ==> Lapsed(w, nodes, t)
  {
    sent := RunOnce(claims, children, nodes, grace);
    forall t | t in sent ensures !KeptAlive(w, nodes, t) {
      var i :| 0 <= i < |nodes| && DoomedOn(claims, children, nodes[i], grace, t);
      if KeptAlive(w, nodes, t) { KeptIsNotDoomed(w, claims, children, nodes, grace, t, i); }
    }
    forall t | t in sent ensures Lapsed(w, nodes, t) { NotKeptLapsed(w, nodes, t); }
  }

  // ------------------------------------------------------------ the exact bound

  // A VM forked right after a claim listing that comes too early is terminated
  // although its claim has been non-terminal all along.
  function LateScene(lag: int): Scene {
    Scene((id, t) => if id == "c" && t >= 1 then Some(Pending) else None, [], [], "n", "c", 1, 0, lag)
  }

  lemma LateIsHonest(lag: int, grace: int)
    requires lag > Seconds(grace) * SECOND && lag > 0
    ensures Honest(LateScene(lag), lag) && !Spared(LateScene(lag), grace)
  {
  }

  // No pass terminates a VM whose claim has stayed non-terminal since the fork,
  // for all scenes, exactly when the VMs are listed within the grace, in whole
  // seconds, of the claims.
  lemma SweepSafeExactlyInTime(lag: nat, grace: int)
    requires lag > 0
    ensures (forall s :: Honest(s, lag) ==> Spared(s, grace)) <==> lag <= Seconds(grace) * SECOND
  {
    if lag <= Seconds(grace) * SECOND {
      forall s | Honest(s, lag) ensures Spared(s, grace) { SpareLive(s, lag, grace); }
    } else {
      LateIsHonest(lag, grace);
    }
  }

  // With a grace of whole seconds that is every lag below the grace.
  lemma WholeSecondsGrace(s: Scene, lag: nat, seconds: nat)
    requires Honest(s, lag) && lag < seconds * SECOND
    ensures Spared(s, seconds * SECOND)
  {
    assert Seconds(seconds * SECOND) == seconds;
    SpareLive(s, lag, seconds * SECOND);
  }

  // A grace of a second and a half does not cover a lag just below it.
  lemma FractionalGraceFallsShort()
    ensures exists s :: Honest(s, 1_400_000_000) && !Spared(s, 1_500_000_000)
  {
    LateIsHonest(1_400_000_000, 1_500_000_000);
  }
}
