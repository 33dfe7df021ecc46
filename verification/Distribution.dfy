/**
 One distribution pass: bring a template to more nodes, building it once and
 letting the other nodes pull it from the first.  A build may take minutes, so
 every node is visited at a time of its own.
 */
module Distribution {
  import opened Outside
  import opened Registry

  // A request the pass sent to a node, when, and how it went.
  datatype Call =
    | Build(node: NodeInfo, at: int, ok: bool, digest: string)
    | Pull(node: NodeInfo, at: int, ok: bool, digest: string, source: NodeInfo)

  // What decides whether a node is healthy at a given time.
  datatype Vital = Vital(failures: int, heartbeat: int)
  type Vitals = map<NodeInfo, Vital>

  predicate Up(vitals: Vitals, n: NodeInfo, t: int) {
    n in vitals && vitals[n].failures < PROBE_FAILURE_THRESHOLD && t - vitals[n].heartbeat < HEARTBEAT_TTL
  }

  // The nodes, those that hold the template, and those among them that can be
  // pulled from while they are up, with the digest they report.
  datatype View = View(vitals: Vitals, holders: set<NodeInfo>, servers: map<NodeInfo, string>)

  predicate Servable(n: NodeInfo, id: string)
    reads n
  {
    n.HasSnapshot(id) && id in n.templateDigests && n.templateDigests[id] != "" && n.casEndpoint != ""
  }

  ghost predicate Shows(view: View, nodes: set<NodeInfo>, id: string)
    reads nodes
  {
    && view.vitals.Keys == nodes && view.servers.Keys <= view.holders <= nodes
    && (forall n :: n in nodes ==> view.vitals[n] == Vital(n.probeFailures, n.lastHeartbeat))
    && (forall n :: n in nodes ==> (n in view.holders <==> n.HasSnapshot(id)))
    && (forall n :: n in nodes ==> (n in view.servers <==> Servable(n, id)))
    && (forall n :: n in view.servers ==> Servable(n, id) && view.servers[n] == n.templateDigests[id])
  }

  ghost function ViewOf(nodes: set<NodeInfo>, id: string): (view: View)
    reads nodes
    ensures Shows(view, nodes, id)
  {
    View(map n | n in nodes :: Vital(n.probeFailures, n.lastHeartbeat),
         set n | n in nodes && n.HasSnapshot(id),
         map n | n in nodes && Servable(n, id) :: n.templateDigests[id])
  }

  lemma ShowsOne(v: View, w: View, nodes: set<NodeInfo>, id: string)
    requires Shows(v, nodes, id) && Shows(w, nodes, id)
    ensures v == w
  {
  }

  // -------------------------------------------------------------- one node

  ghost predicate Extends(a: map<NodeInfo, string>, b: map<NodeInfo, string>) {
    forall n :: n in a ==> n in b && b[n] == a[n]
  }

  // The node gets the template and its digest, and no other node changes.
  method Record(r: NodeRegistry, node: NodeInfo, id: string, ok: bool, digest: string, ghost v: View)
    returns (ghost w: View)
    requires r.Valid() && node in r.nodes.Values && node !in v.holders && Shows(v, r.nodes.Values, id)
    modifies r.nodes.Values`templateIds, r.nodes.Values`templateDigests
    ensures r.Valid() && Shows(w, r.nodes.Values, id)
    ensures w.vitals == v.vitals && w.holders == v.holders + if ok then {node} else {}
    ensures Extends(v.servers, w.servers)
    ensures !ok ==> w == v
    ensures ok && digest != "" && node.casEndpoint != "" ==> node in w.servers
  {
    w := v;
    if ok {
      r.AddTemplateWithDigest(node.name, id, digest);
      w := View(v.vitals, v.holders + {node},
                if Servable(node, id) then v.servers[node := node.templateDigests[id]] else v.servers);
    }
  }

  // Nobody can be pulled from at that time.
  ghost predicate Unserved(v: View, t: int) { forall n :: n in v.servers ==> !Up(v.vitals, n, t) }

  // What a node that lacks the template is asked to do: pull it when it is
  // distributed and some node serves it, else build it if the controller can
  // reach the node.
  method Ask(r: NodeRegistry, node: NodeInfo, id: string, distribute: bool, reach: NodeInfo -> bool, now: int,
             ghost v: View)
    returns (call: seq<Call>)
    requires r.Valid() && node in r.nodes.Values && node !in v.holders && Shows(v, r.nodes.Values, id)
    ensures call == [] ==> !reach(node)
    ensures call == [] || (|call| == 1 && call[0].node == node && call[0].at == now)
    ensures call == [] || call[0].Build? ==> !distribute || Unserved(v, now)
    ensures call != [] && call[0].Build? ==> reach(node)
    ensures call != [] && call[0].Pull? ==>
      && distribute && call[0].source in v.servers && Up(v.vitals, call[0].source, now)
      && call[0].digest == v.servers[call[0].source]
  {
    if distribute {
      var source := r.TemplateSource(id, now);
      if source != null && source.name != node.name {
        var ok := AnyOutcome();
        return [Pull(node, now, ok, source.templateDigests[id], source)];
      }
      forall n | n in v.servers ensures !Up(v.vitals, n, now) { assert n in r.nodes.Values && !n.CanServe(id, now); }
    }
    if !reach(node) { return []; }
    var ok := AnyOutcome();
    var digest := AnyText();
    return [Build(node, now, ok, digest)];
  }

  // --------------------------------------------------------------- the calls

  // The node can be pulled from, while it is up, once the call has succeeded.
  predicate Serves(c: Call) { c.ok && c.digest != "" && c.node.casEndpoint != "" }

  ghost predicate OneCallEach(calls: seq<Call>) {
    forall i, j :: 0 <= i < j < |calls| ==> calls[i].node != calls[j].node
  }

  // Nothing is built while a node that became a source in the pass is up.
  ghost predicate NoBuildOnceServed(calls: seq<Call>, vitals: Vitals) {
    forall i, j :: 0 <= i < j < |calls| && Serves(calls[i]) && Up(vitals, calls[i].node, calls[j].at) ==>
      !calls[j].Build?
  }

  // Nor while one that was a source before is.
  ghost predicate NoBuildWhileServed(calls: seq<Call>, v: View) {
    forall j :: 0 <= j < |calls| && calls[j].Build? ==> Unserved(v, calls[j].at)
  }

  ghost predicate AllOk(calls: seq<Call>) { forall i :: 0 <= i < |calls| ==> calls[i].ok }
  ghost predicate AllBuilds(calls: seq<Call>) { forall i :: 0 <= i < |calls| ==> calls[i].Build? }

  ghost function Asked(calls: seq<Call>): set<NodeInfo> {
    set i | 0 <= i < |calls| :: calls[i].node
  }

  ghost function Succeeded(calls: seq<Call>): set<NodeInfo> {
    set i | 0 <= i < |calls| && calls[i].ok :: calls[i].node
  }

  function Oks(calls: seq<Call>): nat {
    if calls == [] then 0 else Oks(calls[..|calls| - 1]) + if calls[|calls| - 1].ok then 1 else 0
  }

  lemma OksMore(calls: seq<Call>, c: Call)
    ensures Oks(calls + [c]) == Oks(calls) + if c.ok then 1 else 0
  {
  }

  // One successful call to a node.
  lemma {:induction false} SucceededSize(calls: seq<Call>)
    requires OneCallEach(calls)
    ensures |Succeeded(calls)| == Oks(calls)
  {
    if calls == [] {
      assert Succeeded(calls) == {};
    } else {
      var rest, c := calls[..|calls| - 1], calls[|calls| - 1];
      SucceededSize(rest);
      assert forall i :: 0 <= i < |rest| ==> rest[i] == calls[i];
      assert c.node !in Succeeded(rest);
      assert Succeeded(calls) == Succeeded(rest) + (if c.ok then {c.node} else {});
    }
  }

  // A call that makes its node a source has done so, and every pull took the
  // digest its source reports, from a source that was up.
  ghost predicate CallsSound(calls: seq<Call>, w: View) {
    && (forall i :: 0 <= i < |calls| && Serves(calls[i]) ==> calls[i].node in w.servers)
    && (forall i :: 0 <= i < |calls| && calls[i].Pull? ==>
          && calls[i].source in w.servers && calls[i].digest == w.servers[calls[i].source]
          && Up(w.vitals, calls[i].source, calls[i].at))
  }

  ghost predicate Obeys(calls: seq<Call>, v: View, distribute: bool) {
    if distribute then NoBuildOnceServed(calls, v.vitals) && NoBuildWhileServed(calls, v) else AllBuilds(calls)
  }

  // The pass from view v to view w has made these calls.
  ghost predicate Sound(calls: seq<Call>, v: View, w: View, distribute: bool) {
    && w.vitals == v.vitals && Extends(v.servers, w.servers)
    && Obeys(calls, v, distribute) && CallsSound(calls, w) && OneCallEach(calls)
  }

  lemma UnservedEarlier(v: View, w: View, t: int)
    requires w.vitals == v.vitals && Extends(v.servers, w.servers) && Unserved(w, t)
    ensures Unserved(v, t)
  {
  }

  lemma ObeysMore(calls: seq<Call>, c: Call, v: View, w: View, distribute: bool)
    requires Sound(calls, v, w, distribute)
    requires c.Build? ==> !distribute || Unserved(w, c.at)
    requires c.Pull? ==> distribute
    ensures Obeys(calls + [c], v, distribute)
  {
    var more := calls + [c];
    assert forall i :: 0 <= i < |calls| ==> more[i] == calls[i];
    if distribute && c.Build? { UnservedEarlier(v, w, c.at); }
  }

  lemma OneMoreCall(calls: seq<Call>, c: Call, v: View, w: View, x: View, distribute: bool)
    requires Sound(calls, v, w, distribute) && x.vitals == w.vitals && Extends(w.servers, x.servers)
    requires forall i :: 0 <= i < |calls| ==> calls[i].node != c.node
    requires c.Build? ==> !distribute || Unserved(w, c.at)
    requires c.Pull? ==>
      distribute && c.source in w.servers && c.digest == w.servers[c.source] && Up(w.vitals, c.source, c.at)
    requires Serves(c) ==> c.node in x.servers
    ensures Sound(calls + [c], v, x, distribute)
  {
    var more := calls + [c];
    assert forall i :: 0 <= i < |calls| ==> more[i] == calls[i];
    assert more[|calls|] == c;
    ObeysMore(calls, c, v, w, distribute);
  }

  lemma SetsMore(calls: seq<Call>, c: Call)
    ensures Asked(calls + [c]) == Asked(calls) + {c.node}
    ensures Succeeded(calls + [c]) == Succeeded(calls) + if c.ok then {c.node} else {}
  {
    var more := calls + [c];
    assert forall i :: 0 <= i < |calls| ==> more[i] == calls[i];
    assert more[|calls|] == c;
  }

  // A second build that yields a digest comes only after the node of the first,
  // if it has a chunk endpoint, has lapsed.
  lemma SecondDigestBuildNeedsLapse(calls: seq<Call>, vitals: Vitals, i: nat, j: nat)
    requires NoBuildOnceServed(calls, vitals) && i < j < |calls| && calls[i].node.casEndpoint != ""
    requires calls[i].Build? && calls[i].ok && calls[i].digest != "" && calls[j].Build?
    ensures !Up(vitals, calls[i].node, calls[j].at)
  {
  }

  // ---------------------------------------------------------------- the pass

  // One node of the pass.
  method Visit(r: NodeRegistry, node: NodeInfo, id: string, distribute: bool, reach: NodeInfo -> bool, now: int,
               calls: seq<Call>, ghost v: View, ghost w: View)
    returns (more: seq<Call>, ok: bool, ghost x: View)
    requires r.Valid() && node in r.nodes.Values && node !in w.holders && node !in Asked(calls)
    requires Shows(w, r.nodes.Values, id) && Sound(calls, v, w, distribute)
    modifies r.nodes.Values`templateIds, r.nodes.Values`templateDigests
    ensures r.Valid() && Shows(x, r.nodes.Values, id) && Sound(more, v, x, distribute)
    ensures x.holders == w.holders + (if ok then {node} else {}) && (!ok ==> x == w)
    ensures Succeeded(more) == Succeeded(calls) + if ok then {node} else {}
    ensures Oks(more) == Oks(calls) + if ok then 1 else 0
    ensures Asked(calls) <= Asked(more) <= Asked(calls) + {node} && (node in Asked(more) || !reach(node))
    ensures ok && AllOk(calls) ==> AllOk(more)
  {
    var call := Ask(r, node, id, distribute, reach, now, w);
    if call == [] { return calls, false, w; }
    var c := call[0];
    x := Record(r, node, id, c.ok, c.digest, w);
    OneMoreCall(calls, c, v, w, x, distribute);
    SetsMore(calls, c);
    OksMore(calls, c);
    return calls + [c], c.ok, x;
  }

  // Visit number i finds its node up and without the template.
  ghost predicate Due(v: View, visits: seq<NodeInfo>, clock: nat -> int, i: int) {
    0 <= i < |visits| && visits[i] !in v.holders && Up(v.vitals, visits[i], clock(i))
  }

  // Every node that was due was sent its request or cannot be reached.
  ghost predicate Tried(v: View, visits: seq<NodeInfo>, clock: nat -> int, calls: seq<Call>, reach: NodeInfo -> bool) {
    forall i :: Due(v, visits, clock, i) ==> visits[i] in Asked(calls) || !reach(visits[i])
  }

  ghost predicate SomeDue(v: View, visits: seq<NodeInfo>, clock: nat -> int) { exists i :: Due(v, visits, clock, i) }

  // What holds between two nodes of the pass.
  ghost predicate Going(v: View, w: View, visits: seq<NodeInfo>, calls: seq<Call>, added: nat, errs: nat, deficit: int,
                        distribute: bool, clock: nat -> int)
  {
    && Sound(calls, v, w, distribute) && w.holders == v.holders + Succeeded(calls)
    && (forall n :: n in Asked(calls) ==> n in visits && n !in v.holders)
    && added == Oks(calls) && (added > 0 ==> added <= deficit)
    && (SomeDue(v, visits, clock) <==> added > 0 || errs > 0)
  }

  lemma DueMore(v: View, visits: seq<NodeInfo>, clock: nat -> int, node: NodeInfo, i: int)
    ensures Due(v, visits + [node], clock, i) <==>
      Due(v, visits, clock, i) || (i == |visits| && node !in v.holders && Up(v.vitals, node, clock(|visits|)))
  {
  }

  lemma SomeDueMore(v: View, visits: seq<NodeInfo>, clock: nat -> int, node: NodeInfo)
    ensures SomeDue(v, visits + [node], clock) <==>
      SomeDue(v, visits, clock) || (node !in v.holders && Up(v.vitals, node, clock(|visits|)))
  {
    forall i ensures Due(v, visits + [node], clock, i) <==>
      Due(v, visits, clock, i) || (i == |visits| && node !in v.holders && Up(v.vitals, node, clock(|visits|)))
    {
      DueMore(v, visits, clock, node, i);
    }
    if node !in v.holders && Up(v.vitals, node, clock(|visits|)) {
      assert Due(v, visits + [node], clock, |visits|);
    }
  }

  lemma TriedMore(v: View, visits: seq<NodeInfo>, clock: nat -> int, calls: seq<Call>, more: seq<Call>,
                  reach: NodeInfo -> bool, node: NodeInfo)
    requires Tried(v, visits, clock, calls, reach) && Asked(calls) <= Asked(more)
    requires node !in v.holders && Up(v.vitals, node, clock(|visits|)) ==> node in Asked(more) || !reach(node)
    ensures Tried(v, visits + [node], clock, more, reach)
  {
    forall i | Due(v, visits + [node], clock, i)
      ensures (visits + [node])[i] in Asked(more) || !reach((visits + [node])[i])
    {
      DueMore(v, visits, clock, node, i);
    }
  }

  // A node not visited yet holds the template only if it did at first.
  lemma StillLacking(v: View, w: View, visits: seq<NodeInfo>, calls: seq<Call>, node: NodeInfo)
    requires w.holders == v.holders + Succeeded(calls) && node !in visits
    requires forall n :: n in Asked(calls) ==> n in visits && n !in v.holders
    ensures node in w.holders <==> node in v.holders
  {
    forall n | n in Succeeded(calls) ensures n in Asked(calls) {}
  }

  // The node is asked if it is up and lacks the template, else passed over.
  method TakeUp(r: NodeRegistry, node: NodeInfo, id: string, distribute: bool, reach: NodeInfo -> bool, deficit: int,
                clock: nat -> int, calls: seq<Call>, added: nat, errs: nat, visits: seq<NodeInfo>, ghost v: View,
                ghost w: View)
    returns (more: seq<Call>, added': nat, errs': nat, ghost x: View)
    requires r.Valid() && node in r.nodes.Values && node !in visits && added < deficit && Shows(w, r.nodes.Values, id)
    requires Going(v, w, visits, calls, added, errs, deficit, distribute, clock)
    requires Tried(v, visits, clock, calls, reach)
    modifies r.nodes.Values`templateIds, r.nodes.Values`templateDigests
    ensures r.Valid() && Shows(x, r.nodes.Values, id)
    ensures Going(v, x, visits + [node], more, added', errs', deficit, distribute, clock)
    ensures Tried(v, visits + [node], clock, more, reach)
  {
    var now := clock(|visits|);
    StillLacking(v, w, visits, calls, node);
    SomeDueMore(v, visits, clock, node);
    assert Up(v.vitals, node, now) <==> node.Healthy(now);
    if !node.Healthy(now) || node.HasSnapshot(id) {
      TriedMore(v, visits, clock, calls, calls, reach, node);
      return calls, added, errs, w;
    }
    var ok;
    more, ok, x := Visit(r, node, id, distribute, reach, now, calls, v, w);
    TriedMore(v, visits, clock, calls, more, reach, node);
    return more, added + (if ok then 1 else 0), errs + (if ok then 0 else 1), x;
  }

  // The nodes visited are those no longer to do.
  ghost predicate Covered(nodes: map<string, NodeInfo>, visits: seq<NodeInfo>, todo: set<string>) {
    forall name :: name in nodes ==> (nodes[name] in visits <==> name !in todo)
  }

  lemma CoveredNext(r: NodeRegistry, visits: seq<NodeInfo>, todo: set<string>, name: string)
    requires r.Valid() && Covered(r.nodes, visits, todo) && name in todo && name in r.nodes
    ensures r.nodes[name] !in visits && Covered(r.nodes, visits + [r.nodes[name]], todo - {name})
  {
  }

  method Spread(r: NodeRegistry, id: string, distribute: bool, reach: NodeInfo -> bool, deficit: int,
                clock: nat -> int, ghost v: View)
    returns (added: nat, errs: nat, calls: seq<Call>, visits: seq<NodeInfo>, ghost w: View)
    requires r.Valid() && Shows(v, r.nodes.Values, id)
    modifies r.nodes.Values`templateIds, r.nodes.Values`templateDigests
    ensures r.Valid() && Shows(w, r.nodes.Values, id)
    ensures Going(v, w, visits, calls, added, errs, deficit, distribute, clock)
    ensures Tried(v, visits, clock, calls, reach)
    ensures added < deficit ==> forall n :: n in r.nodes.Values ==> n in visits
  {
    added, errs, calls, visits, w := 0, 0, [], [], v;
    var todo := r.nodes.Keys;
    while todo != {} && added < deficit
      invariant r.Valid() && todo <= r.nodes.Keys && Shows(w, r.nodes.Values, id) && Covered(r.nodes, visits, todo)
      invariant Going(v, w, visits, calls, added, errs, deficit, distribute, clock)
      invariant Tried(v, visits, clock, calls, reach)
      decreases todo
    {
      var name :| name in todo;
      var node := r.nodes[name];
      CoveredNext(r, visits, todo, name);
      calls, added, errs, w :=
        TakeUp(r, node, id, distribute, reach, deficit, clock, calls, added, errs, visits, v, w);
      visits, todo := visits + [node], todo - {name};
    }
  }

  lemma HoldersGrow(v: View, w: View, calls: seq<Call>)
    requires w.holders == v.holders + Succeeded(calls) && OneCallEach(calls)
    requires forall n :: n in Asked(calls) ==> n !in v.holders
    ensures |w.holders| == |v.holders| + Oks(calls)
  {
    SucceededSize(calls);
    forall n | n in Succeeded(calls) ensures n !in v.holders { assert n in Asked(calls); }
  }

  // The template reaches at most `deficit` more nodes, and exactly as many as are
  // counted; with fewer, every node was visited, and asked if it was up then and
  // lacked the template, or could not be reached.  An encrypted template is only
  // built.  When it is distributed nothing is built at a time at which some
  // holder that serves it is up.  The pass fails exactly when some node was due
  // and nothing was added.
  method CreateSnapshotsOnNodes(r: NodeRegistry, id: string, encrypted: bool, peerToken: string,
                                reach: NodeInfo -> bool, deficit: int, clock: nat -> int)
    returns (added: nat, failed: bool, calls: seq<Call>, visits: seq<NodeInfo>)
    requires r.Valid()
    modifies r.nodes.Values`templateIds, r.nodes.Values`templateDigests
    ensures r.Valid()
    ensures added > 0 ==> added <= deficit
    ensures var v, w := old(ViewOf(r.nodes.Values, id)), ViewOf(r.nodes.Values, id);
      && |w.holders| == |v.holders| + added && w.holders == v.holders + Succeeded(calls)
      && Sound(calls, v, w, !encrypted && peerToken != "")
      && Tried(v, visits, clock, calls, reach)
      && failed == (added == 0 && SomeDue(v, visits, clock))
    ensures added < deficit ==> forall n :: n in r.nodes.Values ==> n in visits
    ensures encrypted ==> AllBuilds(calls)
  {
    ghost var v := ViewOf(r.nodes.Values, id);
    var errs;
    ghost var w;
    added, errs, calls, visits, w := Spread(r, id, !encrypted && peerToken != "", reach, deficit, clock, v);
    HoldersGrow(v, w, calls);
    ShowsOne(w, ViewOf(r.nodes.Values, id), r.nodes.Values, id);
    failed := added == 0 && errs > 0;
  }
}
