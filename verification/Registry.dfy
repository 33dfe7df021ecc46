/**
 The controller's registry of forkd nodes: who owns a dialed connection, and
 which node a fork is placed on.
 */
module Registry {
  import opened Wrappers
  import opened Clock
  import opened Utf8
  import opened Sorting

  const PROBE_FAILURE_THRESHOLD := 3
  const HEARTBEAT_TTL := 120 * SECOND

  class Conn {
    var closes: nat  // how often Close was called

    constructor ()
      ensures closes == 0
    {
      closes := 0;
    }

    method Close()
      modifies this
      ensures closes == old(closes) + 1
    {
      closes := closes + 1;
    }
  }

  class NodeInfo {
    const name: string
    const endpoint: string
    const casEndpoint: string
    var snapshotIds: seq<string>
    var templateIds: seq<string>
    var templateDigests: map<string, string>
    var lastHeartbeat: int
    var probeFailures: int
    var conn: Conn?

    constructor (name: string, endpoint: string, casEndpoint: string)
      ensures this.name == name && this.endpoint == endpoint && this.casEndpoint == casEndpoint && conn == null
    {
      this.name, this.endpoint, this.casEndpoint := name, endpoint, casEndpoint;
      snapshotIds, templateIds, templateDigests := [], [], map[];
      lastHeartbeat, probeFailures, conn := 0, 0, null;
    }

    predicate Healthy(now: int)
      reads `probeFailures, `lastHeartbeat
    {
      probeFailures < PROBE_FAILURE_THRESHOLD && now - lastHeartbeat < HEARTBEAT_TTL
    }

    predicate HasSnapshot(id: string)
      reads this
    {
      id in snapshotIds || id in templateIds
    }

    predicate CanServe(id: string, now: int)
      reads this
    {
      Healthy(now) && HasSnapshot(id) && id in templateDigests && templateDigests[id] != "" && casEndpoint != ""
    }
  }

  // ---------------------------------------------------------------- packing

  // What placement asks about a node for one snapshot: whether the fork fits,
  // how many forks of the snapshot run there, and the free memory if known.
  datatype Policy = Policy(admits: NodeInfo -> bool, forks: NodeInfo -> int, available: NodeInfo -> Option<int>)

  function PackTier(p: Policy, n: NodeInfo, id: string): nat
    reads n
  {
    if id == "" || !n.HasSnapshot(id) then 0 else if p.forks(n) > 0 then 2 else 1
  }

  predicate Denser(p: Policy, c: NodeInfo, b: NodeInfo, id: string)
    reads c, b
  {
    var cTier, bTier := PackTier(p, c, id), PackTier(p, b, id);
    if cTier != bTier then cTier > bTier
    else if cTier > 0 then
      if p.forks(c) != p.forks(b) then p.forks(c) > p.forks(b) else Less(c.name, b.name)
    else
      var cAvail, bAvail := p.available(c), p.available(b);
      if cAvail.Some? != bAvail.Some? then cAvail.Some?
      else if cAvail.Some? && cAvail.value != bAvail.value then cAvail.value > bAvail.value
      else Less(c.name, b.name)
  }

  // `denser` is a strict total order on nodes with distinct names.
  lemma DenserIsTotal(p: Policy, a: NodeInfo, b: NodeInfo, id: string)
    ensures a.name != b.name ==> (Denser(p, a, b, id) <==> !Denser(p, b, a, id))
    ensures !Denser(p, a, a, id)
  {
    LessIsStrictTotal(a.name, b.name);
  }

  lemma DenserIsTransitive(p: Policy, a: NodeInfo, b: NodeInfo, c: NodeInfo, id: string)
    requires Denser(p, a, b, id) && Denser(p, b, c, id)
    ensures Denser(p, a, c, id)
  {
    if Less(a.name, b.name) && Less(b.name, c.name) {
      BytesLessTransitive(Encode(a.name), Encode(b.name), Encode(c.name));
    }
  }

  ghost predicate DistinctNames(nodes: seq<NodeInfo>) {
    forall i, j :: 0 <= i < j < |nodes| ==> nodes[i].name != nodes[j].name
  }

  // `best` beats every other node there is.
  ghost predicate IsBest(p: Policy, best: NodeInfo, nodes: set<NodeInfo>, id: string)
    reads nodes, best
  {
    best in nodes && forall n :: n in nodes && n != best ==> Denser(p, best, n, id)
  }

  // So whatever order the nodes are visited in, the same one is chosen.
  lemma BestIsUnique(p: Policy, a: NodeInfo, b: NodeInfo, nodes: set<NodeInfo>, id: string)
    requires IsBest(p, a, nodes, id) && IsBest(p, b, nodes, id)
    ensures a == b
  {
    DenserIsTotal(p, a, b, id);
    if a != b {
      DenserIsTransitive(p, a, b, a, id);
      DenserIsTotal(p, a, a, id);
    }
  }

  // With a holder of the snapshot among the nodes the best one is a holder that
  // runs the most forks of it; with none it has the most free memory known; and
  // the lowest name decides between equals.
  lemma BestPacks(p: Policy, best: NodeInfo, nodes: set<NodeInfo>, id: string, n: NodeInfo)
    requires IsBest(p, best, nodes, id) && n in nodes && n != best
    ensures id != "" && (id in n.snapshotIds || id in n.templateIds) ==>
      && (id in best.snapshotIds || id in best.templateIds)
      && (p.forks(best) > p.forks(n) || (p.forks(best) == p.forks(n) && Less(best.name, n.name)))
    ensures id == "" || (id !in best.snapshotIds && id !in best.templateIds) ==>
      && (p.available(n).Some? ==> p.available(best).Some? && p.available(best).value >= p.available(n).value)
      && (p.available(n) == p.available(best) ==> Less(best.name, n.name))
  {
  }

  // A node is healthy when fewer than three probes in a row failed and it was
  // heard of in the last two minutes.
  lemma HealthyExactly(n: NodeInfo, now: int)
    ensures n.Healthy(now) <==> n.probeFailures < 3 && now - n.lastHeartbeat < 120_000_000_000
  {
  }

  method PackBest(p: Policy, admitted: seq<NodeInfo>, id: string) returns (best: NodeInfo)
    requires admitted != [] && DistinctNames(admitted)
    ensures IsBest(p, best, (set n | n in admitted), id)
  {
    best := admitted[0];
    for i := 1 to |admitted|
      invariant best in admitted[..i]
      invariant forall k :: 0 <= k < i && admitted[k] != best ==> Denser(p, best, admitted[k], id)
    {
      var node, prior := admitted[i], best;
      DenserIsTotal(p, node, prior, id);
      if Denser(p, node, best, id) {
        best := node;
        forall k | 0 <= k < i && admitted[k] != best ensures Denser(p, best, admitted[k], id) {
          if admitted[k] != prior { DenserIsTransitive(p, node, prior, admitted[k], id); }
        }
      }
    }
  }

  lemma Ordered(a: string, b: string, names: set<string>)
    ensures a == b || Less(a, b) || Less(b, a)
    ensures Less(a, b) ==> forall n :: n in names && Less(b, n) ==> Less(a, n)
  {
    LessIsStrictTotal(a, b);
    if Less(a, b) {
      forall n | n in names && Less(b, n) ensures Less(a, n) {
        BytesLessTransitive(Encode(a), Encode(b), Encode(n));
      }
    }
  }

  lemma Without<K, V>(m: map<K, V>, gone: set<K>, todo: set<K>, k: K)
    requires k in todo && k in m
    ensures k in m - (gone - todo) && (m - (gone - todo))[k] == m[k] && k !in gone - todo
    ensures gone - (todo - {k}) == if k in gone then (gone - todo) + {k} else gone - todo
    ensures m - (gone - todo) - {k} == m - ((gone - todo) + {k})
  {
  }

  datatype Choice = Chosen(node: NodeInfo) | NoNodes | NoHealthyNode | NoCapacity

  datatype Entry = Entry(endpoint: string, heartbeat: int, conn: Conn?)

  class NodeRegistry {
    var nodes: map<string, NodeInfo>
    ghost var dialed: set<Conn>           // every connection this registry ever dialed
    ghost var holder: map<Conn, string>   // the node that holds each open one

    ghost predicate Valid()
      reads this, nodes.Values, dialed
    {
      && (forall n :: n in nodes ==> nodes[n].name == n)
      && (forall n :: n in nodes && nodes[n].conn != null ==> nodes[n].conn in holder && holder[nodes[n].conn] == n)
      && (forall c :: c in holder ==> c in dialed && holder[c] in nodes && nodes[holder[c]].conn == c)
      && (forall c :: c in dialed ==> c.closes == if c in holder then 0 else 1)
    }

    // What the registry records of each node about its connection.
    ghost function View(): map<string, Entry>
      reads this, nodes.Values
    {
      map n | n in nodes :: Entry(nodes[n].endpoint, nodes[n].lastHeartbeat, nodes[n].conn)
    }

    ghost predicate Holds(name: string, c: Conn)
      reads this, nodes.Values
    {
      name in nodes && nodes[name].conn == c
    }

    // A dialed connection is open exactly while a registered node holds it, one
    // node only, and once released it has been closed exactly once.
    lemma OpenExactlyWhileHeld(c: Conn)
      requires Valid() && c in dialed
      ensures c.closes == 0 <==> exists n :: Holds(n, c)
      ensures c.closes == 1 <==> forall n :: !Holds(n, c)
      ensures forall m, n :: Holds(m, c) && Holds(n, c) ==> m == n
    {
      if c in holder { assert Holds(holder[c], c); }
    }

    constructor ()
      ensures Valid() && nodes == map[] && dialed == {}
    {
      nodes, dialed, holder := map[], {}, map[];
    }

    // A node that comes back at the same endpoint keeps its connection; at
    // another endpoint the old connection is closed.
    method Register(info: NodeInfo, now: int)
      requires Valid() && info !in nodes.Values && info.conn == null
      modifies this, info, dialed
      ensures Valid() && nodes == old(nodes)[info.name := info] && dialed == old(dialed)
      ensures info.lastHeartbeat == now
      ensures info.conn ==
        if old(info.name in nodes && nodes[info.name].endpoint == info.endpoint)
        then old(nodes[info.name].conn) else null
    {
      if info.name in nodes && nodes[info.name].conn != null {
        var node := nodes[info.name];
        if node.endpoint == info.endpoint && info.conn == null {
          info.conn := node.conn;
        } else {
          node.conn.Close();
          holder := holder - {node.conn};
        }
      }
      info.lastHeartbeat := now;
      nodes := nodes[info.name := info];
    }

    method Unregister(name: string)
      requires Valid()
      modifies this, dialed
      ensures Valid() && nodes == old(nodes) - {name} && dialed == old(dialed)
    {
      if name in nodes {
        if nodes[name].conn != null {
          nodes[name].conn.Close();
          holder := holder - {nodes[name].conn};
        }
        nodes := nodes - {name};
      }
    }

    // A node is dialed once, if dialing works; later calls get the same connection.
    method GetConnection(name: string, dialOk: bool) returns (c: Conn?)
      requires Valid()
      modifies this`dialed, this`holder, nodes.Values`conn
      ensures Valid() && dialed == old(dialed) + (if c == null then {} else {c})
      ensures View() == Connected(old(View()), name, c)
      ensures c != null <==> name in nodes && (old(nodes[name].conn) != null || dialOk)
      ensures name in nodes ==> nodes[name].conn == c
      ensures name in nodes && old(nodes[name].conn) != null ==> c == old(nodes[name].conn)
      ensures c != null && old(nodes[name].conn) == null ==> fresh(c)
      ensures fresh(dialed - old(dialed))
    {
      if name !in nodes { return null; }
      var node := nodes[name];
      if node.conn != null { return node.conn; }
      if !dialOk { return null; }
      c := new Conn();
      node.conn := c;
      dialed, holder := dialed + {c}, holder[c := name];
    }

    ghost function StaleNodes(maxAge: int, now: int): set<string>
      reads this, nodes.Values
    {
      set n | n in nodes && now - nodes[n].lastHeartbeat >= maxAge
    }

    method PruneOne(name: string, maxAge: int, now: int) returns (gone: bool)
      requires Valid() && name in nodes
      modifies this, dialed
      ensures Valid() && dialed == old(dialed) && gone == (now - old(nodes[name]).lastHeartbeat >= maxAge)
      ensures nodes == if gone then old(nodes) - {name} else old(nodes)
    {
      gone := now - nodes[name].lastHeartbeat >= maxAge;
      if gone { Unregister(name); }
    }

    method PruneAll(maxAge: int, now: int) returns (pruned: nat, ghost dropped: seq<string>)
      requires Valid()
      modifies this, dialed
      ensures Valid() && dialed == old(dialed) && nodes == old(nodes) - old(StaleNodes(maxAge, now))
      ensures pruned == |dropped| && Distinct(dropped)
      ensures forall n :: n in dropped <==> n in old(StaleNodes(maxAge, now))
    {
      pruned, dropped := 0, [];
      var todo := nodes.Keys;
      ghost var all, stale := nodes, StaleNodes(maxAge, now);
      assert all == all - (stale - todo);
      while todo != {}
        invariant Valid() && dialed == old(dialed) && todo <= all.Keys && nodes == all - (stale - todo)
        invariant pruned == |dropped| && Distinct(dropped) && forall n :: n in dropped <==> n in stale - todo
        decreases todo
      {
        var name :| name in todo;
        Without(all, stale, todo, name);
        todo := todo - {name};
        var gone := PruneOne(name, maxAge, now);
        assert gone <==> name in stale;
        if gone { pruned, dropped := pruned + 1, dropped + [name]; }
      }
      assert stale - todo == stale;
    }

    method PruneStale(maxAge: int, now: int) returns (pruned: nat)
      requires Valid()
      modifies this, dialed
      ensures Valid() && dialed == old(dialed)
      ensures nodes == old(nodes) - old(StaleNodes(maxAge, now)) && pruned == |old(StaleNodes(maxAge, now))|
    {
      ghost var dropped;
      pruned, dropped := PruneAll(maxAge, now);
      DistinctSize(dropped, old(StaleNodes(maxAge, now)));
    }

    // Adding a template a node already lists only refreshes its digest.
    method AddTemplateWithDigest(name: string, id: string, digest: string)
      requires Valid()
      modifies nodes.Values`templateIds, nodes.Values`templateDigests
      ensures Valid()
      ensures forall n :: n in nodes.Values && n.name != name ==>
        n.templateIds == old(n.templateIds) && n.templateDigests == old(n.templateDigests)
      ensures name in nodes ==>
        && nodes[name].templateDigests ==
             (if digest != "" then old(nodes[name].templateDigests)[id := digest] else old(nodes[name].templateDigests))
        && nodes[name].templateIds ==
             old(nodes[name].templateIds) + (if id in old(nodes[name].templateIds) then [] else [id])
    {
      if name !in nodes { return; }
      var node := nodes[name];
      if digest != "" {
        node.templateDigests := node.templateDigests[id := digest];
      }
      if id in node.templateIds { return; }
      node.templateIds := node.templateIds + [id];
    }

    // The pull source is the holder with the lowest name among those that
    // report a digest and serve chunks; there is one whenever any node can be.
    method TemplateSource(id: string, now: int) returns (source: NodeInfo?)
      requires Valid()
      ensures source == null <==> forall n :: n in nodes.Values ==> !n.CanServe(id, now)
      ensures source != null ==>
        && source in nodes.Values && source.CanServe(id, now)
        && forall n :: n in nodes.Values && n.CanServe(id, now) && n != source ==> Less(source.name, n.name)
    {
      source := null;
      var todo := nodes.Keys;
      while todo != {}
        invariant todo <= nodes.Keys
        invariant source == null <==> forall n :: n in nodes && n !in todo ==> !nodes[n].CanServe(id, now)
        invariant source != null ==>
          && source.name in nodes && source.name !in todo && nodes[source.name] == source && source.CanServe(id, now)
          && forall n :: n in nodes && n !in todo && nodes[n].CanServe(id, now) && n != source.name ==>
               Less(source.name, n)
        decreases todo
      {
        var name :| name in todo;
        todo := todo - {name};
        var node := nodes[name];
        if !node.CanServe(id, now) { continue; }
        if source != null { Ordered(node.name, source.name, nodes.Keys); }
        if source == null || Less(node.name, source.name) {
          source := node;
        }
      }
    }

    ghost function Candidates(p: Policy, now: int): set<NodeInfo>
      reads this, nodes.Values
    {
      set n | n in nodes.Values && n.Healthy(now) && p.admits(n)
    }

    method SelectNode(p: Policy, id: string, preferred: string, now: int) returns (choice: Choice)
      requires Valid()
      ensures choice.NoNodes? <==> nodes == map[]
      ensures choice.NoHealthyNode? <==> nodes != map[] && forall n :: n in nodes.Values ==> !n.Healthy(now)
      ensures choice.NoCapacity? <==> Candidates(p, now) == {} && exists n :: n in nodes.Values && n.Healthy(now)
      ensures choice.Chosen? ==>
        if preferred != "" && preferred in nodes && nodes[preferred] in Candidates(p, now)
        then choice.node == nodes[preferred]
        else IsBest(p, choice.node, Candidates(p, now), id)
    {
      if |nodes| == 0 { return NoNodes; }
      if preferred != "" && preferred in nodes && nodes[preferred].Healthy(now) && p.admits(nodes[preferred]) {
        assert nodes[preferred] in Candidates(p, now);
        return Chosen(nodes[preferred]);
      }
      var healthy, admitted: seq<NodeInfo> := false, [];
      var todo := nodes.Keys;
      while todo != {}
        invariant todo <= nodes.Keys
        invariant healthy <==> exists n :: n in nodes && n !in todo && nodes[n].Healthy(now)
        invariant forall n :: n in admitted ==>
          n.name in nodes && n.name !in todo && nodes[n.name] == n && n in Candidates(p, now)
        invariant forall n :: n in nodes && n !in todo && nodes[n] in Candidates(p, now) ==> nodes[n] in admitted
        invariant DistinctNames(admitted)
        decreases todo
      {
        var name :| name in todo;
        todo := todo - {name};
        var node := nodes[name];
        if node.Healthy(now) {
          healthy := true;
          if p.admits(node) { admitted := admitted + [node]; }
        }
      }
      if !healthy { return NoHealthyNode; }
      if |admitted| == 0 { return NoCapacity; }
      var best := PackBest(p, admitted, id);
      assert (set n | n in admitted) == Candidates(p, now);
      return Chosen(best);
    }
  }

  // ------------------------------------------------------------- any history

  datatype Op =
    | RegisterNode(name: string, endpoint: string, casEndpoint: string, now: int)
    | Connect(name: string, dialOk: bool)
    | UnregisterNode(name: string)
    | Prune(maxAge: int, now: int)

  // A ledger of the connections by number, in the order they are dialed.
  datatype Slot = Slot(endpoint: string, heartbeat: int, conn: Option<nat>)
  datatype Ledger = Ledger(slots: map<string, Slot>, dialed: nat, closed: set<nat>)

  predicate Held(slots: map<string, Slot>, name: string, k: nat) { name in slots && slots[name].conn == Some(k) }

  predicate Stale(slot: Slot, maxAge: int, now: int) { now - slot.heartbeat >= maxAge }

  // The connections of the named nodes.
  function ConnsOf(slots: map<string, Slot>, names: set<string>): set<nat> {
    set n | n in names && n in slots && slots[n].conn.Some? :: slots[n].conn.value
  }

  function StaleNames(slots: map<string, Slot>, maxAge: int, now: int): set<string> {
    set n | n in slots && Stale(slots[n], maxAge, now)
  }

  function Drop(b: Ledger, names: set<string>): Ledger {
    b.(slots := b.slots - names, closed := b.closed + ConnsOf(b.slots, names))
  }

  function Do(b: Ledger, op: Op): Ledger {
    match op
    case RegisterNode(name, endpoint, _, now) =>
      if name in b.slots && b.slots[name].endpoint == endpoint
      then b.(slots := b.slots[name := b.slots[name].(heartbeat := now)])
      else Drop(b, {name}).(slots := b.slots[name := Slot(endpoint, now, None)])
    case Connect(name, dialOk) =>
      if name in b.slots && b.slots[name].conn.None? && dialOk
      then b.(slots := b.slots[name := b.slots[name].(conn := Some(b.dialed))], dialed := b.dialed + 1)
      else b
    case UnregisterNode(name) => Drop(b, {name})
    case Prune(maxAge, now) => Drop(b, StaleNames(b.slots, maxAge, now))
  }

  function After(ops: seq<Op>, n: nat): Ledger
    requires n <= |ops|
  {
    if n == 0 then Ledger(map[], 0, {}) else Do(After(ops, n - 1), ops[n - 1])
  }

  // The connection operation i is given, if any.
  function Given(ops: seq<Op>, i: nat): Option<nat>
    requires i < |ops|
  {
    var b := After(ops, i + 1);
    if ops[i].Connect? && ops[i].name in b.slots then b.slots[ops[i].name].conn else None
  }

  // A connection is closed or held by exactly one node, never both.
  ghost predicate Sound(b: Ledger) {
    && (forall n, k: nat :: Held(b.slots, n, k) ==> k < b.dialed && k !in b.closed)
    && (forall m, n, k: nat :: Held(b.slots, m, k) && Held(b.slots, n, k) ==> m == n)
    && (forall k :: k in b.closed ==> k < b.dialed)
    && (forall k: nat :: k < b.dialed && k !in b.closed ==> exists n :: Held(b.slots, n, k))
  }

  lemma DropSound(b: Ledger, names: set<string>)
    requires Sound(b)
    ensures Sound(Drop(b, names))
  {
    var d := Drop(b, names);
    assert forall n, k: nat :: Held(d.slots, n, k) ==> Held(b.slots, n, k) && n !in names;
    forall k | k in ConnsOf(b.slots, names) ensures k < b.dialed && forall n :: !Held(d.slots, n, k) {
      var m :| m in names && Held(b.slots, m, k);
    }
    forall k: nat | k < d.dialed && k !in d.closed ensures exists n :: Held(d.slots, n, k) {
      var n :| Held(b.slots, n, k);
      assert Held(d.slots, n, k);
    }
  }

  // A name that is free, or whose connection is kept, takes a new record.
  lemma PutSound(b: Ledger, name: string, slot: Slot)
    requires Sound(b) && slot.conn == (if name in b.slots then b.slots[name].conn else None)
    ensures Sound(b.(slots := b.slots[name := slot]))
  {
    var d := b.(slots := b.slots[name := slot]);
    assert forall n, k: nat :: Held(d.slots, n, k) <==> Held(b.slots, n, k);
  }

  lemma DialSound(b: Ledger, name: string)
    requires Sound(b) && name in b.slots && b.slots[name].conn.None?
    ensures Sound(Do(b, Connect(name, true)))
  {
    var d := Do(b, Connect(name, true));
    assert forall n, k: nat :: Held(d.slots, n, k) <==> Held(b.slots, n, k) || (n == name && k == b.dialed);
    forall k: nat | k < d.dialed && k !in d.closed ensures exists n :: Held(d.slots, n, k) {
      if k == b.dialed {
        assert Held(d.slots, name, k);
      } else {
        var n :| Held(b.slots, n, k);
        assert Held(d.slots, n, k);
      }
    }
  }

  lemma DoSound(b: Ledger, op: Op)
    requires Sound(b)
    ensures Sound(Do(b, op))
  {
    match op
    case RegisterNode(name, endpoint, _, now) =>
      if name in b.slots && b.slots[name].endpoint == endpoint {
        PutSound(b, name, b.slots[name].(heartbeat := now));
      } else {
        DropSound(b, {name});
        PutSound(Drop(b, {name}), name, Slot(endpoint, now, None));
        assert (b.slots - {name})[name := Slot(endpoint, now, None)] == b.slots[name := Slot(endpoint, now, None)];
      }
    case Connect(name, dialOk) =>
      if name in b.slots && b.slots[name].conn.None? && dialOk { DialSound(b, name); }
    case UnregisterNode(name) => DropSound(b, {name});
    case Prune(maxAge, now) => DropSound(b, StaleNames(b.slots, maxAge, now));
  }

  lemma {:induction false} AfterSound(ops: seq<Op>, n: nat)
    requires n <= |ops|
    ensures Sound(After(ops, n))
  {
    if n > 0 {
      AfterSound(ops, n - 1);
      DoSound(After(ops, n - 1), ops[n - 1]);
    }
  }

  // Nothing in the operation ends a connection to this node at this endpoint.
  predicate Harmless(b: Ledger, op: Op, name: string, endpoint: string) {
    match op
    case RegisterNode(n, e, _, _) => n == name ==> e == endpoint
    case Connect(_, _) => true
    case UnregisterNode(n) => n != name
    case Prune(maxAge, now) => name in b.slots ==> !Stale(b.slots[name], maxAge, now)
  }

  // While nothing ends it, a node's callers share one connection.
  lemma {:induction false} SharedUntilReleased(ops: seq<Op>, i: nat, j: nat, name: string, endpoint: string, k: nat)
    requires i <= j <= |ops| && Held(After(ops, i).slots, name, k) && After(ops, i).slots[name].endpoint == endpoint
    requires forall m :: i <= m < j ==> Harmless(After(ops, m), ops[m], name, endpoint)
    ensures Held(After(ops, j).slots, name, k) && After(ops, j).slots[name].endpoint == endpoint
  {
    if i < j { SharedUntilReleased(ops, i, j - 1, name, endpoint, k); }
  }

  ghost predicate SameConn(c: Conn?, k: Option<nat>, conns: seq<Conn>) {
    match k case None => c == null case Some(i) => i < |conns| && c == conns[i]
  }

  ghost predicate EntryAgrees(e: Entry, slot: Slot, conns: seq<Conn>) {
    e.endpoint == slot.endpoint && e.heartbeat == slot.heartbeat && SameConn(e.conn, slot.conn, conns)
  }

  ghost predicate Numbered(conns: seq<Conn>, dialed: set<Conn>) {
    && (forall i, j :: 0 <= i < j < |conns| ==> conns[i] != conns[j])
    && dialed == (set c | c in conns)
  }

  // The registry agrees with the ledger; conns[k] is connection number k.
  ghost predicate Agrees(view: map<string, Entry>, dialed: set<Conn>, conns: seq<Conn>, b: Ledger) {
    && view.Keys == b.slots.Keys
    && (forall n :: n in view ==> EntryAgrees(view[n], b.slots[n], conns))
    && |conns| == b.dialed
    && Numbered(conns, dialed)
  }

  lemma OneMore(conns: seq<Conn>, dialed: set<Conn>, c: Conn)
    requires Numbered(conns, dialed) && c !in dialed
    ensures Numbered(conns + [c], dialed + {c})
  {
    var more := conns + [c];
    assert forall i :: 0 <= i < |conns| ==> more[i] == conns[i] && conns[i] in dialed;
    assert forall d :: d in more <==> d in conns || d == c;
  }

  lemma StillSame(e: Entry, slot: Slot, conns: seq<Conn>, d: Conn)
    requires EntryAgrees(e, slot, conns)
    ensures EntryAgrees(e, slot, conns + [d])
  {
  }

  lemma AgreesRegister(view: map<string, Entry>, dialed: set<Conn>, conns: seq<Conn>, b: Ledger, op: Op)
    requires Agrees(view, dialed, conns, b) && op.RegisterNode?
    ensures Agrees(Registered(view, op), dialed, conns, Do(b, op))
  {
    assert op.name in view ==> EntryAgrees(view[op.name], b.slots[op.name], conns);
  }

  lemma AgreesPrune(view: map<string, Entry>, dialed: set<Conn>, conns: seq<Conn>, b: Ledger, maxAge: int, now: int)
    requires Agrees(view, dialed, conns, b)
    ensures Agrees(view - StaleEntries(view, maxAge, now), dialed, conns, Do(b, Prune(maxAge, now)))
  {
    forall n | n in view ensures n in StaleEntries(view, maxAge, now) <==> n in StaleNames(b.slots, maxAge, now) {
      assert EntryAgrees(view[n], b.slots[n], conns);
    }
    assert StaleEntries(view, maxAge, now) == StaleNames(b.slots, maxAge, now);
    AgreesDrop(view, dialed, conns, b, StaleNames(b.slots, maxAge, now));
  }

  // The view after a call that returned c.
  function Connected(view: map<string, Entry>, name: string, c: Conn?): map<string, Entry> {
    if name in view then view[name := view[name].(conn := c)] else view
  }

  function WithNew(conns: seq<Conn>, c: Conn?): (more: seq<Conn>)
    ensures conns <= more
  {
    if c != null && c !in conns then conns + [c] else conns
  }

  lemma AgreesConnect(view: map<string, Entry>, dialed: set<Conn>, conns: seq<Conn>, b: Ledger, op: Op, c: Conn?)
    requires Agrees(view, dialed, conns, b) && op.Connect?
    requires c != null <==> op.name in view && (view[op.name].conn != null || op.dialOk)
    requires c != null ==> if view[op.name].conn != null then c == view[op.name].conn else c !in dialed
    ensures var more := WithNew(conns, c);
      && Agrees(Connected(view, op.name, c), dialed + (if c == null then {} else {c}), more, Do(b, op))
      && SameConn(c, if op.name in b.slots then Do(b, op).slots[op.name].conn else None, more)
  {
    if op.name in view {
      assert EntryAgrees(view[op.name], b.slots[op.name], conns);
      if view[op.name].conn != null {
        assert view[op.name := view[op.name].(conn := c)] == view && dialed + {c} == dialed;
      } else if op.dialOk {
        AgreesDial(view, dialed, conns, b, op.name, c);
      } else {
        assert view[op.name := view[op.name].(conn := c)] == view;
      }
    }
  }

  lemma AgreesDrop(view: map<string, Entry>, dialed: set<Conn>, conns: seq<Conn>, b: Ledger, names: set<string>)
    requires Agrees(view, dialed, conns, b)
    ensures Agrees(view - names, dialed, conns, Drop(b, names))
  {
  }

  lemma AgreesDial(view: map<string, Entry>, dialed: set<Conn>, conns: seq<Conn>, b: Ledger, name: string, c: Conn)
    requires Agrees(view, dialed, conns, b) && name in view && view[name].conn == null && c !in dialed
    ensures Agrees(view[name := view[name].(conn := c)], dialed + {c}, conns + [c], Do(b, Connect(name, true)))
  {
    OneMore(conns, dialed, c);
    assert EntryAgrees(view[name], b.slots[name], conns);
    forall n | n in view && n != name ensures EntryAgrees(view[n], b.slots[n], conns + [c]) {
      StillSame(view[n], b.slots[n], conns, c);
    }
  }

  ghost predicate Handed(ops: seq<Op>, handed: seq<Conn?>, conns: seq<Conn>) {
    |handed| <= |ops| && forall i :: 0 <= i < |handed| ==> SameConn(handed[i], Given(ops, i), conns)
  }

  // Closed once when the ledger says so, and otherwise open and held.
  ghost predicate Accounted(r: NodeRegistry, conns: seq<Conn>, b: Ledger)
    reads r, r.nodes.Values, conns
  {
    && |conns| == b.dialed
    && forall k :: 0 <= k < |conns| ==> conns[k].closes == if k in b.closed then 1 else 0
  }

  // After any sequence of operations the connections given to callers are those
  // the ledger numbers, no two the same, and each was closed once if the ledger
  // has it closed, and otherwise is open and held by exactly one node.
  method RunOps(ops: seq<Op>) returns (r: NodeRegistry, conns: seq<Conn>, handed: seq<Conn?>)
    ensures r.Valid() && Agrees(r.View(), r.dialed, conns, After(ops, |ops|)) && Sound(After(ops, |ops|))
    ensures |handed| == |ops| && Handed(ops, handed, conns)
    ensures Accounted(r, conns, After(ops, |ops|))
  {
    r := new NodeRegistry();
    conns, handed := [], [];
    for i := 0 to |ops|
      invariant r.Valid() && fresh(r) && fresh(r.nodes.Values) && fresh(r.dialed)
      invariant Agrees(r.View(), r.dialed, conns, After(ops, i)) && |handed| == i && Handed(ops, handed, conns)
    {
      var c, more := DoOp(r, conns, After(ops, i), ops[i]);
      HandedNext(ops, handed, conns, c, more);
      handed, conns := handed + [c], more;
    }
    AfterSound(ops, |ops|);
    CloseCounts(r, conns, After(ops, |ops|));
  }

  // What each operation does to the view.
  method DoRegister(r: NodeRegistry, op: Op)
    requires r.Valid() && op.RegisterNode?
    modifies r, r.dialed
    ensures r.Valid() && r.dialed == old(r.dialed) && fresh(r.nodes.Values - old(r.nodes.Values))
    ensures r.View() == Registered(old(r.View()), op)
  {
    var info := new NodeInfo(op.name, op.endpoint, op.casEndpoint);
    r.Register(info, op.now);
  }

  function Registered(view: map<string, Entry>, op: Op): map<string, Entry>
    requires op.RegisterNode?
  {
    var c := if op.name in view && view[op.name].endpoint == op.endpoint then view[op.name].conn else null;
    view[op.name := Entry(op.endpoint, op.now, c)]
  }

  method DoUnregister(r: NodeRegistry, name: string)
    requires r.Valid()
    modifies r, r.dialed
    ensures r.Valid() && r.dialed == old(r.dialed) && r.nodes.Values <= old(r.nodes.Values)
    ensures r.View() == old(r.View()) - {name}
  {
    r.Unregister(name);
  }

  function StaleEntries(view: map<string, Entry>, maxAge: int, now: int): set<string> {
    set n | n in view && now - view[n].heartbeat >= maxAge
  }

  method DoPrune(r: NodeRegistry, maxAge: int, now: int)
    requires r.Valid()
    modifies r, r.dialed
    ensures r.Valid() && r.dialed == old(r.dialed) && r.nodes.Values <= old(r.nodes.Values)
    ensures r.View() == old(r.View()) - StaleEntries(old(r.View()), maxAge, now)
  {
    var _ := r.PruneStale(maxAge, now);
  }

  method DoOp(r: NodeRegistry, conns: seq<Conn>, ghost b: Ledger, op: Op) returns (c: Conn?, conns': seq<Conn>)
    requires r.Valid() && Agrees(r.View(), r.dialed, conns, b)
    modifies r, r.dialed, r.nodes.Values`conn
    ensures r.Valid() && Agrees(r.View(), r.dialed, conns', Do(b, op)) && conns <= conns'
    ensures fresh(r.nodes.Values - old(r.nodes.Values)) && fresh(r.dialed - old(r.dialed))
    ensures SameConn(c, if op.Connect? && op.name in b.slots then Do(b, op).slots[op.name].conn else None, conns')
  {
    c, conns' := null, conns;
    ghost var view, dialed := r.View(), r.dialed;
    if op.RegisterNode? {
      AgreesRegister(view, dialed, conns, b, op);
      DoRegister(r, op);
    } else if op.Connect? {
      c := r.GetConnection(op.name, op.dialOk);
      AgreesConnect(view, dialed, conns, b, op, c);
      conns' := WithNew(conns, c);
    } else if op.UnregisterNode? {
      AgreesDrop(view, dialed, conns, b, {op.name});
      DoUnregister(r, op.name);
    } else {
      AgreesPrune(view, dialed, conns, b, op.maxAge, op.now);
      DoPrune(r, op.maxAge, op.now);
    }
  }

  lemma HandedNext(ops: seq<Op>, handed: seq<Conn?>, conns: seq<Conn>, c: Conn?, more: seq<Conn>)
    requires |handed| < |ops| && Handed(ops, handed, conns) && conns <= more && SameConn(c, Given(ops, |handed|), more)
    ensures Handed(ops, handed + [c], more)
  {
    forall i | 0 <= i < |handed| ensures SameConn(handed[i], Given(ops, i), more) {
      assert SameConn(handed[i], Given(ops, i), conns);
    }
  }

  lemma CloseCounts(r: NodeRegistry, conns: seq<Conn>, b: Ledger)
    requires r.Valid() && Agrees(r.View(), r.dialed, conns, b) && Sound(b)
    ensures Accounted(r, conns, b)
  {
    forall k | 0 <= k < |conns| ensures conns[k].closes == if k in b.closed then 1 else 0 {
      HeldByNumber(r, conns, b, k);
      r.OpenExactlyWhileHeld(conns[k]);
    }
  }

  lemma HeldByNumber(r: NodeRegistry, conns: seq<Conn>, b: Ledger, k: nat)
    requires r.Valid() && Agrees(r.View(), r.dialed, conns, b) && Sound(b) && k < |conns|
    ensures k !in b.closed <==> exists n :: r.Holds(n, conns[k])
  {
    if k !in b.closed {
      var n :| Held(b.slots, n, k);
      assert EntryAgrees(r.View()[n], b.slots[n], conns) && r.Holds(n, conns[k]);
    }
    if n :| r.Holds(n, conns[k]) {
      assert EntryAgrees(r.View()[n], b.slots[n], conns) && Held(b.slots, n, k);
    }
  }
}
