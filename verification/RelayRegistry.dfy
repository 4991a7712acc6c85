/** Relay nodes, their load and the tunnels assigned to them (internal/advanced/relay_registry.go). */
module RelayRegistry {
  import opened Options

  type Time = int
  type Id = string

  datatype Node = Node(address: string, connections: int, healthy: bool, lastSeen: Time)

  type Nodes = map<Id, Node>
  type Assignments = map<string, Id>

  datatype Listed = Listed(id: Id, node: Node)

  // ---------- the order of nodes ----------

  /** Byte-wise order of strings. */
  predicate LexLess(a: string, b: string) {
    b != "" && (a == "" || a[0] < b[0] || (a[0] == b[0] && LexLess(a[1..], b[1..])))
  }

  lemma {:induction false} LexIsTotal(a: string, b: string)
    ensures (LexLess(a, b) || LexLess(b, a) || a == b) && !(LexLess(a, b) && LexLess(b, a)) && !LexLess(a, a)
  {
    if a != "" && b != "" && a[0] == b[0] {
      LexIsTotal(a[1..], b[1..]);
      assert a == [a[0]] + a[1..] && b == [b[0]] + b[1..];
    }
    if a != "" {
      LexIsTotal(a[1..], a[1..]);
    }
  }

  /** The first difference decides; a proper prefix is less. */
  ghost predicate DiffersAt(a: string, b: string, k: nat) {
    && k <= |a| && k < |b| && a[..k] == b[..k]
    && (k == |a| || a[k] < b[k])
  }

  lemma FirstAgrees(a: string, b: string, k: nat)
    requires k > 0 && DiffersAt(a, b, k)
    ensures a != "" && b != "" && a[0] == b[0]
  {
    assert a[..k][0] == a[0] && b[..k][0] == b[0];
  }

  lemma {:induction false} LexIsByFirstDifference(a: string, b: string)
    ensures LexLess(a, b) <==> exists k :: DiffersAt(a, b, k)
  {
    if a == "" || b == "" || a[0] != b[0] {
      if LexLess(a, b) {
        assert DiffersAt(a, b, 0);
      }
      forall k: nat | DiffersAt(a, b, k) ensures k == 0 {
        if k > 0 {
          FirstAgrees(a, b, k);
        }
      }
    } else {
      LexIsByFirstDifference(a[1..], b[1..]);
      forall k: nat | DiffersAt(a[1..], b[1..], k) ensures DiffersAt(a, b, k + 1) {
        assert a[..k + 1] == [a[0]] + a[1..][..k] && b[..k + 1] == [b[0]] + b[1..][..k];
      }
      forall k: nat | DiffersAt(a, b, k) ensures k > 0 && DiffersAt(a[1..], b[1..], k - 1) {
        assert a[1..][..k - 1] == a[..k][1..] && b[1..][..k - 1] == b[..k][1..];
      }
    }
  }

  lemma {:induction false} LexIsTransitive(a: string, b: string, c: string)
    requires LexLess(a, b) && LexLess(b, c)
    ensures LexLess(a, c)
  {
    if a != "" && a[0] == b[0] && b[0] == c[0] {
      LexIsTransitive(a[1..], b[1..], c[1..]);
    }
  }

  predicate Before(a: Listed, b: Listed) {
    if a.node.healthy != b.node.healthy then a.node.healthy
    else if a.node.connections != b.node.connections then a.node.connections < b.node.connections
    else LexLess(a.id, b.id)
  }

  lemma BeforeIsTotal(a: Listed, b: Listed)
    ensures Before(a, b) || Before(b, a) || a.id == b.id
    ensures !(Before(a, b) && Before(b, a))
  {
    LexIsTotal(a.id, b.id);
  }

  /** Whatever stands between two ordered nodes is ordered with one of them. */
  lemma BeforeSplits(a: Listed, b: Listed, c: Listed)
    requires Before(a, c)
    ensures Before(a, b) || Before(b, c)
  {
    LexIsTotal(a.id, b.id);
    if LexLess(b.id, a.id) && LexLess(a.id, c.id) {
      LexIsTransitive(b.id, a.id, c.id);
    }
  }

  predicate Sorted(s: seq<Listed>) {
    forall i, j :: 0 <= i < j < |s| ==> !Before(s[j], s[i])
  }

  // ---------- the operations ----------

  predicate Eligible(nodes: Nodes, exclude: Id, id: Id) {
    id in nodes && nodes[id].healthy && id != exclude
  }

  /** The eligible node with the fewest connections, and of those the one with the least id. */
  ghost predicate IsLeast(nodes: Nodes, exclude: Id, id: Id) {
    && Eligible(nodes, exclude, id)
    && forall other :: Eligible(nodes, exclude, other) && other != id ==>
         || nodes[id].connections < nodes[other].connections
         || (nodes[id].connections == nodes[other].connections && LexLess(id, other))
  }

  ghost function Pick(nodes: Nodes, exclude: Id): Option<Id> {
    if exists id :: IsLeast(nodes, exclude, id) then
      var id :| IsLeast(nodes, exclude, id);
      Some(id)
    else None
  }

  lemma LeastIsPicked(nodes: Nodes, exclude: Id, id: Id)
    requires IsLeast(nodes, exclude, id)
    ensures Pick(nodes, exclude) == Some(id)
  {
    var other := Pick(nodes, exclude).value;
    LexIsTotal(id, other);
  }

  function Expire(nodes: Nodes, timeout: Time, now: Time): Nodes {
    map id | id in nodes ::
      if now - nodes[id].lastSeen <= timeout then nodes[id] else nodes[id].(healthy := false)
  }

  /** A missing assignment reads as the empty id, which no node has. */
  function Holder(assignments: Assignments, tunnel: string): Id {
    if tunnel in assignments then assignments[tunnel] else ""
  }

  function Decremented(nodes: Nodes, id: Id): Nodes {
    if id !in nodes || nodes[id].connections == 0 then nodes
    else nodes[id := nodes[id].(connections := nodes[id].connections - 1)]
  }

  /** The picked node was copied before the old holder was decremented, so the copy wins when they are the same. */
  function Moved(nodes: Nodes, assignments: Assignments, tunnel: string, id: Id): Nodes
    requires id in nodes
  {
    Decremented(nodes, Holder(assignments, tunnel))[id := nodes[id].(connections := nodes[id].connections + 1)]
  }

  datatype State = State(nodes: Nodes, assignments: Assignments)

  ghost function Assigned(s: State, timeout: Time, now: Time, tunnel: string, exclude: Id): State {
    var live := Expire(s.nodes, timeout, now);
    var picked := Pick(live, exclude);
    if picked.None? then State(live, s.assignments)
    else State(Moved(live, s.assignments, tunnel, picked.value), s.assignments[tunnel := picked.value])
  }

  /** What an assignment adds to the count of a node: one for the picked one, even when it is the holder; otherwise
      minus one for the holder, unless its count is zero. */
  function Change(s: State, picked: Option<Id>, tunnel: string, id: Id): int
    requires id in s.nodes
  {
    if picked.None? then 0
    else if id == picked.value then 1
    else if Holder(s.assignments, tunnel) == id && s.nodes[id].connections != 0 then -1
    else 0
  }

  /** An assignment changes no address or time, and health only by expiry. */
  lemma AssignedKeeps(s: State, timeout: Time, now: Time, tunnel: string, exclude: Id)
    ensures var t := Assigned(s, timeout, now, tunnel, exclude);
      && t.nodes.Keys == s.nodes.Keys
      && (forall id <- t.nodes.Keys ::
            && (t.nodes[id].healthy <==> s.nodes[id].healthy && now - s.nodes[id].lastSeen <= timeout)
            && t.nodes[id] == s.nodes[id].(healthy := t.nodes[id].healthy, connections := t.nodes[id].connections))
      && var picked := Pick(Expire(s.nodes, timeout, now), exclude);
         t.assignments == if picked.Some? then s.assignments[tunnel := picked.value] else s.assignments
  {
  }

  lemma AssignedCounts(s: State, timeout: Time, now: Time, tunnel: string, exclude: Id)
    ensures var t := Assigned(s, timeout, now, tunnel, exclude);
      var picked := Pick(Expire(s.nodes, timeout, now), exclude);
      && t.nodes.Keys == s.nodes.Keys
      && forall id <- t.nodes.Keys :: t.nodes[id].connections == s.nodes[id].connections + Change(s, picked, tunnel, id)
  {
    var live := Expire(s.nodes, timeout, now);
    assert forall id <- s.nodes.Keys :: live[id].connections == s.nodes[id].connections;
    hide Expire, LexLess;
    var picked := Pick(live, exclude);
    if picked.Some? {
      hide Pick;
      forall id | id in live
        ensures Moved(live, s.assignments, tunnel, picked.value)[id].connections
                == live[id].connections + Change(s, picked, tunnel, id)
      {
      }
    }
  }

  class RelayRegistry {
    var nodes: Nodes
    var assignments: Assignments
    const timeout: Time

    constructor (timeout: Time)
      ensures nodes == map[] && assignments == map[]
      ensures this.timeout == if timeout <= 0 then 30 else timeout
    {
      nodes, assignments := map[], map[];
      this.timeout := if timeout <= 0 then 30 else timeout;
    }

    function View(): State
      reads this
    {
      State(nodes, assignments)
    }

    /** `controlOk` tells whether the control address is empty or valid. */
    method Register(id: Id, address: string, connections: int, controlOk: bool, now: Time) returns (ok: bool)
      modifies this`nodes
      ensures ok <==> id != "" && address != "" && controlOk
      ensures nodes == if ok then old(nodes)[id := Node(address, connections, true, now)] else old(nodes)
    {
      ok := id != "" && address != "" && controlOk;
      if ok {
        nodes := nodes[id := Node(address, connections, true, now)];
      }
    }

    method Heartbeat(id: Id, connections: int, now: Time) returns (ok: bool)
      modifies this`nodes
      ensures ok <==> id in old(nodes)
      ensures nodes == if ok
                       then old(nodes)[id := old(nodes)[id].(connections := connections, healthy := true, lastSeen := now)]
                       else old(nodes)
    {
      ok := id in nodes;
      if ok {
        nodes := nodes[id := nodes[id].(connections := connections, healthy := true, lastSeen := now)];
      }
    }

    method MarkUnhealthy(id: Id)
      modifies this`nodes
      ensures nodes == if id in old(nodes) then old(nodes)[id := old(nodes)[id].(healthy := false)] else old(nodes)
    {
      if id in nodes {
        nodes := nodes[id := nodes[id].(healthy := false)];
      }
    }

    method ExpireLocked(now: Time)
      modifies this`nodes
      ensures nodes == Expire(old(nodes), timeout, now)
      ensures nodes.Keys == old(nodes).Keys
      ensures forall id <- nodes.Keys ::
                && (nodes[id].healthy <==> old(nodes)[id].healthy && now - old(nodes)[id].lastSeen <= timeout)
                && nodes[id] == old(nodes)[id].(healthy := nodes[id].healthy)
    {
      var ids := nodes.Keys;
      while ids != {}
        invariant ids <= nodes.Keys == old(nodes).Keys
        invariant forall id :: id in nodes ==>
                    nodes[id] == if id in ids then old(nodes)[id] else Expire(old(nodes), timeout, now)[id]
        decreases ids
      {
        var id :| id in ids;
        ids := ids - {id};
        if now - nodes[id].lastSeen > timeout {
          nodes := nodes[id := nodes[id].(healthy := false)];
        }
      }
    }

    method PickLocked(exclude: Id) returns (picked: Option<Id>)
      ensures picked == Pick(nodes, exclude)
      ensures picked.Some? <==> exists id :: Eligible(nodes, exclude, id)
      ensures picked.Some? ==>
                && picked.value in nodes && nodes[picked.value].healthy && picked.value != exclude
                && forall id <- nodes.Keys :: nodes[id].healthy && id != exclude && id != picked.value ==>
                     || nodes[picked.value].connections < nodes[id].connections
                     || (nodes[picked.value].connections == nodes[id].connections && LexLess(picked.value, id))
      ensures picked.None? ==> forall id <- nodes.Keys :: nodes[id].healthy ==> id == exclude
    {
      var list, ids := [], nodes.Keys;
      while ids != {}
        invariant ids <= nodes.Keys
        invariant forall id :: Eligible(nodes, exclude, id) && id !in ids ==> Listed(id, nodes[id]) in list
        invariant forall l <- list :: Eligible(nodes, exclude, l.id) && l.node == nodes[l.id]
        decreases ids
      {
        var id :| id in ids;
        ids := ids - {id};
        if nodes[id].healthy && id != exclude {
          list := list + [Listed(id, nodes[id])];
        }
      }
      var sorted := SortNodes(list);
      if |sorted| == 0 {
        return None;
      }
      FirstIsLeast(nodes, exclude, list, sorted);
      LeastIsPicked(nodes, exclude, sorted[0].id);
      return Some(sorted[0].id);
    }

    method Decrement(id: Id)
      modifies this`nodes
      ensures nodes == Decremented(old(nodes), id)
    {
      if id !in nodes || nodes[id].connections == 0 {
        return;
      }
      nodes := nodes[id := nodes[id].(connections := nodes[id].connections - 1)];
    }

    method Assign(tunnel: string, exclude: Id, now: Time) returns (r: Option<Id>)
      modifies this
      ensures r == Pick(Expire(old(nodes), timeout, now), exclude)
      ensures View() == Assigned(old(View()), timeout, now, tunnel, exclude)
      ensures nodes.Keys == old(nodes).Keys
      ensures forall id <- nodes.Keys ::
                && (nodes[id].healthy <==> old(nodes)[id].healthy && now - old(nodes)[id].lastSeen <= timeout)
                && nodes[id] == old(nodes)[id].(healthy := nodes[id].healthy, connections := nodes[id].connections)
      ensures assignments == if r.Some? then old(assignments)[tunnel := r.value] else old(assignments)
      ensures forall id <- nodes.Keys ::
                nodes[id].connections == old(nodes)[id].connections +
                  if r.None? then 0
                  else if id == r.value then 1
                  else if id == Holder(old(assignments), tunnel) && old(nodes)[id].connections != 0 then -1
                  else 0
    {
      AssignedKeeps(View(), timeout, now, tunnel, exclude);
      AssignedCounts(View(), timeout, now, tunnel, exclude);
      ExpireLocked(now);
      r := PickLocked(exclude);
      if r.None? {
        return;
      }
      var node := nodes[r.value];
      Decrement(Holder(assignments, tunnel));
      nodes := nodes[r.value := node.(connections := node.connections + 1)];
      assignments := assignments[tunnel := r.value];
    }

    method AssignTunnel(tunnel: string, now: Time) returns (r: Option<Id>)
      modifies this
      ensures r == Pick(Expire(old(nodes), timeout, now), "")
      ensures View() == Assigned(old(View()), timeout, now, tunnel, "")
    {
      r := Assign(tunnel, "", now);
    }

    /** The excluded node is read before the lock is taken again; here nothing happens in between. */
    method ReassignTunnel(tunnel: string, now: Time) returns (r: Option<Id>)
      modifies this
      ensures r == Pick(Expire(old(nodes), timeout, now), Holder(old(assignments), tunnel))
      ensures View() == Assigned(old(View()), timeout, now, tunnel, Holder(old(assignments), tunnel))
      ensures r.Some? ==> r.value != Holder(old(assignments), tunnel)
    {
      r := Assign(tunnel, Holder(assignments, tunnel), now);
    }

    method ReleaseTunnel(tunnel: string)
      modifies this
      ensures nodes == Decremented(old(nodes), Holder(old(assignments), tunnel))
      ensures assignments == old(assignments) - {tunnel}
    {
      Decrement(Holder(assignments, tunnel));
      assignments := assignments - {tunnel};
    }
  }

  /** Stands for the library's sort: with different ids the order has one sorted arrangement. */
  method SortNodes(nodes: seq<Listed>) returns (sorted: seq<Listed>)
    ensures Sorted(sorted) && multiset(sorted) == multiset(nodes)
    ensures forall i, j :: 0 <= i < j < |sorted| ==> NoLater(sorted[i], sorted[j])
  {
    sorted := [];
    for n := 0 to |nodes|
      invariant Sorted(sorted) && multiset(sorted) == multiset(nodes[..n])
    {
      assert nodes[..n + 1] == nodes[..n] + [nodes[n]];
      var i := |sorted|;
      while i > 0 && Before(nodes[n], sorted[i - 1])
        invariant 0 <= i <= |sorted|
        invariant forall k :: i <= k < |sorted| ==> Before(nodes[n], sorted[k])
      {
        i := i - 1;
      }
      InsertedIsSorted(sorted, i, nodes[n]);
      assert sorted == sorted[..i] + sorted[i..];
      sorted := sorted[..i] + [nodes[n]] + sorted[i..];
    }
    assert nodes[..|nodes|] == nodes;
    forall i, j | 0 <= i < j < |sorted| ensures NoLater(sorted[i], sorted[j]) {
      NotBefore(sorted[j], sorted[i]);
    }
  }

  /** Healthy nodes first, then fewer connections, then the lesser id. */
  predicate NoLater(a: Listed, b: Listed) {
    && (b.node.healthy ==> a.node.healthy)
    && (a.node.healthy == b.node.healthy ==> a.node.connections <= b.node.connections)
    && (a.node.healthy == b.node.healthy && a.node.connections == b.node.connections ==> a.id == b.id || LexLess(a.id, b.id))
  }

  lemma NotBefore(a: Listed, b: Listed)
    requires !Before(a, b)
    ensures NoLater(b, a)
  {
    LexIsTotal(a.id, b.id);
  }

  lemma InsertedIsSorted(s: seq<Listed>, i: nat, x: Listed)
    requires Sorted(s) && i <= |s| && (i > 0 ==> !Before(x, s[i - 1]))
    requires forall k :: i <= k < |s| ==> Before(x, s[k])
    ensures Sorted(s[..i] + [x] + s[i..])
  {
    if i > 0 {
      EndIsLast(s[..i], x);
    }
    forall k | i <= k < |s| ensures !Before(s[k], x) {
      BeforeIsTotal(x, s[k]);
    }
  }

  lemma EndIsLast(s: seq<Listed>, x: Listed)
    requires s != [] && Sorted(s) && !Before(x, s[|s| - 1])
    ensures forall i :: 0 <= i < |s| ==> !Before(x, s[i])
  {
    forall i | 0 <= i < |s| ensures !Before(x, s[i]) {
      if Before(x, s[i]) {
        BeforeSplits(x, s[|s| - 1], s[i]);
      }
    }
  }

  lemma FirstIsLeast(nodes: Nodes, exclude: Id, list: seq<Listed>, sorted: seq<Listed>)
    requires forall id :: Eligible(nodes, exclude, id) ==> Listed(id, nodes[id]) in list
    requires forall l <- list :: Eligible(nodes, exclude, l.id) && l.node == nodes[l.id]
    requires Sorted(sorted) && multiset(sorted) == multiset(list) && sorted != []
    ensures IsLeast(nodes, exclude, sorted[0].id)
  {
    assert forall l :: l in list ==> l in multiset(sorted);
    assert sorted[0] in multiset(list);
    var id := sorted[0].id;
    forall other | Eligible(nodes, exclude, other) && other != id
      ensures || nodes[id].connections < nodes[other].connections
              || (nodes[id].connections == nodes[other].connections && LexLess(id, other))
    {
      var j :| 0 <= j < |sorted| && sorted[j] == Listed(other, nodes[other]);
      BeforeIsTotal(sorted[0], sorted[j]);
    }
  }

  // ---------- runs ----------

  /** Assigning and reassigning differ in the excluded node, which reassigning reads in an earlier critical
      section: it may be outdated. Every reader expires nodes. */
  datatype Step =
    | Register(id: Id, address: string, connections: int, controlOk: bool)
    | Heartbeat(id: Id, connections: int)
    | Assign(tunnel: string, exclude: Id)
    | Release(tunnel: string)
    | MarkUnhealthy(id: Id)
    | Look

  ghost function Next(s: State, timeout: Time, now: Time, step: Step): State {
    match step
    case Register(id, address, connections, controlOk) =>
      if id == "" || address == "" || !controlOk then s
      else s.(nodes := s.nodes[id := Node(address, connections, true, now)])
    case Heartbeat(id, connections) =>
      if id !in s.nodes then s
      else s.(nodes := s.nodes[id := s.nodes[id].(connections := connections, healthy := true, lastSeen := now)])
    case Assign(tunnel, exclude) => Assigned(s, timeout, now, tunnel, exclude)
    case Release(tunnel) =>
      State(Decremented(s.nodes, Holder(s.assignments, tunnel)), s.assignments - {tunnel})
    case MarkUnhealthy(id) =>
      if id !in s.nodes then s else s.(nodes := s.nodes[id := s.nodes[id].(healthy := false)])
    case Look => s.(nodes := Expire(s.nodes, timeout, now))
  }

  ghost function Run(s: State, timeout: Time, steps: seq<(Time, Step)>): State
    decreases |steps|
  {
    if steps == [] then s
    else Next(Run(s, timeout, steps[..|steps| - 1]), timeout, steps[|steps| - 1].0, steps[|steps| - 1].1)
  }

  // ---------- assignments ----------

  ghost predicate Inv(s: State) {
    "" !in s.nodes && forall t <- s.assignments.Keys :: s.assignments[t] in s.nodes
  }

  lemma NodesStay(s: State, timeout: Time, now: Time, step: Step, id: Id)
    requires id in s.nodes
    ensures id in Next(s, timeout, now, step).nodes
  {
  }

  lemma NextInv(s: State, timeout: Time, now: Time, step: Step)
    requires Inv(s)
    ensures Inv(Next(s, timeout, now, step))
  {
    forall id | id in s.nodes ensures id in Next(s, timeout, now, step).nodes {
      NodesStay(s, timeout, now, step, id);
    }
  }

  /** Every assignment names a registered node. */
  lemma {:induction false} RunInv(s: State, timeout: Time, steps: seq<(Time, Step)>)
    requires Inv(s)
    ensures Inv(Run(s, timeout, steps))
  {
    if steps != [] {
      RunInv(s, timeout, steps[..|steps| - 1]);
      NextInv(Run(s, timeout, steps[..|steps| - 1]), timeout, steps[|steps| - 1].0, steps[|steps| - 1].1);
    }
  }

  /** An assignment that fails changes no assignment and no load; one that succeeds goes to a healthy node that is
      not excluded and has the least (connections, id) of those. */
  lemma AssignmentGoesToTheLeast(s: State, timeout: Time, now: Time, tunnel: string, exclude: Id)
    ensures var t, live := Next(s, timeout, now, Assign(tunnel, exclude)), Expire(s.nodes, timeout, now);
      if exists id :: Eligible(live, exclude, id) then
        tunnel in t.assignments && IsLeast(live, exclude, t.assignments[tunnel]) &&
        t.assignments == s.assignments[tunnel := t.assignments[tunnel]]
      else
        t.assignments == s.assignments && t.nodes.Keys == s.nodes.Keys &&
        forall id :: id in s.nodes ==> t.nodes[id].connections == s.nodes[id].connections
  {
    var live := Expire(s.nodes, timeout, now);
    if exists id :: Eligible(live, exclude, id) {
      var start :| Eligible(live, exclude, start);
      var least := LeastExists(live, exclude, live.Keys, start);
      LeastIsPicked(live, exclude, least);
    }
  }

  lemma {:induction false} LeastExists(nodes: Nodes, exclude: Id, among: set<Id>, start: Id) returns (least: Id)
    requires Eligible(nodes, exclude, start)
    ensures Eligible(nodes, exclude, least)
    ensures forall other <- among + {start} :: Eligible(nodes, exclude, other) && other != least ==>
              Before(Listed(least, nodes[least]), Listed(other, nodes[other]))
    decreases among
  {
    least := start;
    if among != {} {
      var next :| next in among;
      var best := LeastExists(nodes, exclude, among - {next}, start);
      least := best;
      if Eligible(nodes, exclude, next) {
        BeforeIsTotal(Listed(next, nodes[next]), Listed(best, nodes[best]));
        if Before(Listed(next, nodes[next]), Listed(best, nodes[best])) {
          least := next;
        }
      }
      forall other | other in among + {start} && Eligible(nodes, exclude, other) && other != least
        ensures Before(Listed(least, nodes[least]), Listed(other, nodes[other]))
      {
        if other != next && other != best {
          assert other in among - {next} + {start};
          BeforeSplits(Listed(best, nodes[best]), Listed(least, nodes[least]), Listed(other, nodes[other]));
          BeforeIsTotal(Listed(best, nodes[best]), Listed(least, nodes[least]));
        }
      }
    }
  }

  // ---------- load ----------

  ghost function Tunnels(assignments: Assignments, id: Id): set<string> {
    set t | t in assignments && assignments[t] == id
  }

  function One(b: bool): nat {
    if b then 1 else 0
  }

  lemma SizeWithout<T>(s: set<T>, x: T)
    ensures |s| == |s - {x}| + One(x in s)
  {
  }

  lemma TunnelsAfterAssign(assignments: Assignments, tunnel: string, picked: Id, id: Id)
    requires id != ""
    ensures |Tunnels(assignments[tunnel := picked], id)| ==
            |Tunnels(assignments, id)| + One(picked == id) - One(Holder(assignments, tunnel) == id)
  {
    var before, after := Tunnels(assignments, id), Tunnels(assignments[tunnel := picked], id);
    SizeWithout(before, tunnel);
    if picked == id {
      assert after == before - {tunnel} + {tunnel};
    } else {
      assert after == before - {tunnel};
    }
  }

  lemma TunnelsAfterRelease(assignments: Assignments, tunnel: string, id: Id)
    requires id != ""
    ensures |Tunnels(assignments - {tunnel}, id)| == |Tunnels(assignments, id)| - One(Holder(assignments, tunnel) == id)
  {
    var before, after := Tunnels(assignments, id), Tunnels(assignments - {tunnel}, id);
    assert after == before - {tunnel};
    SizeWithout(before, tunnel);
  }

  /** The connections of a node that are not accounted for by its assigned tunnels. */
  ghost function Slack(s: State, id: Id): int
    requires id in s.nodes
  {
    s.nodes[id].connections - |Tunnels(s.assignments, id)|
  }

  predicate Reports(step: Step, id: Id) {
    (step.Register? || step.Heartbeat?) && step.id == id
  }

  /** A tunnel is assigned again to the node that it already holds. */
  ghost predicate Leaks(s: State, timeout: Time, now: Time, step: Step, id: Id) {
    step.Assign? && Pick(Expire(s.nodes, timeout, now), step.exclude) == Some(id) && Holder(s.assignments, step.tunnel) == id
  }

  /** The floor at zero swallows the decrement of a node that loses a tunnel. */
  ghost predicate Swallows(s: State, timeout: Time, now: Time, step: Step, id: Id)
    requires id in s.nodes
  {
    && s.nodes[id].connections == 0
    && (|| (step.Release? && Holder(s.assignments, step.tunnel) == id)
        || (step.Assign? && Holder(s.assignments, step.tunnel) == id && !Leaks(s, timeout, now, step, id) &&
            Pick(Expire(s.nodes, timeout, now), step.exclude).Some?))
  }

  lemma AssignSlack(s: State, timeout: Time, now: Time, step: Step, id: Id)
    requires Inv(s) && id in s.nodes && step.Assign?
    ensures Slack(Next(s, timeout, now, step), id) ==
            Slack(s, id) + One(Leaks(s, timeout, now, step, id) || Swallows(s, timeout, now, step, id))
  {
    var picked := Pick(Expire(s.nodes, timeout, now), step.exclude);
    if picked.Some? {
      TunnelsAfterAssign(s.assignments, step.tunnel, picked.value, id);
    }
  }

  /** Between its own reports a node's slack changes exactly when a tunnel is assigned again to the node it holds
      (by one, for good) or when the floor swallows a decrement. */
  lemma NextSlack(s: State, timeout: Time, now: Time, step: Step, id: Id)
    requires Inv(s) && id in s.nodes && !Reports(step, id)
    ensures Slack(Next(s, timeout, now, step), id) ==
            Slack(s, id) + One(Leaks(s, timeout, now, step, id) || Swallows(s, timeout, now, step, id))
  {
    match step {
      case Assign(_, _) => AssignSlack(s, timeout, now, step, id);
      case Release(tunnel) => TunnelsAfterRelease(s.assignments, tunnel, id);
      case _ =>
    }
  }

  /** The floor is never reached by a node whose count covers its tunnels. */
  lemma NothingSwallowed(s: State, timeout: Time, now: Time, step: Step, id: Id)
    requires Inv(s) && id in s.nodes && Slack(s, id) >= 0
    ensures !Swallows(s, timeout, now, step, id)
  {
    if (step.Release? || step.Assign?) && Holder(s.assignments, step.tunnel) == id {
      assert step.tunnel in Tunnels(s.assignments, id);
    }
  }

  ghost function LeaksIn(s: State, timeout: Time, steps: seq<(Time, Step)>, id: Id): nat
    decreases |steps|
  {
    if steps == [] then 0
    else
      var front, last := steps[..|steps| - 1], steps[|steps| - 1];
      LeaksIn(s, timeout, front, id) + One(Leaks(Run(s, timeout, front), timeout, last.0, last.1, id))
  }

  /** From a report that covers the node's tunnels to its next report, the count covers the tunnels, and the
      difference grows by exactly one for each assignment of a tunnel to the node that holds it already. */
  lemma {:induction false} RunSlack(s: State, timeout: Time, steps: seq<(Time, Step)>, id: Id)
    requires Inv(s) && id in s.nodes && Slack(s, id) >= 0
    requires forall i :: 0 <= i < |steps| ==> !Reports(steps[i].1, id)
    ensures id in Run(s, timeout, steps).nodes
    ensures Slack(Run(s, timeout, steps), id) == Slack(s, id) + LeaksIn(s, timeout, steps, id)
  {
    if steps != [] {
      var front, last := steps[..|steps| - 1], steps[|steps| - 1];
      RunSlack(s, timeout, front, id);
      RunInv(s, timeout, front);
      var t := Run(s, timeout, front);
      NodesStay(t, timeout, last.0, last.1, id);
      NothingSwallowed(t, timeout, last.0, last.1, id);
      NextSlack(t, timeout, last.0, last.1, id);
    }
  }

  /** Reassigning with an up-to-date excluded node never leaks; assigning without one leaks exactly when the holder
      is itself the least loaded node. */
  lemma ReassigningDoesNotLeak(s: State, timeout: Time, now: Time, tunnel: string, id: Id)
    requires Inv(s) && id in s.nodes
    ensures !Leaks(s, timeout, now, Assign(tunnel, Holder(s.assignments, tunnel)), id)
    ensures Leaks(s, timeout, now, Assign(tunnel, ""), id) <==>
            Holder(s.assignments, tunnel) == id && IsLeast(Expire(s.nodes, timeout, now), "", id)
  {
    var live := Expire(s.nodes, timeout, now);
    if IsLeast(live, "", id) {
      LeastIsPicked(live, "", id);
    }
  }
}
