/**
 * The resource graph (server/resourcegraph.h, server/resourcegraph.cc): storage, DTN and general
 * nodes, an edge map, and on each node the lists of its incoming and outgoing edges. Edge
 * identifiers are drawn from a counter: all that is used of a guid is that it is new.
 */
module ResourceGraph {
  import opened Collections

  type Id = string
  type EdgeId = nat
  type JobId = nat

  const GATEWAY_ID := "RGRAPH_ID_GATEWAY"
  const LAUNCHER_ID := "RGRAPH_ID_LAUNCHER"
  const SDN_ID := "RGRAPH_ID_SDN"
  const GATEWAY_RID := "gateway"

  /** A key of one of the three node maps. */
  datatype NodeRef = Storage(id: Id) | Dtn(id: Id) | General(id: Id)

  const GATEWAY := General(GATEWAY_ID)
  const LAUNCHER := General(LAUNCHER_ID)
  const SDN := General(SDN_ID)

  datatype Node = Node(rid: Id, cap: real, jobs: seq<JobId>, ins: seq<EdgeId>, outs: seq<EdgeId>)
  datatype Edge = Edge(cap: real, jobs: seq<JobId>, src: NodeRef, dst: NodeRef)
  datatype Graph = Graph(nodes: map<NodeRef, Node>, edges: map<EdgeId, Edge>, next: EdgeId)

  /** The graph after a call, and whether the call threw. What was done before a throw stays done. */
  datatype Outcome = Outcome(graph: Graph, thrown: bool)

  // ---- lists of edges ----

  ghost predicate NoDuplicates<T(!new)>(s: seq<T>) {
    forall i, j :: 0 <= i < j < |s| ==> s[i] != s[j]
  }

  /** `s` without the members of `gone`, in order. */
  function Without(s: seq<EdgeId>, gone: set<EdgeId>): (r: seq<EdgeId>)
    ensures forall e :: e in r <==> e in s && e !in gone
  {
    if s == [] then []
    else
      assert forall e :: e in s <==> e == s[0] || e in s[1..];
      (if s[0] in gone then [] else [s[0]]) + Without(s[1..], gone)
  }

  lemma {:induction false} WithoutNoDuplicates(s: seq<EdgeId>, gone: set<EdgeId>)
    requires NoDuplicates(s)
    ensures NoDuplicates(Without(s, gone))
  {
    if s != [] {
      WithoutNoDuplicates(s[1..], gone);
      assert s[0] !in s[1..];
    }
  }

  lemma {:induction false} WithoutNone(s: seq<EdgeId>, gone: set<EdgeId>)
    requires forall e :: e in s ==> e !in gone
    ensures Without(s, gone) == s
  {
    if s != [] {
      WithoutNone(s[1..], gone);
      assert s == [s[0]] + s[1..];
    }
  }

  lemma {:induction false} WithoutTwice(s: seq<EdgeId>, d1: set<EdgeId>, d2: set<EdgeId>)
    ensures Without(Without(s, d1), d2) == Without(s, d1 + d2)
  {
    if s != [] {
      WithoutTwice(s[1..], d1, d2);
      var rest := Without(s[1..], d1);
      if s[0] in d1 {
        assert Without(s, d1) == [] + rest == rest;
      } else {
        assert Without(s, d1) == [s[0]] + rest;
        assert ([s[0]] + rest)[1..] == rest;
      }
    }
  }

  /** Removing the first occurrence of an element of a duplicate-free list removes it altogether. */
  lemma {:induction false} EraseIsWithout(s: seq<EdgeId>, k: nat)
    requires k < |s| && NoDuplicates(s)
    ensures s[..k] + s[k + 1..] == Without(s, {s[k]})
  {
    if k == 0 {
      WithoutNone(s[1..], {s[0]});
      assert s[..0] + s[1..] == s[1..];
    } else {
      EraseIsWithout(s[1..], k - 1);
      EraseLater(s, k);
    }
  }

  lemma EraseLater(s: seq<EdgeId>, k: nat)
    requires 0 < k < |s|
    ensures s[..k] + s[k + 1..] == [s[0]] + (s[1..][..k - 1] + s[1..][k..])
  {
    assert s[1..][..k - 1] == s[1..k] && s[1..][k..] == s[k + 1..];
    assert s[..k] == [s[0]] + s[1..k];
  }

  // ---- consistency ----

  ghost predicate EdgeListed(g: Graph, e: EdgeId)
    requires e in g.edges
  {
    && g.edges[e].src in g.nodes && e in g.nodes[g.edges[e].src].outs
    && g.edges[e].dst in g.nodes && e in g.nodes[g.edges[e].dst].ins
  }

  ghost predicate OutsExact(g: Graph, r: NodeRef)
    requires r in g.nodes
  {
    && NoDuplicates(g.nodes[r].outs)
    && forall e :: e in g.nodes[r].outs ==> e in g.edges && g.edges[e].src == r
  }

  ghost predicate InsExact(g: Graph, r: NodeRef)
    requires r in g.nodes
  {
    && NoDuplicates(g.nodes[r].ins)
    && forall e :: e in g.nodes[r].ins ==> e in g.edges && g.edges[e].dst == r
  }

  /**
   * Both endpoints of every edge exist; the edge is once in its source's out list and once in its
   * destination's in list; no list holds anything else.
   */
  ghost predicate Consistent(g: Graph) {
    && (forall e :: e in g.edges ==> e < g.next && EdgeListed(g, e))
    && (forall r :: r in g.nodes ==> OutsExact(g, r) && InsExact(g, r))
  }

  // ---- operations, on values ----

  const EMPTY := Graph(map[], map[], 0)

  /** get_node: a storage node by that id, else a DTN, else a general node. */
  function Find(g: Graph, id: Id): (r: Option<NodeRef>)
    ensures r.Some? ==> r.value in g.nodes && r.value.id == id
    ensures r.None? <==> Storage(id) !in g.nodes && Dtn(id) !in g.nodes && General(id) !in g.nodes
  {
    if Storage(id) in g.nodes then Some(Storage(id))
    else if Dtn(id) in g.nodes then Some(Dtn(id))
    else if General(id) in g.nodes then Some(General(id))
    else None
  }

  /** The comparison in has_edge and get_edge: on the rids of the endpoints, not on their keys. */
  predicate Joins(g: Graph, e: EdgeId, s: Id, d: Id) {
    && e in g.edges
    && g.edges[e].src in g.nodes && g.nodes[g.edges[e].src].rid == s
    && g.edges[e].dst in g.nodes && g.nodes[g.edges[e].dst].rid == d
  }

  ghost predicate HasEdge(g: Graph, s: Id, d: Id) {
    exists e :: Joins(g, e, s, d)
  }

  /** emplace: a node that is already there is left alone. */
  function AddNode(g: Graph, r: NodeRef, rid: Id, cap: real): Graph {
    if r in g.nodes then g else g.(nodes := g.nodes[r := Node(rid, cap, [], [], [])])
  }

  /** A new edge, put last in its source's out list and then last in its destination's in list. */
  function Connect(g: Graph, src: NodeRef, dst: NodeRef, cap: real): Graph
    requires src in g.nodes && dst in g.nodes
  {
    var n1 := g.nodes[src := g.nodes[src].(outs := g.nodes[src].outs + [g.next])];
    var n2 := n1[dst := n1[dst].(ins := n1[dst].ins + [g.next])];
    Graph(n2, g.edges[g.next := Edge(cap, [], src, dst)], g.next + 1)
  }

  ghost function AddEdge(g: Graph, s: Id, d: Id, cap: real): Outcome {
    if HasEdge(g, s, d) then Outcome(g, false)
    else if Find(g, s).None? || Find(g, d).None? then Outcome(g, true)
    else Outcome(Connect(g, Find(g, s).value, Find(g, d).value, cap), false)
  }

  ghost function AddEdgeToGateway(g: Graph, s: Id, cap: real): Outcome {
    if Dtn(s) !in g.nodes then Outcome(g, true) else AddEdge(g, s, GATEWAY_ID, cap)
  }

  /** All the edges that touch `r`. */
  ghost function Incident(g: Graph, r: NodeRef): set<EdgeId> {
    set e | e in g.edges && (g.edges[e].src == r || g.edges[e].dst == r)
  }

  function Trimmed(n: Node, goneIns: set<EdgeId>, goneOuts: set<EdgeId>): Node {
    n.(ins := Without(n.ins, goneIns), outs := Without(n.outs, goneOuts))
  }

  /** What deletion should mean: the node and every edge that touches it are gone, nothing else. */
  ghost function Remove(g: Graph, r: NodeRef): Graph {
    var gone := Incident(g, r);
    Graph(map x | x in g.nodes && x != r :: Trimmed(g.nodes[x], gone, gone),
          map e | e in g.edges && e !in gone :: g.edges[e],
          g.next)
  }

  /** The key del_node works on: the id itself, or the reserved key of a launcher or SDN agent with that rid. */
  function Target(g: Graph, id: Id): (r: Option<NodeRef>)
    ensures r.Some? ==> r.value in g.nodes
  {
    if Find(g, id).Some? then Find(g, id)
    else if LAUNCHER in g.nodes && id == g.nodes[LAUNCHER].rid then Find(g, LAUNCHER_ID)
    else if SDN in g.nodes && id == g.nodes[SDN].rid then Find(g, SDN_ID)
    else None
  }

  ghost function DelNode(g: Graph, id: Id): Outcome {
    if id == GATEWAY_RID then Outcome(g, true)
    else if Target(g, id).None? then Outcome(g, false)
    else Outcome(Remove(g, Target(g, id).value), false)
  }

  // ---- every operation keeps the graph consistent ----

  lemma AddNodeKeeps(g: Graph, r: NodeRef, rid: Id, cap: real)
    requires Consistent(g)
    ensures Consistent(AddNode(g, r, rid, cap))
  {
    var h := AddNode(g, r, rid, cap);
    forall e | e in h.edges
      ensures e < h.next && EdgeListed(h, e)
    {
      assert EdgeListed(g, e);
    }
    forall x | x in h.nodes
      ensures OutsExact(h, x) && InsExact(h, x)
    {
      assert x in g.nodes ==> OutsExact(g, x) && InsExact(g, x);
    }
  }

  lemma AppendNew(s: seq<EdgeId>, e: EdgeId)
    requires NoDuplicates(s) && e !in s
    ensures NoDuplicates(s + [e])
  {}

  /** The nodes' lists after an edge is connected. */
  lemma ConnectLists(g: Graph, src: NodeRef, dst: NodeRef, cap: real, x: NodeRef)
    requires src in g.nodes && dst in g.nodes && x in g.nodes
    ensures x in Connect(g, src, dst, cap).nodes
    ensures Connect(g, src, dst, cap).nodes[x] == g.nodes[x].(
              outs := g.nodes[x].outs + if x == src then [g.next] else [],
              ins := g.nodes[x].ins + if x == dst then [g.next] else [])
  {
    assert g.nodes[x].outs + [] == g.nodes[x].outs && g.nodes[x].ins + [] == g.nodes[x].ins;
  }

  lemma ConnectEdge(g: Graph, src: NodeRef, dst: NodeRef, cap: real, e: EdgeId)
    requires Consistent(g) && src in g.nodes && dst in g.nodes
    requires e in Connect(g, src, dst, cap).edges
    ensures e <= g.next && EdgeListed(Connect(g, src, dst, cap), e)
  {
    hide NoDuplicates;
    var edge := Connect(g, src, dst, cap).edges[e];
    assert e in g.edges ==> EdgeListed(g, e);
    ConnectLists(g, src, dst, cap, edge.src);
    ConnectLists(g, src, dst, cap, edge.dst);
  }

  lemma ConnectNode(g: Graph, src: NodeRef, dst: NodeRef, cap: real, x: NodeRef)
    requires Consistent(g) && src in g.nodes && dst in g.nodes && x in g.nodes
    ensures x in Connect(g, src, dst, cap).nodes
    ensures OutsExact(Connect(g, src, dst, cap), x) && InsExact(Connect(g, src, dst, cap), x)
  {
    hide NoDuplicates, Connect, EdgeListed;
    assert OutsExact(g, x) && InsExact(g, x);
    ConnectLists(g, src, dst, cap, x);
    ConnectEdges(g, src, dst, cap);
    AppendNew(g.nodes[x].outs, g.next);
    AppendNew(g.nodes[x].ins, g.next);
    assert g.nodes[x].outs + [] == g.nodes[x].outs && g.nodes[x].ins + [] == g.nodes[x].ins;
  }

  lemma ConnectEdges(g: Graph, src: NodeRef, dst: NodeRef, cap: real)
    requires src in g.nodes && dst in g.nodes
    ensures Connect(g, src, dst, cap).edges == g.edges[g.next := Edge(cap, [], src, dst)]
  {}

  lemma ConnectKeeps(g: Graph, src: NodeRef, dst: NodeRef, cap: real)
    requires Consistent(g) && src in g.nodes && dst in g.nodes
    ensures Consistent(Connect(g, src, dst, cap))
  {
    hide EdgeListed, OutsExact, InsExact;
    var h := Connect(g, src, dst, cap);
    forall e | e in h.edges
      ensures e < h.next && EdgeListed(h, e)
    {
      ConnectEdge(g, src, dst, cap, e);
    }
    forall x | x in h.nodes
      ensures OutsExact(h, x) && InsExact(h, x)
    {
      ConnectNode(g, src, dst, cap, x);
    }
  }

  lemma AddEdgeKeeps(g: Graph, s: Id, d: Id, cap: real)
    requires Consistent(g)
    ensures Consistent(AddEdge(g, s, d, cap).graph)
  {
    if !HasEdge(g, s, d) && Find(g, s).Some? && Find(g, d).Some? {
      ConnectKeeps(g, Find(g, s).value, Find(g, d).value, cap);
    }
  }

  lemma RemoveNode(g: Graph, r: NodeRef, x: NodeRef)
    requires Consistent(g) && x in g.nodes && x != r
    ensures OutsExact(Remove(g, r), x) && InsExact(Remove(g, r), x)
  {
    hide NoDuplicates, Without, EdgeListed;
    assert OutsExact(g, x) && InsExact(g, x);
    WithoutNoDuplicates(g.nodes[x].outs, Incident(g, r));
    WithoutNoDuplicates(g.nodes[x].ins, Incident(g, r));
  }

  lemma RemoveKeeps(g: Graph, r: NodeRef)
    requires Consistent(g)
    ensures Consistent(Remove(g, r))
  {
    hide OutsExact, InsExact, NoDuplicates, Without;
    var h := Remove(g, r);
    forall e | e in h.edges
      ensures e < h.next && EdgeListed(h, e)
    {
      assert EdgeListed(g, e);
    }
    forall x | x in h.nodes
      ensures OutsExact(h, x) && InsExact(h, x)
    {
      RemoveNode(g, r, x);
    }
  }

  // ---- any sequence of operations ----

  datatype Op =
    | OpStorage(id: Id, cap: real)
    | OpDtn(id: Id)
    | OpGeneral(id: Id, rid: Id)
    | OpEdge(src: Id, dst: Id, cap: real)
    | OpGatewayEdge(src: Id, cap: real)
    | OpDelete(id: Id)
    | OpReset

  ghost function Apply(g: Graph, op: Op): Graph {
    match op
    case OpStorage(id, cap) => AddNode(g, Storage(id), id, cap)
    case OpDtn(id) => AddNode(g, Dtn(id), id, 0.0)
    case OpGeneral(id, rid) => AddNode(g, General(id), rid, 0.0)
    case OpEdge(s, d, cap) => AddEdge(g, s, d, cap).graph
    case OpGatewayEdge(s, cap) => AddEdgeToGateway(g, s, cap).graph
    case OpDelete(id) => DelNode(g, id).graph
    case OpReset => Graph(map[], map[], g.next)
  }

  ghost function ApplyAll(g: Graph, ops: seq<Op>): Graph
    decreases |ops|
  {
    if ops == [] then g else ApplyAll(Apply(g, ops[0]), ops[1..])
  }

  lemma ApplyKeeps(g: Graph, op: Op)
    requires Consistent(g)
    ensures Consistent(Apply(g, op))
  {
    match op
    case OpStorage(id, cap) => AddNodeKeeps(g, Storage(id), id, cap);
    case OpDtn(id) => AddNodeKeeps(g, Dtn(id), id, 0.0);
    case OpGeneral(id, rid) => AddNodeKeeps(g, General(id), rid, 0.0);
    case OpEdge(s, d, cap) => AddEdgeKeeps(g, s, d, cap);
    case OpGatewayEdge(s, cap) => AddEdgeKeeps(g, s, GATEWAY_ID, cap);
    case OpDelete(id) => if Target(g, id).Some? { RemoveKeeps(g, Target(g, id).value); }
    case OpReset =>
  }

  /** The edge map and the in and out lists agree after every sequence of operations, self-loops included. */
  lemma {:induction false} AnyOpsConsistent(g: Graph, ops: seq<Op>)
    requires Consistent(g)
    ensures Consistent(ApplyAll(g, ops))
    decreases |ops|
  {
    if ops != [] {
      ApplyKeeps(g, ops[0]);
      AnyOpsConsistent(Apply(g, ops[0]), ops[1..]);
    }
  }
}
