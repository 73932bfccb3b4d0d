/** RGraph as the program runs it: maps updated in place, lists walked edge by edge. */
module GraphMachine {
  import opened Collections
  import opened ResourceGraph

  /** The graph with the edges of `goneIn` and `goneOut` erased, as del_node's two loops leave it. */
  ghost function Swept(g: Graph, goneIn: set<EdgeId>, goneOut: set<EdgeId>): Graph {
    Graph(map x | x in g.nodes :: Trimmed(g.nodes[x], goneOut, goneIn),
          map e | e in g.edges && e !in goneIn && e !in goneOut :: g.edges[e],
          g.next)
  }

  lemma SweptNothing(g: Graph)
    ensures Swept(g, {}, {}) == g
  {
    hide NoDuplicates;
    forall x | x in g.nodes
      ensures Trimmed(g.nodes[x], {}, {}) == g.nodes[x]
    {
      WithoutNone(g.nodes[x].ins, {});
      WithoutNone(g.nodes[x].outs, {});
    }
    assert Swept(g, {}, {}).nodes == g.nodes;
    assert Swept(g, {}, {}).edges == g.edges;
  }

  /** One turn of the first loop: the edge leaves its source's out list and the edge map. */
  ghost function DropIn(g: Graph, e: EdgeId): Graph
    requires e in g.edges && g.edges[e].src in g.nodes
  {
    var r := g.edges[e].src;
    g.(nodes := g.nodes[r := g.nodes[r].(outs := Without(g.nodes[r].outs, {e}))], edges := g.edges - {e})
  }

  /** One turn of the second loop: the edge leaves its destination's in list and the edge map. */
  ghost function DropOut(g: Graph, e: EdgeId): Graph
    requires e in g.edges && g.edges[e].dst in g.nodes
  {
    var r := g.edges[e].dst;
    g.(nodes := g.nodes[r := g.nodes[r].(ins := Without(g.nodes[r].ins, {e}))], edges := g.edges - {e})
  }

  /** An out list loses one more edge exactly when it belongs to that edge's source. */
  lemma OutsAfterDrop(g: Graph, gone: set<EdgeId>, e: EdgeId, x: NodeRef)
    requires Consistent(g) && e in g.edges && x in g.nodes
    ensures Without(g.nodes[x].outs, gone + {e})
         == if x == g.edges[e].src then Without(Without(g.nodes[x].outs, gone), {e}) else Without(g.nodes[x].outs, gone)
  {
    hide Without, NoDuplicates;
    assert OutsExact(g, x);
    WithoutTwice(g.nodes[x].outs, gone, {e});
    if x != g.edges[e].src {
      WithoutNone(Without(g.nodes[x].outs, gone), {e});
    }
  }

  lemma InsAfterDrop(g: Graph, gone: set<EdgeId>, e: EdgeId, x: NodeRef)
    requires Consistent(g) && e in g.edges && x in g.nodes
    ensures Without(g.nodes[x].ins, gone + {e})
         == if x == g.edges[e].dst then Without(Without(g.nodes[x].ins, gone), {e}) else Without(g.nodes[x].ins, gone)
  {
    hide Without, NoDuplicates;
    assert InsExact(g, x);
    WithoutTwice(g.nodes[x].ins, gone, {e});
    if x != g.edges[e].dst {
      WithoutNone(Without(g.nodes[x].ins, gone), {e});
    }
  }

  lemma Endpoints(g: Graph, e: EdgeId)
    requires Consistent(g) && e in g.edges
    ensures g.edges[e].src in g.nodes && g.edges[e].dst in g.nodes
  {
    assert EdgeListed(g, e);
  }

  lemma DropInSweeps(g: Graph, goneIn: set<EdgeId>, e: EdgeId)
    requires Consistent(g) && e in g.edges && e !in goneIn
    ensures e in Swept(g, goneIn, {}).edges && g.edges[e].src in g.nodes
    ensures DropIn(Swept(g, goneIn, {}), e) == Swept(g, goneIn + {e}, {})
  {
    hide Without, NoDuplicates, Consistent;
    Endpoints(g, e);
    var before, after := Swept(g, goneIn, {}), Swept(g, goneIn + {e}, {});
    forall x | x in g.nodes
      ensures DropIn(before, e).nodes[x] == after.nodes[x]
    {
      OutsAfterDrop(g, goneIn, e, x);
    }
    assert DropIn(before, e).nodes == after.nodes;
    assert DropIn(before, e).edges == after.edges;
  }

  lemma DropOutSweeps(g: Graph, goneIn: set<EdgeId>, goneOut: set<EdgeId>, e: EdgeId)
    requires Consistent(g) && e in g.edges && e !in goneIn && e !in goneOut
    ensures e in Swept(g, goneIn, goneOut).edges && g.edges[e].dst in g.nodes
    ensures DropOut(Swept(g, goneIn, goneOut), e) == Swept(g, goneIn, goneOut + {e})
  {
    hide Without, NoDuplicates, Consistent;
    Endpoints(g, e);
    var before, after := Swept(g, goneIn, goneOut), Swept(g, goneIn, goneOut + {e});
    forall x | x in g.nodes
      ensures DropOut(before, e).nodes[x] == after.nodes[x]
    {
      InsAfterDrop(g, goneOut, e, x);
    }
    assert DropOut(before, e).nodes == after.nodes;
    assert DropOut(before, e).edges == after.edges;
  }

  /** The edges of a duplicate-free list, as a set. */
  ghost function Members(s: seq<EdgeId>): set<EdgeId> {
    set e | e in s
  }

  /** What the two loops erase is everything that touches the node. */
  lemma SweepCovers(g: Graph, r: NodeRef)
    requires Consistent(g) && r in g.nodes
    ensures var goneIn := Members(g.nodes[r].ins);
            Incident(g, r) == goneIn + Members(Without(g.nodes[r].outs, goneIn))
  {
    hide Without, NoDuplicates;
    assert OutsExact(g, r) && InsExact(g, r);
    forall e | e in Incident(g, r)
      ensures e in g.nodes[r].ins || e in g.nodes[r].outs
    {
      assert EdgeListed(g, e);
    }
  }

  /** On another node, neither list holds anything that only the other loop erases. */
  lemma SweepElsewhere(g: Graph, r: NodeRef, x: NodeRef)
    requires Consistent(g) && r in g.nodes && x in g.nodes && x != r
    ensures var goneIn := Members(g.nodes[r].ins);
            var goneOut := Members(Without(g.nodes[r].outs, goneIn));
            && Without(g.nodes[x].outs, goneIn) == Without(g.nodes[x].outs, Incident(g, r))
            && Without(g.nodes[x].ins, goneOut) == Without(g.nodes[x].ins, Incident(g, r))
  {
    hide Without, NoDuplicates, EdgeListed;
    var goneIn := Members(g.nodes[r].ins);
    var goneOut := Members(Without(g.nodes[r].outs, goneIn));
    assert OutsExact(g, x) && InsExact(g, x) && OutsExact(g, r) && InsExact(g, r);
    SweepCovers(g, r);
    WithoutTwice(g.nodes[x].outs, goneIn, goneOut);
    WithoutNone(Without(g.nodes[x].outs, goneIn), goneOut);
    WithoutTwice(g.nodes[x].ins, goneOut, goneIn);
    WithoutNone(Without(g.nodes[x].ins, goneOut), goneIn);
    assert goneOut + goneIn == goneIn + goneOut;
  }

  /** Sweeping the node's in list and then what is left of its out list, then erasing it, is Remove. */
  lemma SweepRemoves(g: Graph, r: NodeRef)
    requires Consistent(g) && r in g.nodes
    ensures var goneIn := Members(g.nodes[r].ins);
            var goneOut := Members(Without(g.nodes[r].outs, goneIn));
            var swept := Swept(g, goneIn, goneOut);
            swept.(nodes := swept.nodes - {r}) == Remove(g, r)
  {
    hide Without, NoDuplicates, Consistent, Incident;
    var goneIn := Members(g.nodes[r].ins);
    var goneOut := Members(Without(g.nodes[r].outs, goneIn));
    var swept := Swept(g, goneIn, goneOut);
    SweepCovers(g, r);
    forall x | x in g.nodes && x != r
      ensures swept.nodes[x] == Remove(g, r).nodes[x]
    {
      SweepElsewhere(g, r, x);
    }
    assert swept.nodes - {r} == Remove(g, r).nodes;
    assert swept.edges == Remove(g, r).edges;
  }

  class RGraph {
    var nodes: map<NodeRef, Node>
    var edges: map<EdgeId, Edge>
    var next: EdgeId

    constructor ()
      ensures Current() == EMPTY
    {
      nodes, edges, next := map[], map[], 0;
    }

    ghost function Current(): Graph
      reads this
    {
      Graph(nodes, edges, next)
    }

    /** The loop of has_edge. The order in which a map of guids is walked does not matter to it. */
    method HasEdge(s: Id, d: Id) returns (found: bool)
      requires Consistent(Current())
      ensures found <==> ResourceGraph.HasEdge(Current(), s, d)
    {
      var e := GetEdge(s, d);
      found := e.Some?;
    }

    /** The loop of get_edge: some edge with those rids, or none if there is no such edge. */
    method GetEdge(s: Id, d: Id) returns (r: Option<EdgeId>)
      requires Consistent(Current())
      ensures r.Some? ==> Joins(Current(), r.value, s, d)
      ensures r.None? ==> !ResourceGraph.HasEdge(Current(), s, d)
    {
      var left := edges.Keys;
      while left != {}
        invariant left <= edges.Keys
        invariant forall e :: Joins(Current(), e, s, d) ==> e in left
      {
        var e :| e in left;
        assert EdgeListed(Current(), e);
        if nodes[edges[e].src].rid == s && nodes[edges[e].dst].rid == d {
          return Some(e);
        }
        left := left - {e};
      }
      return None;
    }

    method GetNode(id: Id) returns (r: Option<NodeRef>)
      ensures r == Find(Current(), id)
    {
      if Storage(id) in nodes {
        r := Some(Storage(id));
      } else if Dtn(id) in nodes {
        r := Some(Dtn(id));
      } else if General(id) in nodes {
        r := Some(General(id));
      } else {
        r := None;
      }
    }

    method AddNode(r: NodeRef, rid: Id, cap: real)
      modifies this`nodes
      ensures Current() == ResourceGraph.AddNode(old(Current()), r, rid, cap)
    {
      if r !in nodes {
        nodes := nodes[r := Node(rid, cap, [], [], [])];
      }
    }

    method AddEdge(s: Id, d: Id, cap: real) returns (thrown: bool)
      requires Consistent(Current())
      modifies this
      ensures Outcome(Current(), thrown) == ResourceGraph.AddEdge(old(Current()), s, d, cap)
      ensures Consistent(Current())
    {
      AddEdgeKeeps(Current(), s, d, cap);
      var present := HasEdge(s, d);
      if present {
        return false;
      }
      var src := GetNode(s);
      var dst := GetNode(d);
      if src.None? || dst.None? {
        return true;
      }
      // REdge::connect
      edges := edges[next := Edge(cap, [], src.value, dst.value)];
      nodes := nodes[src.value := nodes[src.value].(outs := nodes[src.value].outs + [next])];
      nodes := nodes[dst.value := nodes[dst.value].(ins := nodes[dst.value].ins + [next])];
      next := next + 1;
      return false;
    }

    method AddEdgeToGateway(s: Id, cap: real) returns (thrown: bool)
      requires Consistent(Current())
      modifies this
      ensures Outcome(Current(), thrown) == ResourceGraph.AddEdgeToGateway(old(Current()), s, cap)
      ensures Consistent(Current())
    {
      if Dtn(s) !in nodes {
        return true;
      }
      thrown := AddEdge(s, GATEWAY_ID, cap);
    }

    /** Both RNode::del_in_edge and del_out_edge erase the first entry with the given id. */
    method EraseFirst(list: seq<EdgeId>, e: EdgeId) returns (r: seq<EdgeId>)
      requires NoDuplicates(list)
      ensures r == Without(list, {e})
    {
      var i := 0;
      while i < |list|
        invariant 0 <= i <= |list|
        invariant e !in list[..i]
      {
        if list[i] == e {
          EraseIsWithout(list, i);
          return list[..i] + list[i + 1..];
        }
        i := i + 1;
      }
      WithoutNone(list, {e});
      return list;
    }

    method DelInEdge(r: NodeRef, e: EdgeId)
      requires r in nodes && NoDuplicates(nodes[r].ins)
      modifies this`nodes
      ensures nodes == old(nodes)[r := old(nodes[r]).(ins := Without(old(nodes[r]).ins, {e}))]
    {
      var list := EraseFirst(nodes[r].ins, e);
      nodes := nodes[r := nodes[r].(ins := list)];
    }

    method DelOutEdge(r: NodeRef, e: EdgeId)
      requires r in nodes && NoDuplicates(nodes[r].outs)
      modifies this`nodes
      ensures nodes == old(nodes)[r := old(nodes[r]).(outs := Without(old(nodes[r]).outs, {e}))]
    {
      var list := EraseFirst(nodes[r].outs, e);
      nodes := nodes[r := nodes[r].(outs := list)];
    }

    /** The first loop of del_node. */
    method SweepIns(r: NodeRef)
      requires Consistent(Current()) && r in nodes
      modifies this
      ensures Current() == Swept(old(Current()), Members(old(nodes[r]).ins), {})
    {
      hide Without, NoDuplicates, Consistent, Swept;
      ghost var g := Current();
      SweptNothing(g);
      var list, k := nodes[r].ins, 0;
      assert Members(list[..0]) == {};
      while k < |list|
        invariant 0 <= k <= |list|
        invariant Current() == Swept(g, Members(list[..k]), {})
      {
        var e := list[k];
        SweepTurn(g, r, k);
        DropInSweeps(g, Members(list[..k]), e);
        SweptAt(g, Members(list[..k]), {}, e, g.edges[e].src);
        DelOutEdge(edges[e].src, e);
        edges := edges - {e};
        assert Members(list[..k + 1]) == Members(list[..k]) + {e};
        k := k + 1;
      }
      assert list[..k] == list;
    }

    /** The second loop, over what the first one left in the out list. */
    method SweepOuts(r: NodeRef, ghost g: Graph, ghost goneIn: set<EdgeId>)
      requires Consistent(g) && r in g.nodes && Current() == Swept(g, goneIn, {})
      modifies this
      ensures Current() == Swept(g, goneIn, Members(Without(g.nodes[r].outs, goneIn)))
    {
      hide Without, NoDuplicates, Consistent, Swept;
      SweptOuts(g, goneIn, r);
      var list, k := nodes[r].outs, 0;
      assert Members(list[..0]) == {};
      while k < |list|
        invariant 0 <= k <= |list|
        invariant Current() == Swept(g, goneIn, Members(list[..k]))
      {
        var e := list[k];
        SweepOutTurn(g, goneIn, r, k);
        DropOutSweeps(g, goneIn, Members(list[..k]), e);
        SweptAt(g, goneIn, Members(list[..k]), e, g.edges[e].dst);
        DelInEdge(edges[e].dst, e);
        edges := edges - {e};
        assert Members(list[..k + 1]) == Members(list[..k]) + {e};
        k := k + 1;
      }
      assert list[..k] == list;
    }

    /** del_node: walking the node's own two lists erases exactly the edges that touch it. */
    method DelNode(id: Id) returns (thrown: bool)
      requires Consistent(Current())
      modifies this
      ensures Outcome(Current(), thrown) == ResourceGraph.DelNode(old(Current()), id)
      ensures Consistent(Current())
    {
      hide Swept, Remove, Consistent;
      if id == GATEWAY_RID {
        return true;
      }
      var r := GetNode(id);
      if r.None? {
        if LAUNCHER in nodes && id == nodes[LAUNCHER].rid {
          r := GetNode(LAUNCHER_ID);
        } else if SDN in nodes && id == nodes[SDN].rid {
          r := GetNode(SDN_ID);
        } else {
          return false;
        }
      }
      ghost var g := Current();
      RemoveKeeps(g, r.value);
      SweepRemoves(g, r.value);
      SweepIns(r.value);
      SweepOuts(r.value, g, Members(g.nodes[r.value].ins));
      nodes := nodes - {r.value};
      return false;
    }

    /** del_launcher and del_sdn: nothing to do when there is no such agent. */
    method DelAgent(key: Id)
      requires Consistent(Current()) && key in {LAUNCHER_ID, SDN_ID}
      modifies this
      ensures Current() == if General(key) in old(nodes) then ResourceGraph.DelNode(old(Current()), key).graph
                           else old(Current())
      ensures Consistent(Current())
    {
      if General(key) in nodes {
        var _ := DelNode(key);
      }
    }

    method Reset()
      modifies this
      ensures Current() == Graph(map[], map[], old(next))
    {
      nodes, edges := map[], map[];
    }
  }

  lemma SweptOuts(g: Graph, goneIn: set<EdgeId>, r: NodeRef)
    requires r in g.nodes
    ensures var s := Swept(g, goneIn, {});
            r in s.nodes && s.nodes[r].outs == Without(g.nodes[r].outs, goneIn)
  {}

  lemma SweepOutTurn(g: Graph, goneIn: set<EdgeId>, r: NodeRef, k: nat)
    requires Consistent(g) && r in g.nodes && k < |Without(g.nodes[r].outs, goneIn)|
    ensures var list := Without(g.nodes[r].outs, goneIn);
            list[k] in g.edges && list[k] !in goneIn && list[k] !in list[..k]
  {
    hide Without;
    assert OutsExact(g, r);
    WithoutNoDuplicates(g.nodes[r].outs, goneIn);
    assert Without(g.nodes[r].outs, goneIn)[k] in Without(g.nodes[r].outs, goneIn);
  }

  lemma SweepTurn(g: Graph, r: NodeRef, k: nat)
    requires Consistent(g) && r in g.nodes && k < |g.nodes[r].ins|
    ensures var e := g.nodes[r].ins[k];
            e in g.edges && e !in g.nodes[r].ins[..k]
  {
    assert InsExact(g, r);
  }

  lemma SweptAt(g: Graph, goneIn: set<EdgeId>, goneOut: set<EdgeId>, e: EdgeId, x: NodeRef)
    requires Consistent(g) && e in g.edges && e !in goneIn && e !in goneOut && x in g.nodes
    ensures var s := Swept(g, goneIn, goneOut);
            && e in s.edges && s.edges[e] == g.edges[e]
            && x in s.nodes && NoDuplicates(s.nodes[x].outs) && NoDuplicates(s.nodes[x].ins)
  {
    hide Without, NoDuplicates;
    assert OutsExact(g, x) && InsExact(g, x);
    WithoutNoDuplicates(g.nodes[x].outs, goneIn);
    WithoutNoDuplicates(g.nodes[x].ins, goneOut);
  }
}
