/**
 What each registration step does to a site's graph, with the source's own names and capacities, and
 what that makes of every site: which modules are there, which links, and what they can carry.
 */
module SiteShape {
  import opened Collections
  import opened ResourceGraph
  import opened GraphMachine
  import opened Registration
  import opened Handlers

  /** The same node but for its lists of edges. */
  predicate SameNode(n: Node, m: Node) { m.rid == n.rid && m.cap == n.cap && m.jobs == n.jobs }

  /** All of the old nodes but `gone` are there, and besides them at most `extra`. */
  ghost predicate NodesKept(g: Graph, h: Graph, extra: set<NodeRef>, gone: set<NodeRef>) {
    && h.nodes.Keys == g.nodes.Keys - gone + extra
    && forall r :: r in g.nodes && r !in gone && r !in extra ==> r in h.nodes && SameNode(g.nodes[r], h.nodes[r])
  }

  /** The agent under the reserved key is now the module `id`, with no past. */
  ghost predicate AgentIs(g: Graph, h: Graph, key: Id, id: Id) {
    && NodesKept(g, h, {General(key)}, {}) && h.edges == g.edges
    && h.nodes[General(key)] == Node(id, 0.0, [], [], [])
  }

  ghost predicate Linked(g: Graph, s: Id, d: Id) {
    exists e :: e in g.edges && g.edges[e].src == Storage(s) && g.edges[e].dst == Dtn(d)
  }

  /** The node a deletion takes: by its key, else the agent that registered under that id. */
  ghost predicate Taken(g: Graph, id: Id, r: NodeRef) {
    && r in g.nodes && id != "gateway"
    && if Storage(id) in g.nodes then r == Storage(id)
       else if Dtn(id) in g.nodes then r == Dtn(id)
       else if General(id) in g.nodes then r == General(id)
       else if General("RGRAPH_ID_LAUNCHER") in g.nodes && g.nodes[General("RGRAPH_ID_LAUNCHER")].rid == id
       then r == General("RGRAPH_ID_LAUNCHER")
       else r == General("RGRAPH_ID_SDN") && g.nodes[r].rid == id
  }

  /** What one step makes of the graph. */
  ghost predicate Became(g: Graph, s: Step, h: Graph) {
    match s
    case Join(DtnModule(id, rate, _)) =>
      && NodesKept(g, h, if Dtn(id) in g.nodes then {} else {Dtn(id)}, {})
      && (Dtn(id) !in g.nodes ==> SameNode(Node(id, 0.0, [], [], []), h.nodes[Dtn(id)]))
      && h.edges == g.edges[g.next := Edge(rate, [], Dtn(id), General("RGRAPH_ID_GATEWAY"))]
    case Join(StorageModule(id)) =>
      h == if Storage(id) in g.nodes then g else g.(nodes := g.nodes[Storage(id) := Node(id, 1000000.0, [], [], [])])
    case Join(LauncherModule(id)) => AgentIs(g, h, "RGRAPH_ID_LAUNCHER", id)
    case Join(SdnModule(id)) => AgentIs(g, h, "RGRAPH_ID_SDN", id)
    case Join(OtherModule(_)) => h == g
    case Link(s, d) =>
      if Storage(s) in g.nodes && Dtn(d) in g.nodes && !Linked(g, s, d) then
        NodesKept(g, h, {}, {}) && h.edges == g.edges[g.next := Edge(40000000000.0, [], Storage(s), Dtn(d))]
      else h == g
    case Leave(id) =>
      && (forall r :: Taken(g, id, r) ==>
            && NodesKept(g, h, {}, {r})
            && h.edges == map e | e in g.edges && g.edges[e].src != r && g.edges[e].dst != r :: g.edges[e])
      && ((forall r :: !Taken(g, id, r)) ==> h == g)
  }

  lemma ConnectMeaning(g: Graph, src: NodeRef, dst: NodeRef, cap: real)
    requires src in g.nodes && dst in g.nodes
    ensures var h := Connect(g, src, dst, cap);
            NodesKept(g, h, {}, {}) && h.edges == g.edges[g.next := Edge(cap, [], src, dst)]
  {}

  lemma RemoveMeaning(g: Graph, r: NodeRef)
    requires r in g.nodes
    ensures var h := Remove(g, r);
            && NodesKept(g, h, {}, {r})
            && h.edges == map e | e in g.edges && g.edges[e].src != r && g.edges[e].dst != r :: g.edges[e]
  {
    hide Without;
    assert Remove(g, r).nodes.Keys == g.nodes.Keys - {r};
  }

  /** Agents have no edges. */
  lemma AgentAlone(g: Graph, r: NodeRef)
    requires Typed(g) && r.General? && r != GATEWAY
    ensures forall e :: e in g.edges ==> g.edges[e].src != r && g.edges[e].dst != r
  {
    hide Consistent, LinksUnique, NodeTyped;
  }

  lemma OwnKeys(g: Graph)
    requires Typed(g)
    ensures Storage(LAUNCHER_ID) !in g.nodes && Dtn(LAUNCHER_ID) !in g.nodes
    ensures Storage(SDN_ID) !in g.nodes && Dtn(SDN_ID) !in g.nodes
  {
    hide Consistent, LinksUnique, EdgeTyped;
    assert Storage(LAUNCHER_ID) in g.nodes ==> NodeTyped(g, Storage(LAUNCHER_ID));
    assert Dtn(LAUNCHER_ID) in g.nodes ==> NodeTyped(g, Dtn(LAUNCHER_ID));
    assert Storage(SDN_ID) in g.nodes ==> NodeTyped(g, Storage(SDN_ID));
    assert Dtn(SDN_ID) in g.nodes ==> NodeTyped(g, Dtn(SDN_ID));
  }

  lemma TargetTaken(g: Graph, id: Id)
    requires Typed(g)
    ensures id != "gateway" && Target(g, id).Some? ==> Taken(g, id, Target(g, id).value)
    ensures id == "gateway" || Target(g, id).None? ==> forall r :: !Taken(g, id, r)
    ensures forall r, q :: Taken(g, id, r) && Taken(g, id, q) ==> r == q
  {
    hide Typed;
    OwnKeys(g);
  }

  lemma LeaveMeaning(g: Graph, id: Id)
    requires Typed(g) && id != GATEWAY_ID
    ensures Became(g, Leave(id), Take(g, Leave(id)))
  {
    hide Typed, Taken, NodesKept, Remove, Target;
    TargetTaken(g, id);
    var t := Target(g, id);
    if t.Some? && id != "gateway" {
      RemoveMeaning(g, t.value);
    }
  }

  lemma JoinMeaning(g: Graph, m: Module)
    requires Typed(g) && Allowed(g, Join(m))
    ensures Became(g, Join(m), Take(g, Join(m)))
  {
    hide Typed, NodesKept, DelNode, AddEdgeToGateway, Connect, AgentIs;
    match m
    case DtnModule(id, rate, _) =>
      JoinConnects(g, id, rate);
      ConnectMeaning(AddNode(g, Dtn(id), id, 0.0), Dtn(id), GATEWAY, rate);
      NewDtn(g, id, Take(g, Join(m)));
    case StorageModule(id) =>
    case LauncherModule(id) => AgentMeaning(g, LAUNCHER_ID, id);
    case SdnModule(id) => AgentMeaning(g, SDN_ID, id);
    case OtherModule(_) =>
  }

  lemma NewDtn(g: Graph, id: Id, h: Graph)
    requires NodesKept(AddNode(g, Dtn(id), id, 0.0), h, {}, {})
    ensures NodesKept(g, h, if Dtn(id) in g.nodes then {} else {Dtn(id)}, {})
    ensures Dtn(id) in h.nodes && (Dtn(id) !in g.nodes ==> SameNode(Node(id, 0.0, [], [], []), h.nodes[Dtn(id)]))
  {}

  lemma AgentMeaning(g: Graph, key: Id, id: Id)
    requires Typed(g) && (key == LAUNCHER_ID || key == SDN_ID)
    ensures AgentIs(g, ReplaceAgent(g, key, id), key, id)
  {
    hide Typed, Remove;
    OwnKeys(g);
    var r := General(key);
    if r in g.nodes {
      RemoveMeaning(g, r);
      AgentAlone(g, r);
      assert Target(g, key) == Some(r);
      assert (map e | e in g.edges && g.edges[e].src != r && g.edges[e].dst != r :: g.edges[e]) == g.edges;
    }
  }

  /** Storage and DTN are found by their rids exactly when they are found by their keys. */
  lemma LinkedIff(g: Graph, s: Id, d: Id)
    requires Typed(g) && Allowed(g, Link(s, d))
    ensures HasEdge(g, s, d) <==> Linked(g, s, d)
    ensures Linked(g, s, d) ==> Storage(s) in g.nodes && Dtn(d) in g.nodes
  {
    hide LinksUnique, OutsExact, InsExact;
    if HasEdge(g, s, d) {
      var e :| Joins(g, e, s, d);
      assert EdgeTyped(g.edges[e]) && NodeTyped(g, g.edges[e].src) && NodeTyped(g, g.edges[e].dst);
    }
    if Linked(g, s, d) {
      var e :| e in g.edges && g.edges[e].src == Storage(s) && g.edges[e].dst == Dtn(d);
      assert EdgeListed(g, e);
      assert NodeTyped(g, Storage(s)) && NodeTyped(g, Dtn(d));
      assert Joins(g, e, s, d);
    }
  }

  lemma LinkMeaning(g: Graph, s: Id, d: Id)
    requires Typed(g) && Allowed(g, Link(s, d))
    ensures Became(g, Link(s, d), Take(g, Link(s, d)))
  {
    hide Typed, NodesKept, Connect, HasEdge, Linked;
    LinkedIff(g, s, d);
    PlainIsNotGeneral(g, s);
    PlainIsNotGeneral(g, d);
    if Storage(s) in g.nodes && Dtn(d) in g.nodes {
      ConnectMeaning(g, Storage(s), Dtn(d), LINK_CAP);
    }
  }

  /** Every step the site may take does to the graph just what it is meant to. */
  lemma StepMeaning(g: Graph, s: Step)
    requires Typed(g) && Allowed(g, s)
    ensures Became(g, s, Take(g, s))
  {
    hide Typed, Became, Take;
    match s
    case Join(m) => JoinMeaning(g, m);
    case Link(s, d) => LinkMeaning(g, s, d);
    case Leave(id) => LeaveMeaning(g, id);
  }

  // ---- over histories ----

  /** Storages can carry 1000000, their links 40000000000; a DTN's own capacity is never used. */
  ghost predicate Sized(g: Graph) {
    && (forall r :: r in g.nodes ==> g.nodes[r].cap == if r.Storage? then 1000000.0 else 0.0)
    && (forall e :: e in g.edges && g.edges[e].src.Storage? ==> g.edges[e].cap == 40000000000.0)
  }

  lemma StepSized(g: Graph, s: Step)
    requires Typed(g) && Allowed(g, s) && Sized(g)
    ensures Sized(Take(g, s))
  {
    hide Typed, Take, Taken, Linked;
    StepMeaning(g, s);
    if s.Leave? {
      if r :| Taken(g, s.id, r) {}
    }
  }

  /** After every history of registrations, every storage and every link has its capacity. */
  lemma {:induction false} SiteSized(steps: seq<Step>)
    requires AllAllowed(steps)
    ensures Sized(After(steps))
  {
    hide Typed, Take, Allowed, Sized;
    if steps == [] {
      BootSized();
    } else {
      var init := steps[..|steps| - 1];
      SiteSized(init);
      GatewayEdgesCount(init, "");
      StepSized(After(init), steps[|steps| - 1]);
    }
  }

  lemma BootSized()
    ensures Sized(BOOT)
  {}

  // ---- what add_modules leaves ----

  /** No node and no edge is lost. */
  ghost predicate Grows(g: Graph, h: Graph) {
    && g.nodes.Keys <= h.nodes.Keys
    && forall e :: e in g.edges ==> e in h.edges && h.edges[e] == g.edges[e]
  }

  lemma StepGrows(g: Graph, s: Step)
    requires Typed(g) && Allowed(g, s) && !s.Leave?
    ensures Grows(g, Take(g, s))
    ensures s.Link? ==> Take(g, s).nodes.Keys == g.nodes.Keys
  {
    hide Typed, Take, Linked;
    StepMeaning(g, s);
    assert g.next !in g.edges by { NextIsNew(g); }
  }

  lemma {:induction false} RunGrows(g: Graph, steps: seq<Step>)
    requires Typed(g) && AllAllowedFrom(g, steps) && forall i :: 0 <= i < |steps| ==> !steps[i].Leave?
    ensures Typed(TakeAll(g, steps)) && Grows(g, TakeAll(g, steps))
    ensures (forall i :: 0 <= i < |steps| ==> steps[i].Link?) ==> TakeAll(g, steps).nodes.Keys == g.nodes.Keys
  {
    hide Typed, Take, Allowed;
    if steps != [] {
      var h, s := TakeAll(g, steps[..|steps| - 1]), steps[|steps| - 1];
      RunGrows(g, steps[..|steps| - 1]);
      StepGrows(h, s);
      TakeTyped(h, s);
    }
  }

  /** What holds right after step `i` of a run without deletions is still there at its end. */
  lemma RunAt(g: Graph, steps: seq<Step>, i: nat) returns (before: Graph)
    requires Typed(g) && AllAllowedFrom(g, steps) && (forall i :: 0 <= i < |steps| ==> !steps[i].Leave?) && i < |steps|
    ensures Typed(before) && Allowed(before, steps[i]) && Became(before, steps[i], Take(before, steps[i]))
    ensures Grows(Take(before, steps[i]), TakeAll(g, steps))
    ensures (forall j :: i <= j < |steps| ==> steps[j].Link?) ==> before.nodes.Keys == TakeAll(g, steps).nodes.Keys
  {
    hide Typed, Take, Allowed, Became, Grows;
    before := TakeAll(g, steps[..i]);
    assert steps == steps[..i] + steps[i..];
    TakeAllConcat(g, steps[..i], steps[i..]);
    RunGrows(g, steps[..i]);
    var rest := steps[i..];
    assert rest == [steps[i]] + rest[1..];
    TakeAllConcat(before, [steps[i]], rest[1..]);
    OneStep(before, steps[i]);
    StepMeaning(before, steps[i]);
    TakeTyped(before, steps[i]);
    RunGrows(Take(before, steps[i]), rest[1..]);
    RunGrows(before, rest);
  }

  lemma OneStep(g: Graph, s: Step)
    ensures TakeAll(g, [s]) == Take(g, s) && (AllAllowedFrom(g, [s]) <==> Allowed(g, s))
  {
    hide Take, Allowed;
    assert [s][..0] == [];
  }

  lemma {:induction false} LinkIndex(ms: seq<Module>, i: nat, k: nat) returns (n: nat)
    requires i < |ms| && ms[i].DtnModule? && k < |ms[i].storages|
    ensures n < |AllLinks(ms)| && AllLinks(ms)[n] == Link(ms[i].storages[k], ms[i].id)
  {
    var last := |ms| - 1;
    if i == last {
      n := |AllLinks(ms[..last])| + k;
    } else {
      n := LinkIndex(ms[..last], i, k);
    }
  }

  lemma NoLeaves(ms: seq<Module>)
    ensures forall i :: 0 <= i < |AddSteps(ms)| ==> !AddSteps(ms)[i].Leave?
    ensures forall i :: |ms| <= i < |AddSteps(ms)| ==> AddSteps(ms)[i].Link?
  {
    hide AllLinks;
    AllLinksAreLinks(ms);
  }

  /**
   After add_modules on a list that clashes with nothing: every module of it is there, nothing that was
   there before is lost, and every DTN is linked to each storage it names that the site has.
   */
  lemma ModulesPresent(g: Graph, ms: seq<Module>, i: nat)
    requires Typed(g) && ModulesOk(g, ms) && i < |ms|
    ensures var h := LinkAll(RegisterAll(g, ms).graph, ms);
            && Grows(g, h)
            && (ms[i].DtnModule? ==> Dtn(ms[i].id) in h.nodes)
            && (ms[i].StorageModule? ==> Storage(ms[i].id) in h.nodes)
            && (ms[i].LauncherModule? ==> General("RGRAPH_ID_LAUNCHER") in h.nodes)
            && (ms[i].SdnModule? ==> General("RGRAPH_ID_SDN") in h.nodes)
  {
    hide Typed, ModulesOk, TakeAll, AllAllowedFrom, AllLinks, LinkAll, RegisterAll, Take, Allowed, Linked;
    AddModulesIsRun(g, ms);
    NoLeaves(ms);
    RunGrows(g, AddSteps(ms));
    var before := RunAt(g, AddSteps(ms), i);
    assert AddSteps(ms)[i] == Join(ms[i]);
  }

  lemma LinksPresent(g: Graph, ms: seq<Module>, i: nat, k: nat)
    requires Typed(g) && ModulesOk(g, ms) && i < |ms| && ms[i].DtnModule? && k < |ms[i].storages|
    ensures var h := LinkAll(RegisterAll(g, ms).graph, ms);
            Linked(h, ms[i].storages[k], ms[i].id) <==> Storage(ms[i].storages[k]) in h.nodes
  {
    hide Typed, ModulesOk, TakeAll, AllAllowedFrom, AllLinks, LinkAll, RegisterAll, Take, Allowed, Linked;
    AddModulesIsRun(g, ms);
    NoLeaves(ms);
    var n := LinkIndex(ms, i, k);
    var steps := AddSteps(ms);
    assert steps[|ms| + n] == Link(ms[i].storages[k], ms[i].id);
    var before := RunAt(g, steps, |ms| + n);
    RunGrows(g, steps);
    ModulesPresent(g, ms, i);
    var s, d := ms[i].storages[k], ms[i].id;
    var h := TakeAll(g, steps);
    LinkedNow(before, s, d, Take(before, steps[|ms| + n]), h);
    LinkedNeeds(h, s, d);
  }

  lemma LinkedNow(g: Graph, s: Id, d: Id, t: Graph, h: Graph)
    requires Became(g, Link(s, d), t) && Grows(t, h) && g.nodes.Keys == h.nodes.Keys && Dtn(d) in h.nodes
    ensures Storage(s) in h.nodes ==> Linked(h, s, d)
  {
    if Storage(s) in h.nodes {
      if Linked(g, s, d) {
        var e :| e in g.edges && g.edges[e].src == Storage(s) && g.edges[e].dst == Dtn(d);
        assert e in h.edges;
      } else {
        assert g.next in t.edges;
      }
    }
  }

  lemma LinkedNeeds(h: Graph, s: Id, d: Id)
    requires Typed(h)
    ensures Linked(h, s, d) ==> Storage(s) in h.nodes
  {
    hide LinksUnique, OutsExact, InsExact, NodeTyped;
    if Linked(h, s, d) {
      var e :| e in h.edges && h.edges[e].src == Storage(s) && h.edges[e].dst == Dtn(d);
      assert EdgeListed(h, e);
    }
  }
}
