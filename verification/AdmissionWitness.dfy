/**
 * A history that ends in an eviction in vain: a storage and a DTN join and are linked, an extra
 * stream is admitted, the DTN leaves, and another stream is asked for.
 */
module AdmissionWitness {
  import opened Collections
  import opened ResourceGraph
  import opened Registration
  import opened Admission
  import opened Matching
  import opened AdmissionRuns

  const RATE := 100.0
  const STREAM := Job(Extra, Running, RATE)

  const JOIN_STORAGE := Join(StorageModule("s"))
  const JOIN_DTN := Join(DtnModule("d", 10000.0, []))
  const LINK := Link("s", "d")
  const LEAVE_DTN := Leave("d")

  const G1 := Graph(map[GATEWAY := Node(GATEWAY_RID, 0.0, [], [], []), Storage("s") := Node("s", STORAGE_CAP, [], [], [])],
                    map[], 0)
  const G2 := Graph(map[GATEWAY := Node(GATEWAY_RID, 0.0, [], [0], []), Storage("s") := Node("s", STORAGE_CAP, [], [], []),
                        Dtn("d") := Node("d", 0.0, [], [], [0])],
                    map[0 := Edge(10000.0, [], Dtn("d"), GATEWAY)], 1)
  const G3 := Graph(map[GATEWAY := Node(GATEWAY_RID, 0.0, [], [0], []), Storage("s") := Node("s", STORAGE_CAP, [], [], [1]),
                        Dtn("d") := Node("d", 0.0, [], [1], [0])],
                    map[0 := Edge(10000.0, [], Dtn("d"), GATEWAY), 1 := Edge(LINK_CAP, [], Storage("s"), Dtn("d"))], 2)

  lemma StorageJoins()
    ensures Typed(BOOT) && Allowed(BOOT, JOIN_STORAGE) && Take(BOOT, JOIN_STORAGE) == G1
  {
    hide Typed;
    BootTyped("");
    assert Take(BOOT, JOIN_STORAGE).nodes == G1.nodes;
  }

  lemma DtnJoins()
    requires Typed(G1)
    ensures Allowed(G1, JOIN_DTN) && Take(G1, JOIN_DTN) == G2
  {
    hide Typed, AddEdgeToGateway;
    JoinConnects(G1, "d", 10000.0);
    var g := AddNode(G1, Dtn("d"), "d", 0.0);
    var h := Connect(g, Dtn("d"), GATEWAY, 10000.0);
    ConnectLists(g, Dtn("d"), GATEWAY, 10000.0, GATEWAY);
    ConnectLists(g, Dtn("d"), GATEWAY, 10000.0, Dtn("d"));
    ConnectLists(g, Dtn("d"), GATEWAY, 10000.0, Storage("s"));
    assert h.nodes.Keys == G2.nodes.Keys;
    forall x | x in G2.nodes
      ensures h.nodes[x] == G2.nodes[x]
    {
      assert h.nodes[x].ins == G2.nodes[x].ins && h.nodes[x].outs == G2.nodes[x].outs;
    }
    assert h.nodes == G2.nodes;
    assert h.edges == G2.edges;
  }

  lemma Linked()
    requires Typed(G2)
    ensures Allowed(G2, LINK) && Take(G2, LINK) == G3
  {
    hide Typed;
    assert !HasEdge(G2, "s", "d") by {
      assert forall e :: e in G2.edges ==> e == 0;
    }
    var h := Connect(G2, Storage("s"), Dtn("d"), LINK_CAP);
    ConnectLists(G2, Storage("s"), Dtn("d"), LINK_CAP, GATEWAY);
    ConnectLists(G2, Storage("s"), Dtn("d"), LINK_CAP, Dtn("d"));
    ConnectLists(G2, Storage("s"), Dtn("d"), LINK_CAP, Storage("s"));
    assert h.nodes.Keys == G3.nodes.Keys;
    forall x | x in G3.nodes
      ensures h.nodes[x] == G3.nodes[x]
    {
      assert h.nodes[x].ins == G3.nodes[x].ins && h.nodes[x].outs == G3.nodes[x].outs;
    }
    assert h.nodes == G3.nodes;
    assert h.edges == G3.edges;
  }

  // ---- the stream is admitted ----

  const S3 := Site(G3, [])

  lemma StreamIsGranted()
    ensures Query(S3, "s", RATE) == Answer([], Some([Grant(1, RATE)]))
  {
    assert OneOut(G3, 1) && Down(G3, 1) == 0;
    assert PathRoom(S3, 1, false) == 10000.0;
    assert [1][..0] == [] && [1][1..] == [];
    assert AllOneOut(G3, [1]);
    assert PathSum(S3, [1], false) == PathSum(S3, [], false) + Usable(10000.0) == 10000.0;
    assert NodeRoom(S3, Storage("s"), false) == STORAGE_CAP;
    assert Probe(S3, "s", RATE) == Some(1);
    assert Provision(S3, [1], RATE) == [Grant(1, RATE)];
  }

  lemma OnePairMatches()
    ensures var m := Finish(Start([RATE], [RATE]), false);
            m.Returned() && m.pairs == [Pair(0, 0, RATE)]
  {
    var m := Start([RATE], [RATE]);
    var t := Turn(m, false);
    assert t.i == 2 && t.j == 1 && t.pairs == [Pair(0, 0, RATE)];
    assert Finish(m, false) == Finish(t, false) == t;
  }

  lemma CreateOne(s: Site, storage: Id, gs: seq<Grant>, p: Pair, group: Group)
    requires Paths(s.graph, storage, gs) && p.from < |gs|
    ensures CreateAll(s, storage, gs, [p], group) == CreateOn(s, storage, gs[p.from].edge, Job(group, Running, p.rate))
  {
    hide CreateOn, Paths;
    assert [p][..0] == [];
    assert CreateAll(s, storage, gs, [], group) == s;
  }

  lemma StreamIsListed()
    ensures OneOut(G3, 1)
    ensures var h := CreateOn(S3, "s", 1, STREAM);
            && h.jobs == [STREAM] && SameShape(G3, h.graph)
            && Storage("s") in h.graph.nodes && h.graph.nodes[Storage("s")].jobs == [0]
  {
    assert [] + [STREAM] == [STREAM];
  }

  lemma StreamIsCreated()
    requires Typed(G3)
    ensures NonNegative([RATE])
    ensures var h := Admit(S3, "s", RATE, Extra, [RATE]);
            && h.jobs == [STREAM] && SameShape(G3, h.graph)
            && Storage("s") in h.graph.nodes && h.graph.nodes[Storage("s")].jobs == [0]
  {
    hide Typed, Query, Finish, CreateAll, CreateOn, Paths, SameShape;
    StreamIsGranted();
    assert GrantRates([Grant(1, RATE)]) == [RATE];
    OnePairMatches();
    GrantsGood(S3, "s", RATE);
    CreateOne(S3, "s", [Grant(1, RATE)], Pair(0, 0, RATE), Extra);
    StreamIsListed();
  }

  /** The DTN leaves: the storage keeps the job and has no edge left. */
  lemma DtnLeaves(g: Graph)
    requires SameShape(G3, g) && Storage("s") in g.nodes && g.nodes[Storage("s")].jobs == [0]
    ensures var h := Take(g, LEAVE_DTN);
            Storage("s") in h.nodes && h.nodes[Storage("s")].jobs == [0] && h.nodes[Storage("s")].outs == []
  {
    assert Storage("d") !in g.nodes.Keys && Dtn("d") in g.nodes.Keys;
    assert Target(g, "d") == Some(Dtn("d"));
    assert 1 in Incident(g, Dtn("d"));
    assert g.nodes[Storage("s")].outs == [1];
    assert [1][1..] == [];
    assert Without([1], Incident(g, Dtn("d"))) == [];
  }

  // ---- the history ----

  const ACTS := [Modules(JOIN_STORAGE), Modules(JOIN_DTN), Modules(LINK), Admission("s", RATE, Extra, [RATE]), Modules(LEAVE_DTN)]

  lemma Extend(sites: seq<Site>, acts: seq<Act>, a: Act) returns (next: Site)
    requires History(sites, acts) && Safe(sites[|acts|]) && Permitted(sites[|acts|], a)
    ensures next == Perform(sites[|acts|], a) && Safe(next) && History(sites + [next], acts + [a])
  {
    hide Perform, Permitted, Safe;
    next := Perform(sites[|acts|], a);
    PerformSafe(sites[|acts|], a);
    var more, longer := sites + [next], acts + [a];
    forall k | 0 <= k < |longer|
      ensures Safe(more[k]) ==> Permitted(more[k], longer[k]) && more[k + 1] == Perform(more[k], longer[k])
    {
      if k < |acts| && Safe(more[k]) {
        HistoryStep(sites, acts, k);
      }
    }
  }

  lemma ModulesStep(sites: seq<Site>, acts: seq<Act>, step: Step) returns (next: Site)
    requires History(sites, acts) && Safe(sites[|acts|]) && Allowed(sites[|acts|].graph, step)
    ensures next == sites[|acts|].(graph := Take(sites[|acts|].graph, step)) && Safe(next)
    ensures History(sites + [next], acts + [Modules(step)])
  {
    hide Safe, Allowed, Take, History;
    next := Extend(sites, acts, Modules(step));
  }

  lemma SafeIsTyped(s: Site)
    requires Safe(s)
    ensures Typed(s.graph) && RatesOk(s.jobs)
  {
    hide Typed, RoomOk;
  }

  lemma ThreeJoins() returns (sites: seq<Site>)
    ensures |sites| == 4 && sites[3] == S3 && Safe(S3)
    ensures History(sites, [Modules(JOIN_STORAGE), Modules(JOIN_DTN), Modules(LINK)])
  {
    hide Safe, Take, Allowed, Typed, History;
    sites := [Site(BOOT, [])];
    StartOfHistory();
    BootSafe();
    StorageJoins();
    var s1 := ModulesStep(sites, [], JOIN_STORAGE);
    sites := sites + [s1];
    SafeIsTyped(s1);
    DtnJoins();
    assert [] + [Modules(JOIN_STORAGE)] == [Modules(JOIN_STORAGE)];
    var s2 := ModulesStep(sites, [Modules(JOIN_STORAGE)], JOIN_DTN);
    sites := sites + [s2];
    SafeIsTyped(s2);
    Linked();
    assert [Modules(JOIN_STORAGE)] + [Modules(JOIN_DTN)] == [Modules(JOIN_STORAGE), Modules(JOIN_DTN)];
    var s3 := ModulesStep(sites, [Modules(JOIN_STORAGE), Modules(JOIN_DTN)], LINK);
    sites := sites + [s3];
    assert [Modules(JOIN_STORAGE), Modules(JOIN_DTN)] + [Modules(LINK)] == [Modules(JOIN_STORAGE), Modules(JOIN_DTN), Modules(LINK)];
  }

  lemma StartOfHistory()
    ensures History([Site(BOOT, [])], [])
  {}

  /**
   * A history after which any further request at the storage is hopeless, and evicts the stream that
   * was admitted.
   */
  lemma EvictedInVain() returns (sites: seq<Site>)
    ensures History(sites, ACTS) && sites[5].jobs == [STREAM] && Storage("s") in sites[5].graph.nodes
    ensures forall rate :: rate >= 0.0 ==>
              && Probe(sites[5], "s", rate) in {Some(3), Some(4)}
              && Query(sites[5], "s", rate).jobs == [STREAM.(state := MarkedForPrealloc)]
              && Query(sites[5], "s", rate).grants in {None, Some([])}
  {
    hide Safe, Take, Allowed, Typed, History, Query, Probe, Admit;
    sites := ThreeJoins();
    SafeIsTyped(S3);
    StreamIsCreated();
    var three := [Modules(JOIN_STORAGE), Modules(JOIN_DTN), Modules(LINK)];
    var admission := Admission("s", RATE, Extra, [RATE]);
    var s4 := Extend(sites, three, admission);
    sites := sites + [s4];
    DtnLeaves(s4.graph);
    LeaveIsAllowed(s4.graph);
    var s5 := ModulesStep(sites, three + [admission], LEAVE_DTN);
    sites := sites + [s5];
    assert three + [admission] + [Modules(LEAVE_DTN)] == ACTS;
    SafeIsTyped(s5);
    forall rate | rate >= 0.0
      ensures Probe(s5, "s", rate) in {Some(3), Some(4)}
      ensures Query(s5, "s", rate).jobs == [STREAM.(state := MarkedForPrealloc)]
      ensures Query(s5, "s", rate).grants in {None, Some([])}
    {
      DeadEndEvicts(s5, "s", rate);
      assert Emptied([STREAM], [0]) == [STREAM.(state := MarkedForPrealloc)];
    }
  }

  lemma LeaveIsAllowed(g: Graph)
    ensures Allowed(g, LEAVE_DTN)
  {}
}
