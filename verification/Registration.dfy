/**
 * Modules joining and leaving a site (server/resourcemanager.cc), one at a time, and what the graph
 * looks like after any sequence of registrations in which one id names one kind of module.
 */
module Registration {
  import opened Collections
  import opened ResourceGraph
  import opened GraphMachine

  datatype Module =
    | DtnModule(id: Id, rate: real, storages: seq<Id>)
    | StorageModule(id: Id)
    | LauncherModule(id: Id)
    | SdnModule(id: Id)
    | OtherModule(id: Id)

  const STORAGE_CAP := 1000000.0
  const LINK_CAP := 40000000000.0

  // ---- the handlers, on values ----

  ghost function ReplaceAgent(g: Graph, key: Id, rid: Id): Graph {
    var g1 := if General(key) in g.nodes then DelNode(g, key).graph else g;
    AddNode(g1, General(key), rid, 0.0)
  }

  /** The first iteration of add_modules for one module. */
  ghost function Register(g: Graph, m: Module): Outcome {
    match m
    case DtnModule(id, rate, _) => AddEdgeToGateway(AddNode(g, Dtn(id), id, 0.0), id, rate)
    case StorageModule(id) => Outcome(AddNode(g, Storage(id), id, STORAGE_CAP), false)
    case LauncherModule(id) => Outcome(ReplaceAgent(g, LAUNCHER_ID, id), false)
    case SdnModule(id) => Outcome(ReplaceAgent(g, SDN_ID, id), false)
    case OtherModule(_) => Outcome(g, false)
  }

  /** The second iteration for one DTN; a link that cannot be made is logged and skipped. */
  ghost function LinkStorages(g: Graph, storages: seq<Id>, dtn: Id): Graph {
    if storages == [] then g
    else AddEdge(LinkStorages(g, storages[..|storages| - 1], dtn), storages[|storages| - 1], dtn, LINK_CAP).graph
  }

  ghost function LinkAll(g: Graph, ms: seq<Module>): Graph {
    if ms == [] then g
    else
      var g1, m := LinkAll(g, ms[..|ms| - 1]), ms[|ms| - 1];
      if m.DtnModule? then LinkStorages(g1, m.storages, m.id) else g1
  }

  ghost function RegisterAll(g: Graph, ms: seq<Module>): Outcome {
    if ms == [] then Outcome(g, false)
    else
      var r := RegisterAll(g, ms[..|ms| - 1]);
      if r.thrown then r else Register(r.graph, ms[|ms| - 1])
  }

  ghost function DeleteAll(g: Graph, ids: seq<Id>): Outcome {
    if ids == [] then Outcome(g, false)
    else
      var r := DeleteAll(g, ids[..|ids| - 1]);
      if r.thrown then r else DelNode(r.graph, ids[|ids| - 1])
  }

  lemma {:induction false} RegisterAllThrows(g: Graph, ms: seq<Module>, k: nat)
    requires k <= |ms| && RegisterAll(g, ms[..k]).thrown
    ensures RegisterAll(g, ms) == RegisterAll(g, ms[..k])
  {
    if k < |ms| {
      assert ms[..|ms| - 1][..k] == ms[..k];
      RegisterAllThrows(g, ms[..|ms| - 1], k);
    } else {
      assert ms[..k] == ms;
    }
  }

  lemma {:induction false} DeleteAllThrows(g: Graph, ids: seq<Id>, k: nat)
    requires k <= |ids| && DeleteAll(g, ids[..k]).thrown
    ensures DeleteAll(g, ids) == DeleteAll(g, ids[..k])
  {
    if k < |ids| {
      assert ids[..|ids| - 1][..k] == ids[..k];
      DeleteAllThrows(g, ids[..|ids| - 1], k);
    } else {
      assert ids[..k] == ids;
    }
  }

  // ---- one id, one kind of module ----

  /** An id a module may carry without clashing with the site's own nodes. */
  predicate Plain(id: Id) {
    id !in {GATEWAY_ID, LAUNCHER_ID, SDN_ID, GATEWAY_RID}
  }

  ghost predicate NodeTyped(g: Graph, r: NodeRef)
    requires r in g.nodes
  {
    match r
    case Storage(id) => g.nodes[r].rid == id && Plain(id) && Dtn(id) !in g.nodes
    case Dtn(id) => g.nodes[r].rid == id && Plain(id)
    case General(_) => r in {GATEWAY, LAUNCHER, SDN}
  }

  ghost predicate EdgeTyped(e: Edge) {
    (e.src.Storage? && e.dst.Dtn?) || (e.src.Dtn? && e.dst == GATEWAY)
  }

  ghost predicate SameLink(e: Edge, f: Edge) {
    e.src.Storage? && e.src == f.src && e.dst == f.dst
  }

  /** At most one edge from a storage to a given DTN. */
  ghost predicate LinksUnique(g: Graph) {
    forall e, f :: e in g.edges && f in g.edges && SameLink(g.edges[e], g.edges[f]) ==> e == f
  }

  ghost predicate Typed(g: Graph) {
    && Consistent(g)
    && GATEWAY in g.nodes && g.nodes[GATEWAY].rid == GATEWAY_RID
    && (forall r :: r in g.nodes ==> NodeTyped(g, r))
    && (forall e :: e in g.edges ==> EdgeTyped(g.edges[e]))
    && LinksUnique(g)
  }

  datatype Step = Join(m: Module) | Link(storage: Id, dtn: Id) | Leave(id: Id)

  ghost predicate Allowed(g: Graph, s: Step) {
    match s
    case Join(DtnModule(id, rate, _)) => Plain(id) && Storage(id) !in g.nodes && rate >= 0.0
    case Join(StorageModule(id)) => Plain(id) && Dtn(id) !in g.nodes
    case Join(_) => true
    case Link(storage, dtn) => Plain(storage) && Plain(dtn) && Dtn(storage) !in g.nodes && Storage(dtn) !in g.nodes
    case Leave(id) => id != GATEWAY_ID
  }

  ghost function Take(g: Graph, s: Step): Graph {
    match s
    case Join(m) => Register(g, m).graph
    case Link(storage, dtn) => AddEdge(g, storage, dtn, LINK_CAP).graph
    case Leave(id) => DelNode(g, id).graph
  }

  lemma AddNodeTyped(g: Graph, r: NodeRef, rid: Id, cap: real)
    requires Typed(g)
    requires match r
             case Storage(id) => rid == id && Plain(id) && Dtn(id) !in g.nodes
             case Dtn(id) => rid == id && Plain(id) && Storage(id) !in g.nodes
             case General(_) => r in {LAUNCHER, SDN}
    ensures Typed(AddNode(g, r, rid, cap))
  {
    hide Consistent;
    AddNodeKeeps(g, r, rid, cap);
    var h := AddNode(g, r, rid, cap);
    forall x | x in h.nodes
      ensures NodeTyped(h, x)
    {
      assert x in g.nodes ==> NodeTyped(g, x);
    }
    assert LinksUnique(g);
  }

  lemma RemoveTyped(g: Graph, r: NodeRef)
    requires Typed(g) && r != GATEWAY
    ensures Typed(Remove(g, r))
  {
    hide Consistent, Without;
    RemoveKeeps(g, r);
    var h := Remove(g, r);
    forall x | x in h.nodes
      ensures NodeTyped(h, x)
    {
      assert NodeTyped(g, x);
    }
    assert LinksUnique(g);
  }

  lemma ConnectTyped(g: Graph, src: NodeRef, dst: NodeRef, cap: real)
    requires Typed(g) && src in g.nodes && dst in g.nodes
    requires (src.Storage? && dst.Dtn? && !HasEdge(g, src.id, dst.id)) || (src.Dtn? && dst == GATEWAY)
    ensures Typed(Connect(g, src, dst, cap))
  {
    hide Consistent, Without;
    ConnectKeeps(g, src, dst, cap);
    var h := Connect(g, src, dst, cap);
    forall x | x in h.nodes
      ensures NodeTyped(h, x)
    {
      assert NodeTyped(g, x);
    }
    assert LinksUnique(h) by {
      assert LinksUnique(g);
      forall e | e in g.edges && src.Storage?
        ensures !(g.edges[e].src == src && g.edges[e].dst == dst)
      {
        assert NodeTyped(g, src) && NodeTyped(g, dst);
        assert !Joins(g, e, src.id, dst.id);
      }
    }
  }

  /** In a typed graph a gateway edge is never recognised as present: it is looked for by the gateway's key. */
  lemma NeverSeenByKey(g: Graph, id: Id)
    requires Typed(g)
    ensures !HasEdge(g, id, GATEWAY_ID)
  {
    hide Consistent, LinksUnique;
    forall e | e in g.edges
      ensures !Joins(g, e, id, GATEWAY_ID)
    {
      assert EdgeTyped(g.edges[e]);
      if g.edges[e].dst in g.nodes {
        assert NodeTyped(g, g.edges[e].dst);
      }
    }
  }

  lemma FindTyped(g: Graph, id: Id)
    requires Typed(g)
    ensures Dtn(id) in g.nodes ==> Find(g, id) == Some(Dtn(id))
    ensures Find(g, GATEWAY_ID) == Some(GATEWAY)
  {
    hide Consistent, LinksUnique;
    if Storage(id) in g.nodes {
      assert NodeTyped(g, Storage(id));
    }
    assert Storage(GATEWAY_ID) in g.nodes ==> NodeTyped(g, Storage(GATEWAY_ID));
    assert Dtn(GATEWAY_ID) in g.nodes ==> NodeTyped(g, Dtn(GATEWAY_ID));
  }

  /** Every registration of a DTN adds an edge to the gateway, whether or not it has one already. */
  lemma JoinConnects(g: Graph, id: Id, rate: real)
    requires Typed(g) && Plain(id) && Storage(id) !in g.nodes
    ensures var g1 := AddNode(g, Dtn(id), id, 0.0);
            && Typed(g1) && Dtn(id) in g1.nodes && GATEWAY in g1.nodes
            && AddEdgeToGateway(g1, id, rate) == Outcome(Connect(g1, Dtn(id), GATEWAY, rate), false)
  {
    hide Consistent, LinksUnique;
    AddNodeTyped(g, Dtn(id), id, 0.0);
    var g1 := AddNode(g, Dtn(id), id, 0.0);
    NeverSeenByKey(g1, id);
    FindTyped(g1, id);
  }

  lemma LinkTyped(g: Graph, storage: Id, dtn: Id)
    requires Typed(g) && Allowed(g, Link(storage, dtn))
    ensures Typed(AddEdge(g, storage, dtn, LINK_CAP).graph)
  {
    hide Typed, Connect;
    var src, dst := Find(g, storage), Find(g, dtn);
    if !HasEdge(g, storage, dtn) && src.Some? && dst.Some? {
      assert src.value == Storage(storage) && dst.value == Dtn(dtn) by { PlainIsNotGeneral(g, storage); PlainIsNotGeneral(g, dtn); }
      ConnectTyped(g, src.value, dst.value, LINK_CAP);
    }
  }

  lemma PlainIsNotGeneral(g: Graph, id: Id)
    requires Typed(g) && Plain(id)
    ensures General(id) !in g.nodes
  {
    assert General(id) in g.nodes ==> NodeTyped(g, General(id));
  }

  lemma LeaveTyped(g: Graph, id: Id)
    requires Typed(g) && id != GATEWAY_ID
    ensures Typed(DelNode(g, id).graph)
  {
    hide Typed, Remove;
    var r := Target(g, id);
    if r.Some? {
      RemoveTyped(g, r.value);
    }
  }

  lemma TakeTyped(g: Graph, s: Step)
    requires Typed(g) && Allowed(g, s)
    ensures Typed(Take(g, s))
  {
    hide Typed, DelNode, AddEdge, AddEdgeToGateway, AddNode, Connect;
    match s
    case Join(DtnModule(id, rate, _)) =>
      JoinConnects(g, id, rate);
      ConnectTyped(AddNode(g, Dtn(id), id, 0.0), Dtn(id), GATEWAY, rate);
    case Join(StorageModule(id)) =>
      AddNodeTyped(g, Storage(id), id, STORAGE_CAP);
    case Join(LauncherModule(id)) =>
      LeaveTyped(g, LAUNCHER_ID);
      AddNodeTyped(if LAUNCHER in g.nodes then DelNode(g, LAUNCHER_ID).graph else g, LAUNCHER, id, 0.0);
    case Join(SdnModule(id)) =>
      LeaveTyped(g, SDN_ID);
      AddNodeTyped(if SDN in g.nodes then DelNode(g, SDN_ID).graph else g, SDN, id, 0.0);
    case Join(OtherModule(_)) =>
    case Link(storage, dtn) => LinkTyped(g, storage, dtn);
    case Leave(id) => LeaveTyped(g, id);
  }

  // ---- how many gateway edges a DTN has ----

  ghost function GatewayEdges(g: Graph, dtn: Id): set<EdgeId> {
    set e | e in g.edges && g.edges[e].src == Dtn(dtn) && g.edges[e].dst == GATEWAY
  }

  /** A site starts with its gateway and nothing else. */
  const BOOT := AddNode(EMPTY, GATEWAY, GATEWAY_RID, 0.0)

  /** The graph after a sequence of steps, the last one last. */
  ghost function TakeAll(g: Graph, steps: seq<Step>): Graph {
    if steps == [] then g else Take(TakeAll(g, steps[..|steps| - 1]), steps[|steps| - 1])
  }

  /** Each step is allowed where it is taken. */
  ghost predicate AllAllowedFrom(g: Graph, steps: seq<Step>) {
    steps == [] || (AllAllowedFrom(g, steps[..|steps| - 1]) && Allowed(TakeAll(g, steps[..|steps| - 1]), steps[|steps| - 1]))
  }

  ghost function After(steps: seq<Step>): Graph { TakeAll(BOOT, steps) }

  ghost predicate AllAllowed(steps: seq<Step>) { AllAllowedFrom(BOOT, steps) }

  /** How often the DTN has registered since it was last absent, starting from `n` times. */
  ghost function RegistrationsFrom(n: nat, steps: seq<Step>, dtn: Id): nat {
    if steps == [] then n
    else
      var before, s := RegistrationsFrom(n, steps[..|steps| - 1], dtn), steps[|steps| - 1];
      if s.Join? && s.m.DtnModule? && s.m.id == dtn then before + 1
      else if s == Leave(dtn) then 0
      else before
  }

  ghost function Registrations(steps: seq<Step>, dtn: Id): nat { RegistrationsFrom(0, steps, dtn) }

  /** A gateway edge needs its DTN. */
  lemma GatewayEdgesNeedDtn(g: Graph, dtn: Id)
    requires Typed(g) && GatewayEdges(g, dtn) != {}
    ensures Dtn(dtn) in g.nodes && Plain(dtn)
  {
    hide LinksUnique;
    var e :| e in GatewayEdges(g, dtn);
    assert EdgeListed(g, e);
    assert NodeTyped(g, Dtn(dtn));
  }

  lemma NextIsNew(g: Graph)
    requires Consistent(g) || Typed(g)
    ensures g.next !in g.edges
  {
    hide EdgeListed, LinksUnique;
  }

  lemma JoinAddsOne(g: Graph, id: Id, rate: real, dtn: Id)
    requires Typed(g) && Plain(id) && Storage(id) !in g.nodes
    ensures var h := Register(g, DtnModule(id, rate, [])).graph;
            |GatewayEdges(h, dtn)| == |GatewayEdges(g, dtn)| + if dtn == id then 1 else 0
  {
    hide Typed, AddEdgeToGateway, GatewayEdges, Connect;
    JoinConnects(g, id, rate);
    var g1 := AddNode(g, Dtn(id), id, 0.0);
    ConnectEdges(g1, Dtn(id), GATEWAY, rate);
    NextIsNew(g);
    OneMoreGatewayEdge(g, Connect(g1, Dtn(id), GATEWAY, rate), id, rate, dtn);
  }

  lemma OneMoreGatewayEdge(g: Graph, h: Graph, id: Id, rate: real, dtn: Id)
    requires g.next !in g.edges && h.edges == g.edges[g.next := Edge(rate, [], Dtn(id), GATEWAY)]
    ensures |GatewayEdges(h, dtn)| == |GatewayEdges(g, dtn)| + if dtn == id then 1 else 0
  {
    if dtn == id {
      assert GatewayEdges(h, dtn) == GatewayEdges(g, dtn) + {g.next};
    } else {
      assert GatewayEdges(h, dtn) == GatewayEdges(g, dtn);
    }
  }

  lemma LeaveClears(g: Graph, id: Id, dtn: Id)
    requires Typed(g) && id != GATEWAY_ID
    ensures GatewayEdges(DelNode(g, id).graph, dtn) == if id == dtn then {} else GatewayEdges(g, dtn)
  {
    hide LinksUnique, EdgeListed, OutsExact, InsExact, Without;
    if GatewayEdges(g, dtn) != {} {
      GatewayEdgesNeedDtn(g, dtn);
      FindTyped(g, dtn);
    }
  }

  lemma LinkAddsNone(g: Graph, storage: Id, dtn: Id, d: Id)
    requires Typed(g) && Allowed(g, Link(storage, dtn))
    ensures GatewayEdges(AddEdge(g, storage, dtn, LINK_CAP).graph, d) == GatewayEdges(g, d)
  {
    hide NodeTyped, LinksUnique, EdgeListed, OutsExact, InsExact, HasEdge;
    PlainIsNotGeneral(g, storage);
    assert g.next !in g.edges;
  }

  lemma OtherJoinsAddNone(g: Graph, m: Module, dtn: Id)
    requires Typed(g) && !m.DtnModule?
    ensures GatewayEdges(Register(g, m).graph, dtn) == GatewayEdges(g, dtn)
  {
    hide Typed;
    assert Dtn(LAUNCHER_ID) !in g.nodes && Dtn(SDN_ID) !in g.nodes by { AgentKeys(g); }
    if m.LauncherModule? {
      LeaveClears(g, LAUNCHER_ID, dtn);
      if GatewayEdges(g, dtn) != {} {
        GatewayEdgesNeedDtn(g, dtn);
      }
    } else if m.SdnModule? {
      LeaveClears(g, SDN_ID, dtn);
      if GatewayEdges(g, dtn) != {} {
        GatewayEdgesNeedDtn(g, dtn);
      }
    }
  }

  lemma AgentKeys(g: Graph)
    requires Typed(g)
    ensures Dtn(LAUNCHER_ID) !in g.nodes && Dtn(SDN_ID) !in g.nodes
  {
    assert Dtn(LAUNCHER_ID) in g.nodes ==> NodeTyped(g, Dtn(LAUNCHER_ID));
    assert Dtn(SDN_ID) in g.nodes ==> NodeTyped(g, Dtn(SDN_ID));
  }

  lemma {:induction false} CountFrom(g: Graph, steps: seq<Step>, dtn: Id)
    requires Typed(g) && AllAllowedFrom(g, steps)
    ensures Typed(TakeAll(g, steps))
    ensures |GatewayEdges(TakeAll(g, steps), dtn)| == RegistrationsFrom(|GatewayEdges(g, dtn)|, steps, dtn)
  {
    hide Typed, Register, DelNode, AddEdge, GatewayEdges;
    if steps != [] {
      var h, s := TakeAll(g, steps[..|steps| - 1]), steps[|steps| - 1];
      CountFrom(g, steps[..|steps| - 1], dtn);
      TakeTyped(h, s);
      match s
      case Join(m) =>
        if m.DtnModule? {
          JoinAddsOne(h, m.id, m.rate, dtn);
          RegisterIgnoresStorages(h, m);
        } else {
          OtherJoinsAddNone(h, m, dtn);
        }
      case Link(storage, d) => LinkAddsNone(h, storage, d, dtn);
      case Leave(id) => LeaveClears(h, id, dtn);
    }
  }

  /**
   * After every history, a DTN has as many gateway edges as it has registered since it was last
   * absent: exactly one if and only if it registered exactly once.
   */
  lemma GatewayEdgesCount(steps: seq<Step>, dtn: Id)
    requires AllAllowed(steps)
    ensures Typed(After(steps))
    ensures |GatewayEdges(After(steps), dtn)| == Registrations(steps, dtn)
  {
    hide Typed, GatewayEdges, TakeAll, AllAllowedFrom, RegistrationsFrom;
    BootTyped(dtn);
    CountFrom(BOOT, steps, dtn);
  }

  lemma RegisterIgnoresStorages(g: Graph, m: Module)
    requires m.DtnModule?
    ensures Register(g, m) == Register(g, DtnModule(m.id, m.rate, []))
  {}

  lemma BootTyped(dtn: Id)
    ensures Typed(BOOT) && GatewayEdges(BOOT, dtn) == {}
  {
    assert BOOT.nodes.Keys == {GATEWAY};
  }

  lemma {:induction false} ListSize(s: seq<EdgeId>)
    requires NoDuplicates(s)
    ensures |Members(s)| == |s|
  {
    if s != [] {
      ListSize(s[1..]);
      assert Members(s) == {s[0]} + Members(s[1..]);
    }
  }

  /** So the out list admission control looks at has length one exactly for a DTN that registered once. */
  lemma OutListLength(g: Graph, dtn: Id)
    requires Typed(g) && Dtn(dtn) in g.nodes
    ensures |g.nodes[Dtn(dtn)].outs| == |GatewayEdges(g, dtn)|
  {
    hide LinksUnique, NoDuplicates, NodeTyped;
    var outs := g.nodes[Dtn(dtn)].outs;
    assert OutsExact(g, Dtn(dtn));
    ListSize(outs);
    forall e | e in GatewayEdges(g, dtn)
      ensures e in outs
    {
      assert EdgeListed(g, e);
    }
    assert Members(outs) == GatewayEdges(g, dtn);
  }

  /** The witness: one DTN that registers twice without leaving has two edges to the gateway. */
  lemma ReRegisteringDuplicates()
    ensures var again := [Join(DtnModule("d", 1.0, [])), Join(DtnModule("d", 1.0, []))];
            AllAllowed(again) && |GatewayEdges(After(again), "d")| == 2
  {
    hide Register, Typed, GatewayEdges;
    var s := Join(DtnModule("d", 1.0, []));
    assert [s][..0] == [] && [s, s][..1] == [s];
    assert Storage("d") !in BOOT.nodes;
    assert AllAllowedFrom(BOOT, []) && TakeAll(BOOT, []) == BOOT;
    assert AllAllowedFrom(BOOT, [s]) && TakeAll(BOOT, [s]) == Take(BOOT, s);
    NewDtnNoStorage();
    assert AllAllowedFrom(BOOT, [s, s]);
    assert RegistrationsFrom(0, [s], "d") == RegistrationsFrom(0, [], "d") + 1;
    assert RegistrationsFrom(0, [s, s], "d") == RegistrationsFrom(0, [s], "d") + 1;
    GatewayEdgesCount([s, s], "d");
  }

  lemma NewDtnNoStorage()
    ensures Storage("d") !in Take(BOOT, Join(DtnModule("d", 1.0, []))).nodes
  {
    hide Typed;
    BootTyped("d");
    JoinConnects(BOOT, "d", 1.0);
  }
}
