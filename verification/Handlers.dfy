/**
 * add_modules and del_modules (server/resourcemanager.cc) as they run, and as sequences of single
 * steps: what is known of every history of steps is thereby known of the handlers.
 */
module Handlers {
  import opened Collections
  import opened ResourceGraph
  import opened GraphMachine
  import opened Registration

  // ---- the handlers, as they run ----

  method RegisterOne(rg: RGraph, m: Module) returns (thrown: bool)
    requires Consistent(rg.Current())
    modifies rg
    ensures Outcome(rg.Current(), thrown) == Register(old(rg.Current()), m)
    ensures Consistent(rg.Current())
  {
    hide Consistent, AddEdgeToGateway, DelNode;
    match m
    case DtnModule(id, rate, _) =>
      AddNodeKeeps(rg.Current(), Dtn(id), id, 0.0);
      rg.AddNode(Dtn(id), id, 0.0);
      thrown := rg.AddEdgeToGateway(id, rate);
    case StorageModule(id) =>
      AddNodeKeeps(rg.Current(), Storage(id), id, STORAGE_CAP);
      rg.AddNode(Storage(id), id, STORAGE_CAP);
      thrown := false;
    case LauncherModule(id) =>
      rg.DelAgent(LAUNCHER_ID);
      AddNodeKeeps(rg.Current(), LAUNCHER, id, 0.0);
      rg.AddNode(LAUNCHER, id, 0.0);
      thrown := false;
    case SdnModule(id) =>
      rg.DelAgent(SDN_ID);
      AddNodeKeeps(rg.Current(), SDN, id, 0.0);
      rg.AddNode(SDN, id, 0.0);
      thrown := false;
    case OtherModule(_) =>
      thrown := false;
  }

  method LinkOne(rg: RGraph, storages: seq<Id>, dtn: Id)
    requires Consistent(rg.Current())
    modifies rg
    ensures rg.Current() == LinkStorages(old(rg.Current()), storages, dtn)
    ensures Consistent(rg.Current())
  {
    hide Consistent, AddEdge;
    var k := 0;
    while k < |storages|
      invariant 0 <= k <= |storages|
      invariant rg.Current() == LinkStorages(old(rg.Current()), storages[..k], dtn)
      invariant Consistent(rg.Current())
    {
      var _ := rg.AddEdge(storages[k], dtn, LINK_CAP);
      assert storages[..k + 1][..k] == storages[..k];
      k := k + 1;
    }
    assert storages[..k] == storages;
  }

  /**
   * add_modules. When the list clashes with nothing, it does not throw, the graph stays typed, and
   * each DTN has as many more gateway edges as the list names it.
   */
  method AddModules(rg: RGraph, ms: seq<Module>) returns (thrown: bool)
    requires Consistent(rg.Current())
    modifies rg
    ensures var r := RegisterAll(old(rg.Current()), ms);
            && thrown == r.thrown
            && rg.Current() == if thrown then r.graph else LinkAll(r.graph, ms)
    ensures Consistent(rg.Current())
    ensures Typed(old(rg.Current())) && ModulesOk(old(rg.Current()), ms) ==>
              && !thrown && Typed(rg.Current())
              && forall d :: |GatewayEdges(rg.Current(), d)| == |GatewayEdges(old(rg.Current()), d)| + TimesNamed(ms, d)
  {
    hide Consistent, Register, LinkStorages, GatewayEdges, Typed, ModulesOk;
    AddModulesEffect(rg.Current(), ms);
    var k := 0;
    while k < |ms|
      invariant 0 <= k <= |ms|
      invariant Outcome(rg.Current(), false) == RegisterAll(old(rg.Current()), ms[..k])
      invariant Consistent(rg.Current())
    {
      thrown := RegisterOne(rg, ms[k]);
      assert ms[..k + 1][..k] == ms[..k];
      k := k + 1;
      if thrown {
        RegisterAllThrows(old(rg.Current()), ms, k);
        return;
      }
    }
    assert ms[..k] == ms;
    ghost var g := rg.Current();
    k := 0;
    while k < |ms|
      invariant 0 <= k <= |ms|
      invariant rg.Current() == LinkAll(g, ms[..k])
      invariant Consistent(rg.Current())
    {
      if ms[k].DtnModule? {
        LinkOne(rg, ms[k].storages, ms[k].id);
      }
      assert ms[..k + 1][..k] == ms[..k];
      k := k + 1;
    }
    assert ms[..k] == ms;
    thrown := false;
  }

  /**
   * del_modules. It throws exactly when the list names the gateway's rid; what comes before that name
   * is deleted, and the DTNs among it have no gateway edge left.
   */
  method DelModules(rg: RGraph, ids: seq<Id>) returns (thrown: bool)
    requires Consistent(rg.Current())
    modifies rg
    ensures Outcome(rg.Current(), thrown) == DeleteAll(old(rg.Current()), ids)
    ensures Consistent(rg.Current()) && (thrown <==> GATEWAY_RID in ids)
    ensures Typed(old(rg.Current())) && GATEWAY_ID !in ids ==>
              && Typed(rg.Current())
              && forall d :: GatewayEdges(rg.Current(), d)
                          == if d in BeforeGateway(ids) then {} else GatewayEdges(old(rg.Current()), d)
  {
    hide Consistent, DelNode, GatewayEdges, Typed, BeforeGateway;
    DelModulesEffect(rg.Current(), ids);
    var k := 0;
    while k < |ids|
      invariant 0 <= k <= |ids|
      invariant Outcome(rg.Current(), false) == DeleteAll(old(rg.Current()), ids[..k])
      invariant Consistent(rg.Current())
    {
      thrown := rg.DelNode(ids[k]);
      assert ids[..k + 1][..k] == ids[..k];
      k := k + 1;
      if thrown {
        DeleteAllThrows(old(rg.Current()), ids, k);
        return;
      }
    }
    assert ids[..k] == ids;
    thrown := false;
  }

  // ---- the handlers as sequences of steps ----

  function JoinSteps(ms: seq<Module>): (r: seq<Step>)
    ensures |r| == |ms| && forall i :: 0 <= i < |ms| ==> r[i] == Join(ms[i])
  {
    seq(|ms|, i requires 0 <= i < |ms| => Join(ms[i]))
  }

  function LinkSteps(storages: seq<Id>, dtn: Id): (r: seq<Step>)
    ensures |r| == |storages| && forall i :: 0 <= i < |storages| ==> r[i] == Link(storages[i], dtn)
  {
    seq(|storages|, i requires 0 <= i < |storages| => Link(storages[i], dtn))
  }

  function AllLinks(ms: seq<Module>): seq<Step> {
    if ms == [] then []
    else AllLinks(ms[..|ms| - 1]) + if ms[|ms| - 1].DtnModule? then LinkSteps(ms[|ms| - 1].storages, ms[|ms| - 1].id) else []
  }

  /** First every module joins, then every DTN is linked to the storages it names. */
  function AddSteps(ms: seq<Module>): seq<Step> { JoinSteps(ms) + AllLinks(ms) }

  function LeaveSteps(ids: seq<Id>): (r: seq<Step>)
    ensures |r| == |ids| && forall i :: 0 <= i < |ids| ==> r[i] == Leave(ids[i])
  {
    seq(|ids|, i requires 0 <= i < |ids| => Leave(ids[i]))
  }

  /** The ids up to the first that names the gateway. */
  function BeforeGateway(ids: seq<Id>): (r: seq<Id>)
    ensures |r| <= |ids| && r == ids[..|r|] && GATEWAY_RID !in r
    ensures |r| < |ids| ==> ids[|r|] == GATEWAY_RID
  {
    if ids == [] then []
    else
      var r := BeforeGateway(ids[..|ids| - 1]);
      if |r| < |ids| - 1 || ids[|ids| - 1] == GATEWAY_RID then r else ids
  }

  lemma {:induction false} TakeAllConcat(g: Graph, a: seq<Step>, b: seq<Step>)
    ensures TakeAll(g, a + b) == TakeAll(TakeAll(g, a), b)
    ensures AllAllowedFrom(g, a + b) <==> AllAllowedFrom(g, a) && AllAllowedFrom(TakeAll(g, a), b)
  {
    hide Take, Allowed;
    if b == [] {
      assert a + b == a;
    } else {
      assert (a + b)[..|a + b| - 1] == a + b[..|b| - 1];
      TakeAllConcat(g, a, b[..|b| - 1]);
    }
  }

  lemma {:induction false} LinkStoragesIsRun(g: Graph, storages: seq<Id>, dtn: Id)
    ensures LinkStorages(g, storages, dtn) == TakeAll(g, LinkSteps(storages, dtn))
  {
    hide AddEdge;
    if storages != [] {
      var init := storages[..|storages| - 1];
      LinkStoragesIsRun(g, init, dtn);
      assert LinkSteps(storages, dtn)[..|storages| - 1] == LinkSteps(init, dtn);
    }
  }

  lemma {:induction false} LinkAllIsRun(g: Graph, ms: seq<Module>)
    ensures LinkAll(g, ms) == TakeAll(g, AllLinks(ms))
  {
    hide LinkStorages, LinkSteps;
    if ms != [] {
      var init, m := ms[..|ms| - 1], ms[|ms| - 1];
      LinkAllIsRun(g, init);
      if m.DtnModule? {
        LinkStoragesIsRun(LinkAll(g, init), m.storages, m.id);
        TakeAllConcat(g, AllLinks(init), LinkSteps(m.storages, m.id));
      } else {
        assert AllLinks(init) + [] == AllLinks(init);
      }
    }
  }

  /** No registration that is allowed throws. */
  lemma RegisterDoesNotThrow(g: Graph, m: Module)
    requires Typed(g) && Allowed(g, Join(m))
    ensures !Register(g, m).thrown
  {
    hide Typed;
    if m.DtnModule? {
      JoinConnects(g, m.id, m.rate);
    }
  }

  lemma {:induction false} RegisterAllIsRun(g: Graph, ms: seq<Module>)
    requires Typed(g) && AllAllowedFrom(g, JoinSteps(ms))
    ensures RegisterAll(g, ms) == Outcome(TakeAll(g, JoinSteps(ms)), false) && Typed(TakeAll(g, JoinSteps(ms)))
  {
    hide Typed, Register, Allowed;
    if ms != [] {
      var init := ms[..|ms| - 1];
      assert JoinSteps(ms)[..|ms| - 1] == JoinSteps(init);
      RegisterAllIsRun(g, init);
      RegisterDoesNotThrow(TakeAll(g, JoinSteps(init)), ms[|ms| - 1]);
      TakeTyped(TakeAll(g, JoinSteps(init)), Join(ms[|ms| - 1]));
    }
  }

  // ---- when a list of modules clashes with nothing ----

  ghost function StorageNames(g: Graph, ms: seq<Module>): set<Id> {
    (set r | r in g.nodes && r.Storage? :: r.id) + (set m | m in ms && m.StorageModule? :: m.id)
  }

  ghost function DtnNames(g: Graph, ms: seq<Module>): set<Id> {
    (set r | r in g.nodes && r.Dtn? :: r.id) + (set m | m in ms && m.DtnModule? :: m.id)
  }

  ghost predicate ModuleOk(m: Module, dtns: set<Id>) {
    match m
    case DtnModule(id, rate, storages) =>
      Plain(id) && rate >= 0.0 && forall s :: s in storages ==> Plain(s) && s !in dtns
    case StorageModule(id) => Plain(id)
    case _ => true
  }

  /** Every id in the graph and in the list names one kind of module, and none is one of the site's own. */
  ghost predicate ModulesOk(g: Graph, ms: seq<Module>) {
    && StorageNames(g, ms) !! DtnNames(g, ms)
    && forall m :: m in ms ==> ModuleOk(m, DtnNames(g, ms))
  }

  /** All storages and DTNs of the graph are among these names. */
  ghost predicate Within(g: Graph, storages: set<Id>, dtns: set<Id>) {
    && (forall r :: r in g.nodes && r.Storage? ==> r.id in storages)
    && (forall r :: r in g.nodes && r.Dtn? ==> r.id in dtns)
  }

  /** A step that only concerns modules of these names. */
  ghost predicate StepOk(s: Step, storages: set<Id>, dtns: set<Id>) {
    match s
    case Join(DtnModule(id, rate, _)) => Plain(id) && id in dtns && rate >= 0.0
    case Join(StorageModule(id)) => Plain(id) && id in storages
    case Join(_) => true
    case Link(storage, dtn) => Plain(storage) && storage !in dtns && Plain(dtn) && dtn in dtns
    case Leave(_) => false
  }

  lemma WithinAllowed(g: Graph, s: Step, storages: set<Id>, dtns: set<Id>)
    requires Within(g, storages, dtns) && storages !! dtns && StepOk(s, storages, dtns)
    ensures Allowed(g, s)
  {
    match s
    case Join(DtnModule(id, _, _)) => assert Storage(id) in g.nodes ==> id in storages;
    case Join(StorageModule(id)) => assert Dtn(id) in g.nodes ==> id in dtns;
    case Join(_) =>
    case Link(storage, dtn) =>
      assert Dtn(storage) in g.nodes ==> storage in dtns;
      assert Storage(dtn) in g.nodes ==> dtn in storages;
  }

  lemma DelNodeShrinks(g: Graph, id: Id)
    ensures DelNode(g, id).graph.nodes.Keys <= g.nodes.Keys
  {
    hide Without;
  }

  lemma AddEdgeSameNodes(g: Graph, s: Id, d: Id, cap: real)
    ensures AddEdge(g, s, d, cap).graph.nodes.Keys == g.nodes.Keys
  {
    hide HasEdge;
  }

  lemma WithinStep(g: Graph, s: Step, storages: set<Id>, dtns: set<Id>)
    requires Within(g, storages, dtns) && StepOk(s, storages, dtns)
    ensures Within(Take(g, s), storages, dtns)
  {
    hide DelNode, AddEdge;
    match s
    case Join(DtnModule(id, rate, _)) =>
      AddEdgeSameNodes(AddNode(g, Dtn(id), id, 0.0), id, GATEWAY_ID, rate);
    case Join(StorageModule(id)) =>
    case Join(LauncherModule(id)) => DelNodeShrinks(g, LAUNCHER_ID);
    case Join(SdnModule(id)) => DelNodeShrinks(g, SDN_ID);
    case Join(OtherModule(_)) =>
    case Link(storage, dtn) => AddEdgeSameNodes(g, storage, dtn, LINK_CAP);
  }

  lemma {:induction false} WithinRun(g: Graph, steps: seq<Step>, storages: set<Id>, dtns: set<Id>)
    requires Within(g, storages, dtns) && storages !! dtns
    requires forall i :: 0 <= i < |steps| ==> StepOk(steps[i], storages, dtns)
    ensures AllAllowedFrom(g, steps) && Within(TakeAll(g, steps), storages, dtns)
  {
    hide Within, StepOk, Allowed, Take;
    if steps != [] {
      var init, s := steps[..|steps| - 1], steps[|steps| - 1];
      WithinRun(g, init, storages, dtns);
      WithinAllowed(TakeAll(g, init), s, storages, dtns);
      WithinStep(TakeAll(g, init), s, storages, dtns);
    }
  }

  lemma {:induction false} AllLinksOk(ms: seq<Module>, storages: set<Id>, dtns: set<Id>)
    requires forall m :: m in ms ==> ModuleOk(m, dtns) && (m.DtnModule? ==> m.id in dtns)
    ensures forall i :: 0 <= i < |AllLinks(ms)| ==> StepOk(AllLinks(ms)[i], storages, dtns)
  {
    if ms != [] {
      var init, m := ms[..|ms| - 1], ms[|ms| - 1];
      AllLinksOk(init, storages, dtns);
      assert m in ms;
      if m.DtnModule? {
        forall i | 0 <= i < |m.storages|
          ensures StepOk(LinkSteps(m.storages, m.id)[i], storages, dtns)
        {
          assert m.storages[i] in m.storages;
        }
      }
    }
  }

  lemma AddStepsOk(g: Graph, ms: seq<Module>)
    requires ModulesOk(g, ms)
    ensures forall i :: 0 <= i < |AddSteps(ms)| ==> StepOk(AddSteps(ms)[i], StorageNames(g, ms), DtnNames(g, ms))
    ensures Within(g, StorageNames(g, ms), DtnNames(g, ms))
  {
    var storages, dtns := StorageNames(g, ms), DtnNames(g, ms);
    forall m | m in ms
      ensures ModuleOk(m, dtns) && (m.DtnModule? ==> m.id in dtns) && (m.StorageModule? ==> m.id in storages)
    {}
    AllLinksOk(ms, storages, dtns);
    forall i | 0 <= i < |ms|
      ensures StepOk(JoinSteps(ms)[i], storages, dtns)
    {
      assert ms[i] in ms;
    }
  }

  /** add_modules on such a list is a sequence of allowed steps, and does not throw. */
  lemma AddModulesIsRun(g: Graph, ms: seq<Module>)
    requires Typed(g) && ModulesOk(g, ms)
    ensures AllAllowedFrom(g, AddSteps(ms)) && !RegisterAll(g, ms).thrown
    ensures LinkAll(RegisterAll(g, ms).graph, ms) == TakeAll(g, AddSteps(ms))
  {
    hide Typed, ModulesOk, StepOk, Within, TakeAll, AllAllowedFrom, JoinSteps, AllLinks, LinkAll, RegisterAll;
    AddStepsOk(g, ms);
    NamesApart(g, ms);
    WithinRun(g, AddSteps(ms), StorageNames(g, ms), DtnNames(g, ms));
    TakeAllConcat(g, JoinSteps(ms), AllLinks(ms));
    RegisterAllIsRun(g, ms);
    LinkAllIsRun(TakeAll(g, JoinSteps(ms)), ms);
  }

  lemma NamesApart(g: Graph, ms: seq<Module>)
    requires ModulesOk(g, ms)
    ensures StorageNames(g, ms) !! DtnNames(g, ms)
  {}

  /** How many DTN modules of the list carry this id. */
  function TimesNamed(ms: seq<Module>, dtn: Id): nat {
    if ms == [] then 0
    else TimesNamed(ms[..|ms| - 1], dtn) + if ms[|ms| - 1].DtnModule? && ms[|ms| - 1].id == dtn then 1 else 0
  }

  lemma {:induction false} RegistrationsConcat(n: nat, a: seq<Step>, b: seq<Step>, dtn: Id)
    ensures RegistrationsFrom(n, a + b, dtn) == RegistrationsFrom(RegistrationsFrom(n, a, dtn), b, dtn)
  {
    if b == [] {
      assert a + b == a;
    } else {
      assert (a + b)[..|a + b| - 1] == a + b[..|b| - 1];
      RegistrationsConcat(n, a, b[..|b| - 1], dtn);
    }
  }

  lemma {:induction false} JoinsCount(n: nat, ms: seq<Module>, dtn: Id)
    ensures RegistrationsFrom(n, JoinSteps(ms), dtn) == n + TimesNamed(ms, dtn)
  {
    if ms != [] {
      assert JoinSteps(ms)[..|ms| - 1] == JoinSteps(ms[..|ms| - 1]);
      JoinsCount(n, ms[..|ms| - 1], dtn);
    }
  }

  lemma {:induction false} NoJoinsCount(n: nat, steps: seq<Step>, dtn: Id)
    requires forall i :: 0 <= i < |steps| ==> steps[i].Link?
    ensures RegistrationsFrom(n, steps, dtn) == n
  {
    if steps != [] {
      NoJoinsCount(n, steps[..|steps| - 1], dtn);
    }
  }

  lemma {:induction false} AllLinksAreLinks(ms: seq<Module>)
    ensures forall i :: 0 <= i < |AllLinks(ms)| ==> AllLinks(ms)[i].Link?
  {
    if ms != [] {
      AllLinksAreLinks(ms[..|ms| - 1]);
    }
  }

  lemma AddCounts(g: Graph, ms: seq<Module>, dtn: Id)
    requires Typed(g) && ModulesOk(g, ms)
    ensures Typed(LinkAll(RegisterAll(g, ms).graph, ms))
    ensures |GatewayEdges(LinkAll(RegisterAll(g, ms).graph, ms), dtn)| == |GatewayEdges(g, dtn)| + TimesNamed(ms, dtn)
  {
    hide Typed, ModulesOk, TakeAll, AllAllowedFrom, JoinSteps, AllLinks, LinkAll, RegisterAll, GatewayEdges, RegistrationsFrom;
    AddModulesIsRun(g, ms);
    CountFrom(g, AddSteps(ms), dtn);
    var n := |GatewayEdges(g, dtn)|;
    RegistrationsConcat(n, JoinSteps(ms), AllLinks(ms), dtn);
    JoinsCount(n, ms, dtn);
    AllLinksAreLinks(ms);
    NoJoinsCount(n + TimesNamed(ms, dtn), AllLinks(ms), dtn);
  }

  lemma AddModulesEffect(g: Graph, ms: seq<Module>)
    ensures var r := RegisterAll(g, ms);
            Typed(g) && ModulesOk(g, ms) ==>
              && !r.thrown && Typed(LinkAll(r.graph, ms))
              && forall d :: |GatewayEdges(LinkAll(r.graph, ms), d)| == |GatewayEdges(g, d)| + TimesNamed(ms, d)
  {
    hide Typed, ModulesOk, LinkAll, RegisterAll, GatewayEdges, TimesNamed;
    if Typed(g) && ModulesOk(g, ms) {
      AddModulesIsRun(g, ms);
      forall d: Id
        ensures Typed(LinkAll(RegisterAll(g, ms).graph, ms))
        ensures |GatewayEdges(LinkAll(RegisterAll(g, ms).graph, ms), d)| == |GatewayEdges(g, d)| + TimesNamed(ms, d)
      {
        AddCounts(g, ms, d);
      }
      AddCounts(g, ms, "");
    }
  }

  // ---- deletions ----

  /** del_modules is a sequence of leaving steps, up to the gateway's name. */
  lemma {:induction false} DeleteAllIsRun(g: Graph, ids: seq<Id>)
    ensures DeleteAll(g, ids).thrown <==> GATEWAY_RID in ids
    ensures DeleteAll(g, ids).graph == TakeAll(g, LeaveSteps(BeforeGateway(ids)))
  {
    hide DelNode;
    if ids != [] {
      var init, last := ids[..|ids| - 1], ids[|ids| - 1];
      DeleteAllIsRun(g, init);
      assert ids == init + [last];
      DelNodeThrows(DeleteAll(g, init).graph, last);
      if GATEWAY_RID !in init {
        assert BeforeGateway(init) == init;
        assert LeaveSteps(ids)[..|ids| - 1] == LeaveSteps(init);
      }
    }
  }

  lemma DelNodeThrows(g: Graph, id: Id)
    ensures DelNode(g, id).thrown <==> id == GATEWAY_RID
    ensures DelNode(g, GATEWAY_RID).graph == g
  {}

  lemma {:induction false} LeavesAllowed(g: Graph, ids: seq<Id>)
    requires GATEWAY_ID !in ids
    ensures AllAllowedFrom(g, LeaveSteps(ids))
  {
    if ids != [] {
      assert LeaveSteps(ids)[..|ids| - 1] == LeaveSteps(ids[..|ids| - 1]);
      LeavesAllowed(g, ids[..|ids| - 1]);
    }
  }

  lemma {:induction false} LeavesClear(g: Graph, ids: seq<Id>, dtn: Id)
    requires Typed(g) && GATEWAY_ID !in ids
    ensures Typed(TakeAll(g, LeaveSteps(ids)))
    ensures GatewayEdges(TakeAll(g, LeaveSteps(ids)), dtn) == if dtn in ids then {} else GatewayEdges(g, dtn)
  {
    hide Typed, DelNode, GatewayEdges;
    if ids != [] {
      var init, last := ids[..|ids| - 1], ids[|ids| - 1];
      assert LeaveSteps(ids)[..|ids| - 1] == LeaveSteps(init);
      assert ids == init + [last];
      LeavesClear(g, init, dtn);
      LeaveClears(TakeAll(g, LeaveSteps(init)), last, dtn);
      LeaveTyped(TakeAll(g, LeaveSteps(init)), last);
    }
  }

  lemma DelModulesEffect(g: Graph, ids: seq<Id>)
    ensures var r := DeleteAll(g, ids);
            && (r.thrown <==> GATEWAY_RID in ids)
            && (Typed(g) && GATEWAY_ID !in ids ==>
                  && Typed(r.graph)
                  && forall d :: GatewayEdges(r.graph, d) == if d in BeforeGateway(ids) then {} else GatewayEdges(g, d))
  {
    hide Typed, DeleteAll, GatewayEdges, TakeAll;
    DeleteAllIsRun(g, ids);
    if Typed(g) && GATEWAY_ID !in ids {
      var gone := BeforeGateway(ids);
      forall d: Id
        ensures Typed(TakeAll(g, LeaveSteps(gone)))
        ensures GatewayEdges(TakeAll(g, LeaveSteps(gone)), d) == if d in gone then {} else GatewayEdges(g, d)
      {
        LeavesClear(g, gone, d);
      }
      LeavesClear(g, gone, "");
    }
  }

  // ---- leaving undoes joining ----

  lemma {:induction false} WithoutConcat(a: seq<EdgeId>, b: seq<EdgeId>, gone: set<EdgeId>)
    ensures Without(a + b, gone) == Without(a, gone) + Without(b, gone)
  {
    if a == [] {
      assert a + b == b;
    } else {
      assert (a + b)[0] == a[0] && (a + b)[1..] == a[1..] + b;
      WithoutConcat(a[1..], b, gone);
    }
  }

  /** A list that may have gained one edge, with that edge among the gone. */
  lemma WithoutNewest(s: seq<EdgeId>, e: EdgeId, gone: set<EdgeId>)
    requires e !in s
    ensures Without(s, gone + {e}) == Without(s, gone) == Without(s + [e], gone + {e})
  {
    hide Without;
    WithoutTwice(s, gone, {e});
    WithoutNone(Without(s, gone), {e});
    WithoutConcat(s, [e], gone + {e});
    WithoutOne(e, gone + {e});
    assert Without(s, gone + {e}) + [] == Without(s, gone + {e});
  }

  lemma WithoutOne(e: EdgeId, gone: set<EdgeId>)
    requires e in gone
    ensures Without([e], gone) == []
  {
    assert [e][1..] == [];
  }

  lemma NotListed(g: Graph, x: NodeRef)
    requires Consistent(g) && x in g.nodes
    ensures g.next !in g.nodes[x].ins && g.next !in g.nodes[x].outs
  {
    hide NoDuplicates;
    assert OutsExact(g, x) && InsExact(g, x);
  }

  lemma ForgetNode(g: Graph, src: NodeRef, dst: NodeRef, gone: set<EdgeId>, cap: real, x: NodeRef)
    requires Consistent(g) && src in g.nodes && dst in g.nodes && x in g.nodes
    ensures Trimmed(Connect(g, src, dst, cap).nodes[x], gone + {g.next}, gone + {g.next}) == Trimmed(g.nodes[x], gone, gone)
  {
    hide Without, Consistent, Connect;
    NotListed(g, x);
    ConnectLists(g, src, dst, cap, x);
    WithoutNewest(g.nodes[x].ins, g.next, gone);
    WithoutNewest(g.nodes[x].outs, g.next, gone);
    assert g.nodes[x].outs + [] == g.nodes[x].outs && g.nodes[x].ins + [] == g.nodes[x].ins;
  }

  lemma ConnectKeys(g: Graph, src: NodeRef, dst: NodeRef, cap: real)
    requires src in g.nodes && dst in g.nodes
    ensures Connect(g, src, dst, cap).nodes.Keys == g.nodes.Keys && Connect(g, src, dst, cap).next == g.next + 1
  {}

  lemma ConnectIncident(g: Graph, h: Graph, src: NodeRef, dst: NodeRef, r: NodeRef, cap: real)
    requires h.edges == g.edges[g.next := Edge(cap, [], src, dst)] && g.next !in g.edges && r in {src, dst}
    ensures Incident(h, r) == Incident(g, r) + {g.next}
    ensures (map e | e in h.edges && e !in Incident(h, r) :: h.edges[e]) == (map e | e in g.edges && e !in Incident(g, r) :: g.edges[e])
  {
    assert Incident(h, r) == Incident(g, r) + {g.next};
  }

  /** Removing a node forgets an edge that was just connected to it, either way round. */
  lemma RemoveForgetsConnect(g: Graph, src: NodeRef, dst: NodeRef, r: NodeRef, cap: real)
    requires Consistent(g) && src in g.nodes && dst in g.nodes && r in {src, dst}
    ensures Remove(Connect(g, src, dst, cap), r) == Remove(g, r).(next := g.next + 1)
  {
    hide Without, Consistent, Connect, Incident, Trimmed;
    var h := Connect(g, src, dst, cap);
    NextIsNew(g);
    ConnectEdges(g, src, dst, cap);
    ConnectKeys(g, src, dst, cap);
    ConnectIncident(g, h, src, dst, r, cap);
    forall x | x in g.nodes
      ensures Trimmed(h.nodes[x], Incident(h, r), Incident(h, r)) == Trimmed(g.nodes[x], Incident(g, r), Incident(g, r))
    {
      ForgetNode(g, src, dst, Incident(g, r), cap, x);
    }
    assert Remove(h, r).nodes == Remove(g, r).nodes;
  }

  lemma RemoveKeepsNext(g: Graph, r: NodeRef)
    ensures Remove(g, r).next == g.next
  {}

  lemma NothingIncident(g: Graph, r: NodeRef)
    requires Consistent(g) && r !in g.nodes
    ensures Incident(g, r) == {}
  {
    forall e | e in g.edges
      ensures e !in Incident(g, r)
    {
      assert EdgeListed(g, e);
    }
  }

  lemma RemoveNewNode(g: Graph, r: NodeRef, rid: Id, cap: real)
    requires Consistent(g) && r !in g.nodes
    ensures Remove(AddNode(g, r, rid, cap), r) == g
  {
    hide Without, Consistent;
    var h := AddNode(g, r, rid, cap);
    NothingIncident(g, r);
    assert Incident(h, r) == Incident(g, r) == {};
    SweptNothing(g);
    forall x | x in g.nodes
      ensures Trimmed(g.nodes[x], {}, {}) == g.nodes[x]
    {
      assert Swept(g, {}, {}).nodes[x] == g.nodes[x];
    }
    assert Remove(h, r).nodes == g.nodes;
    assert Remove(h, r).edges == g.edges;
  }

  lemma {:induction false} RemoveForgetsLinks(g: Graph, storages: seq<Id>, id: Id)
    requires Consistent(g) && Dtn(id) in g.nodes && Storage(id) !in g.nodes
    ensures var h := LinkStorages(g, storages, id);
            Consistent(h) && h.nodes.Keys == g.nodes.Keys && Remove(h, Dtn(id)) == Remove(g, Dtn(id)).(next := h.next)
  {
    hide Consistent, Remove, HasEdge, Connect;
    RemoveKeepsNext(g, Dtn(id));
    if storages != [] {
      var init, s := storages[..|storages| - 1], storages[|storages| - 1];
      RemoveForgetsLinks(g, init, id);
      var h := LinkStorages(g, init, id);
      AddEdgeKeeps(h, s, id, LINK_CAP);
      AddEdgeSameNodes(h, s, id, LINK_CAP);
      if !HasEdge(h, s, id) && Find(h, s).Some? {
        assert Find(h, id) == Some(Dtn(id));
        ConnectKeys(h, Find(h, s).value, Dtn(id), LINK_CAP);
        RemoveForgetsConnect(h, Find(h, s).value, Dtn(id), Dtn(id), LINK_CAP);
      }
    }
  }

  /**
   * Registering an absent DTN with any list of storages and deleting it again gives the graph back,
   * less some unused identifiers.
   */
  lemma LeaveUndoesJoin(g: Graph, id: Id, rate: real, storages: seq<Id>)
    requires Typed(g) && Plain(id) && Find(g, id).None?
    ensures var ms := [DtnModule(id, rate, storages)];
            var h := LinkAll(RegisterAll(g, ms).graph, ms);
            !RegisterAll(g, ms).thrown && DelNode(h, id) == Outcome(g.(next := h.next), false)
  {
    hide Consistent, Typed, Remove, AddEdgeToGateway, Connect, LinkStorages;
    var m := DtnModule(id, rate, storages);
    assert [m][..0] == [];
    assert Consistent(g) by { TypedIsConsistent(g); }
    JoinConnects(g, id, rate);
    var g1 := AddNode(g, Dtn(id), id, 0.0);
    var g2 := Connect(g1, Dtn(id), GATEWAY, rate);
    AddNodeKeeps(g, Dtn(id), id, 0.0);
    ConnectKeeps(g1, Dtn(id), GATEWAY, rate);
    ConnectKeys(g1, Dtn(id), GATEWAY, rate);
    assert RegisterAll(g, [m]) == Outcome(g2, false);
    assert LinkAll(g2, [m]) == LinkStorages(g2, storages, id);
    RemoveForgetsLinks(g2, storages, id);
    RemoveForgetsConnect(g1, Dtn(id), GATEWAY, Dtn(id), rate);
    RemoveNewNode(g, Dtn(id), id, 0.0);
    var h := LinkStorages(g2, storages, id);
    assert Target(h, id) == Some(Dtn(id)) by { assert Dtn(id) in h.nodes.Keys && Storage(id) !in h.nodes.Keys; }
  }

  lemma TypedIsConsistent(g: Graph)
    requires Typed(g)
    ensures Consistent(g)
  {}
}
