/** ResourceManager as the program runs it: loops over job lists and edges, shared jobs changed in place. */
module AdmissionMachine {
  import opened Collections
  import opened ResourceGraph
  import opened GraphMachine
  import opened Registration
  import opened Handlers
  import opened Admission
  import opened AdmissionMeaning
  import opened Matching
  import opened AdmissionRuns

  lemma {:induction false} ProvisionSplit(s: Site, es: seq<EdgeId>, k: nat, remaining: real)
    requires k < |es| && AllOneOut(s.graph, es[k..])
    ensures AllOneOut(s.graph, es[k + 1..]) && OneOut(s.graph, es[k])
    ensures PathRoom(s, es[k], false) < 1000.0 ==> Provision(s, es[k..], remaining) == Provision(s, es[k + 1..], remaining)
    ensures PathRoom(s, es[k], false) >= 1000.0 && PathRoom(s, es[k], false) > remaining ==>
              Provision(s, es[k..], remaining) == [Grant(es[k], remaining)]
    ensures 1000.0 <= PathRoom(s, es[k], false) <= remaining ==>
              var room := PathRoom(s, es[k], false);
              Provision(s, es[k..], remaining) == [Grant(es[k], room)] + Provision(s, es[k + 1..], remaining - room)
  {
    assert es[k..][0] == es[k] && es[k..][1..] == es[k + 1..];
    assert forall e :: e in es[k + 1..] ==> e in es[k..];
    assert es[k] in es[k..];
  }

  class ResourceManager {
    const rg: RGraph
    var jobs: seq<Job>

    constructor (rg: RGraph)
      ensures this.rg == rg && jobs == []
    {
      this.rg := rg;
      jobs := [];
    }

    ghost function Current(): Site
      reads this, rg
    {
      Site(rg.Current(), jobs)
    }

    /** add_modules on the manager's own graph: a list that clashes with nothing keeps every storage and edge within capacity. */
    method AddModules(ms: seq<Module>) returns (thrown: bool)
      requires Safe(Current()) && ModulesOk(rg.Current(), ms)
      modifies rg
      ensures !thrown && Safe(Current())
      ensures rg.Current() == LinkAll(RegisterAll(old(rg.Current()), ms).graph, ms)
    {
      hide JobsOk, RoomOk, ModulesOk, RegisterAll, LinkAll, GatewayEdges;
      AddModulesSafe(Current(), ms);
      thrown := Handlers.AddModules(rg, ms);
    }

    /** del_modules on the manager's own graph. */
    method DelModules(ids: seq<Id>) returns (thrown: bool)
      requires Safe(Current()) && GATEWAY_ID !in ids
      modifies rg
      ensures Safe(Current()) && (thrown <==> GATEWAY_RID in ids)
      ensures rg.Current() == DeleteAll(old(rg.Current()), ids).graph
    {
      hide JobsOk, RoomOk, DeleteAll, GatewayEdges, BeforeGateway;
      DelModulesSafe(Current(), ids);
      thrown := Handlers.DelModules(rg, ids);
    }

    /** RBase::sum_re and RBase::sum_rb. */
    method SumJobs(ids: seq<JobId>, group: Group) returns (sum: real)
      ensures sum == Sum(jobs, ids, group)
    {
      sum := 0.0;
      var k := 0;
      while k < |ids|
        invariant 0 <= k <= |ids|
        invariant sum == Sum(jobs, ids[..k], group)
      {
        assert ids[..k + 1][..k] == ids[..k];
        if ids[k] < |jobs| && jobs[ids[k]].state == Running && jobs[ids[k]].group == group {
          sum := sum + jobs[ids[k]].rate;
        }
        k := k + 1;
      }
      assert ids[..k] == ids;
    }

    /** RBase::find_largest_re_job, None where it throws. */
    method FindLargestReJob(ids: seq<JobId>) returns (r: Option<JobId>)
      ensures r == Largest(jobs, ids)
    {
      r := None;
      var largest := -1.0;
      var k := 0;
      while k < |ids|
        invariant 0 <= k <= |ids|
        invariant r == Largest(jobs, ids[..k])
        invariant largest == if r.Some? then jobs[r.value].rate else -1.0
      {
        assert ids[..k + 1][..k] == ids[..k];
        var id := ids[k];
        if id < |jobs| && jobs[id].group == Extra && jobs[id].state == Running && jobs[id].rate > largest {
          largest := jobs[id].rate;
          r := Some(id);
        }
        k := k + 1;
      }
      assert ids[..k] == ids;
    }

    method AvailableRate(cap: real, ids: seq<JobId>) returns (room: real, freed: real)
      ensures room == Room(cap, jobs, ids, false) && freed == Room(cap, jobs, ids, true)
    {
      var sre := SumJobs(ids, Extra);
      var srb := SumJobs(ids, Base);
      room, freed := cap - sre - srb, cap - srb;
    }

    /** Both edges of one path; ok is false where the DTN does not have exactly one outgoing edge. */
    method PathRate(e: EdgeId) returns (ok: bool, rate: real, freed: real)
      requires Consistent(rg.Current()) && e in rg.edges
      ensures ok <==> OneOut(rg.Current(), e)
      ensures ok ==> rate == PathRoom(Current(), e, false) && freed == PathRoom(Current(), e, true)
    {
      hide Room;
      PathBasics(rg.Current(), e);
      var sd := rg.edges[e];
      var sdRate, sdFreed := AvailableRate(sd.cap, sd.jobs);
      var outs := rg.nodes[sd.dst].outs;
      if |outs| != 1 {
        return false, 0.0, 0.0;
      }
      var dg := rg.edges[outs[0]];
      var dgRate, dgFreed := AvailableRate(dg.cap, dg.jobs);
      return true, if sdRate < dgRate then sdRate else dgRate, if sdFreed < dgFreed then sdFreed else dgFreed;
    }

    /** probe_path_rate. */
    method ProbePathRate(storage: Id, rate: real) returns (code: Option<int>)
      requires Consistent(rg.Current())
      ensures code == Probe(Current(), storage, rate)
      ensures code == Some(1) <==>
                && Storage(storage) in rg.nodes && rg.nodes[Storage(storage)].cap >= rate
                && StorageFree(Current(), storage, false) > rate
                && AllJoined(rg.Current(), rg.nodes[Storage(storage)].outs)
                && OpenRoom(Current(), rg.nodes[Storage(storage)].outs, false) > rate
    {
      hide Consistent, Room, PathRoom, OneOut, StorageFree, OpenRoom, AllJoined;
      if Storage(storage) !in rg.nodes {
        return None;
      }
      ProbeMeaning(Current(), storage, rate);
      var snode := rg.nodes[Storage(storage)];
      var room, freed := AvailableRate(snode.cap, snode.jobs);
      var resStorage := 0;
      if snode.cap < rate {
        return Some(4);
      } else if room > rate {
        resStorage := 1;
      } else if freed > rate {
        resStorage := 2;
      } else {
        return Some(3);
      }
      var edges := snode.outs;
      var avail, availFreed, k := 0.0, 0.0, 0;
      while k < |edges|
        invariant 0 <= k <= |edges| && AllOneOut(rg.Current(), edges[..k])
        invariant avail == PathSum(Current(), edges[..k], false)
        invariant availFreed == PathSum(Current(), edges[..k], true)
      {
        OutEdgeExists(rg.Current(), Storage(storage), k);
        assert edges[..k + 1] == edges[..k] + [edges[k]];
        var ok, path, pathFreed := PathRate(edges[k]);
        if !ok {
          assert edges[k] in edges;
          return None;
        }
        if path < 1000.0 { path := 0.0; }
        if pathFreed < 1000.0 { pathFreed := 0.0; }
        avail, availFreed := avail + path, availFreed + pathFreed;
        k := k + 1;
      }
      assert edges[..k] == edges;
      if avail > rate {
        return Some(if resStorage == 1 then 1 else 2);
      } else if availFreed > rate {
        return Some(2);
      } else {
        return Some(3);
      }
    }

    /** The loop that makes room. The evicted jobs are returned for reference. */
    method MakeRoom(storage: Id, rate: real) returns (verdict: Verdict, ghost evicted: seq<JobId>)
      requires Consistent(rg.Current()) && Storage(storage) in rg.nodes
      modifies this`jobs
      ensures Eviction(jobs, evicted, verdict) == Evict(old(Current()), storage, rate)
    {
      hide Consistent, Probe, Extras, Largest, Evict;
      var snode := rg.nodes[Storage(storage)];
      evicted := [];
      var code := ProbePathRate(storage, rate);
      while code.Some? && code != Some(1)
        invariant code == Probe(Current(), storage, rate)
        invariant Evict(old(Current()), storage, rate)
               == var r := Evict(Current(), storage, rate); r.(evicted := evicted + r.evicted)
        decreases Extras(jobs, snode.jobs)
      {
        if |snode.jobs| == 0 {
          EvictStops(Current(), storage, rate);
          assert evicted + [] == evicted;
          return NoJobs, evicted;
        }
        var largest := FindLargestReJob(snode.jobs);
        if largest.None? {
          EvictStops(Current(), storage, rate);
          assert evicted + [] == evicted;
          return Threw, evicted;
        }
        MarkDropsCount(jobs, snode.jobs, largest.value);
        ghost var before := Current();
        jobs := jobs[largest.value := jobs[largest.value].(state := MarkedForPrealloc)];
        EvictTurn(before, storage, rate);
        ghost var r := Evict(Current(), storage, rate);
        assert evicted + ([largest.value] + r.evicted) == (evicted + [largest.value]) + r.evicted;
        evicted := evicted + [largest.value];
        code := ProbePathRate(storage, rate);
      }
      EvictStops(Current(), storage, rate);
      assert evicted + [] == evicted;
      verdict := if code.None? then Threw else Enough;
    }

    /** query_path_dtns: the shares by edge, None where it throws. */
    method QueryPathDtns(storage: Id, rate: real) returns (grants: Option<seq<Grant>>)
      requires Consistent(rg.Current())
      modifies this`jobs
      ensures Answer(jobs, grants) == Query(old(Current()), storage, rate)
    {
      hide Consistent, Evict, PathRoom, OneOut, Probe;
      if Storage(storage) !in rg.nodes {
        return None;
      }
      var verdict, evicted := MakeRoom(storage, rate);
      match verdict
      case Threw => return None;
      case NoJobs => return Some([]);
      case Enough =>
      var remaining, out, k := rate, [], 0;
      var edges := rg.nodes[Storage(storage)].outs;
      EnoughMeansAll(old(Current()), storage, rate);
      assert edges[0..] == edges;
      ghost var all := Provision(Current(), edges, rate);
      assert Query(old(Current()), storage, rate) == Answer(jobs, Some(all));
      while k < |edges|
        invariant 0 <= k <= |edges| && AllOneOut(rg.Current(), edges[k..])
        invariant all == out + Provision(Current(), edges[k..], remaining)
        invariant Query(old(Current()), storage, rate) == Answer(jobs, Some(all))
      {
        ProvisionSplit(Current(), edges, k, remaining);
        OutEdgeExists(rg.Current(), Storage(storage), k);
        var ok, path, _ := PathRate(edges[k]);
        if path < 1000.0 {
          k := k + 1;
          continue;
        }
        if path > remaining {
          out := out + [Grant(edges[k], remaining)];
          return Some(out);
        } else {
          out := out + [Grant(edges[k], path)];
          remaining := remaining - path;
        }
        k := k + 1;
      }
      assert edges[k..] == [] && Provision(Current(), edges[k..], remaining) == [];
      assert out + [] == out == all;
      return Some(out);
    }

    /**
     * create_job, with the key the gateway is looked up by. The job table comes first, then the
     * three nodes, then the two edges; a lookup that throws leaves what was done before it.
     */
    method CreateJob(gateway: Id, storage: Id, dtn: Id, job: Job)
      returns (thrown: bool, ghost link: Option<EdgeId>, ghost down: Option<EdgeId>)
      requires Consistent(rg.Current())
      modifies this`jobs, rg
      ensures link.Some? ==> Joins(old(rg.Current()), link.value, storage, dtn)
      ensures down.Some? ==> Joins(old(rg.Current()), down.value, dtn, GATEWAY_RID)
      ensures thrown ==> || Storage(storage) !in old(rg.nodes) || Dtn(dtn) !in old(rg.nodes) || General(gateway) !in old(rg.nodes)
                         || !HasEdge(old(rg.Current()), storage, dtn) || !HasEdge(old(rg.Current()), dtn, GATEWAY_RID)
      ensures !thrown ==> link.Some? && down.Some?
      ensures Created(Current(), thrown) == AdmissionRuns.CreateJob(old(Current()), gateway, storage, dtn, job, link, down)
    {
      hide Consistent, SameShape, Joins;
      link, down := None, None;
      var id := |jobs|;
      jobs := jobs + [job];
      if Storage(storage) !in rg.nodes || Dtn(dtn) !in rg.nodes || General(gateway) !in rg.nodes {
        return true, None, None;
      }
      ghost var g0 := rg.Current();
      AddJob(Storage(storage), id);
      ghost var g1 := rg.Current();
      AddJob(Dtn(dtn), id);
      ghost var g2 := rg.Current();
      AddJob(General(gateway), id);
      ghost var g3 := rg.Current();
      ShapeChain(g0, g1, g2);
      ShapeChain(g0, g2, g3);
      ShapeKeepsConsistent(g0, g3);
      var l := rg.GetEdge(storage, dtn);
      if l.None? {
        return true, None, None;
      }
      JoinsExists(g3, l.value, storage, dtn);
      AddJobOnEdge(l.value, id);
      ShapeKeepsConsistent(g3, rg.Current());
      var d := rg.GetEdge(dtn, GATEWAY_RID);
      if d.None? {
        return true, l, None;
      }
      JoinsExists(rg.Current(), d.value, dtn, GATEWAY_RID);
      AddJobOnEdge(d.value, id);
      return false, l, d;
    }

    /**
     * Scheduler::admission at the source site, from the query on: the shares by DTN name, the match
     * with the shares the destination site reported, and a job for every pair, created with the
     * gateway looked up by its key.
     */
    method AdmitStream(storage: Id, rate: real, group: Group, remote: array<Share>)
      requires Safe(Current()) && rate >= 0.0 && remote.Length > 0 && NonNegative(Rates(remote[..]))
      modifies this`jobs, rg, remote
      ensures Current() == Admit(old(Current()), storage, rate, group, Rates(old(remote[..])))
      ensures Safe(Current())
    {
      hide Typed, JobsOk, RoomOk, Query, Finish, CreateAll, Paths, NonNegative, Rates, NamesFor, SameShape, Consistent;
      ghost var s0, R := Current(), Rates(remote[..]);
      AdmitSafe(s0, storage, rate, group, R);
      TypedBasics(s0.graph);
      var grants := QueryPathDtns(storage, rate);
      if grants.None? || grants.value == [] {
        return;
      }
      var gs := grants.value;
      ghost var queried := Current();
      GrantsGood(s0, storage, rate);
      PathsThere(queried.graph, storage, gs);
      var shares := NamedShares(rg.nodes, rg.edges, gs);
      var src := new Share[|gs|](k requires 0 <= k < |gs| => shares[k]);
      assert src[..] == shares;
      ghost var far := remote[..];
      ghost var m := Finish(Start(GrantRates(gs), R), false);
      var matched := MatchPathDtns(src, remote);
      if matched.Some? {
        PairsIdentified(queried.graph, storage, gs, shares, far, matched.value, m.pairs);
        CreateJobs(storage, group, matched.value, gs, m.pairs, queried);
      }
    }

    /** The loop over the matched pairs. */
    method CreateJobs(storage: Id, group: Group, named: seq<Named>, ghost gs: seq<Grant>, ghost pairs: seq<Pair>, ghost s: Site)
      requires Current() == s && Typed(s.graph)
      requires Paths(s.graph, storage, gs) && Identified(s.graph, gs, named, pairs)
      modifies this`jobs, rg
      ensures Current() == CreateAll(s, storage, gs, pairs, group)
    {
      hide Typed, Paths, SameShape, Consistent, HasEdge, CreateOn, Joins;
      var k := 0;
      while k < |named|
        invariant 0 <= k <= |named|
        invariant Current() == CreateAll(s, storage, gs, pairs[..k], group)
      {
        assert pairs[..k + 1][..k] == pairs[..k];
        ghost var e := gs[pairs[k].from].edge;
        ghost var before := Current();
        TypedThere(s.graph, before.graph, storage, gs, pairs[k].from, named[k].src);
        CreateJobOn(storage, e, named[k].src, Job(group, Running, named[k].rate));
        k := k + 1;
      }
      assert pairs[..k] == pairs;
    }

    /** One call of create_job on a path that is there. */
    method CreateJobOn(storage: Id, ghost e: EdgeId, dtn: Id, job: Job)
      requires Typed(rg.Current()) && OneOut(rg.Current(), e)
      requires rg.edges[e].src == Storage(storage) && rg.edges[e].dst == Dtn(dtn)
      modifies this`jobs, rg
      ensures Current() == CreateOn(old(Current()), storage, e, job)
    {
      hide Typed, Consistent, CreateOn, Joins;
      ghost var before := Current();
      TypedBasics(before.graph);
      PathJoins(before.graph, storage, dtn, e);
      var thrown, link, down := CreateJob(GATEWAY_ID, storage, dtn, job);
      CreateJobAsMeant(before, storage, dtn, job, e, link.value, down.value);
    }

    method AddJob(r: NodeRef, id: JobId)
      requires r in rg.nodes
      modifies rg`nodes
      ensures rg.Current() == Listed(old(rg.Current()), r, id) && SameShape(old(rg.Current()), rg.Current())
    {
      rg.nodes := rg.nodes[r := rg.nodes[r].(jobs := rg.nodes[r].jobs + [id])];
    }

    method AddJobOnEdge(e: EdgeId, id: JobId)
      requires e in rg.edges
      modifies rg`edges
      ensures rg.Current() == ListedOnEdge(old(rg.Current()), e, id) && SameShape(old(rg.Current()), rg.Current())
    {
      rg.edges := rg.edges[e := rg.edges[e].(jobs := rg.edges[e].jobs + [id])];
    }
  }

  /** Each matched pair carries the rid of the DTN its grant leads to. */
  ghost predicate Identified(g: Graph, gs: seq<Grant>, named: seq<Named>, pairs: seq<Pair>) {
    && |named| == |pairs|
    && forall k :: 0 <= k < |pairs| ==>
         && pairs[k].from < |gs| && named[k].rate == pairs[k].rate
         && gs[pairs[k].from].edge in g.edges
         && g.edges[gs[pairs[k].from].edge].dst == Dtn(named[k].src)
  }

  lemma TypedThere(g: Graph, h: Graph, storage: Id, gs: seq<Grant>, k: nat, dtn: Id)
    requires Typed(g) && Paths(g, storage, gs) && SameShape(g, h) && k < |gs|
    requires g.edges[gs[k].edge].dst == Dtn(dtn)
    ensures Typed(h) && OneOut(h, gs[k].edge)
    ensures h.edges[gs[k].edge].src == Storage(storage) && h.edges[gs[k].edge].dst == Dtn(dtn)
  {
    hide Typed;
    ShapeKeepsTyped(g, h);
    ShapeKeepsPaths(g, h, storage, gs);
  }

  /** The lookups of create_job succeed on a path that is there. */
  lemma PathJoins(g: Graph, storage: Id, dtn: Id, e: EdgeId)
    requires Typed(g) && OneOut(g, e) && g.edges[e].src == Storage(storage) && g.edges[e].dst == Dtn(dtn)
    ensures Storage(storage) in g.nodes && Dtn(dtn) in g.nodes
    ensures Joins(g, e, storage, dtn) && Joins(g, Down(g, e), dtn, GATEWAY_RID)
  {
    hide LinksUnique, NoDuplicates;
    DownStarts(g, e);
    assert EdgeListed(g, e) && EdgeListed(g, Down(g, e));
    assert NodeTyped(g, Storage(storage)) && NodeTyped(g, Dtn(dtn));
    assert EdgeTyped(g.edges[Down(g, e)]);
  }

  /** The list of names and rates that query_path_dtns hands out. */
  function NamedShares(nodes: map<NodeRef, Node>, edges: map<EdgeId, Edge>, gs: seq<Grant>): (r: seq<Share>)
    requires forall k :: 0 <= k < |gs| ==> gs[k].edge in edges && edges[gs[k].edge].dst in nodes
    ensures |r| == |gs| && Rates(r) == GrantRates(gs)
    ensures forall k :: 0 <= k < |gs| ==> r[k].dtn == nodes[edges[gs[k].edge].dst].rid
  {
    var r := seq(|gs|, k requires 0 <= k < |gs| => Share(nodes[edges[gs[k].edge].dst].rid, gs[k].rate));
    assert Rates(r) == GrantRates(gs);
    r
  }

  /** In a typed graph the rid of a DTN is its key. */
  lemma SharesName(g: Graph, storage: Id, gs: seq<Grant>, k: nat)
    requires Typed(g) && Paths(g, storage, gs) && k < |gs|
    ensures g.edges[gs[k].edge].dst == Dtn(g.nodes[g.edges[gs[k].edge].dst].rid)
  {
    hide Consistent, LinksUnique;
    assert EdgeTyped(g.edges[gs[k].edge]);
    assert NodeTyped(g, g.edges[gs[k].edge].dst);
  }

  lemma PairsIdentified(g: Graph, storage: Id, gs: seq<Grant>, shares: seq<Share>, remote: seq<Share>, named: seq<Named>, pairs: seq<Pair>)
    requires Typed(g) && Paths(g, storage, gs) && NamesFor(named, pairs, shares, remote) && |shares| == |gs|
    requires forall k :: 0 <= k < |gs| ==> shares[k].dtn == g.nodes[g.edges[gs[k].edge].dst].rid
    ensures Identified(g, gs, named, pairs)
  {
    hide Typed;
    forall k | 0 <= k < |pairs|
      ensures pairs[k].from < |gs| && gs[pairs[k].from].edge in g.edges
      ensures g.edges[gs[pairs[k].from].edge].dst == Dtn(named[k].src)
    {
      SharesName(g, storage, gs, pairs[k].from);
    }
  }

  lemma PathsThere(g: Graph, storage: Id, gs: seq<Grant>)
    requires Paths(g, storage, gs)
    ensures forall k :: 0 <= k < |gs| ==> gs[k].edge in g.edges && g.edges[gs[k].edge].dst in g.nodes
  {}

  lemma ShapeChain(g: Graph, h: Graph, k: Graph)
    requires SameShape(g, h) && SameShape(h, k)
    ensures SameShape(g, k)
  {}

  lemma JoinsExists(g: Graph, e: EdgeId, s: Id, d: Id)
    requires Joins(g, e, s, d)
    ensures e in g.edges
  {}

  lemma PathBasics(g: Graph, e: EdgeId)
    requires Consistent(g) && e in g.edges
    ensures g.edges[e].dst in g.nodes
    ensures forall x :: x in g.nodes[g.edges[e].dst].outs ==> x in g.edges
  {
    assert EdgeListed(g, e);
    assert OutsExact(g, g.edges[e].dst);
  }

  lemma OutEdgeExists(g: Graph, r: NodeRef, k: nat)
    requires Consistent(g) && r in g.nodes && k < |g.nodes[r].outs|
    ensures g.nodes[r].outs[k] in g.edges
  {
    assert OutsExact(g, r);
  }

  lemma EvictStops(s: Site, storage: Id, rate: real)
    requires Storage(storage) in s.graph.nodes
    requires var ids := s.graph.nodes[Storage(storage)].jobs;
             Probe(s, storage, rate) in {None, Some(1)} || ids == [] || Largest(s.jobs, ids).None?
    ensures Evict(s, storage, rate) == Eviction(s.jobs, [],
              if Probe(s, storage, rate) == None then Threw
              else if Probe(s, storage, rate) == Some(1) then Enough
              else if s.graph.nodes[Storage(storage)].jobs == [] then NoJobs
              else Threw)
  {
    hide Probe, Extras;
  }

  lemma EvictTurn(s: Site, storage: Id, rate: real)
    requires Storage(storage) in s.graph.nodes
    requires var ids := s.graph.nodes[Storage(storage)].jobs;
             var p := Probe(s, storage, rate);
             p.Some? && p != Some(1) && ids != [] && Largest(s.jobs, ids).Some?
    ensures var l := Largest(s.jobs, s.graph.nodes[Storage(storage)].jobs).value;
            var r := Evict(s.(jobs := Mark(s.jobs, l)), storage, rate);
            Evict(s, storage, rate) == r.(evicted := [l] + r.evicted)
  {
    hide Probe, Largest, Extras;
  }

  lemma EnoughMeansAll(s: Site, storage: Id, rate: real)
    requires Storage(storage) in s.graph.nodes && Evict(s, storage, rate).verdict == Enough
    ensures AllOneOut(s.graph, s.graph.nodes[Storage(storage)].outs)
  {
    hide Evict;
    EnoughMeansProbed(s, storage, rate);
  }
}
