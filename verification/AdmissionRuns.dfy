/**
 * Whole admissions (query, match, create_job for each pair) and sequences of them mixed with
 * modules joining and leaving: no storage, storage-DTN edge or DTN-gateway edge is ever asked for
 * more than its capacity.
 */
module AdmissionRuns {
  import opened Collections
  import opened ResourceGraph
  import opened Registration
  import opened Handlers
  import opened Admission
  import opened Matching

  // ---- create_job ----

  function Listed(g: Graph, r: NodeRef, id: JobId): Graph
    requires r in g.nodes
  {
    g.(nodes := g.nodes[r := g.nodes[r].(jobs := g.nodes[r].jobs + [id])])
  }

  function ListedOnEdge(g: Graph, e: EdgeId, id: JobId): Graph
    requires e in g.edges
  {
    g.(edges := g.edges[e := g.edges[e].(jobs := g.edges[e].jobs + [id])])
  }

  datatype Created = Created(site: Site, thrown: bool)

  /**
   * create_job, with the key it looks the gateway up by, and the edges get_edge finds (None where it
   * throws). The job is in the job table before anything is looked up.
   */
  function CreateJob(s: Site, gateway: Id, storage: Id, dtn: Id, job: Job, link: Option<EdgeId>, down: Option<EdgeId>): Created
    requires link.Some? ==> link.value in s.graph.edges
    requires down.Some? ==> down.value in s.graph.edges
  {
    var id, g := |s.jobs|, s.graph;
    if Storage(storage) !in g.nodes || Dtn(dtn) !in g.nodes || General(gateway) !in g.nodes then
      Created(Site(g, s.jobs + [job]), true)
    else
      var g1 := Listed(Listed(Listed(g, Storage(storage), id), Dtn(dtn), id), General(gateway), id);
      if link.None? then Created(Site(g1, s.jobs + [job]), true)
      else
        var g2 := ListedOnEdge(g1, link.value, id);
        if down.None? then Created(Site(g2, s.jobs + [job]), true)
        else Created(Site(ListedOnEdge(g2, down.value, id), s.jobs + [job]), false)
  }

  /** As written, create_job looks the gateway up by its rid: it throws and leaves an unattached running job behind. */
  lemma CreateJobAsWritten(s: Site, storage: Id, dtn: Id, job: Job, link: Option<EdgeId>, down: Option<EdgeId>)
    requires Typed(s.graph)
    requires link.Some? ==> link.value in s.graph.edges
    requires down.Some? ==> down.value in s.graph.edges
    ensures CreateJob(s, GATEWAY_RID, storage, dtn, job, link, down) == Created(s.(jobs := s.jobs + [job]), true)
  {
    hide Consistent, LinksUnique;
    assert General(GATEWAY_RID) in s.graph.nodes ==> NodeTyped(s.graph, General(GATEWAY_RID));
  }

  ghost predicate OnPath(g: Graph, e: EdgeId, x: EdgeId)
    requires OneOut(g, e)
  {
    x == e || x == Down(g, e)
  }

  ghost function Extended(ids: seq<JobId>, yes: bool, id: JobId): seq<JobId> {
    if yes then ids + [id] else ids
  }

  /** What create_job is meant to do: a new job listed on the storage, the DTN, the gateway and the two edges between. */
  ghost function CreateOn(s: Site, storage: Id, e: EdgeId, job: Job): Site
    requires OneOut(s.graph, e)
  {
    var id, g := |s.jobs|, s.graph;
    var path := {Storage(storage), g.edges[e].dst, GATEWAY};
    Site(Graph(map r | r in g.nodes :: g.nodes[r].(jobs := Extended(g.nodes[r].jobs, r in path, id)),
               map x | x in g.edges :: g.edges[x].(jobs := Extended(g.edges[x].jobs, OnPath(g, e, x), id)),
               g.next),
         s.jobs + [job])
  }

  /** Where the DTN has one outgoing edge, get_edge can only find the two edges of the path. */
  lemma PathEdgesDetermined(g: Graph, storage: Id, dtn: Id, e: EdgeId, link: EdgeId, down: EdgeId)
    requires Typed(g) && Dtn(dtn) in g.nodes && Storage(storage) in g.nodes
    requires OneOut(g, e) && g.edges[e].src == Storage(storage) && g.edges[e].dst == Dtn(dtn)
    requires Joins(g, link, storage, dtn) && Joins(g, down, dtn, GATEWAY_RID)
    ensures link == e && down == Down(g, e)
  {
    hide NoDuplicates;
    forall x | x in {link, down}
      ensures EdgeTyped(g.edges[x]) && NodeTyped(g, g.edges[x].src) && NodeTyped(g, g.edges[x].dst)
      ensures EdgeListed(g, x)
    {
      assert x in g.edges;
    }
    assert NodeTyped(g, Storage(storage)) && NodeTyped(g, Dtn(dtn));
    assert SameLink(g.edges[e], g.edges[link]);
    assert down in g.nodes[Dtn(dtn)].outs;
  }

  // ---- shape and job lists ----

  /** Two graphs that differ at most in the job lists. */
  ghost predicate SameShape(g: Graph, h: Graph) {
    && g.nodes.Keys == h.nodes.Keys && g.edges.Keys == h.edges.Keys && g.next == h.next
    && (forall r :: r in g.nodes ==> h.nodes[r] == g.nodes[r].(jobs := h.nodes[r].jobs))
    && (forall e :: e in g.edges ==> h.edges[e] == g.edges[e].(jobs := h.edges[e].jobs))
  }

  lemma ShapeKeepsConsistent(g: Graph, h: Graph)
    requires SameShape(g, h) && Consistent(g)
    ensures Consistent(h)
    ensures forall e, s, d :: Joins(h, e, s, d) <==> Joins(g, e, s, d)
  {
    hide NoDuplicates;
    forall e | e in h.edges
      ensures EdgeListed(h, e)
    {
      assert EdgeListed(g, e);
    }
    forall r | r in h.nodes
      ensures OutsExact(h, r) && InsExact(h, r)
    {
      assert OutsExact(g, r) && InsExact(g, r);
    }
  }

  lemma ShapeKeepsTyped(g: Graph, h: Graph)
    requires SameShape(g, h) && Typed(g)
    ensures Typed(h)
  {
    hide Consistent;
    ShapeKeepsConsistent(g, h);
    forall e | e in h.edges
      ensures EdgeTyped(h.edges[e])
    {
      assert EdgeTyped(g.edges[e]);
    }
    forall r | r in h.nodes
      ensures NodeTyped(h, r)
    {
      assert NodeTyped(g, r);
    }
    assert LinksUnique(g);
  }

  ghost predicate ListOk(ids: seq<JobId>, n: nat) {
    NoDuplicates(ids) && forall k :: 0 <= k < |ids| ==> ids[k] < n
  }

  /** Every listed job is in the job table and listed once, and no rate is negative. */
  ghost predicate JobsOk(s: Site) {
    && RatesOk(s.jobs)
    && (forall r :: r in s.graph.nodes ==> ListOk(s.graph.nodes[r].jobs, |s.jobs|))
    && (forall e :: e in s.graph.edges ==> ListOk(s.graph.edges[e].jobs, |s.jobs|))
  }

  ghost predicate RoomOk(s: Site) {
    && (forall r :: r in s.graph.nodes && r.Storage? ==> NodeRoom(s, r, false) >= 0.0)
    && (forall e :: e in s.graph.edges ==> EdgeRoom(s, e, false) >= 0.0)
  }

  /** Capacity safety. */
  ghost predicate Safe(s: Site) {
    Typed(s.graph) && JobsOk(s) && RoomOk(s)
  }

  lemma {:induction false} SumOfOld(jobs: seq<Job>, job: Job, ids: seq<JobId>, group: Group)
    requires ListOk(ids, |jobs|)
    ensures Sum(jobs + [job], ids, group) == Sum(jobs, ids, group)
  {
    if ids != [] {
      SumOfOld(jobs, job, ids[..|ids| - 1], group);
      assert ids[|ids| - 1] < |jobs|;
    }
  }

  lemma RoomOfOld(cap: real, jobs: seq<Job>, job: Job, ids: seq<JobId>)
    requires ListOk(ids, |jobs|)
    ensures Room(cap, jobs + [job], ids, false) == Room(cap, jobs, ids, false)
  {
    SumOfOld(jobs, job, ids, Extra);
    SumOfOld(jobs, job, ids, Base);
  }

  /** Listing a new running job costs its rate, in whichever group. */
  lemma RoomOfNew(cap: real, jobs: seq<Job>, job: Job, ids: seq<JobId>)
    requires ListOk(ids, |jobs|) && job.state == Running
    ensures Room(cap, jobs + [job], ids + [|jobs|], false) == Room(cap, jobs, ids, false) - job.rate
  {
    RoomOfOld(cap, jobs, job, ids);
    assert (ids + [|jobs|])[..|ids|] == ids;
  }

  /** The path's second edge starts where its first one ends, so the two differ. */
  lemma DownStarts(g: Graph, e: EdgeId)
    requires Typed(g) && OneOut(g, e) && g.edges[e].src.Storage?
    ensures g.edges[Down(g, e)].src == g.edges[e].dst && g.edges[e].dst.Dtn? && Down(g, e) != e
  {
    hide NoDuplicates, LinksUnique;
    assert EdgeTyped(g.edges[e]);
    assert OutsExact(g, g.edges[e].dst);
    assert Down(g, e) in g.nodes[g.edges[e].dst].outs;
  }

  /** With the gateway looked up by its key, create_job does exactly that, whichever edges get_edge finds. */
  lemma CreateJobAsMeant(s: Site, storage: Id, dtn: Id, job: Job, e: EdgeId, link: EdgeId, down: EdgeId)
    requires Typed(s.graph) && Dtn(dtn) in s.graph.nodes && Storage(storage) in s.graph.nodes
    requires OneOut(s.graph, e) && s.graph.edges[e].src == Storage(storage) && s.graph.edges[e].dst == Dtn(dtn)
    requires Joins(s.graph, link, storage, dtn) && Joins(s.graph, down, dtn, GATEWAY_RID)
    ensures CreateJob(s, GATEWAY_ID, storage, dtn, job, Some(link), Some(down)) == Created(CreateOn(s, storage, e, job), false)
  {
    hide Typed;
    PathEdgesDetermined(s.graph, storage, dtn, e, link, down);
    DownStarts(s.graph, e);
    var id, g := |s.jobs|, s.graph;
    assert GATEWAY in g.nodes by { TypedBasics(g); }
    var g1 := Listed(Listed(Listed(g, Storage(storage), id), Dtn(dtn), id), GATEWAY, id);
    assert g1.nodes == CreateOn(s, storage, e, job).graph.nodes;
    assert ListedOnEdge(ListedOnEdge(g1, link, id), down, id).edges == CreateOn(s, storage, e, job).graph.edges;
  }

  /**
   * The new job is last in the job table, and last in the lists of the storage, the DTN, the gateway
   * and the two edges that were found; nothing else has changed.
   */
  ghost predicate ListedOnWay(s: Site, t: Site, storage: Id, dtn: Id, link: EdgeId, down: EdgeId, job: Job) {
    var g, h, id := s.graph, t.graph, |s.jobs|;
    && t.jobs == s.jobs + [job] && h.nodes.Keys == g.nodes.Keys && h.edges.Keys == g.edges.Keys
    && (forall r :: r in g.nodes ==>
          h.nodes[r] == if r == Storage(storage) || r == Dtn(dtn) || r == General("RGRAPH_ID_GATEWAY")
                        then g.nodes[r].(jobs := g.nodes[r].jobs + [id]) else g.nodes[r])
    && (forall e :: e in g.edges ==>
          h.edges[e] == if e == link || e == down then g.edges[e].(jobs := g.edges[e].jobs + [id]) else g.edges[e])
  }

  /** With the gateway looked up by its key, create_job does just that. */
  lemma CreateJobLists(s: Site, storage: Id, dtn: Id, job: Job, link: EdgeId, down: EdgeId)
    requires Typed(s.graph) && Dtn(dtn) in s.graph.nodes && Storage(storage) in s.graph.nodes
    requires link in s.graph.edges && down in s.graph.edges && link != down
    ensures var c := CreateJob(s, GATEWAY_ID, storage, dtn, job, Some(link), Some(down));
            !c.thrown && ListedOnWay(s, c.site, storage, dtn, link, down, job)
  {
    hide Typed;
    assert GATEWAY in s.graph.nodes by { TypedBasics(s.graph); }
  }

  lemma TypedBasics(g: Graph)
    requires Typed(g)
    ensures Consistent(g) && GATEWAY in g.nodes
  {}

  // ---- creating a job for every pair ----

  /** The path each grant uses starts at the storage, and no two grants share an edge. */
  ghost predicate Paths(g: Graph, storage: Id, gs: seq<Grant>) {
    && (forall x :: 0 <= x < |gs| ==> OneOut(g, gs[x].edge) && g.edges[gs[x].edge].src == Storage(storage))
    && (forall x, y :: 0 <= x < y < |gs| ==> gs[x].edge != gs[y].edge)
  }

  ghost function CreateAll(s: Site, storage: Id, gs: seq<Grant>, pairs: seq<Pair>, group: Group): (h: Site)
    requires Paths(s.graph, storage, gs)
    requires forall x :: 0 <= x < |pairs| ==> pairs[x].from < |gs|
    ensures SameShape(s.graph, h.graph)
  {
    if pairs == [] then s
    else
      var p, before := pairs[|pairs| - 1], CreateAll(s, storage, gs, pairs[..|pairs| - 1], group);
      ShapeKeepsPaths(s.graph, before.graph, storage, gs);
      CreateOn(before, storage, gs[p.from].edge, Job(group, Running, p.rate))
  }

  lemma ShapeKeepsPaths(g: Graph, h: Graph, storage: Id, gs: seq<Grant>)
    requires SameShape(g, h) && Paths(g, storage, gs)
    ensures Paths(h, storage, gs)
    ensures forall x :: 0 <= x < |gs| ==> Down(h, gs[x].edge) == Down(g, gs[x].edge)
  {}

  /** What the pairs put on an edge. */
  ghost function Charge(g: Graph, gs: seq<Grant>, pairs: seq<Pair>, x: EdgeId): real
    requires forall k :: 0 <= k < |gs| ==> OneOut(g, gs[k].edge)
    requires forall k :: 0 <= k < |pairs| ==> pairs[k].from < |gs|
  {
    if pairs == [] then 0.0
    else
      var p := pairs[|pairs| - 1];
      Charge(g, gs, pairs[..|pairs| - 1], x) + if OnPath(g, gs[p.from].edge, x) then p.rate else 0.0
  }

  ghost function Total(pairs: seq<Pair>): real {
    if pairs == [] then 0.0 else Total(pairs[..|pairs| - 1]) + pairs[|pairs| - 1].rate
  }

  lemma CreateKeepsJobs(s: Site, storage: Id, e: EdgeId, job: Job)
    requires JobsOk(s) && OneOut(s.graph, e) && job.rate >= 0.0
    ensures JobsOk(CreateOn(s, storage, e, job))
  {
    var h := CreateOn(s, storage, e, job);
    forall r | r in h.graph.nodes
      ensures ListOk(h.graph.nodes[r].jobs, |h.jobs|)
    {
      assert ListOk(s.graph.nodes[r].jobs, |s.jobs|);
    }
    forall x | x in h.graph.edges
      ensures ListOk(h.graph.edges[x].jobs, |h.jobs|)
    {
      assert ListOk(s.graph.edges[x].jobs, |s.jobs|);
    }
  }

  /** One new job lowers the room on its path by its rate, and nowhere else. */
  lemma CreateRoom(s: Site, storage: Id, e: EdgeId, job: Job)
    requires JobsOk(s) && OneOut(s.graph, e) && s.graph.edges[e].dst.Dtn? && job.state == Running
    ensures var h := CreateOn(s, storage, e, job);
            && (forall x :: x in s.graph.edges ==>
                  EdgeRoom(h, x, false) == EdgeRoom(s, x, false) - if OnPath(s.graph, e, x) then job.rate else 0.0)
            && (forall r :: r in s.graph.nodes && r.Storage? ==>
                  NodeRoom(h, r, false) == NodeRoom(s, r, false) - if r == Storage(storage) then job.rate else 0.0)
  {
    hide Sum, Room;
    var h := CreateOn(s, storage, e, job);
    forall x | x in s.graph.edges
      ensures EdgeRoom(h, x, false) == EdgeRoom(s, x, false) - if OnPath(s.graph, e, x) then job.rate else 0.0
    {
      RoomOfOld(s.graph.edges[x].cap, s.jobs, job, s.graph.edges[x].jobs);
      RoomOfNew(s.graph.edges[x].cap, s.jobs, job, s.graph.edges[x].jobs);
    }
    forall r | r in s.graph.nodes && r.Storage?
      ensures NodeRoom(h, r, false) == NodeRoom(s, r, false) - if r == Storage(storage) then job.rate else 0.0
    {
      RoomOfOld(s.graph.nodes[r].cap, s.jobs, job, s.graph.nodes[r].jobs);
      RoomOfNew(s.graph.nodes[r].cap, s.jobs, job, s.graph.nodes[r].jobs);
    }
  }

  ghost predicate PairsFit(pairs: seq<Pair>, n: nat) {
    forall x :: 0 <= x < |pairs| ==> pairs[x].from < n && pairs[x].rate >= 0.0
  }

  /** After all pairs, each edge has lost what the pairs charge it with, the storage their total, other storages nothing. */
  lemma {:induction false} CreateAllRoom(s: Site, storage: Id, gs: seq<Grant>, pairs: seq<Pair>, group: Group)
    requires Typed(s.graph) && JobsOk(s) && Paths(s.graph, storage, gs) && PairsFit(pairs, |gs|)
    ensures var h := CreateAll(s, storage, gs, pairs, group);
            && JobsOk(h)
            && (forall x :: x in s.graph.edges ==>
                  x in h.graph.edges && EdgeRoom(h, x, false) == EdgeRoom(s, x, false) - Charge(s.graph, gs, pairs, x))
            && (forall r :: r in s.graph.nodes && r.Storage? ==>
                  r in h.graph.nodes
                  && NodeRoom(h, r, false) == NodeRoom(s, r, false) - if r == Storage(storage) then Total(pairs) else 0.0)
  {
    hide Typed, EdgeRoom, NodeRoom, CreateOn, JobsOk;
    if pairs != [] {
      var init, p := pairs[..|pairs| - 1], pairs[|pairs| - 1];
      CreateAllRoom(s, storage, gs, init, group);
      var before := CreateAll(s, storage, gs, init, group);
      var e, job := gs[p.from].edge, Job(group, Running, p.rate);
      ShapeKeepsPaths(s.graph, before.graph, storage, gs);
      ShapeKeepsTyped(s.graph, before.graph);
      DownStarts(before.graph, e);
      CreateKeepsJobs(before, storage, e, job);
      CreateRoom(before, storage, e, job);
    }
  }

  // ---- what a pair list can charge ----

  /** Two grants of one storage never meet on an edge. */
  lemma PathsApart(g: Graph, storage: Id, gs: seq<Grant>, k: nat, m: nat, x: EdgeId)
    requires Typed(g) && Paths(g, storage, gs) && k < |gs| && m < |gs|
    requires OnPath(g, gs[k].edge, x) && OnPath(g, gs[m].edge, x)
    ensures k == m
  {
    hide Consistent;
    var e, f := gs[k].edge, gs[m].edge;
    DownStarts(g, e);
    DownStarts(g, f);
    assert EdgeTyped(g.edges[e]) && EdgeTyped(g.edges[f]) && EdgeTyped(g.edges[x]);
    assert SameLink(g.edges[e], g.edges[f]);
  }

  lemma {:induction false} ChargeIsGiven(g: Graph, storage: Id, gs: seq<Grant>, pairs: seq<Pair>, k: nat, x: EdgeId)
    requires Typed(g) && Paths(g, storage, gs) && PairsFit(pairs, |gs|) && k < |gs| && OnPath(g, gs[k].edge, x)
    ensures Charge(g, gs, pairs, x) == Given(pairs, k)
  {
    hide Typed, OnPath;
    if pairs != [] {
      var p := pairs[|pairs| - 1];
      ChargeIsGiven(g, storage, gs, pairs[..|pairs| - 1], k, x);
      if OnPath(g, gs[p.from].edge, x) {
        PathsApart(g, storage, gs, k, p.from, x);
      }
    }
  }

  lemma {:induction false} NoCharge(g: Graph, gs: seq<Grant>, pairs: seq<Pair>, x: EdgeId)
    requires forall k :: 0 <= k < |gs| ==> OneOut(g, gs[k].edge) && !OnPath(g, gs[k].edge, x)
    requires PairsFit(pairs, |gs|)
    ensures Charge(g, gs, pairs, x) == 0.0
  {
    if pairs != [] {
      NoCharge(g, gs, pairs[..|pairs| - 1], x);
    }
  }

  function GrantRates(gs: seq<Grant>): (r: seq<real>)
    ensures |r| == |gs| && forall k :: 0 <= k < |gs| ==> r[k] == gs[k].rate
  {
    seq(|gs|, k requires 0 <= k < |gs| => gs[k].rate)
  }

  ghost predicate WithinShares(gs: seq<Grant>, pairs: seq<Pair>) {
    PairsFit(pairs, |gs|) && forall k :: 0 <= k < |gs| ==> Given(pairs, k) <= gs[k].rate
  }

  /** No edge is charged more than the room it had. */
  lemma ChargeFits(s: Site, storage: Id, gs: seq<Grant>, pairs: seq<Pair>, x: EdgeId)
    requires Safe(s) && Storage(storage) in s.graph.nodes && x in s.graph.edges
    requires AllOneOut(s.graph, s.graph.nodes[Storage(storage)].outs)
    requires GoodGrants(s, s.graph.nodes[Storage(storage)].outs, gs) && Paths(s.graph, storage, gs)
    requires WithinShares(gs, pairs)
    ensures Charge(s.graph, gs, pairs, x) <= EdgeRoom(s, x, false)
  {
    hide Typed, JobsOk, EdgeRoom, Given, Charge;
    if k: nat :| k < |gs| && OnPath(s.graph, gs[k].edge, x) {
      ChargeIsGiven(s.graph, storage, gs, pairs, k, x);
      assert gs[k].rate <= PathRoom(s, gs[k].edge, false);
    } else {
      NoCharge(s.graph, gs, pairs, x);
    }
  }

  ghost function GivenUpTo(pairs: seq<Pair>, n: nat): real {
    if n == 0 then 0.0 else GivenUpTo(pairs, n - 1) + Given(pairs, n - 1)
  }

  lemma {:induction false} GivenUpToInit(pairs: seq<Pair>, n: nat)
    requires pairs != []
    ensures GivenUpTo(pairs, n) == GivenUpTo(pairs[..|pairs| - 1], n)
              + if pairs[|pairs| - 1].from < n then pairs[|pairs| - 1].rate else 0.0
  {
    if n != 0 {
      GivenUpToInit(pairs, n - 1);
    }
  }

  lemma {:induction false} TotalIsGiven(pairs: seq<Pair>, n: nat)
    requires PairsFit(pairs, n)
    ensures Total(pairs) == GivenUpTo(pairs, n)
  {
    if pairs == [] {
      NothingGiven(n);
    } else {
      GivenUpToInit(pairs, n);
      TotalIsGiven(pairs[..|pairs| - 1], n);
    }
  }

  lemma {:induction false} NothingGiven(n: nat)
    ensures GivenUpTo([], n) == 0.0
  {
    if n != 0 {
      NothingGiven(n - 1);
    }
  }

  lemma {:induction false} GivenUpToBound(pairs: seq<Pair>, rates: seq<real>, n: nat)
    requires n <= |rates| && forall k :: 0 <= k < n ==> Given(pairs, k) <= rates[k]
    ensures GivenUpTo(pairs, n) <= Pre(rates, n)
  {
    if n != 0 {
      GivenUpToBound(pairs, rates, n - 1);
    }
  }

  lemma {:induction false} GrantedIsPre(gs: seq<Grant>)
    ensures Granted(gs) == Pre(GrantRates(gs), |gs|)
  {
    if gs != [] {
      GrantedInit(gs);
      GrantedIsPre(gs[..|gs| - 1]);
      PrePrefix(GrantRates(gs[..|gs| - 1]), GrantRates(gs), |gs| - 1);
    }
  }

  lemma {:induction false} GrantedInit(gs: seq<Grant>)
    requires gs != []
    ensures Granted(gs) == Granted(gs[..|gs| - 1]) + gs[|gs| - 1].rate
  {
    if |gs| > 1 {
      GrantedInit(gs[1..]);
      assert gs[..|gs| - 1][1..] == gs[1..][..|gs| - 2];
    }
  }

  lemma {:induction false} PrePrefix(a: seq<real>, b: seq<real>, k: nat)
    requires k <= |a| && k <= |b| && forall x :: 0 <= x < k ==> a[x] == b[x]
    ensures Pre(a, k) == Pre(b, k)
  {
    if k != 0 {
      PrePrefix(a, b, k - 1);
    }
  }

  /** The pairs together take no more from the storage than was granted. */
  lemma TotalFits(gs: seq<Grant>, pairs: seq<Pair>)
    requires WithinShares(gs, pairs)
    ensures Total(pairs) <= Granted(gs)
  {
    hide Total, Granted, Given;
    TotalIsGiven(pairs, |gs|);
    GivenUpToBound(pairs, GrantRates(gs), |gs|);
    GrantedIsPre(gs);
  }

  // ---- one admission ----

  /**
   * Query, match and create, as Scheduler::admission orders them, with the destination's shares as
   * the remote site reports them. Nothing is created when the query throws or finds nothing, or the
   * match throws; what the query evicted stays evicted.
   */
  ghost function Admit(s: Site, storage: Id, rate: real, group: Group, remote: seq<real>): Site
    requires Typed(s.graph) && rate >= 0.0 && NonNegative(remote)
  {
    var a := Query(s, storage, rate);
    var queried := s.(jobs := a.jobs);
    if a.grants.None? || a.grants.value == [] then queried
    else
      var m := Finish(Start(GrantRates(a.grants.value), remote), false);
      if !m.Returned() then queried
      else
        GrantsGood(s, storage, rate);
        NeverOverdrawn(GrantRates(a.grants.value), remote, false);
        CreateAll(queried, storage, a.grants.value, m.pairs, group)
  }

  /** Every grant is on its own path from the storage, so to its own DTN. */
  lemma GrantsGood(s: Site, storage: Id, rate: real)
    requires Typed(s.graph) && rate >= 0.0
    requires var a := Query(s, storage, rate); a.grants.Some? && a.grants.value != []
    ensures var gs := Query(s, storage, rate).grants.value;
            && Paths(s.graph, storage, gs) && NonNegative(GrantRates(gs))
            && forall x, y :: 0 <= x < y < |gs| ==> s.graph.edges[gs[x].edge].dst != s.graph.edges[gs[y].edge].dst
  {
    hide Query, Typed, Consistent, PathRoom;
    TypedBasics(s.graph);
    QueryRefinesProbe(s, storage, rate);
    var gs := Query(s, storage, rate).grants.value;
    forall x | 0 <= x < |gs|
      ensures gs[x].edge in s.graph.edges && s.graph.edges[gs[x].edge].src == Storage(storage)
    {
      OutEdgeStarts(s.graph, Storage(storage), gs[x].edge);
    }
    forall x, y | 0 <= x < y < |gs|
      ensures s.graph.edges[gs[x].edge].dst != s.graph.edges[gs[y].edge].dst
    {
      LinksDiffer(s.graph, gs[x].edge, gs[y].edge);
    }
  }

  lemma OutEdgeStarts(g: Graph, r: NodeRef, e: EdgeId)
    requires Consistent(g) && r in g.nodes && e in g.nodes[r].outs
    ensures e in g.edges && g.edges[e].src == r
  {
    assert OutsExact(g, r);
  }

  lemma LinksDiffer(g: Graph, e: EdgeId, f: EdgeId)
    requires Typed(g) && e in g.edges && f in g.edges && e != f && g.edges[e].src.Storage? && g.edges[e].src == g.edges[f].src
    ensures g.edges[e].dst != g.edges[f].dst
  {
    hide Consistent, NodeTyped;
    assert !SameLink(g.edges[e], g.edges[f]);
  }

  /** Evictions only give room back. */
  lemma QuerySafe(s: Site, storage: Id, rate: real)
    requires Safe(s)
    ensures Safe(s.(jobs := Query(s, storage, rate).jobs))
  {
    hide Evict, Typed, Sum, Provision;
    var jobs := Query(s, storage, rate).jobs;
    if Storage(storage) in s.graph.nodes {
      EvictionOrder(s, storage, rate);
      assert Relaxes(s.jobs, jobs);
      RelaxedSafe(s, jobs);
    }
  }

  lemma RelaxedSafe(s: Site, jobs: seq<Job>)
    requires Safe(s) && Relaxes(s.jobs, jobs)
    ensures Safe(s.(jobs := jobs))
  {
    hide Typed, Sum;
    var h := s.(jobs := jobs);
    forall r | r in s.graph.nodes && r.Storage?
      ensures NodeRoom(h, r, false) >= 0.0
    {
      RelaxedSums(s.jobs, jobs, s.graph.nodes[r].jobs);
      assert NodeRoom(s, r, false) >= 0.0;
    }
    forall e | e in s.graph.edges
      ensures EdgeRoom(h, e, false) >= 0.0
    {
      RelaxedSums(s.jobs, jobs, s.graph.edges[e].jobs);
      assert EdgeRoom(s, e, false) >= 0.0;
    }
  }

  lemma PairsWithinShares(gs: seq<Grant>, remote: seq<real>)
    requires NonNegative(GrantRates(gs)) && NonNegative(remote)
    ensures WithinShares(gs, Finish(Start(GrantRates(gs), remote), false).pairs)
  {
    NeverOverdrawn(GrantRates(gs), remote, false);
  }

  lemma CreateAllSafe(s: Site, storage: Id, gs: seq<Grant>, pairs: seq<Pair>, group: Group)
    requires Safe(s) && Storage(storage) in s.graph.nodes
    requires AllOneOut(s.graph, s.graph.nodes[Storage(storage)].outs)
    requires GoodGrants(s, s.graph.nodes[Storage(storage)].outs, gs) && Paths(s.graph, storage, gs)
    requires WithinShares(gs, pairs) && Granted(gs) <= NodeRoom(s, Storage(storage), false)
    ensures Safe(CreateAll(s, storage, gs, pairs, group))
  {
    hide Typed, JobsOk, EdgeRoom, NodeRoom, CreateAll, Charge, Total, GoodGrants;
    var h := CreateAll(s, storage, gs, pairs, group);
    CreateAllRoom(s, storage, gs, pairs, group);
    ShapeKeepsTyped(s.graph, h.graph);
    TotalFits(gs, pairs);
    forall x | x in h.graph.edges
      ensures EdgeRoom(h, x, false) >= 0.0
    {
      ChargeFits(s, storage, gs, pairs, x);
    }
  }

  lemma AdmitSafe(s: Site, storage: Id, rate: real, group: Group, remote: seq<real>)
    requires Safe(s) && rate >= 0.0 && NonNegative(remote)
    ensures Safe(Admit(s, storage, rate, group, remote))
  {
    hide Query, Typed, Consistent, JobsOk, RoomOk, CreateAll, GoodGrants, Paths, WithinShares, AllOneOut;
    var a := Query(s, storage, rate);
    QuerySafe(s, storage, rate);
    if a.grants.Some? && a.grants.value != [] {
      TypedBasics(s.graph);
      QueryRefinesProbe(s, storage, rate);
      GrantsGood(s, storage, rate);
      var m := Finish(Start(GrantRates(a.grants.value), remote), false);
      PairsWithinShares(a.grants.value, remote);
      if m.Returned() {
        CreateAllSafe(s.(jobs := a.jobs), storage, a.grants.value, m.pairs, group);
      }
    }
  }

  lemma {:induction false} GivenUpToExact(pairs: seq<Pair>, rates: seq<real>, n: nat)
    requires n <= |rates| && forall k :: 0 <= k < n ==> Given(pairs, k) == rates[k]
    ensures GivenUpTo(pairs, n) == Pre(rates, n)
  {
    if n != 0 {
      GivenUpToExact(pairs, rates, n - 1);
    }
  }

  lemma ExactGiven(gs: seq<Grant>, pairs: seq<Pair>, remote: seq<real>, k: nat)
    requires Exact(pairs, GrantRates(gs), remote) && k < |gs|
    ensures Given(pairs, k) == gs[k].rate
  {}

  lemma ExactTotal(gs: seq<Grant>, pairs: seq<Pair>, remote: seq<real>)
    requires Exact(pairs, GrantRates(gs), remote)
    ensures Total(pairs) == Granted(gs)
  {
    TotalIsGiven(pairs, |gs|);
    GivenUpToExact(pairs, GrantRates(gs), |gs|);
    GrantedIsPre(gs);
  }

  /**
   * An admission that goes through takes exactly the requested rate from the storage, and from both
   * edges of every granted path exactly that path's share.
   */
  lemma AdmitTakesExactly(s: Site, storage: Id, rate: real, group: Group, remote: seq<real>)
    requires Safe(s) && rate >= 0.0 && NonNegative(remote)
    requires var a := Query(s, storage, rate);
             && a.grants.Some? && a.grants.value != []
             && Matchable(GrantRates(a.grants.value), remote) && NoCoincidence(GrantRates(a.grants.value), remote)
    ensures var a := Query(s, storage, rate);
            var queried, h, gs := s.(jobs := a.jobs), Admit(s, storage, rate, group, remote), a.grants.value;
            && Storage(storage) in s.graph.nodes && SameShape(s.graph, h.graph)
            && NodeRoom(h, Storage(storage), false) == NodeRoom(queried, Storage(storage), false) - rate
            && forall k, x :: 0 <= k < |gs| && OneOut(s.graph, gs[k].edge) && OnPath(s.graph, gs[k].edge, x) ==>
                 x in h.graph.edges && EdgeRoom(h, x, false) == EdgeRoom(queried, x, false) - gs[k].rate
  {
    hide Query, Typed, Consistent, JobsOk, RoomOk, CreateAll, GoodGrants, AllOneOut, NodeRoom, EdgeRoom, Given, Total, Granted, Charge, Exact, Finish, Matchable, NoCoincidence, GrantRates, NonNegative;
    var a := Query(s, storage, rate);
    var queried, gs := s.(jobs := a.jobs), a.grants.value;
    var pairs := Finish(Start(GrantRates(gs), remote), false).pairs;
    QuerySafe(s, storage, rate);
    TypedBasics(s.graph);
    QueryRefinesProbe(s, storage, rate);
    GrantsGood(s, storage, rate);
    MatchAsWritten(GrantRates(gs), remote);
    PairsWithinShares(gs, remote);
    CreateAllRoom(queried, storage, gs, pairs, group);
    ExactTotal(gs, pairs, remote);
    forall k, x | 0 <= k < |gs| && OneOut(s.graph, gs[k].edge) && OnPath(s.graph, gs[k].edge, x)
      ensures x in s.graph.edges && Charge(s.graph, gs, pairs, x) == gs[k].rate
    {
      ChargeIsGiven(s.graph, storage, gs, pairs, k, x);
      ExactGiven(gs, pairs, remote, k);
    }
  }

  /**
   * On a safe site, an eviction raises the room of every storage and every edge that carries the job
   * by exactly its rate, and leaves every other as it was.
   */
  lemma EvictionRaisesSiteRoom(s: Site, id: JobId)
    requires Safe(s) && Runs(s.jobs, id, Extra)
    ensures var h := s.(jobs := Mark(s.jobs, id));
            && (forall r :: r in s.graph.nodes ==>
                  NodeRoom(h, r, false) == NodeRoom(s, r, false) + if id in s.graph.nodes[r].jobs then s.jobs[id].rate else 0.0)
            && (forall e :: e in s.graph.edges ==>
                  EdgeRoom(h, e, false) == EdgeRoom(s, e, false) + if id in s.graph.edges[e].jobs then s.jobs[id].rate else 0.0)
  {
    hide Typed, RoomOk, Room, NoDuplicates, Mark;
    var h := s.(jobs := Mark(s.jobs, id));
    forall r | r in s.graph.nodes
      ensures NodeRoom(h, r, false) == NodeRoom(s, r, false) + if id in s.graph.nodes[r].jobs then s.jobs[id].rate else 0.0
    {
      EvictionRaisesRoom(s.graph.nodes[r].cap, s.jobs, s.graph.nodes[r].jobs, id);
    }
    forall e | e in s.graph.edges
      ensures EdgeRoom(h, e, false) == EdgeRoom(s, e, false) + if id in s.graph.edges[e].jobs then s.jobs[id].rate else 0.0
    {
      EvictionRaisesRoom(s.graph.edges[e].cap, s.jobs, s.graph.edges[e].jobs, id);
    }
  }

  // ---- when probing throws ----

  /** The path behind a storage's edge is well formed exactly when its DTN has one gateway edge. */
  lemma OneOutIff(g: Graph, e: EdgeId)
    requires Typed(g) && e in g.edges && g.edges[e].src.Storage?
    ensures g.edges[e].dst.Dtn? && (OneOut(g, e) <==> |GatewayEdges(g, g.edges[e].dst.id)| == 1)
  {
    hide LinksUnique, NoDuplicates, NodeTyped, GatewayEdges;
    assert EdgeTyped(g.edges[e]) && EdgeListed(g, e);
    var d := g.edges[e].dst;
    OutListLength(g, d.id);
    assert OutsExact(g, d);
    if |g.nodes[d].outs| == 1 {
      assert g.nodes[d].outs[0] in g.nodes[d].outs;
    }
  }

  /** Some storage-DTN edge leads to a DTN without exactly one gateway edge. */
  ghost predicate Forked(g: Graph, storage: Id)
    requires Consistent(g) && Storage(storage) in g.nodes
  {
    exists e :: e in g.nodes[Storage(storage)].outs && e in g.edges && |GatewayEdges(g, g.edges[e].dst.id)| != 1
  }

  lemma ForkedIff(g: Graph, storage: Id)
    requires Typed(g) && Storage(storage) in g.nodes
    ensures AllOneOut(g, g.nodes[Storage(storage)].outs) <==> !Forked(g, storage)
  {
    hide OneOut, GatewayEdges, LinksUnique, NodeTyped, NoDuplicates;
    assert OutsExact(g, Storage(storage));
    forall e | e in g.nodes[Storage(storage)].outs
      ensures e in g.edges && (OneOut(g, e) <==> |GatewayEdges(g, g.edges[e].dst.id)| == 1)
    {
      OneOutIff(g, e);
    }
  }

  /**
   * Probing a storage of the site throws if and only if the storage itself does not refuse and one of
   * its DTNs does not have exactly one gateway edge.
   */
  lemma ProbeThrowsIff(s: Site, storage: Id, rate: real)
    requires Typed(s.graph) && Storage(storage) in s.graph.nodes
    ensures Probe(s, storage, rate) == None <==>
              && s.graph.nodes[Storage(storage)].cap >= rate
              && (NodeRoom(s, Storage(storage), true) > rate || NodeRoom(s, Storage(storage), false) > rate)
              && Forked(s.graph, storage)
  {
    hide Forked, AllOneOut, NodeRoom, PathSum;
    ForkedIff(s.graph, storage);
  }

  /** In terms of the history: one of its DTNs did not register exactly once since it was last absent. */
  lemma ForkedByHistory(steps: seq<Step>, storage: Id)
    requires AllAllowed(steps) && Typed(After(steps)) && Storage(storage) in After(steps).nodes
    ensures var g := After(steps);
            Forked(g, storage) <==>
              exists e :: e in g.nodes[Storage(storage)].outs && e in g.edges && Registrations(steps, g.edges[e].dst.id) != 1
  {
    hide GatewayEdges, AllAllowed, After, NodeTyped, Typed;
    var g := After(steps);
    forall d: Id
      ensures |GatewayEdges(g, d)| == Registrations(steps, d)
    {
      GatewayEdgesCount(steps, d);
    }
  }

  // ---- modules joining and leaving ----

  /** Every component of `h` is one of `g` with the same capacity and jobs, or a new one without jobs. */
  ghost predicate Inherits(g: Graph, h: Graph) {
    && (forall r :: r in h.nodes ==>
          || (r in g.nodes && h.nodes[r].cap == g.nodes[r].cap && h.nodes[r].jobs == g.nodes[r].jobs)
          || (h.nodes[r].cap >= 0.0 && h.nodes[r].jobs == []))
    && (forall e :: e in h.edges ==>
          || (e in g.edges && h.edges[e].cap == g.edges[e].cap && h.edges[e].jobs == g.edges[e].jobs)
          || (h.edges[e].cap >= 0.0 && h.edges[e].jobs == []))
  }

  lemma ConnectInherits(g: Graph, src: NodeRef, dst: NodeRef, cap: real)
    requires Consistent(g) && src in g.nodes && dst in g.nodes && cap >= 0.0
    ensures Inherits(g, Connect(g, src, dst, cap))
  {
    hide Consistent;
    NextIsNew(g);
  }

  lemma RemoveInherits(g: Graph, r: NodeRef)
    ensures Inherits(g, Remove(g, r))
  {
    hide Without;
  }

  lemma DelNodeInherits(g: Graph, id: Id)
    ensures Inherits(g, DelNode(g, id).graph)
  {
    hide Remove;
    if Target(g, id).Some? {
      RemoveInherits(g, Target(g, id).value);
    }
  }

  lemma TakeInherits(g: Graph, step: Step)
    requires Typed(g) && Allowed(g, step)
    ensures Inherits(g, Take(g, step))
  {
    hide Typed, Consistent, Connect, HasEdge, DelNode, AddEdgeToGateway, Find;
    TypedBasics(g);
    match step
    case Join(DtnModule(id, rate, _)) =>
      JoinConnects(g, id, rate);
      TypedBasics(AddNode(g, Dtn(id), id, 0.0));
      ConnectInherits(AddNode(g, Dtn(id), id, 0.0), Dtn(id), GATEWAY, rate);
    case Join(StorageModule(id)) =>
    case Join(LauncherModule(id)) =>
      DelNodeInherits(g, LAUNCHER_ID);
    case Join(SdnModule(id)) =>
      DelNodeInherits(g, SDN_ID);
    case Join(OtherModule(_)) =>
    case Link(storage, dtn) =>
      if !HasEdge(g, storage, dtn) && Find(g, storage).Some? && Find(g, dtn).Some? {
        ConnectInherits(g, Find(g, storage).value, Find(g, dtn).value, LINK_CAP);
      }
    case Leave(id) =>
      DelNodeInherits(g, id);
  }

  lemma InheritsSafe(s: Site, h: Graph)
    requires Safe(s) && Typed(h) && Inherits(s.graph, h)
    ensures Safe(Site(h, s.jobs))
  {
    hide Typed;
    var t := Site(h, s.jobs);
    forall r | r in h.nodes
      ensures ListOk(h.nodes[r].jobs, |s.jobs|) && (r.Storage? ==> NodeRoom(t, r, false) >= 0.0)
    {
      assert r in s.graph.nodes && r.Storage? ==> NodeRoom(s, r, false) >= 0.0;
    }
    forall e | e in h.edges
      ensures ListOk(h.edges[e].jobs, |s.jobs|) && EdgeRoom(t, e, false) >= 0.0
    {
      assert e in s.graph.edges ==> EdgeRoom(s, e, false) >= 0.0;
    }
  }

  /** Any sequence of allowed steps keeps a site safe, and so do the handlers that run them. */
  lemma {:induction false} StepsSafe(s: Site, steps: seq<Step>)
    requires Safe(s) && AllAllowedFrom(s.graph, steps)
    ensures Safe(s.(graph := TakeAll(s.graph, steps)))
  {
    hide Typed, JobsOk, RoomOk, Take, Allowed;
    if steps != [] {
      var init, step := steps[..|steps| - 1], steps[|steps| - 1];
      StepsSafe(s, init);
      var before := s.(graph := TakeAll(s.graph, init));
      TakeTyped(before.graph, step);
      TakeInherits(before.graph, step);
      InheritsSafe(before, Take(before.graph, step));
    }
  }

  lemma AddModulesSafe(s: Site, ms: seq<Module>)
    requires Safe(s) && ModulesOk(s.graph, ms)
    ensures !RegisterAll(s.graph, ms).thrown && Safe(s.(graph := LinkAll(RegisterAll(s.graph, ms).graph, ms)))
  {
    hide JobsOk, RoomOk, ModulesOk, RegisterAll, LinkAll, TakeAll, AllAllowedFrom;
    AddModulesIsRun(s.graph, ms);
    StepsSafe(s, AddSteps(ms));
  }

  lemma DelModulesSafe(s: Site, ids: seq<Id>)
    requires Safe(s) && GATEWAY_ID !in ids
    ensures Safe(s.(graph := DeleteAll(s.graph, ids).graph))
  {
    hide JobsOk, RoomOk, Typed, DeleteAll, TakeAll, AllAllowedFrom;
    DeleteAllIsRun(s.graph, ids);
    LeavesAllowed(s.graph, BeforeGateway(ids));
    StepsSafe(s, LeaveSteps(BeforeGateway(ids)));
  }

  // ---- any history ----

  datatype Act = Modules(step: Step) | Admission(storage: Id, rate: real, group: Group, remote: seq<real>)

  ghost predicate Permitted(s: Site, a: Act) {
    match a
    case Modules(step) => Allowed(s.graph, step)
    case Admission(_, rate, _, remote) => rate >= 0.0 && NonNegative(remote)
  }

  ghost function Perform(s: Site, a: Act): Site
    requires Safe(s) && Permitted(s, a)
  {
    match a
    case Modules(step) => s.(graph := Take(s.graph, step))
    case Admission(storage, rate, group, remote) => Admit(s, storage, rate, group, remote)
  }

  lemma PerformSafe(s: Site, a: Act)
    requires Safe(s) && Permitted(s, a)
    ensures Safe(Perform(s, a))
  {
    hide JobsOk, RoomOk, Typed, Take, Admit, Allowed;
    match a
    case Modules(step) =>
      TakeTyped(s.graph, step);
      TakeInherits(s.graph, step);
      InheritsSafe(s, Take(s.graph, step));
    case Admission(storage, rate, group, remote) =>
      AdmitSafe(s, storage, rate, group, remote);
  }

  /**
   * A history: the site before and after each act, each act permitted where it happens. An act has a
   * meaning only on a safe site, so the step is stated for those; that every site is one is proved.
   */
  ghost predicate History(sites: seq<Site>, acts: seq<Act>) {
    && |sites| == |acts| + 1 && sites[0] == Site(BOOT, [])
    && forall k :: 0 <= k < |acts| ==>
         Safe(sites[k]) ==> Permitted(sites[k], acts[k]) && sites[k + 1] == Perform(sites[k], acts[k])
  }

  lemma HistoryStep(sites: seq<Site>, acts: seq<Act>, k: nat)
    requires History(sites, acts) && k < |acts| && Safe(sites[k])
    ensures Permitted(sites[k], acts[k]) && sites[k + 1] == Perform(sites[k], acts[k])
  {}

  /**
   * Over every history from an empty site, at every moment, the running jobs on every storage and
   * every edge add up to at most its capacity.
   */
  lemma {:induction false} CapacitySafety(sites: seq<Site>, acts: seq<Act>, k: nat)
    requires History(sites, acts) && k < |sites|
    ensures Safe(sites[k])
    ensures forall r :: r in sites[k].graph.nodes && r.Storage? ==>
              var n := sites[k].graph.nodes[r]; Sum(sites[k].jobs, n.jobs, Extra) + Sum(sites[k].jobs, n.jobs, Base) <= n.cap
    ensures forall x :: x in sites[k].graph.edges ==>
              var e := sites[k].graph.edges[x]; Sum(sites[k].jobs, e.jobs, Extra) + Sum(sites[k].jobs, e.jobs, Base) <= e.cap
  {
    hide Typed, Sum, JobsOk, Admit, Take, Allowed, NonNegative;
    if k == 0 {
      BootSafe();
    } else {
      var j := k - 1;
      CapacitySafety(sites, acts, j);
      HistoryStep(sites, acts, j);
      PerformSafe(sites[j], acts[j]);
    }
    RoomMeansCapacity(sites[k]);
  }

  lemma BootSafe()
    ensures Safe(Site(BOOT, []))
  {
    hide Typed;
    BootTyped("");
    assert BOOT.nodes.Keys == {GATEWAY} && BOOT.edges == map[];
  }

  lemma RoomMeansCapacity(s: Site)
    requires RoomOk(s)
    ensures forall r :: r in s.graph.nodes && r.Storage? ==>
              var n := s.graph.nodes[r]; Sum(s.jobs, n.jobs, Extra) + Sum(s.jobs, n.jobs, Base) <= n.cap
    ensures forall x :: x in s.graph.edges ==>
              var e := s.graph.edges[x]; Sum(s.jobs, e.jobs, Extra) + Sum(s.jobs, e.jobs, Base) <= e.cap
  {
    hide Sum;
    forall r | r in s.graph.nodes && r.Storage?
      ensures var n := s.graph.nodes[r]; Sum(s.jobs, n.jobs, Extra) + Sum(s.jobs, n.jobs, Base) <= n.cap
    {
      assert NodeRoom(s, r, false) >= 0.0;
    }
    forall x | x in s.graph.edges
      ensures var e := s.graph.edges[x]; Sum(s.jobs, e.jobs, Extra) + Sum(s.jobs, e.jobs, Base) <= e.cap
    {
      assert EdgeRoom(s, x, false) >= 0.0;
    }
  }
}
