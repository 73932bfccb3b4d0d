/**
 * Bandwidth admission at one site (server/resourcemanager.cc with the job sums of
 * server/resourcegraph.cc): probing a path, evicting extra jobs, provisioning DTNs. Rates are
 * reals. A job is known by its place in the job table, and a node or edge lists the jobs it
 * carries; changing a job's state is therefore seen by every node and edge that lists it.
 */
module Admission {
  import opened Collections
  import opened ResourceGraph

  datatype Group = Base | Extra
  datatype JobState = Running | Stopped | Finished | Reserved | MarkedForPrealloc
  datatype Job = Job(group: Group, state: JobState, rate: real)
  datatype Site = Site(graph: Graph, jobs: seq<Job>)

  // ---- what a component carries ----

  predicate Runs(jobs: seq<Job>, id: JobId, group: Group) {
    id < |jobs| && jobs[id].state == Running && jobs[id].group == group
  }

  function RunRate(jobs: seq<Job>, id: JobId, group: Group): real {
    if Runs(jobs, id, group) then jobs[id].rate else 0.0
  }

  /** sum_re (Extra) and sum_rb (Base). */
  function Sum(jobs: seq<Job>, ids: seq<JobId>, group: Group): real {
    if ids == [] then 0.0
    else Sum(jobs, ids[..|ids| - 1], group) + RunRate(jobs, ids[|ids| - 1], group)
  }

  /** What the running jobs leave of a capacity; with `freed`, what they would leave without extra jobs. */
  function Room(cap: real, jobs: seq<Job>, ids: seq<JobId>, freed: bool): real {
    cap - (if freed then 0.0 else Sum(jobs, ids, Extra)) - Sum(jobs, ids, Base)
  }

  function EdgeRoom(s: Site, e: EdgeId, freed: bool): real
    requires e in s.graph.edges
  {
    Room(s.graph.edges[e].cap, s.jobs, s.graph.edges[e].jobs, freed)
  }

  function NodeRoom(s: Site, r: NodeRef, freed: bool): real
    requires r in s.graph.nodes
  {
    Room(s.graph.nodes[r].cap, s.jobs, s.graph.nodes[r].jobs, freed)
  }

  // ---- probe_path_rate ----

  /** The storage-DTN edge leads to a node with exactly one outgoing edge. */
  predicate OneOut(g: Graph, e: EdgeId) {
    && e in g.edges && g.edges[e].dst in g.nodes
    && |g.nodes[g.edges[e].dst].outs| == 1 && g.nodes[g.edges[e].dst].outs[0] in g.edges
  }

  predicate AllOneOut(g: Graph, es: seq<EdgeId>) {
    forall e :: e in es ==> OneOut(g, e)
  }

  /** The DTN-gateway edge behind a storage-DTN edge. */
  function Down(g: Graph, e: EdgeId): EdgeId
    requires OneOut(g, e)
  {
    g.nodes[g.edges[e].dst].outs[0]
  }

  function Min(a: real, b: real): real {
    if a < b then a else b
  }

  /** A path below 1000 counts for nothing. */
  function Usable(rate: real): real {
    if rate < 1000.0 then 0.0 else rate
  }

  function PathRoom(s: Site, e: EdgeId, freed: bool): real
    requires OneOut(s.graph, e)
  {
    Min(EdgeRoom(s, e, freed), EdgeRoom(s, Down(s.graph, e), freed))
  }

  function PathSum(s: Site, es: seq<EdgeId>, freed: bool): real
    requires AllOneOut(s.graph, es)
  {
    if es == [] then 0.0
    else PathSum(s, es[..|es| - 1], freed) + Usable(PathRoom(s, es[|es| - 1], freed))
  }

  /** The code probe_path_rate returns, or None where it throws. */
  function Probe(s: Site, storage: Id, rate: real): Option<int> {
    if Storage(storage) !in s.graph.nodes then None
    else
      var n := s.graph.nodes[Storage(storage)];
      if n.cap < rate then Some(4)
      else if NodeRoom(s, Storage(storage), true) <= rate && NodeRoom(s, Storage(storage), false) <= rate then Some(3)
      else if !AllOneOut(s.graph, n.outs) then None
      else if PathSum(s, n.outs, false) > rate then
        Some(if NodeRoom(s, Storage(storage), false) > rate then 1 else 2)
      else if PathSum(s, n.outs, true) > rate then Some(2)
      else Some(3)
  }

  // ---- evicting extra jobs ----

  /** find_largest_re_job: None where it throws. */
  function Largest(jobs: seq<Job>, ids: seq<JobId>): (r: Option<JobId>)
    ensures r.Some? ==> r.value in ids && Runs(jobs, r.value, Extra)
    ensures r.Some? ==> forall id :: id in ids && Runs(jobs, id, Extra) ==> jobs[id].rate <= jobs[r.value].rate
    ensures r.None? ==> forall id :: id in ids && Runs(jobs, id, Extra) ==> jobs[id].rate <= -1.0
    ensures r.Some? ==> jobs[r.value].rate > -1.0
  {
    if ids == [] then None
    else
      var r, id := Largest(jobs, ids[..|ids| - 1]), ids[|ids| - 1];
      assert forall x :: x in ids <==> x in ids[..|ids| - 1] || x == id;
      if Runs(jobs, id, Extra) && jobs[id].rate > (if r.Some? then jobs[r.value].rate else -1.0) then Some(id) else r
  }

  function Mark(jobs: seq<Job>, id: JobId): seq<Job>
    requires id < |jobs|
  {
    jobs[id := jobs[id].(state := MarkedForPrealloc)]
  }

  /** How many of the listed jobs are running extra jobs. */
  function Extras(jobs: seq<Job>, ids: seq<JobId>): nat {
    if ids == [] then 0
    else Extras(jobs, ids[..|ids| - 1]) + if Runs(jobs, ids[|ids| - 1], Extra) then 1 else 0
  }

  lemma {:induction false} MarkDropsCount(jobs: seq<Job>, ids: seq<JobId>, id: JobId)
    requires Runs(jobs, id, Extra)
    ensures Extras(Mark(jobs, id), ids) <= Extras(jobs, ids)
    ensures id in ids ==> Extras(Mark(jobs, id), ids) < Extras(jobs, ids)
  {
    if ids != [] {
      MarkDropsCount(jobs, ids[..|ids| - 1], id);
    }
  }

  /** Enough: a probe returned 1. NoJobs: the storage lists no job. Threw: a probe or the search threw. */
  datatype Verdict = Enough | NoJobs | Threw
  datatype Eviction = Eviction(jobs: seq<Job>, evicted: seq<JobId>, verdict: Verdict)

  /** The loop at the head of query_path_dtns. Its test for code 3 is never true, so it has no such exit. */
  function Evict(s: Site, storage: Id, rate: real): Eviction
    requires Storage(storage) in s.graph.nodes
    decreases Extras(s.jobs, s.graph.nodes[Storage(storage)].jobs)
  {
    var ids := s.graph.nodes[Storage(storage)].jobs;
    var p := Probe(s, storage, rate);
    if p == None then Eviction(s.jobs, [], Threw)
    else if p == Some(1) then Eviction(s.jobs, [], Enough)
    else if ids == [] then Eviction(s.jobs, [], NoJobs)
    else
      var l := Largest(s.jobs, ids);
      if l.None? then Eviction(s.jobs, [], Threw)
      else
        MarkDropsCount(s.jobs, ids, l.value);
        var r := Evict(s.(jobs := Mark(s.jobs, l.value)), storage, rate);
        r.(evicted := [l.value] + r.evicted)
  }

  ghost function MarkAll(jobs: seq<Job>, ids: seq<JobId>): (r: seq<Job>)
    requires forall id :: id in ids ==> id < |jobs|
    ensures |r| == |jobs|
    ensures forall k :: 0 <= k < |jobs| ==>
              r[k] == if k in ids then jobs[k].(state := MarkedForPrealloc) else jobs[k]
  {
    seq(|jobs|, k requires 0 <= k < |jobs| => if k in ids then jobs[k].(state := MarkedForPrealloc) else jobs[k])
  }

  /** Evicted jobs, in order: distinct running extra jobs of the storage, the largest first. */
  ghost predicate GoodVictims(jobs: seq<Job>, ids: seq<JobId>, evicted: seq<JobId>) {
    && NoDuplicates(evicted)
    && (forall x :: 0 <= x < |evicted| ==> evicted[x] in ids && Runs(jobs, evicted[x], Extra))
    && (forall x, y :: 0 <= x < y < |evicted| ==> jobs[evicted[x]].rate >= jobs[evicted[y]].rate)
  }

  lemma VictimFirst(jobs: seq<Job>, ids: seq<JobId>, id: JobId, rest: seq<JobId>)
    requires Largest(jobs, ids) == Some(id) && GoodVictims(Mark(jobs, id), ids, rest)
    ensures GoodVictims(jobs, ids, [id] + rest)
  {
    hide Largest;
    assert id !in rest;
    forall x | 0 <= x < |rest|
      ensures rest[x] in ids && Runs(jobs, rest[x], Extra) && jobs[id].rate >= jobs[rest[x]].rate
    {
      assert Runs(Mark(jobs, id), rest[x], Extra);
    }
  }

  /**
   * The eviction loop ends after at most as many rounds as the storage has running extra jobs; its
   * victims are such jobs, each once, in non-increasing order of rate; it changes nothing but their
   * state, so no base job and no job elsewhere.
   */
  lemma {:induction false} EvictionOrder(s: Site, storage: Id, rate: real)
    requires Storage(storage) in s.graph.nodes
    ensures var ids := s.graph.nodes[Storage(storage)].jobs;
            var r := Evict(s, storage, rate);
            && |r.evicted| <= Extras(s.jobs, ids)
            && GoodVictims(s.jobs, ids, r.evicted)
            && (forall id :: id in r.evicted ==> id < |s.jobs|)
            && r.jobs == MarkAll(s.jobs, r.evicted)
    decreases Extras(s.jobs, s.graph.nodes[Storage(storage)].jobs)
  {
    hide Probe, Extras, NoDuplicates, GoodVictims;
    var ids := s.graph.nodes[Storage(storage)].jobs;
    var r := Evict(s, storage, rate);
    if r.evicted == [] {
      NoVictims(s.jobs, ids);
      assert r.jobs == MarkAll(s.jobs, []);
    } else {
      var l := Largest(s.jobs, ids).value;
      MarkDropsCount(s.jobs, ids, l);
      var s1 := s.(jobs := Mark(s.jobs, l));
      EvictionOrder(s1, storage, rate);
      var rest := Evict(s1, storage, rate).evicted;
      VictimFirst(s.jobs, ids, l, rest);
      assert r.evicted == [l] + rest;
      assert r.jobs == MarkAll(s.jobs, [l] + rest);
    }
  }

  lemma NoVictims(jobs: seq<Job>, ids: seq<JobId>)
    ensures GoodVictims(jobs, ids, [])
  {}

  /** One eviction raises the room of every component that lists the job by its rate, and of no other. */
  lemma {:induction false} MarkRaises(jobs: seq<Job>, ids: seq<JobId>, id: JobId)
    requires Runs(jobs, id, Extra) && NoDuplicates(ids)
    ensures Sum(Mark(jobs, id), ids, Extra) == Sum(jobs, ids, Extra) - if id in ids then jobs[id].rate else 0.0
    ensures Sum(Mark(jobs, id), ids, Base) == Sum(jobs, ids, Base)
  {
    if ids != [] {
      var init := ids[..|ids| - 1];
      MarkRaises(jobs, init, id);
      assert forall x :: x in ids <==> x in init || x == ids[|ids| - 1];
    }
  }

  lemma EvictionRaisesRoom(cap: real, jobs: seq<Job>, ids: seq<JobId>, id: JobId)
    requires Runs(jobs, id, Extra) && NoDuplicates(ids)
    ensures Room(cap, Mark(jobs, id), ids, false) == Room(cap, jobs, ids, false) + if id in ids then jobs[id].rate else 0.0
    ensures Room(cap, Mark(jobs, id), ids, true) == Room(cap, jobs, ids, true)
  {
    MarkRaises(jobs, ids, id);
  }

  // ---- when a query can be served ----

  ghost predicate RatesOk(jobs: seq<Job>) {
    forall k :: 0 <= k < |jobs| ==> jobs[k].rate >= 0.0
  }

  /** `after` is `before` with some running extra jobs marked. */
  ghost predicate Relaxes(before: seq<Job>, after: seq<Job>) {
    && |after| == |before|
    && forall k :: 0 <= k < |before| ==>
         after[k] == before[k] || (Runs(before, k, Extra) && after[k] == before[k].(state := MarkedForPrealloc))
  }

  lemma {:induction false} RelaxedSums(before: seq<Job>, after: seq<Job>, ids: seq<JobId>)
    requires Relaxes(before, after) && RatesOk(before)
    ensures Sum(after, ids, Extra) <= Sum(before, ids, Extra)
    ensures Sum(after, ids, Base) == Sum(before, ids, Base)
  {
    if ids != [] {
      RelaxedSums(before, after, ids[..|ids| - 1]);
      var id := ids[|ids| - 1];
      assert id < |before| ==> after[id] == before[id] || Runs(before, id, Extra);
    }
  }

  lemma {:induction false} RelaxedPaths(s: Site, jobs: seq<Job>, es: seq<EdgeId>)
    requires Relaxes(s.jobs, jobs) && RatesOk(s.jobs) && AllOneOut(s.graph, es)
    ensures PathSum(s.(jobs := jobs), es, false) >= PathSum(s, es, false)
  {
    if es != [] {
      var e := es[|es| - 1];
      assert OneOut(s.graph, e);
      RelaxedPaths(s, jobs, es[..|es| - 1]);
      RelaxedSums(s.jobs, jobs, s.graph.edges[e].jobs);
      RelaxedSums(s.jobs, jobs, s.graph.edges[Down(s.graph, e)].jobs);
    }
  }

  /** Marking extra jobs never turns an admission into a refusal, nor a throw into anything else. */
  lemma RelaxedProbe(s: Site, storage: Id, rate: real, jobs: seq<Job>)
    requires Relaxes(s.jobs, jobs) && RatesOk(s.jobs)
    ensures Probe(s, storage, rate) == Some(1) ==> Probe(s.(jobs := jobs), storage, rate) == Some(1)
    ensures Probe(s, storage, rate) == None <==> Probe(s.(jobs := jobs), storage, rate) == None
  {
    if Storage(storage) in s.graph.nodes {
      var n := s.graph.nodes[Storage(storage)];
      RelaxedSums(s.jobs, jobs, n.jobs);
      ExtrasNonNegative(s.jobs, n.jobs);
      ExtrasNonNegative(jobs, n.jobs);
      if AllOneOut(s.graph, n.outs) {
        RelaxedPaths(s, jobs, n.outs);
      }
    }
  }

  lemma {:induction false} ExtrasNonNegative(jobs: seq<Job>, ids: seq<JobId>)
    requires RatesOk(jobs)
    ensures Sum(jobs, ids, Extra) >= 0.0
  {
    if ids != [] {
      ExtrasNonNegative(jobs, ids[..|ids| - 1]);
    }
  }

  /** Every running extra job of the site marked. */
  ghost function Cleared(jobs: seq<Job>): (r: seq<Job>)
    ensures |r| == |jobs|
    ensures forall k :: 0 <= k < |jobs| ==>
              r[k] == if Runs(jobs, k, Extra) then jobs[k].(state := MarkedForPrealloc) else jobs[k]
  {
    seq(|jobs|, k requires 0 <= k < |jobs| => if Runs(jobs, k, Extra) then jobs[k].(state := MarkedForPrealloc) else jobs[k])
  }

  lemma {:induction false} ClearedSums(jobs: seq<Job>, ids: seq<JobId>)
    ensures Sum(Cleared(jobs), ids, Extra) == 0.0 && Sum(Cleared(jobs), ids, Base) == Sum(jobs, ids, Base)
  {
    if ids != [] {
      ClearedSums(jobs, ids[..|ids| - 1]);
    }
  }

  /** The figures with extra jobs discounted are the figures of the site without them, and no lower than now. */
  lemma {:induction false} ClearedPaths(s: Site, es: seq<EdgeId>)
    requires AllOneOut(s.graph, es) && RatesOk(s.jobs)
    ensures PathSum(s.(jobs := Cleared(s.jobs)), es, false) == PathSum(s, es, true)
    ensures PathSum(s, es, false) <= PathSum(s, es, true)
  {
    hide Sum;
    if es != [] {
      var e := es[|es| - 1];
      assert OneOut(s.graph, e);
      ClearedPaths(s, es[..|es| - 1]);
      forall x | x in {e, Down(s.graph, e)}
        ensures EdgeRoom(s.(jobs := Cleared(s.jobs)), x, false) == EdgeRoom(s, x, true) >= EdgeRoom(s, x, false)
      {
        ClearedSums(s.jobs, s.graph.edges[x].jobs);
        ExtrasNonNegative(s.jobs, s.graph.edges[x].jobs);
      }
    }
  }

  /**
   * What the codes tell a caller: 4, the rate exceeds the storage's capacity; 1 or 2, it could be
   * admitted if no extra job were running at the site; 3, it could not.
   */
  lemma ProbeCodes(s: Site, storage: Id, rate: real)
    requires Storage(storage) in s.graph.nodes && RatesOk(s.jobs)
    ensures var code, best := Probe(s, storage, rate), Probe(s.(jobs := Cleared(s.jobs)), storage, rate);
            && (code == Some(4) <==> s.graph.nodes[Storage(storage)].cap < rate)
            && (code == Some(1) || code == Some(2) <==> best == Some(1))
            && (code == Some(3) <==> s.graph.nodes[Storage(storage)].cap >= rate && best != None && best != Some(1))
  {
    hide Sum, PathSum;
    var n := s.graph.nodes[Storage(storage)];
    ClearedSums(s.jobs, n.jobs);
    ExtrasNonNegative(s.jobs, n.jobs);
    if AllOneOut(s.graph, n.outs) {
      ClearedPaths(s, n.outs);
    }
  }

  /** Every running extra job of the storage marked. */
  ghost function Emptied(jobs: seq<Job>, ids: seq<JobId>): (r: seq<Job>)
    ensures |r| == |jobs|
    ensures forall k :: 0 <= k < |jobs| ==>
              r[k] == if k in ids && Runs(jobs, k, Extra) then jobs[k].(state := MarkedForPrealloc) else jobs[k]
  {
    seq(|jobs|, k requires 0 <= k < |jobs| =>
      if k in ids && Runs(jobs, k, Extra) then jobs[k].(state := MarkedForPrealloc) else jobs[k])
  }

  lemma EmptiedAfterMark(jobs: seq<Job>, ids: seq<JobId>, id: JobId)
    requires Runs(jobs, id, Extra) && id in ids
    ensures Emptied(Mark(jobs, id), ids) == Emptied(jobs, ids)
  {}

  /**
   * The eviction loop finds the room if and only if the room would be there with every extra job of
   * the storage gone. Otherwise, unless probing throws, it has evicted every one of them in vain.
   */
  lemma {:induction false} EvictionServes(s: Site, storage: Id, rate: real)
    requires Storage(storage) in s.graph.nodes && RatesOk(s.jobs)
    ensures var all := Emptied(s.jobs, s.graph.nodes[Storage(storage)].jobs);
            var r := Evict(s, storage, rate);
            && (r.verdict == Enough <==> Probe(s.(jobs := all), storage, rate) == Some(1))
            && (r.verdict == Enough ==> Probe(s.(jobs := r.jobs), storage, rate) == Some(1))
            && (r.verdict != Enough && Probe(s, storage, rate) != None ==> r.jobs == all)
            && (Probe(s, storage, rate) == None ==> r.jobs == s.jobs)
    decreases Extras(s.jobs, s.graph.nodes[Storage(storage)].jobs)
  {
    hide Probe, Extras;
    var ids := s.graph.nodes[Storage(storage)].jobs;
    var all := Emptied(s.jobs, ids);
    RelaxedProbe(s, storage, rate, all);
    var p := Probe(s, storage, rate);
    if p == None || p == Some(1) {
    } else if Largest(s.jobs, ids).None? {
      assert all == s.jobs;
    } else {
      var l := Largest(s.jobs, ids).value;
      MarkDropsCount(s.jobs, ids, l);
      EmptiedAfterMark(s.jobs, ids, l);
      RelaxedProbe(s, storage, rate, Mark(s.jobs, l));
      EvictionServes(s.(jobs := Mark(s.jobs, l)), storage, rate);
    }
  }

  /** Somebody is evicted unless the first probe admits or throws, or there is no extra job to evict. */
  lemma EvictsNothingIff(s: Site, storage: Id, rate: real)
    requires Storage(storage) in s.graph.nodes
    ensures var r := Evict(s, storage, rate);
            && (r.evicted == [] <==>
                  || Probe(s, storage, rate) == None || Probe(s, storage, rate) == Some(1)
                  || Largest(s.jobs, s.graph.nodes[Storage(storage)].jobs).None?)
            && (r.evicted == [] ==> r.jobs == s.jobs)
            && (Probe(s, storage, rate) == Some(1) ==> r.verdict == Enough && r.evicted == [])
            && (Probe(s, storage, rate) != Some(1) && r.evicted == [] ==> r.verdict != Enough)
  {
    hide Probe, Extras;
    var ids := s.graph.nodes[Storage(storage)].jobs;
    if Largest(s.jobs, ids).Some? {
      assert ids != [];
    }
  }

  // ---- provisioning DTNs ----

  /** A share of the request, on the path that starts with the given storage-DTN edge. */
  datatype Grant = Grant(edge: EdgeId, rate: real)

  /** The greedy loop of query_path_dtns over the storage's edges. */
  function Provision(s: Site, es: seq<EdgeId>, remaining: real): seq<Grant>
    requires AllOneOut(s.graph, es)
  {
    if es == [] then []
    else
      assert OneOut(s.graph, es[0]);
      var room := PathRoom(s, es[0], false);
      if room < 1000.0 then Provision(s, es[1..], remaining)
      else if room > remaining then [Grant(es[0], remaining)]
      else [Grant(es[0], room)] + Provision(s, es[1..], remaining - room)
  }

  ghost function Granted(gs: seq<Grant>): real {
    if gs == [] then 0.0 else gs[0].rate + Granted(gs[1..])
  }

  /** The grants use edges of `es`, each at most once, and no more than the path has. */
  ghost predicate GoodGrants(s: Site, es: seq<EdgeId>, gs: seq<Grant>)
    requires AllOneOut(s.graph, es)
  {
    && (forall x :: 0 <= x < |gs| ==> gs[x].edge in es && 0.0 <= gs[x].rate <= PathRoom(s, gs[x].edge, false))
    && (forall x, y :: 0 <= x < y < |gs| ==> gs[x].edge != gs[y].edge)
  }

  /** The sum of usable path rates, from the front. */
  lemma {:induction false} PathSumFront(s: Site, es: seq<EdgeId>)
    requires AllOneOut(s.graph, es) && es != []
    ensures PathSum(s, es, false) == Usable(PathRoom(s, es[0], false)) + PathSum(s, es[1..], false)
  {
    var init, last := es[..|es| - 1], es[|es| - 1];
    if init == [] {
      assert PathSum(s, init, false) == 0.0 && PathSum(s, es[1..], false) == 0.0;
    } else {
      PathSumFront(s, init);
      assert es[1..][..|es| - 2] == init[1..];
      assert es[1..][|es| - 2] == last;
    }
  }

  lemma NoPaths(s: Site)
    ensures AllOneOut(s.graph, []) && PathSum(s, [], false) == 0.0
  {}

  /**
   * The greedy allocator refines the probe: when the probe's sum exceeds the request, what it hands
   * out adds up to the request exactly, on distinct edges, within both edges of every path.
   */
  lemma {:induction false} ProvisionExact(s: Site, es: seq<EdgeId>, remaining: real)
    requires AllOneOut(s.graph, es) && NoDuplicates(es)
    requires 0.0 <= remaining < PathSum(s, es, false)
    ensures var gs := Provision(s, es, remaining);
            gs != [] && Granted(gs) == remaining && GoodGrants(s, es, gs)
  {
    hide PathRoom, PathSum, OneOut, GoodGrants, Granted, NoDuplicates;
    if es == [] {
      NoPaths(s);
    } else {
      RestOfPaths(s, es);
      PathSumFront(s, es);
      var rest, room := es[1..], PathRoom(s, es[0], false);
      if room < 1000.0 {
        ProvisionExact(s, rest, remaining);
        SkipPath(s, es, Provision(s, rest, remaining));
      } else if room <= remaining {
        ProvisionExact(s, rest, remaining - room);
        FrontGrant(s, es, Grant(es[0], room), Provision(s, rest, remaining - room));
      } else {
        NoGrants(s, rest);
        FrontGrant(s, es, Grant(es[0], remaining), []);
        assert [Grant(es[0], remaining)] + [] == [Grant(es[0], remaining)];
      }
    }
  }

  lemma RestOfPaths(s: Site, es: seq<EdgeId>)
    requires AllOneOut(s.graph, es) && NoDuplicates(es) && es != []
    ensures OneOut(s.graph, es[0]) && AllOneOut(s.graph, es[1..]) && NoDuplicates(es[1..]) && es[0] !in es[1..]
  {
    hide OneOut;
    assert es[0] in es;
  }

  lemma NoGrants(s: Site, es: seq<EdgeId>)
    requires AllOneOut(s.graph, es)
    ensures GoodGrants(s, es, []) && Granted([]) == 0.0
  {}

  lemma SkipPath(s: Site, es: seq<EdgeId>, gs: seq<Grant>)
    requires es != [] && AllOneOut(s.graph, es) && AllOneOut(s.graph, es[1..]) && GoodGrants(s, es[1..], gs)
    ensures GoodGrants(s, es, gs)
  {
    hide PathRoom, OneOut;
  }

  /** A grant on the first path, in front of good grants on the others. */
  lemma FrontGrant(s: Site, es: seq<EdgeId>, g: Grant, gs: seq<Grant>)
    requires es != [] && AllOneOut(s.graph, es) && AllOneOut(s.graph, es[1..]) && es[0] !in es[1..]
    requires g.edge == es[0] && OneOut(s.graph, g.edge) && 0.0 <= g.rate <= PathRoom(s, g.edge, false)
    requires GoodGrants(s, es[1..], gs)
    ensures GoodGrants(s, es, [g] + gs) && Granted([g] + gs) == g.rate + Granted(gs)
  {
    hide PathRoom, OneOut;
    assert ([g] + gs)[1..] == gs;
  }

  datatype Answer = Answer(jobs: seq<Job>, grants: Option<seq<Grant>>)

  /** query_path_dtns: the job table it leaves, and the list it returns (None where it throws). */
  function Query(s: Site, storage: Id, rate: real): Answer {
    if Storage(storage) !in s.graph.nodes then Answer(s.jobs, None)
    else
      var r := Evict(s, storage, rate);
      match r.verdict
      case Threw => Answer(r.jobs, None)
      case NoJobs => Answer(r.jobs, Some([]))
      case Enough =>
        EnoughMeansProbed(s, storage, rate);
        Answer(r.jobs, Some(Provision(s.(jobs := r.jobs), s.graph.nodes[Storage(storage)].outs, rate)))
  }

  /** When it says Enough, the last probe returned 1, whatever the rates. */
  lemma {:induction false} EnoughMeansProbed(s: Site, storage: Id, rate: real)
    requires Storage(storage) in s.graph.nodes && Evict(s, storage, rate).verdict == Enough
    ensures Probe(s.(jobs := Evict(s, storage, rate).jobs), storage, rate) == Some(1)
    decreases Extras(s.jobs, s.graph.nodes[Storage(storage)].jobs)
  {
    hide Probe, Extras;
    var ids := s.graph.nodes[Storage(storage)].jobs;
    if Probe(s, storage, rate) != Some(1) {
      var l := Largest(s.jobs, ids).value;
      MarkDropsCount(s.jobs, ids, l);
      EnoughMeansProbed(s.(jobs := Mark(s.jobs, l)), storage, rate);
    }
  }

  /**
   * What a nonempty answer promises for a request of at least zero: shares that add up to exactly
   * the request, one per DTN, within the room both edges have after the evictions; and the storage
   * has more room than was asked for.
   */
  lemma QueryRefinesProbe(s: Site, storage: Id, rate: real)
    requires Consistent(s.graph) && rate >= 0.0
    requires var a := Query(s, storage, rate); a.grants.Some? && a.grants.value != []
    ensures var a := Query(s, storage, rate);
            var after := s.(jobs := a.jobs);
            && Storage(storage) in s.graph.nodes
            && AllOneOut(s.graph, s.graph.nodes[Storage(storage)].outs)
            && GoodGrants(after, s.graph.nodes[Storage(storage)].outs, a.grants.value)
            && Granted(a.grants.value) == rate
            && NodeRoom(after, Storage(storage), false) > rate
  {
    hide Evict, Provision, PathSum;
    EnoughMeansProbed(s, storage, rate);
    var after := s.(jobs := Query(s, storage, rate).jobs);
    assert OutsExact(s.graph, Storage(storage));
    ProvisionExact(after, s.graph.nodes[Storage(storage)].outs, rate);
  }

  /** Code 1 promises a caller exactly this: a query for that rate would be served, and evict nobody. */
  lemma ProbeAdmits(s: Site, storage: Id, rate: real)
    requires Consistent(s.graph) && rate >= 0.0
    ensures Probe(s, storage, rate) == Some(1) <==>
              var a := Query(s, storage, rate); a.grants.Some? && a.grants.value != [] && a.jobs == s.jobs
  {
    hide Evict, Provision, PathSum;
    if Storage(storage) in s.graph.nodes {
      EvictsNothingIff(s, storage, rate);
      var r := Evict(s, storage, rate);
      if r.verdict == Enough {
        EnoughMeansProbed(s, storage, rate);
      }
      if Probe(s, storage, rate) == Some(1) {
        assert OutsExact(s.graph, Storage(storage));
        ProvisionExact(s, s.graph.nodes[Storage(storage)].outs, rate);
      }
    }
  }

  /** A request of at least zero is answered with a nonempty list exactly when evicting would help. */
  lemma QueryServedIff(s: Site, storage: Id, rate: real)
    requires Consistent(s.graph) && rate >= 0.0 && RatesOk(s.jobs) && Storage(storage) in s.graph.nodes
    ensures var a := Query(s, storage, rate);
            var all := Emptied(s.jobs, s.graph.nodes[Storage(storage)].jobs);
            (a.grants.Some? && a.grants.value != []) <==> Probe(s.(jobs := all), storage, rate) == Some(1)
  {
    hide Evict, Provision, PathSum, Emptied;
    EvictionServes(s, storage, rate);
    var r := Evict(s, storage, rate);
    if r.verdict == Enough {
      assert OutsExact(s.graph, Storage(storage));
      ProvisionExact(s.(jobs := r.jobs), s.graph.nodes[Storage(storage)].outs, rate);
    }
  }

  /** At a storage whose DTNs have all left, every request is hopeless, and still evicts every extra job there. */
  lemma DeadEndEvicts(s: Site, storage: Id, rate: real)
    requires Storage(storage) in s.graph.nodes && s.graph.nodes[Storage(storage)].outs == []
    requires RatesOk(s.jobs) && rate >= 0.0
    ensures Probe(s, storage, rate) in {Some(3), Some(4)}
    ensures var a := Query(s, storage, rate);
            && a.jobs == Emptied(s.jobs, s.graph.nodes[Storage(storage)].jobs)
            && (a.grants == None || a.grants == Some([]))
  {
    hide Evict, Sum;
    var all := Emptied(s.jobs, s.graph.nodes[Storage(storage)].jobs);
    EvictionServes(s, storage, rate);
    assert PathSum(s, [], false) == 0.0 && PathSum(s, [], true) == 0.0;
    assert PathSum(s.(jobs := all), [], false) == 0.0;
  }
}
