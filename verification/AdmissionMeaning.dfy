/**
 What probing, provisioning and evicting amount to, in terms of capacities, running jobs and the
 source's own limit of 1000 on a path.
 */
module AdmissionMeaning {
  import opened Collections
  import opened ResourceGraph
  import opened Admission

  // ----- rates

  /** What the running jobs of a list take up; with `freed`, what they would without the extra ones. */
  ghost function Load(jobs: seq<Job>, ids: seq<JobId>, freed: bool): real {
    if ids == [] then 0.0
    else
      (if ids[0] < |jobs| && jobs[ids[0]].state == Running && !(freed && jobs[ids[0]].group == Extra)
       then jobs[ids[0]].rate else 0.0)
      + Load(jobs, ids[1..], freed)
  }

  lemma {:induction false} SumFront(jobs: seq<Job>, ids: seq<JobId>, group: Group)
    requires ids != []
    ensures Sum(jobs, ids, group) == RunRate(jobs, ids[0], group) + Sum(jobs, ids[1..], group)
  {
    hide RunRate;
    if |ids| > 1 {
      SumFront(jobs, ids[..|ids| - 1], group);
      assert ids[..|ids| - 1][1..] == ids[1..][..|ids| - 2];
    } else {
      assert ids[1..] == [] && ids[..0] == [];
    }
  }

  lemma {:induction false} LoadIsSum(jobs: seq<Job>, ids: seq<JobId>, freed: bool)
    ensures Load(jobs, ids, freed) == (if freed then 0.0 else Sum(jobs, ids, Extra)) + Sum(jobs, ids, Base)
  {
    if ids != [] {
      SumFront(jobs, ids, Extra);
      SumFront(jobs, ids, Base);
      LoadIsSum(jobs, ids[1..], freed);
    }
  }

  /** A storage's edge leads to a DTN with exactly one edge to the gateway. */
  predicate Joined(g: Graph, e: EdgeId) {
    && e in g.edges && g.edges[e].dst in g.nodes
    && |g.nodes[g.edges[e].dst].outs| == 1 && g.nodes[g.edges[e].dst].outs[0] in g.edges
  }

  ghost function EdgeFree(s: Site, e: EdgeId, freed: bool): real
    requires e in s.graph.edges
  {
    s.graph.edges[e].cap - Load(s.jobs, s.graph.edges[e].jobs, freed)
  }

  ghost function StorageFree(s: Site, storage: Id, freed: bool): real
    requires Storage(storage) in s.graph.nodes
  {
    s.graph.nodes[Storage(storage)].cap - Load(s.jobs, s.graph.nodes[Storage(storage)].jobs, freed)
  }

  /** The smaller of what is free on the two edges of a path. */
  ghost function Narrower(s: Site, e: EdgeId, freed: bool): (r: real)
    requires Joined(s.graph, e)
    ensures var f := s.graph.nodes[s.graph.edges[e].dst].outs[0];
            && r <= EdgeFree(s, e, freed) && r <= EdgeFree(s, f, freed)
            && (r == EdgeFree(s, e, freed) || r == EdgeFree(s, f, freed))
  {
    var a, b := EdgeFree(s, e, freed), EdgeFree(s, s.graph.nodes[s.graph.edges[e].dst].outs[0], freed);
    if a <= b then a else b
  }

  ghost predicate AllJoined(g: Graph, es: seq<EdgeId>) { forall e :: e in es ==> Joined(g, e) }

  /** What the paths that have at least 1000 left add up to. */
  ghost function OpenRoom(s: Site, es: seq<EdgeId>, freed: bool): real
    requires AllJoined(s.graph, es)
  {
    if es == [] then 0.0
    else
      assert es[0] in es;
      var r := Narrower(s, es[0], freed);
      (if r >= 1000.0 then r else 0.0) + OpenRoom(s, es[1..], freed)
  }

  lemma JoinedIsOneOut(g: Graph, es: seq<EdgeId>)
    ensures AllJoined(g, es) <==> AllOneOut(g, es)
    ensures forall e :: Joined(g, e) <==> OneOut(g, e)
  {
    assert forall e :: Joined(g, e) <==> OneOut(g, e);
  }

  lemma RoomIsFree(s: Site, e: EdgeId, freed: bool)
    requires Joined(s.graph, e)
    ensures OneOut(s.graph, e) && PathRoom(s, e, freed) == Narrower(s, e, freed)
  {
    hide Load, Sum;
    LoadIsSum(s.jobs, s.graph.edges[e].jobs, freed);
    LoadIsSum(s.jobs, s.graph.edges[s.graph.nodes[s.graph.edges[e].dst].outs[0]].jobs, freed);
  }

  lemma OpenRoomParts(s: Site, es: seq<EdgeId>, freed: bool)
    requires AllJoined(s.graph, es)
    ensures AllJoined(s.graph, []) && OpenRoom(s, [], freed) == 0.0
    ensures es != [] ==> Joined(s.graph, es[0]) && AllJoined(s.graph, es[1..])
    ensures es != [] ==>
              var first := if Narrower(s, es[0], freed) >= 1000.0 then Narrower(s, es[0], freed) else 0.0;
              OpenRoom(s, es, freed) == first + OpenRoom(s, es[1..], freed)
  {
    hide Joined, Narrower;
  }

  /** The sum of paths does not depend on where it is begun. */
  lemma {:induction false} OpenRoomLast(s: Site, es: seq<EdgeId>, e: EdgeId, freed: bool)
    requires AllJoined(s.graph, es + [e])
    ensures AllJoined(s.graph, es) && Joined(s.graph, e)
    ensures OpenRoom(s, es + [e], freed)
         == OpenRoom(s, es, freed) + if Narrower(s, e, freed) >= 1000.0 then Narrower(s, e, freed) else 0.0
  {
    hide Joined, Narrower, OpenRoom;
    assert forall x :: x in es || x == e ==> x in es + [e];
    OpenRoomParts(s, es + [e], freed);
    OpenRoomParts(s, es, freed);
    if es == [] {
      assert ([e] + [])[1..] == [] && es + [e] == [e] && [e][1..] == [];
    } else {
      assert (es + [e])[1..] == es[1..] + [e];
      OpenRoomLast(s, es[1..], e, freed);
    }
  }

  lemma {:induction false} PathSumIsOpenRoom(s: Site, es: seq<EdgeId>, freed: bool)
    requires AllJoined(s.graph, es)
    ensures AllOneOut(s.graph, es) && PathSum(s, es, freed) == OpenRoom(s, es, freed)
  {
    hide PathRoom, Narrower, OpenRoom, Joined, OneOut;
    JoinedIsOneOut(s.graph, es);
    OpenRoomParts(s, es, freed);
    if es != [] {
      var init, e := es[..|es| - 1], es[|es| - 1];
      assert es == init + [e];
      OpenRoomLast(s, init, e, freed);
      PathSumIsOpenRoom(s, init, freed);
      RoomIsFree(s, e, freed);
    }
  }

  // ----- probing

  /**
   The code of every probe: 4 above the storage's capacity; 1 when storage and paths have more room than
   asked for; 2 when they would if no extra job were running; 3 when not even then. A storage that
   could take the rate but has a DTN without exactly one gateway edge makes the probe throw.
   */
  lemma ProbeMeaning(s: Site, storage: Id, rate: real)
    requires Storage(storage) in s.graph.nodes
    ensures var n, code := s.graph.nodes[Storage(storage)], Probe(s, storage, rate);
            var now, ever := StorageFree(s, storage, false), StorageFree(s, storage, true);
            if n.cap < rate then code == Some(4)
            else if now <= rate && ever <= rate then code == Some(3)
            else if !AllJoined(s.graph, n.outs) then code == None
            else
              && (code == Some(1) <==> now > rate && OpenRoom(s, n.outs, false) > rate)
              && (code == Some(2) <==> (now <= rate && OpenRoom(s, n.outs, false) > rate)
                                       || (OpenRoom(s, n.outs, false) <= rate && OpenRoom(s, n.outs, true) > rate))
              && (code == Some(3) <==> OpenRoom(s, n.outs, false) <= rate && OpenRoom(s, n.outs, true) <= rate)
  {
    hide Load, Sum, PathSum, OpenRoom, OneOut, Joined, AllJoined, AllOneOut;
    var n := s.graph.nodes[Storage(storage)];
    LoadIsSum(s.jobs, n.jobs, false);
    LoadIsSum(s.jobs, n.jobs, true);
    JoinedIsOneOut(s.graph, n.outs);
    if AllJoined(s.graph, n.outs) {
      PathSumIsOpenRoom(s, n.outs, false);
      PathSumIsOpenRoom(s, n.outs, true);
    }
  }

  /** A query is served, and evicts nobody, if and only if the storage and its open paths have more room than asked for. */
  lemma ServedAtOnceIff(s: Site, storage: Id, rate: real)
    requires Consistent(s.graph) && rate >= 0.0 && Storage(storage) in s.graph.nodes
    ensures var a, n := Query(s, storage, rate), s.graph.nodes[Storage(storage)];
            (a.grants.Some? && a.grants.value != [] && a.jobs == s.jobs) <==>
              && n.cap >= rate && StorageFree(s, storage, false) > rate
              && AllJoined(s.graph, n.outs) && OpenRoom(s, n.outs, false) > rate
  {
    hide Consistent, Query, Probe, StorageFree, OpenRoom, AllJoined;
    ProbeMeaning(s, storage, rate);
    ProbeAdmits(s, storage, rate);
  }

  // ----- provisioning

  /** Every open path in order, each with all it has. */
  ghost function Filled(s: Site, es: seq<EdgeId>): seq<Grant>
    requires AllJoined(s.graph, es)
  {
    if es == [] then []
    else
      assert es[0] in es;
      var r := Narrower(s, es[0], false);
      (if r >= 1000.0 then [Grant(es[0], r)] else []) + Filled(s, es[1..])
  }

  lemma FilledStep(s: Site, e: EdgeId, es: seq<EdgeId>)
    requires AllJoined(s.graph, [e] + es)
    ensures Joined(s.graph, e) && AllJoined(s.graph, es)
    ensures Filled(s, [e] + es) == (if Narrower(s, e, false) >= 1000.0 then [Grant(e, Narrower(s, e, false))] else []) + Filled(s, es)
    ensures OpenRoom(s, [e] + es, false)
         == (if Narrower(s, e, false) >= 1000.0 then Narrower(s, e, false) else 0.0) + OpenRoom(s, es, false)
  {
    hide Joined, Narrower;
    assert ([e] + es)[1..] == es;
    assert forall x :: x in es || x == e ==> x in [e] + es;
  }

  lemma PrefixJoined(g: Graph, es: seq<EdgeId>, k: nat)
    requires AllJoined(g, es) && k <= |es|
    ensures AllJoined(g, es[..k])
  {
    hide Joined;
  }

  /**
   The allocator fills the open paths in order, passes over the others, and takes the rest of the
   request from the first path that has more than is left.
   */
  lemma {:induction false} ProvisionFills(s: Site, es: seq<EdgeId>, remaining: real) returns (k: nat)
    requires AllJoined(s.graph, es) && AllOneOut(s.graph, es) && 0.0 <= remaining < OpenRoom(s, es, false)
    ensures k < |es| && AllJoined(s.graph, es[..k])
    ensures var before := OpenRoom(s, es[..k], false);
            && before <= remaining
            && Provision(s, es, remaining) == Filled(s, es[..k]) + [Grant(es[k], remaining - before)]
            && Joined(s.graph, es[k]) && Narrower(s, es[k], false) > remaining - before && Narrower(s, es[k], false) >= 1000.0
  {
    hide OneOut, PathRoom, Joined, Narrower, OpenRoom, Filled;
    OpenRoomParts(s, es, false);
    RoomIsFree(s, es[0], false);
    var room := Narrower(s, es[0], false);
    if room >= 1000.0 && room > remaining {
      k := 0;
      assert es[..0] == [];
      NothingFilled(s);
    } else {
      JoinedIsOneOut(s.graph, es[1..]);
      var left := if room < 1000.0 then remaining else remaining - room;
      k := ProvisionFills(s, es[1..], left);
      var front := es[1..][..k];
      assert es[..k + 1] == [es[0]] + front;
      PrefixJoined(s.graph, es, k + 1);
      FilledStep(s, es[0], front);
      k := k + 1;
    }
  }

  lemma NothingFilled(s: Site)
    ensures AllJoined(s.graph, []) && Filled(s, []) == [] && OpenRoom(s, [], false) == 0.0
  {}

  // ----- evicting

  lemma VictimsKnown(s: Site, storage: Id, rate: real)
    requires Storage(storage) in s.graph.nodes
    ensures forall id :: id in Evict(s, storage, rate).evicted ==> id < |s.jobs|
  {
    hide Evict;
    EvictionOrder(s, storage, rate);
  }

  /** What one round of the loop leaves to the others. */
  lemma FirstVictim(s: Site, storage: Id, rate: real) returns (s1: Site, l: JobId)
    requires Storage(storage) in s.graph.nodes && Evict(s, storage, rate).evicted != []
    ensures var ids := s.graph.nodes[Storage(storage)].jobs;
            && Largest(s.jobs, ids) == Some(l) && l < |s.jobs| && s1 == s.(jobs := Mark(s.jobs, l))
            && Extras(s1.jobs, ids) < Extras(s.jobs, ids)
            && Evict(s, storage, rate).evicted == [l] + Evict(s1, storage, rate).evicted
            && Probe(s, storage, rate) != Some(1)
  {
    hide Probe, Extras;
    var ids := s.graph.nodes[Storage(storage)].jobs;
    l := Largest(s.jobs, ids).value;
    MarkDropsCount(s.jobs, ids, l);
    s1 := s.(jobs := Mark(s.jobs, l));
  }

  /** No victim too many: without the last ones, the request would still not have been admitted. */
  lemma {:induction false} EvictionMinimal(s: Site, storage: Id, rate: real, j: nat)
    requires Storage(storage) in s.graph.nodes && j < |Evict(s, storage, rate).evicted|
    ensures forall id :: id in Evict(s, storage, rate).evicted[..j] ==> id < |s.jobs|
    ensures Probe(s.(jobs := MarkAll(s.jobs, Evict(s, storage, rate).evicted[..j])), storage, rate) != Some(1)
    decreases j
  {
    hide Probe, Extras, Evict, Largest;
    VictimsKnown(s, storage, rate);
    var s1, l := FirstVictim(s, storage, rate);
    var all, rest := Evict(s, storage, rate).evicted, Evict(s1, storage, rate).evicted;
    if j == 0 {
      assert MarkAll(s.jobs, all[..0]) == s.jobs;
    } else {
      EvictionMinimal(s1, storage, rate, j - 1);
      assert all[..j] == [l] + rest[..j - 1];
      assert MarkAll(s.jobs, all[..j]) == MarkAll(s1.jobs, rest[..j - 1]);
    }
  }

  /** A job of the storage that is spared is no larger than any that is not. */
  lemma {:induction false} SparedAreSmaller(s: Site, storage: Id, rate: real, x: nat, id: JobId)
    requires Storage(storage) in s.graph.nodes && x < |Evict(s, storage, rate).evicted|
    requires id in s.graph.nodes[Storage(storage)].jobs && id < |s.jobs|
    requires s.jobs[id].state == Running && s.jobs[id].group == Extra && id !in Evict(s, storage, rate).evicted
    ensures Evict(s, storage, rate).evicted[x] < |s.jobs|
    ensures s.jobs[id].rate <= s.jobs[Evict(s, storage, rate).evicted[x]].rate
    decreases x
  {
    hide Probe, Extras, Evict;
    VictimsKnown(s, storage, rate);
    var s1, l := FirstVictim(s, storage, rate);
    assert Runs(s.jobs, id, Extra);
    if x > 0 {
      SparedAreSmaller(s1, storage, rate, x - 1, id);
    }
  }

  /**
   How a request is refused: where probing throws, by that throw and with nobody evicted; at a storage
   that lists no job, by an empty answer; at any other, by the throw of the search for a victim.
   */
  lemma RefusedHow(s: Site, storage: Id, rate: real)
    requires Storage(storage) in s.graph.nodes && RatesOk(s.jobs)
    requires var ids := s.graph.nodes[Storage(storage)].jobs;
             Probe(s.(jobs := Emptied(s.jobs, ids)), storage, rate) != Some(1)
    ensures var ids, a := s.graph.nodes[Storage(storage)].jobs, Query(s, storage, rate);
            if Probe(s, storage, rate) == None then a == Answer(s.jobs, None)
            else a == Answer(Emptied(s.jobs, ids), if ids == [] then Some([]) else None)
  {
    hide Probe, Evict, Provision, Emptied;
    EvictionServes(s, storage, rate);
    VerdictOf(s, storage, rate);
  }

  /** The loop ends for lack of jobs exactly at a storage that lists none. */
  lemma {:induction false} VerdictOf(s: Site, storage: Id, rate: real)
    requires Storage(storage) in s.graph.nodes
    ensures var r := Evict(s, storage, rate);
            && (r.verdict == NoJobs ==> s.graph.nodes[Storage(storage)].jobs == [])
            && (r.verdict == Threw && Probe(s, storage, rate) != None && RatesOk(s.jobs) ==> s.graph.nodes[Storage(storage)].jobs != [])
            && (Probe(s, storage, rate) == None ==> r.verdict == Threw)
    decreases Extras(s.jobs, s.graph.nodes[Storage(storage)].jobs)
  {
    hide Probe, Extras;
    var ids := s.graph.nodes[Storage(storage)].jobs;
    if Evict(s, storage, rate).evicted != [] {
      var s1, l := FirstVictim(s, storage, rate);
      VerdictOf(s1, storage, rate);
    }
  }
}
