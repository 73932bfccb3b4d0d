/** What holds in every state that a run of the transfer system can reach. */
module TransferTheorems {
  import opened Collections
  import opened TransferTypes
  import opened TransferSpec
  import opened TransferJob
  import opened TransferNet
  import opened TransferRuns
  import Wan

  // ----- bytes

  /** Block, flow and sjob counters agree, whether or not the sjob has a flow yet. */
  lemma SjobBytes(st: State, i: nat)
    requires Reachable(st) && i < |st.sjobs|
    ensures st.sjobs[i].tx == SumBy(st.sjobs[i].blocks, TxOf)
    ensures forall f :: 0 <= f < |st.sjobs[i].flows| ==> st.sjobs[i].flows[f].tx == st.sjobs[i].tx
    ensures 0 <= st.sjobs[i].tx <= SumBy(st.sjobs[i].blocks, SizeOf)
  {
    hide Reachable, Inv, SumBy;
    ReachableInv(st);
    EachSjobInv(st, i);
    SumByBounded(st.sjobs[i].blocks, TxOf, SizeOf);
    SumByBounded(st.sjobs[i].blocks, Zero, TxOf);
    SumByZero(st.sjobs[i].blocks, Zero);
  }

  function Zero(b: Block): int { 0 }

  /** A rawjob has counted the bytes of its sjobs, less exactly what aborted polls dropped. */
  lemma RawjobBytes(st: State, r: nat)
    requires Reachable(st) && r < |st.raws|
    ensures st.raws[r].tx == SumBy(st.sjobs, TxFor(r)) - st.raws[r].dropped
  {
    ReachableInv(st);
  }

  /**
   The stored site counters equal the ones in memory, and have grown since startup by the bytes of the
   site's rawjobs plus the bytes that failed checksums took back from those rawjobs but not from sites.
   */
  lemma SiteBytes(st: State, k: SiteId)
    requires Reachable(st) && k in st.sites
    ensures k in st.mem && st.mem[k] == st.sites[k]
    ensures k in st.base && st.sites[k].tx == st.base[k].tx + SumBy(st.raws, SentFrom(k))
    ensures st.sites[k].rx == st.base[k].rx + SumBy(st.raws, ReceivedAt(k))
  {
    ReachableInv(st);
  }

  /** The guard of the early return: a live flow has a task unknown to the launcher. */
  predicate Loses(s: Sjob, rid: nat, a: PollAnswer) {
    s.raw == rid && |s.flows| == 1 && Live(s.flows[0]) && a.rate.UnknownTask?
  }

  ghost predicate LosesTask(sjobs: seq<Sjob>, rid: nat, from: nat, answer: (nat, nat) -> PollAnswer) {
    exists i :: from <= i < |sjobs| && Loses(sjobs[i], rid, answer(i, 0))
  }

  lemma OnePollAborts(s: Sjob, net: Ledger, now: int, answer: nat -> PollAnswer)
    requires |s.flows| <= 1
    ensures PollSjob(s, net, now, answer).abort <==> Loses(s, s.raw, answer(0))
  {
    PollUnfold(s, net, now, answer);
  }

  lemma LosesTaskStep(sjobs: seq<Sjob>, t: Sjob, rid: nat, i: nat, answer: (nat, nat) -> PollAnswer)
    requires i < |sjobs|
    ensures LosesTask(sjobs, rid, i, answer)
       <==> Loses(sjobs[i], rid, answer(i, 0)) || LosesTask(sjobs[i := t], rid, i + 1, answer)
  {
    var after := sjobs[i := t];
    if LosesTask(sjobs, rid, i, answer) {
      var k :| i <= k < |sjobs| && Loses(sjobs[k], rid, answer(k, 0));
      assert k > i ==> after[k] == sjobs[k];
    }
    if LosesTask(after, rid, i + 1, answer) {
      var k :| i + 1 <= k < |after| && Loses(after[k], rid, answer(k, 0));
      assert after[k] == sjobs[k];
    }
  }

  lemma {:induction false} PollFromAborts(p: Pass, rid: nat, i: nat, now: int, answer: (nat, nat) -> PollAnswer)
    requires i <= |p.sjobs| && !p.abort && OneFlowEach(p.sjobs)
    ensures PollFrom(p, rid, i, now, answer).abort <==> LosesTask(p.sjobs, rid, i, answer)
    decreases |p.sjobs| - i
  {
    hide PollSjob, LosesTask;
    if i == |p.sjobs| {
      NoneLost(p.sjobs, rid, answer);
    } else if p.sjobs[i].raw != rid {
      LosesTaskStep(p.sjobs, p.sjobs[i], rid, i, answer);
      assert p.sjobs[i := p.sjobs[i]] == p.sjobs;
      PollFromAborts(p, rid, i + 1, now, answer);
    } else {
      var q := PollOne(p, i, now, answer);
      PollOneFlows(p, i, now, answer);
      OnePollAborts(p.sjobs[i], p.net, now, AnswersFor(i, answer));
      LosesTaskStep(p.sjobs, q.sjobs[i], rid, i, answer);
      if !q.abort {
        PollFromAborts(q, rid, i + 1, now, answer);
      }
    }
  }

  lemma NoneLost(sjobs: seq<Sjob>, rid: nat, answer: (nat, nat) -> PollAnswer)
    ensures !LosesTask(sjobs, rid, |sjobs|, answer)
  {}

  lemma PollOneFlows(p: Pass, i: nat, now: int, answer: (nat, nat) -> PollAnswer)
    requires i < |p.sjobs| && OneFlowEach(p.sjobs)
    ensures var q := PollOne(p, i, now, answer);
            OneFlowEach(q.sjobs) && q.sjobs == p.sjobs[i := q.sjobs[i]]
  {
    PollUnfold(p.sjobs[i], p.net, now, AnswersFor(i, answer));
  }

  /** A poll of a rawjob returns early if and only if one of its live flows has a task the launcher does not know. */
  lemma PollAbortsIff(st: State, rid: nat, now: int, answer: (nat, nat) -> PollAnswer)
    requires Reachable(st) && rid < |st.raws|
    ensures PollFrom(Pass(st.sjobs, st.net, None, 0, false), rid, 0, now, answer).abort <==> LosesTask(st.sjobs, rid, 0, answer)
  {
    ReachableFlows(st);
    PollFromAborts(Pass(st.sjobs, st.net, None, 0, false), rid, 0, now, answer);
  }

  /**
   A pass gives the rawjob what its sjobs gained and drops nothing, unless the launcher does not know the
   task of one of its live flows: then it gives the rawjob nothing and drops all of it.
   */
  lemma AbortedPollDrops(st: State, rid: nat, now: int, answer: (nat, nat) -> PollAnswer)
    requires Reachable(st) && rid < |st.raws| && Allowed(st, Poll(rid, now, answer))
    ensures var st' := DoPoll(st, rid, now, answer);
            var gained := SumBy(st'.sjobs, TxFor(rid)) - SumBy(st.sjobs, TxFor(rid));
            var aborted := LosesTask(st.sjobs, rid, 0, answer);
            && st'.raws[rid].tx - st.raws[rid].tx == (if aborted then 0 else gained)
            && st'.raws[rid].dropped - st.raws[rid].dropped == (if aborted then gained else 0)
  {
    hide PollFrom, DoPoll, JobsOk, SjobInv, Evolves, Balanced, Mirrored, Accounted, Counted, Settled, LosesTask;
    ReachableInv(st);
    PollAbortsIff(st, rid, now, answer);
    var p0 := Pass(st.sjobs, st.net, None, 0, false);
    forall j | 0 <= j < |st.sjobs| ensures Evolves(st.sjobs[j], st.sjobs[j]) { EvolvesRefl(st.sjobs[j]); }
    PollFromKeeps(st, rid, 0, p0, now, answer);
    DoPollLeaves(st, rid, now, answer);
  }

  /** What a step takes back from a rawjob: the size of a block that failed its checksum. */
  function TakenBack(st: State, step: Step, r: nat): nat {
    if step.ReportFinished? && Known(st, step.sid, step.f) && step.fin.check.CheckFailed? && st.sjobs[step.sid].raw == r
    then BlockSize(st.sjobs[step.sid], st.sjobs[step.sid].flows[step.f].block) else 0
  }

  /** Every step changes the two history counters of every rawjob by exactly what it takes back and what it drops. */
  lemma HistoryChanges(st: State, step: Step, r: nat)
    requires Reachable(st) && Allowed(st, step) && r < |st.raws|
    ensures var st' := Apply(st, step);
            && r < |st'.raws|
            && st'.raws[r].rolledBack == st.raws[r].rolledBack + TakenBack(st, step, r)
            && st'.raws[r].dropped == st.raws[r].dropped
                 + if step.Poll? && step.rid == r && st.raws[r].state == RawTransferring && LosesTask(st.sjobs, r, 0, step.rates)
                   then SumBy(st'.sjobs, TxFor(r)) - SumBy(st.sjobs, TxFor(r)) else 0
  {
    hide SumBy, LosesTask, DoPoll, DoFinish, TxFor, ScheduleEffect, Started, Failed, Reachable, NewSjob;
    match step
    case Submit(src, dst, jobs) =>
    case Schedule(sid, a) =>
    case Poll(rid, now, answer) =>
      if rid < |st.raws| && st.raws[rid].state == RawTransferring {
        AbortedPollDrops(st, rid, now, answer);
        PollKeepsOthers(st, rid, now, answer, r);
      }
    case ReportStarted(sid, f) =>
    case ReportFailed(sid, f, d) =>
    case ReportFinished(sid, f, a) =>
      if Known(st, sid, f) {
        FinishTakesBack(st, sid, f, a, r);
      }
  }

  lemma PollKeepsOthers(st: State, rid: nat, now: int, answer: (nat, nat) -> PollAnswer, r: nat)
    requires rid < |st.raws| && r < |st.raws|
    ensures var st' := DoPoll(st, rid, now, answer);
            && |st'.raws| == |st.raws| && st'.raws[r].rolledBack == st.raws[r].rolledBack
            && (r != rid ==> st'.raws[r] == st.raws[r])
  {
    hide PollFrom, AddSite, AddMem;
  }

  lemma FinishTakesBack(st: State, sid: nat, f: nat, a: FinishAnswer, r: nat)
    requires Known(st, sid, f) && r < |st.raws|
    ensures var st' := DoFinish(st, sid, f, a);
            && |st'.raws| == |st.raws| && st'.raws[r].dropped == st.raws[r].dropped
            && st'.raws[r].rolledBack == st.raws[r].rolledBack + TakenBack(st, ReportFinished(sid, f, a), r)
  {
    hide AddSite, AddMem, Relaunch, Retire, TearAndFail, Credit, AddTx, NextBlock, OthersFinished, AllFinished, SetBlockState;
  }

  // ----- network resources

  /** Flow `f` of sjob `i` is live and was given SDN path `p`. */
  ghost predicate HoldsPath(sjobs: seq<Sjob>, i: nat, f: nat, p: PathId) {
    i < |sjobs| && f < |sjobs[i].flows| && p in FlowPaths(sjobs[i].flows[f])
  }

  ghost predicate HoldsCircuit(sjobs: seq<Sjob>, i: nat, f: nat, u: Wan.Uuid) {
    i < |sjobs| && f < |sjobs[i].flows| && u in FlowCircuit(sjobs[i].flows[f])
  }

  ghost predicate OneFlowEach(sjobs: seq<Sjob>) { forall i :: 0 <= i < |sjobs| ==> |sjobs[i].flows| <= 1 }

  lemma ReachableFlows(st: State)
    requires Reachable(st)
    ensures OneFlowEach(st.sjobs) && Balanced(st.net, HeldAll(st.sjobs), HeldWanAll(st.sjobs))
  {
    hide Reachable, SumBy, Balanced;
    ReachableInv(st);
    forall i | 0 <= i < |st.sjobs| ensures |st.sjobs[i].flows| <= 1 { assert SjobInv(st.sjobs[i]); }
  }

  lemma PathHolder(sjobs: seq<Sjob>, i: nat, f: nat, p: PathId)
    requires OneFlowEach(sjobs) && HoldsPath(sjobs, i, f, p)
    ensures f == 0 && p in Held(sjobs[i]) && p in HeldAll(sjobs)
  {
    HeldFlow(sjobs[i]);
    GatherContains(sjobs, i, Held);
  }

  lemma CircuitHolder(sjobs: seq<Sjob>, i: nat, f: nat, u: Wan.Uuid)
    requires OneFlowEach(sjobs) && HoldsCircuit(sjobs, i, f, u)
    ensures f == 0 && u in HeldWan(sjobs[i]) && u in HeldWanAll(sjobs)
  {
    HeldFlow(sjobs[i]);
    GatherContains(sjobs, i, HeldWan);
  }

  lemma PathHeld(sjobs: seq<Sjob>, p: PathId) returns (i: nat)
    requires OneFlowEach(sjobs) && p in HeldAll(sjobs)
    ensures HoldsPath(sjobs, i, 0, p)
  {
    i := GatherSource(sjobs, p, Held);
    HeldFlow(sjobs[i]);
  }

  lemma CircuitHeld(sjobs: seq<Sjob>, u: Wan.Uuid) returns (i: nat)
    requires OneFlowEach(sjobs) && u in HeldWanAll(sjobs)
    ensures HoldsCircuit(sjobs, i, 0, u)
  {
    i := GatherSource(sjobs, u, HeldWan);
    HeldFlow(sjobs[i]);
  }

  /** Two different live flows never hold the same path. */
  lemma OnePathHolder(sjobs: seq<Sjob>, p: PathId, i: nat, f: nat, j: nat, g: nat)
    requires OneFlowEach(sjobs) && HeldAll(sjobs)[p] <= 1 && HoldsPath(sjobs, i, f, p) && HoldsPath(sjobs, j, g, p)
    ensures i == j && f == g
  {
    PathHolder(sjobs, i, f, p);
    PathHolder(sjobs, j, g, p);
    if i < j { GatherTwice(sjobs, i, j, p, Held); }
    if j < i { GatherTwice(sjobs, j, i, p, Held); }
  }

  lemma OneCircuitHolder(sjobs: seq<Sjob>, u: Wan.Uuid, i: nat, f: nat, j: nat, g: nat)
    requires OneFlowEach(sjobs) && HeldWanAll(sjobs)[u] <= 1
    requires HoldsCircuit(sjobs, i, f, u) && HoldsCircuit(sjobs, j, g, u)
    ensures i == j && f == g
  {
    CircuitHolder(sjobs, i, f, u);
    CircuitHolder(sjobs, j, g, u);
    if i < j { GatherTwice(sjobs, i, j, u, HeldWan); }
    if j < i { GatherTwice(sjobs, j, i, u, HeldWan); }
  }

  /**
   Every SDN path ever installed is held by exactly one live flow and was never released, or is held by
   none and was released exactly once; nothing that was not installed is ever held or released.
   */
  lemma SdnPathLifecycle(st: State, p: PathId)
    requires Reachable(st)
    ensures st.net.installed[p] <= 1 && st.net.released[p] <= st.net.installed[p]
    ensures st.net.installed[p] - st.net.released[p] == 1 <==> exists i, f :: HoldsPath(st.sjobs, i, f, p)
    ensures forall i, f, j, g :: HoldsPath(st.sjobs, i, f, p) && HoldsPath(st.sjobs, j, g, p) ==> i == j && f == g
  {
    ReachableFlows(st);
    assert st.net.installed[p] == (st.net.released + HeldAll(st.sjobs))[p];
    hide Reachable, OneFlowEach, Balanced, HeldAll, HoldsPath;
    forall i: nat, f: nat | HoldsPath(st.sjobs, i, f, p) ensures p in HeldAll(st.sjobs) {
      PathHolder(st.sjobs, i, f, p);
    }
    if p in HeldAll(st.sjobs) {
      var i := PathHeld(st.sjobs, p);
    }
    forall i: nat, f: nat, j: nat, g: nat | HoldsPath(st.sjobs, i, f, p) && HoldsPath(st.sjobs, j, g, p)
      ensures i == j && f == g
    {
      OnePathHolder(st.sjobs, p, i, f, j, g);
    }
  }

  /**
   Every circuit's calls follow the protocol and are at rest. It is committed exactly when a live flow
   holds it, and then exactly one does; otherwise its teardown, or the delete of its failed setup, was
   carried through or given up after the last permitted attempt.
   */
  lemma WanCircuitLifecycle(st: State, u: Wan.Uuid)
    requires Reachable(st)
    ensures u in st.net.wan ==> Wan.AtRest(Wan.PhaseOf(st.net.wan[u]))
    ensures IsUp(st.net.wan, u) <==> exists i, f :: HoldsCircuit(st.sjobs, i, f, u)
    ensures forall i, f, j, g ::
              HoldsCircuit(st.sjobs, i, f, u) && HoldsCircuit(st.sjobs, j, g, u) ==> i == j && f == g
  {
    ReachableFlows(st);
    assert HeldWanAll(st.sjobs)[u] == if IsUp(st.net.wan, u) then 1 else 0;
    hide Reachable, OneFlowEach, Balanced, HeldWanAll, HoldsCircuit;
    forall i: nat, f: nat | HoldsCircuit(st.sjobs, i, f, u) ensures u in HeldWanAll(st.sjobs) {
      CircuitHolder(st.sjobs, i, f, u);
    }
    if u in HeldWanAll(st.sjobs) {
      var i := CircuitHeld(st.sjobs, u);
    }
    forall i: nat, f: nat, j: nat, g: nat | HoldsCircuit(st.sjobs, i, f, u) && HoldsCircuit(st.sjobs, j, g, u)
      ensures i == j && f == g
    {
      OneCircuitHolder(st.sjobs, u, i, f, j, g);
    }
  }

  // ----- work and completion

  /** An sjob is launched at most twice more often than it has blocks, and sees at most three failed checksums. */
  lemma BoundedWork(st: State, i: nat)
    requires Reachable(st) && i < |st.sjobs|
    ensures st.sjobs[i].launches <= |st.sjobs[i].blocks| + 2
    ensures st.sjobs[i].retry <= 3
  {
    hide Reachable, Inv, SumBy;
    ReachableInv(st);
    EachSjobInv(st, i);
    DoneBound(st.sjobs[i].blocks);
    if Busy(st.sjobs[i]) {
      assert !st.sjobs[i].blocks[st.sjobs[i].flows[0].block].state.BlockFinished?;
    }
  }

  /** A finished sjob has every block finished and every byte counted. */
  lemma FinishedMeansComplete(st: State, i: nat)
    requires Reachable(st) && i < |st.sjobs| && st.sjobs[i].state == Finished
    ensures forall b :: 0 <= b < |st.sjobs[i].blocks| ==> st.sjobs[i].blocks[b].state.BlockFinished?
    ensures st.sjobs[i].tx == SumBy(st.sjobs[i].blocks, SizeOf)
  {
    hide Reachable, Inv, SumBy;
    ReachableInv(st);
    EachSjobInv(st, i);
    SumByAgree(st.sjobs[i].blocks, TxOf, SizeOf);
  }

  /** A rawjob is finished exactly when it has sjobs and all of them are finished. */
  lemma RawFinishedIff(st: State, r: nat)
    requires Reachable(st) && r < |st.raws|
    ensures st.raws[r].state == RawFinished <==> HasJob(st.sjobs, r) && AllFinished(st.sjobs, r)
  {
    ReachableInv(st);
  }

  /** An sjob has at most one flow and one transferring block; a live flow points at that block. */
  lemma FlowBlockCoupling(st: State, i: nat)
    requires Reachable(st) && i < |st.sjobs|
    ensures var s := st.sjobs[i];
            && |s.flows| <= 1
            && (forall a, b :: 0 <= a < b < |s.blocks| ==>
                  !(s.blocks[a].state.BlockTransferring? && s.blocks[b].state.BlockTransferring?))
            && (forall f :: 0 <= f < |s.flows| && Live(s.flows[f]) ==>
                  s.flows[f].block < |s.blocks| && s.blocks[s.flows[f].block].state.BlockTransferring?)
  {
    hide SjobInv, Inv;
    ReachableInv(st);
    EachSjobInv(st, i);
    CouplingOf(st.sjobs[i]);
  }

  lemma EachSjobInv(st: State, i: nat)
    requires Inv(st) && i < |st.sjobs|
    ensures SjobInv(st.sjobs[i])
  {}

  lemma CouplingOf(s: Sjob)
    requires SjobInv(s)
    ensures |s.flows| <= 1
    ensures forall a, b :: 0 <= a < b < |s.blocks| ==>
              !(s.blocks[a].state.BlockTransferring? && s.blocks[b].state.BlockTransferring?)
    ensures forall f :: 0 <= f < |s.flows| && Live(s.flows[f]) ==>
              s.flows[f].block < |s.blocks| && s.blocks[s.flows[f].block].state.BlockTransferring?
  {}

  /** When a finished report finds no block left to launch, the whole sjob is finished: the other branch is dead. */
  lemma AssignedButUnfinishedIsDead(st: State, sid: nat, f: nat, a: FinishAnswer)
    requires Reachable(st) && Known(st, sid, f) && Allowed(st, ReportFinished(sid, f, a))
    ensures var s := st.sjobs[sid];
            NextBlock(s.blocks, s.flows[f].block, 0).None? ==> OthersFinished(s.blocks, s.flows[f].block)
  {
    hide Reachable, Inv, SumBy, NextBlock;
    ReachableInv(st);
    var s := st.sjobs[sid];
    EachSjobInv(st, sid);
    assert Busy(s) && f == 0;
    if NextBlock(s.blocks, s.flows[f].block, 0).None? {
      AllAssignedMeansFinished(s);
    }
  }

  /** Whatever happens after an sjob has failed, it stays failed; a finished sjob never changes again. */
  lemma FinalStatesAbsorb(st: State, steps: seq<Step>, i: nat)
    requires Reachable(st) && ValidRun(st, steps) && i < |st.sjobs|
    ensures i < |Exec(st, steps).sjobs|
    ensures st.sjobs[i].state == Error ==> Exec(st, steps).sjobs[i].state == Error
    ensures st.sjobs[i].state == Finished ==> Exec(st, steps).sjobs[i] == st.sjobs[i]
  {
    ReachableInv(st);
    RunKeeps(st, steps);
    assert Evolves(st.sjobs[i], Exec(st, steps).sjobs[i]);
  }

  /** Each finished report in a run takes one unit off a bounded supply of work. */
  lemma EveryFinishConsumesWork(st: State, sid: nat, f: nat, a: FinishAnswer)
    requires Reachable(st) && Known(st, sid, f) && Allowed(st, ReportFinished(sid, f, a))
    ensures 0 <= WorkLeft(DoFinish(st, sid, f, a).sjobs[sid]) == WorkLeft(st.sjobs[sid]) - 1
  {
    ReachableInv(st);
    FinishKeeps(st.sjobs[sid], f, st.net, a);
    FinishDecreases(st.sjobs[sid], f, st.net, a);
    JobFacts(st, sid, st.sjobs[sid]);
    FinishShape(st, sid, f, a);
  }
}
