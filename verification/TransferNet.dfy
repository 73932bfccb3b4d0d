/**
 Every network resource has one owner. The ledger of SDN paths and WAN circuits balances against what
 live flows hold, and each handler keeps the balance.
 */
module TransferNet {
  import opened Collections
  import opened TransferTypes
  import opened TransferSpec
  import opened TransferJob
  import Wan

  function Circuit(p: Paths): multiset<Wan.Uuid> {
    if p.wan.Some? then multiset{p.wan.value} else multiset{}
  }

  function FlowPaths(f: Flow): multiset<PathId> { if Live(f) then Installed(f.paths) else multiset{} }

  function FlowCircuit(f: Flow): multiset<Wan.Uuid> { if Live(f) then Circuit(f.paths) else multiset{} }

  /** The SDN paths and the circuit an sjob's live flow holds. */
  ghost function Held(s: Sjob): multiset<PathId> { Gather(s.flows, FlowPaths) }

  ghost function HeldWan(s: Sjob): multiset<Wan.Uuid> { Gather(s.flows, FlowCircuit) }

  type WanLog = map<Wan.Uuid, seq<Wan.Call>>

  predicate IsUp(log: WanLog, u: Wan.Uuid) { u in log && Wan.PhaseOf(log[u]) == Wan.Up }

  /** What was installed is what was released plus what is held, and no id was issued twice. */
  ghost predicate PathsBalanced(net: Ledger, paths: multiset<PathId>) {
    && net.installed == net.released + paths
    && forall p :: p in net.installed ==> net.installed[p] == 1
  }

  /** Every circuit is at rest, and the committed ones are those held, once each. */
  ghost predicate WanBalanced(log: WanLog, circuits: multiset<Wan.Uuid>) {
    && (forall u :: u in log ==> Wan.AtRest(Wan.PhaseOf(log[u])))
    && (forall u :: circuits[u] == if IsUp(log, u) then 1 else 0)
  }

  ghost predicate Balanced(net: Ledger, paths: multiset<PathId>, circuits: multiset<Wan.Uuid>) {
    PathsBalanced(net, paths) && WanBalanced(net.wan, circuits)
  }

  lemma HeldFlow(s: Sjob)
    requires |s.flows| <= 1
    ensures Held(s) == if s.flows == [] then multiset{} else FlowPaths(s.flows[0])
    ensures HeldWan(s) == if s.flows == [] then multiset{} else FlowCircuit(s.flows[0])
  {
    if s.flows != [] {
      assert s.flows == [s.flows[0]];
      GatherOne(s.flows[0], FlowPaths);
      GatherOne(s.flows[0], FlowCircuit);
    }
  }

  /** Two answers of which each is new, and which differ where they are paths, install what is new. */
  lemma InstalledFresh(p: Paths, installed: multiset<PathId>)
    requires forall x :: x in PathOf(p.src) || x in PathOf(p.dst) ==> x !in installed
    requires forall x :: x in PathOf(p.src) ==> x !in PathOf(p.dst)
    ensures forall x :: x in Installed(p) ==> x !in installed && Installed(p)[x] == 1
  {}

  lemma AnswersFresh(a: NetAnswer, net: Ledger, from: SiteId, to: SiteId, src: Option<PathId>, dst: Option<PathId>)
    requires FreshNetwork(net, from, to, a) && (src.Some? ==> src in a.src) && (dst.Some? ==> dst in a.dst)
    ensures src.Some? && src.value.id > 0 ==> src.value !in net.installed && src != dst
    ensures dst.Some? && dst.value.id > 0 ==> dst.value !in net.installed
  {}

  lemma FirstPathFresh(a: NetAnswer, net: Ledger, from: SiteId, to: SiteId)
    requires FreshNetwork(net, from, to, a)
    ensures var ps := NetworkHandling(a).paths;
            forall p :: p in Installed(ps) ==> p !in net.installed && Installed(ps)[p] == 1
  {
    hide FirstPath, WanFails, WanOutcome, Installed, FreshNetwork;
    var ps := NetworkHandling(a).paths;
    AnswersFresh(a, net, from, to, ps.src, ps.dst);
    InstalledFresh(ps, net.installed);
  }

  lemma InstallBalances(net: Ledger, net': Ledger, paths: multiset<PathId>, more: multiset<PathId>)
    requires PathsBalanced(net, paths) && net'.installed == net.installed + more && net'.released == net.released
    requires forall p :: p in more ==> p !in net.installed && more[p] == 1
    ensures PathsBalanced(net', paths + more)
  {
    assert net.released + paths + more == net.released + (paths + more);
  }

  lemma ReleaseBalances(net: Ledger, net': Ledger, paths: multiset<PathId>, fewer: multiset<PathId>)
    requires PathsBalanced(net, paths + fewer)
    requires net'.installed == net.installed && net'.released == net.released + fewer
    ensures PathsBalanced(net', paths)
  {
    assert net.released + (paths + fewer) == (net.released + fewer) + paths;
  }

  lemma NewCircuitBalances(log: WanLog, cs: multiset<Wan.Uuid>, u: Wan.Uuid, calls: seq<Wan.Call>)
    requires WanBalanced(log, cs) && u !in log && Wan.AtRest(Wan.PhaseOf(calls))
    ensures WanBalanced(log[u := calls], cs + if Wan.PhaseOf(calls) == Wan.Up then multiset{u} else multiset{})
  {
    var log' := log[u := calls];
    forall v
      ensures (cs + if Wan.PhaseOf(calls) == Wan.Up then multiset{u} else multiset{})[v]
              == if IsUp(log', v) then 1 else 0
    {
      assert cs[v] == if IsUp(log, v) then 1 else 0;
    }
  }

  lemma OldCircuitBalances(log: WanLog, cs: multiset<Wan.Uuid>, u: Wan.Uuid, calls: seq<Wan.Call>)
    requires WanBalanced(log, cs + multiset{u}) && Wan.AtRest(Wan.PhaseOf(calls)) && Wan.PhaseOf(calls) != Wan.Up
    ensures WanBalanced(log[u := calls], cs)
  {
    var log' := log[u := calls];
    forall v
      ensures cs[v] == if IsUp(log', v) then 1 else 0
    {
      assert (cs + multiset{u})[v] == if IsUp(log, v) then 1 else 0;
    }
  }

  /** Connecting a private pair puts what it obtained into the hands of the caller. */
  lemma SetupBalances(net: Ledger, from: SiteId, to: SiteId, a: NetAnswer, ps: multiset<PathId>, cs: multiset<Wan.Uuid>)
    requires Balanced(net, ps, cs) && FreshNetwork(net, from, to, a)
    ensures var r := NetworkHandling(a);
            Balanced(SetupLedger(net, a), ps + Installed(r.paths), cs + Circuit(r.paths))
  {
    var w := a.wan;
    var paths := NetworkHandling(a).paths;
    FirstPathFresh(a, net, from, to);
    InstallBalances(net, SetupLedger(net, a), ps, Installed(paths));
    if w.DynamicWan? && w.uuid.Some? {
      Wan.SetupFollowsProtocol(w.reserve, w.commit, w.delete);
      NewCircuitBalances(net.wan, cs, w.uuid.value, Wan.SetupCalls(w.reserve, w.commit, w.delete));
    } else {
      assert cs + multiset{} == cs;
    }
  }

  /** Tearing paths down takes exactly them out of the balance. */
  lemma TeardownBalances(net: Ledger, p: Paths, d: Wan.Down, ps: multiset<PathId>, cs: multiset<Wan.Uuid>)
    requires Balanced(net, ps + Installed(p), cs + Circuit(p))
    ensures Balanced(TeardownLedger(net, p, d), ps, cs)
  {
    ReleaseBalances(net, TeardownLedger(net, p, d), ps, Installed(p));
    if p.wan.Some? {
      var u := p.wan.value;
      assert (cs + multiset{u})[u] == cs[u] + 1;
      assert IsUp(net.wan, u);
      Wan.TeardownFollowsProtocol(net.wan[u], d);
      OldCircuitBalances(net.wan, cs, u, net.wan[u] + Wan.TeardownCalls(d));
    } else {
      assert cs + multiset{} == cs;
    }
  }

  // ----- the handlers

  /** After verification and launch the paths belong to the new live flow, or have been torn down. */
  lemma LaunchedOrTorn(s: Sjob, b: nat, p: Paths, net: Ledger, a: ScheduleAnswer)
    requires s.flows == []
    ensures var e := VerifyAndLaunch(s, b, p, net, a);
            && |e.job.flows| <= 1
            && ((e.net == net && |e.job.flows| == 1 && Live(e.job.flows[0]) && e.job.flows[0].paths == p)
                || (e.net == TeardownLedger(net, p, a.down) && (|e.job.flows| == 1 ==> !Live(e.job.flows[0]))))
  {
    hide TeardownLedger, Verified;
  }

  lemma VerifyAndLaunchBalances(s: Sjob, b: nat, p: Paths, net: Ledger, a: ScheduleAnswer,
                                ps: multiset<PathId>, cs: multiset<Wan.Uuid>)
    requires s.flows == [] && Balanced(net, ps + Installed(p), cs + Circuit(p))
    ensures var e := VerifyAndLaunch(s, b, p, net, a); Balanced(e.net, ps + Held(e.job), cs + HeldWan(e.job))
  {
    TeardownBalances(net, p, a.down, ps, cs);
    var e := VerifyAndLaunch(s, b, p, net, a);
    LaunchedOrTorn(s, b, p, net, a);
    HeldFlow(e.job);
    assert ps + multiset{} == ps && cs + multiset{} == cs;
  }

  lemma ScheduleBalances(s: Sjob, net: Ledger, a: ScheduleAnswer, ps: multiset<PathId>, cs: multiset<Wan.Uuid>)
    requires SjobInv(s) && Balanced(net, ps + Held(s), cs + HeldWan(s))
    requires a.pair.PrivatePair? ==> FreshNetwork(net, s.src, s.dst, a.pair.net)
    ensures var e := ScheduleEffect(s, net, a); Balanced(e.net, ps + Held(e.job), cs + HeldWan(e.job))
  {
    if Schedulable(s) && FirstWaiting(s.blocks, 0).Some? {
      HeldFlow(s);
      assert ps + multiset{} == ps && cs + multiset{} == cs;
      var b := FirstWaiting(s.blocks, 0).value;
      match a.pair
      case NoPair =>
        HeldFlow(s.(state := Error));
      case PublicPair =>
        assert ps + Installed(NO_PATHS) == ps && cs + Circuit(NO_PATHS) == cs;
        VerifyAndLaunchBalances(s, b, NO_PATHS, net, a, ps, cs);
      case PrivatePair(n) =>
        SetupBalances(net, s.src, s.dst, n, ps, cs);
        var r := NetworkHandling(n);
        var net' := SetupLedger(net, n);
        if r.ok {
          VerifyAndLaunchBalances(s, b, r.paths, net', a, ps, cs);
        } else {
          TeardownBalances(net', r.paths, a.down, ps, cs);
          HeldFlow(s.(state := Error));
        }
    }
  }

  /** How a handler may leave a job with a live flow: still live on the same paths, or dead and torn down. */
  ghost predicate LetsGo(s: Sjob, net: Ledger, e: Effect) {
    && |s.flows| == 1 == |e.job.flows|
    && (Live(e.job.flows[0]) ==> e.net == net && e.job.flows[0].paths == s.flows[0].paths)
    && (!Live(e.job.flows[0]) ==> exists d :: e.net == TeardownLedger(net, s.flows[0].paths, d))
  }

  lemma LetsGoBalances(s: Sjob, net: Ledger, e: Effect, ps: multiset<PathId>, cs: multiset<Wan.Uuid>)
    requires LetsGo(s, net, e) && Live(s.flows[0])
    requires Balanced(net, ps + Held(s), cs + HeldWan(s))
    ensures Balanced(e.net, ps + Held(e.job), cs + HeldWan(e.job))
  {
    HeldFlow(s);
    HeldFlow(e.job);
    if !Live(e.job.flows[0]) {
      var d :| e.net == TeardownLedger(net, s.flows[0].paths, d);
      TeardownBalances(net, s.flows[0].paths, d, ps, cs);
      assert ps + multiset{} == ps && cs + multiset{} == cs;
    }
  }

  lemma StartedLetsGo(s: Sjob, net: Ledger)
    requires Busy(s)
    ensures LetsGo(s, net, Effect(Started(s, 0), None, net))
  {}

  lemma FailedLetsGo(s: Sjob, net: Ledger, d: Wan.Down)
    requires Busy(s)
    ensures LetsGo(s, net, Failed(s, 0, net, d))
  {
    assert Failed(s, 0, net, d).net == TeardownLedger(net, s.flows[0].paths, d);
  }

  lemma FinishLetsGo(s: Sjob, net: Ledger, a: FinishAnswer)
    requires Busy(s)
    ensures LetsGo(s, net, Finish(s, 0, net, a).eff)
  {
    hide Credit, AddTx, NextBlock, OthersFinished, TeardownLedger;
    CreditFlow(s);
    var e := Finish(s, 0, net, a).eff;
    if a.check.CheckFailed? {
      var b := s.flows[0].block;
      TakenBackFlow(Credit(s, 0), b, 0 - BlockSize(s, b));
    }
    assert Live(e.job.flows[0]) || e.net == TeardownLedger(net, s.flows[0].paths, a.down);
  }

  lemma CreditFlow(s: Sjob)
    requires Busy(s)
    ensures |Credit(s, 0).flows| == 1 && Credit(s, 0).flows[0].paths == s.flows[0].paths && !Live(Credit(s, 0).flows[0])
  {}

  lemma TakenBackFlow(s: Sjob, b: nat, d: int)
    requires |s.flows| == 1
    ensures |AddTx(s, 0, b, d).flows| == 1 && AddTx(s, 0, b, d).flows[0] == s.flows[0].(tx := s.flows[0].tx + d)
  {}

  lemma PollTouchedLetsGo(s: Sjob, net: Ledger, now: int, a: PollAnswer)
    requires Busy(s) && a.rate.Rate?
    ensures LetsGo(s, net, PollTouched(s, net, now, a))
  {
    FailedLetsGo(s, net, a.down);
  }

  /** Changing byte counters does not change who owns what. */
  lemma BytesLetGo(s: Sjob, net: Ledger, e: Effect, b: nat, d: int)
    requires LetsGo(s, net, e)
    ensures LetsGo(s, net, e.(job := AddFlowTx(AddBlockTx(e.job, b, d), 0, d)))
  {}

  lemma PollFlowLetsGo(s: Sjob, net: Ledger, now: int, a: PollAnswer)
    requires Busy(s)
    ensures LetsGo(s, net, PollFlow(s, 0, net, now, a).eff)
  {
    hide Failed, TeardownLedger, Done;
    if a.rate.UnknownTask? {
      FailedLetsGo(s, net, a.down);
    } else if a.rate.Rate? {
      var b := s.flows[0].block;
      PollTouchedLetsGo(s, net, now, a);
      BytesLetGo(s, net, PollTouched(s, net, now, a), b, a.rate.transferred - BlockTx(s, b));
    }
  }

  lemma PollLetsGo(s: Sjob, net: Ledger, now: int, answer: nat -> PollAnswer)
    requires Busy(s)
    ensures LetsGo(s, net, PollSjob(s, net, now, answer).eff)
  {
    PollUnfold(s, net, now, answer);
    PollFlowLetsGo(s, net, now, answer(0));
  }

  lemma PollBalances(s: Sjob, net: Ledger, now: int, answer: nat -> PollAnswer,
                     ps: multiset<PathId>, cs: multiset<Wan.Uuid>)
    requires SjobInv(s) && Balanced(net, ps + Held(s), cs + HeldWan(s))
    ensures var e := PollSjob(s, net, now, answer).eff; Balanced(e.net, ps + Held(e.job), cs + HeldWan(e.job))
  {
    if Busy(s) {
      PollLetsGo(s, net, now, answer);
      LetsGoBalances(s, net, PollSjob(s, net, now, answer).eff, ps, cs);
    } else {
      PollUnfold(s, net, now, answer);
      assert PollSjob(s, net, now, answer).eff.job == s;
    }
  }
}
