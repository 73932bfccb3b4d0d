/**
 The scheduler object. Its methods carry out the handlers one store update at a time, in the order of
 the source, and each is proved to have exactly the effect the step functions describe.
 */
module Scheduler {
  import opened Collections
  import opened TransferTypes
  import Spec = TransferSpec
  import opened TransferSpec
  import Wan

  /** The state after visiting sjobs `i`, `i + 1`, ... up to `n` in turn. */
  function ScheduleAll(st: State, i: nat, n: nat, plan: nat -> ScheduleAnswer): State
    requires i <= n
    decreases n - i
  {
    if i == n then st else ScheduleAll(Apply(st, Spec.Schedule(i, plan(i))), i + 1, n, plan)
  }

  predicate PollAborts(st: State, r: nat, now: int, rates: (nat, nat) -> PollAnswer)
    requires r < |st.raws|
  {
    PollFrom(Pass(st.sjobs, st.net, None, 0, false), r, 0, now, rates).abort
  }

  /** The state after polling the transferring rawjobs from `r` on, up to the first aborted pass. */
  function PollAll(st: State, r: nat, now: int, rates: (nat, nat) -> PollAnswer): State
    requires r <= |st.raws|
    decreases |st.raws| - r
  {
    if r == |st.raws| then st
    else if st.raws[r].state != RawTransferring then PollAll(st, r + 1, now, rates)
    else
      var st' := DoPoll(st, r, now, rates);
      if PollAborts(st, r, now, rates) || |st'.raws| != |st.raws| then st'
      else PollAll(st', r + 1, now, rates)
  }

  /** A whole scheduling round is a run of single steps. */
  lemma {:induction false} ScheduleAllIsRun(st: State, i: nat, n: nat, plan: nat -> ScheduleAnswer)
    returns (steps: seq<Step>)
    requires i <= n
    ensures |steps| == n - i && forall k :: 0 <= k < |steps| ==> steps[k] == Spec.Schedule(i + k, plan(i + k))
    ensures Exec(st, steps) == ScheduleAll(st, i, n, plan)
    decreases n - i
  {
    hide Apply;
    steps := [];
    if i < n {
      var step := Spec.Schedule(i, plan(i));
      var rest := ScheduleAllIsRun(Apply(st, step), i + 1, n, plan);
      steps := [step] + rest;
      assert steps[1..] == rest;
    }
  }

  /** A whole poll is a run of one step per rawjob it reached. */
  lemma {:induction false} PollAllIsRun(st: State, r: nat, now: int, rates: (nat, nat) -> PollAnswer)
    returns (steps: seq<Step>)
    requires r <= |st.raws|
    ensures forall k :: 0 <= k < |steps| ==> steps[k].Poll? && steps[k].now == now && steps[k].rates == rates
    ensures Exec(st, steps) == PollAll(st, r, now, rates)
    decreases |st.raws| - r
  {
    hide DoPoll;
    steps := [];
    if r < |st.raws| {
      if st.raws[r].state != RawTransferring {
        steps := PollAllIsRun(st, r + 1, now, rates);
      } else {
        var st' := DoPoll(st, r, now, rates);
        var step := Poll(r, now, rates);
        assert Apply(st, step) == st';
        var rest := [];
        if !PollAborts(st, r, now, rates) && |st'.raws| == |st.raws| {
          rest := PollAllIsRun(st', r + 1, now, rates);
        }
        steps := [step] + rest;
        assert steps[1..] == rest;
      }
    }
  }

  class Scheduler {
    var raws: seq<RawJob>
    var sjobs: seq<Sjob>
    var sites: map<SiteId, Txrx>
    var siteTxrx: map<SiteId, Txrx>
    var net: Ledger
    const base: map<SiteId, Txrx>

    function Current(): State
      reads this
    {
      State(raws, sjobs, base, sites, siteTxrx, net)
    }

    /** `run`: the in-memory counters start from the stored ones. */
    constructor (stored: map<SiteId, Txrx>)
      ensures Current() == Init(stored)
    {
      raws, sjobs, sites, siteTxrx, base := [], [], stored, stored, stored;
      net := Ledger(multiset{}, multiset{}, map[]);
    }

    // ----- store updates

    method PutSjob(sid: nat, s: Sjob)
      requires sid < |sjobs|
      modifies this`sjobs
      ensures sjobs == old(sjobs)[sid := s]
    {
      sjobs := sjobs[sid := s];
    }

    method UpdateRawState(r: nat, x: RawState)
      modifies this`raws
      ensures Current() == SetRaw(old(Current()), r, Some(x))
    {
      if r < |raws| {
        raws := raws[r := raws[r].(state := x)];
      }
    }

    method IncrementRawTx(r: nat, d: int)
      modifies this`raws
      ensures Current() == AddRaw(old(Current()), r, d, 0, 0)
    {
      if r < |raws| {
        raws := raws[r := raws[r].(tx := raws[r].tx + d)];
      }
    }

    /** `increment_site_field` and the matching update of the map in memory. */
    method IncrementSite(k: SiteId, tx: int, rx: int)
      modifies this`sites, this`siteTxrx
      ensures sites == AddSite(old(sites), k, tx, rx) && siteTxrx == AddMem(old(siteTxrx), k, tx, rx)
    {
      if k in sites {
        sites := sites[k := Txrx(sites[k].tx + tx, sites[k].rx + rx)];
      }
      if k !in siteTxrx {
        siteTxrx := siteTxrx[k := Txrx(0, 0)];
      }
      siteTxrx := siteTxrx[k := Txrx(siteTxrx[k].tx + tx, siteTxrx[k].rx + rx)];
    }

    method IncrementSites(src: SiteId, dst: SiteId, d: int)
      modifies this`sites, this`siteTxrx
      ensures Current() == AddBoth(old(Current()), src, dst, d)
    {
      IncrementSite(src, d, 0);
      IncrementSite(dst, 0, d);
    }

    // ----- network

    /** One of the two retry loops of `setup_sdn_path`. */
    method ReservePath(tries: seq<Option<PathId>>) returns (p: Option<PathId>)
      modifies this`net
      ensures p == FirstPath(tries, 0, SDN_TRIES)
      ensures net == old(net).(installed := old(net).installed + PathOf(p))
    {
      var retry := 0;
      while true
        invariant 0 <= retry < SDN_TRIES && net == old(net)
        invariant FirstPath(tries, retry, SDN_TRIES) == FirstPath(tries, 0, SDN_TRIES)
        decreases SDN_TRIES - retry
      {
        if retry < |tries| && tries[retry].Some? {
          p := tries[retry];
          if p.value.id > 0 {
            net := net.(installed := net.installed + multiset{p.value});
          }
          assert net.installed == old(net).installed + PathOf(p);
          return;
        }
        retry := retry + 1;
        if retry == SDN_TRIES {
          assert net.(installed := net.installed + multiset{}) == net;
          return None;
        }
      }
    }

    /** `setup_wan_path`: create, reserve, commit, with a delete after a refused step. */
    method SetupWanPath(w: WanPlan) returns (uuid: Option<Wan.Uuid>)
      requires w.DynamicWan?
      modifies this`net
      ensures uuid == WanOutcome(w)
      ensures net == old(net).(wan := if w.uuid.Some?
                                      then old(net).wan[w.uuid.value := Wan.SetupCalls(w.reserve, w.commit, w.delete)]
                                      else old(net).wan)
    {
      if w.uuid.None? {
        return None;
      }
      var calls := [Wan.Create, Wan.Reserve(w.reserve)];
      var deleted := false;
      Wan.RepeatedNames(w.delete);
      if !w.reserve {
        deleted, calls := Wan.Retry(Wan.RepDelete, w.delete, calls);
        net := net.(wan := net.wan[w.uuid.value := calls]);
        return None;
      }
      calls := calls + [Wan.Commit(w.commit)];
      if !w.commit {
        deleted, calls := Wan.Retry(Wan.RepDelete, w.delete, calls);
        assert calls == Wan.SetupCalls(w.reserve, w.commit, w.delete);
        net := net.(wan := net.wan[w.uuid.value := calls]);
        return None;
      }
      assert calls == Wan.SetupCalls(w.reserve, w.commit, w.delete);
      net := net.(wan := net.wan[w.uuid.value := calls]);
      return w.uuid;
    }

    /** `network_handling`. */
    method HandleNetwork(a: NetAnswer) returns (r: NetResult)
      modifies this`net
      ensures r.ok == Spec.NetworkHandling(a).ok && r.paths == Spec.NetworkHandling(a).paths
      ensures net == SetupLedger(old(net), a)
    {
      r := NetResult(true, NO_PATHS, SdnSetup);
      ghost var start := net;
      if a.wan.NoWan? {
        assert net.installed + Installed(NO_PATHS) == net.installed;
        return NetResult(false, NO_PATHS, DtnMatching);
      }
      var wan := None;
      if a.wan.DynamicWan? {
        wan := SetupWanPath(a.wan);
        if wan.None? {
          assert net.installed + Installed(NO_PATHS) == net.installed;
          return NetResult(false, NO_PATHS, WanSetup);
        }
      }
      var src := ReservePath(a.src);
      if src.None? {
        return NetResult(false, Paths(None, None, wan), SdnSetup);
      }
      var dst := ReservePath(a.dst);
      assert net.installed == start.installed + Installed(Paths(src, dst, wan));
      return NetResult(dst.Some?, Paths(src, dst, wan), SdnSetup);
    }

    /** `sdn_release_request`: only a positive number is released. */
    method Release(p: PathId)
      modifies this`net
      ensures net == old(net).(released := old(net).released + PathOf(Some(p)))
    {
      if p.id > 0 {
        net := net.(released := net.released + multiset{p});
      }
      assert net.released == old(net).released + PathOf(Some(p));
    }

    /** `teardown_sdn_path` then `teardown_wan_path`. */
    method Teardown(p: Paths, d: Wan.Down)
      modifies this`net
      ensures net == TeardownLedger(old(net), p, d)
    {
      ghost var start := net;
      if p.src.Some? {
        Release(p.src.value);
      }
      if p.dst.Some? {
        Release(p.dst.value);
      }
      assert net.released == start.released + Installed(p);
      if p.wan.Some? {
        var u := p.wan.value;
        var calls := Wan.TearDown(d, Wan.History(net.wan, u));
        net := net.(wan := net.wan[u := calls]);
      }
    }

    // ----- schedule

    /** `schedule_clean_up` with a DTN pair. */
    method CleanUp(sid: nat, p: Paths, d: Wan.Down)
      requires sid < |sjobs|
      modifies this`sjobs, this`raws, this`net
      ensures var o := old(Current()); Current() == PutJob(o, sid, Spec.CleanUp(o.sjobs[sid], o.net, p, d))
    {
      Teardown(p, d);
      PutSjob(sid, sjobs[sid].(state := Error));
      UpdateRawState(sjobs[sid].raw, RawError);
    }

    method VerifyPath(pings: seq<bool>, p: Paths) returns (ok: bool)
      ensures ok == Verified(pings, p)
    {
      var retry := 0;
      var maxRetry := if p.wan.None? then 5 else 30;
      while true
        invariant 0 <= retry < maxRetry
        invariant forall i :: 0 <= i < retry && i < |pings| ==> !pings[i]
        decreases maxRetry - retry
      {
        if retry < |pings| && pings[retry] {
          return true;
        }
        retry := retry + 1;
        if retry == maxRetry {
          return false;
        }
      }
    }

    method FindWaitingBlock(bs: seq<Block>) returns (r: Option<nat>)
      ensures r == FirstWaiting(bs, 0)
    {
      for i := 0 to |bs|
        invariant FirstWaiting(bs, i) == FirstWaiting(bs, 0)
      {
        if bs[i].state.BlockWaiting? {
          return Some(i);
        }
      }
      return None;
    }

    method LaunchOn(sid: nat, b: nat, p: Paths, a: ScheduleAnswer)
      requires sid < |sjobs|
      modifies this`sjobs, this`raws, this`net
      ensures var o := old(Current()); Current() == PutJob(o, sid, VerifyAndLaunch(o.sjobs[sid], b, p, o.net, a))
    {
      ghost var o := Current();
      ghost var s := sjobs[sid];
      var verified := VerifyPath(a.pings, p);
      if !verified {
        CleanUp(sid, p, a.down);
        return;
      }
      PutSjob(sid, sjobs[sid].(flows := sjobs[sid].flows + [NewFlow(b, p)]));
      PutSjob(sid, sjobs[sid].(state := Launching, launches := sjobs[sid].launches + 1));
      ghost var s1 := s.(flows := s.flows + [NewFlow(b, p)], state := Launching, launches := s.launches + 1);
      assert sjobs == o.sjobs[sid := s1];
      if !a.launched {
        CleanUp(sid, p, a.down);
        assert Current() == PutJob(o, sid, Spec.CleanUp(s1, o.net, p, a.down));
        return;
      }
      var f := |sjobs[sid].flows| - 1;
      PutSjob(sid, SetBlockState(sjobs[sid], b, BlockTransferring));
      PutSjob(sid, SetFlow(sjobs[sid], f, sjobs[sid].flows[f].(state := FlowSetting, lastActive := a.now, task := TaskLaunched)));
      UpdateRawState(sjobs[sid].raw, RawTransferring);
      ghost var e := VerifyAndLaunch(s, b, p, o.net, a);
      assert sjobs == o.sjobs[sid := e.job];
    }

    /** The body of the loop of `schedule` for one sjob. */
    method ScheduleSjob(sid: nat, a: ScheduleAnswer)
      modifies this`sjobs, this`raws, this`net
      ensures Current() == Apply(old(Current()), Spec.Schedule(sid, a))
    {
      ghost var o := Current();
      if sid >= |sjobs| {
        return;
      }
      var s := sjobs[sid];
      assert sjobs[sid := s] == sjobs;
      if !Schedulable(s) {
        return;
      }
      var r := FindWaitingBlock(s.blocks);
      if r.None? {
        return;
      }
      if a.pair.NoPair? {
        PutSjob(sid, s.(state := Error));
        UpdateRawState(s.raw, RawError);
        return;
      }
      var p := NO_PATHS;
      if a.pair.PrivatePair? {
        var res := HandleNetwork(a.pair.net);
        p := res.paths;
        if !res.ok {
          CleanUp(sid, p, a.down);
          return;
        }
      }
      LaunchOn(sid, r.value, p, a);
    }

    /** `schedule`: no iteration touches another sjob, so looking at each in turn is looking at the queried list. */
    method Schedule(plan: nat -> ScheduleAnswer)
      modifies this`sjobs, this`raws, this`net
      ensures Current() == ScheduleAll(old(Current()), 0, |old(sjobs)|, plan)
    {
      var n := |sjobs|;
      for sid := 0 to n
        invariant ScheduleAll(Current(), sid, n, plan) == ScheduleAll(old(Current()), 0, n, plan)
      {
        ScheduleSjob(sid, plan(sid));
      }
    }

    // ----- mld_status

    method FailJob(sid: nat, f: nat, d: Wan.Down)
      requires sid < |sjobs| && f < |sjobs[sid].flows|
      modifies this`sjobs, this`raws, this`net
      ensures var o := old(Current()); Current() == PutJob(o, sid, TearAndFail(o.sjobs[sid], f, o.net, d))
    {
      var s := sjobs[sid];
      Teardown(s.flows[f].paths, d);
      PutSjob(sid, SetFlow(s, f, s.flows[f].(task := TaskSilent)).(state := Error));
      UpdateRawState(s.raw, RawError);
    }

    method TaskStarted(sid: nat, f: nat)
      modifies this`sjobs
      ensures Current() == Apply(old(Current()), ReportStarted(sid, f))
      ensures Known(old(Current()), sid, f) ==>
                && sid < |sjobs| && f < |sjobs[sid].flows|
                && sjobs[sid].state == Transferring && sjobs[sid].flows[f].state == FlowTransferring
    {
      if sid >= |sjobs| || f >= |sjobs[sid].flows| {
        return;
      }
      var fl := sjobs[sid].flows[f];
      PutSjob(sid, SetFlow(sjobs[sid], f, fl.(state := FlowTransferring, task := TransferTypes.TaskStarted)));
      PutSjob(sid, sjobs[sid].(state := Transferring));
    }

    method TaskFailed(sid: nat, f: nat, d: Wan.Down)
      modifies this`sjobs, this`raws, this`net
      ensures Current() == Apply(old(Current()), ReportFailed(sid, f, d))
    {
      hide TearAndFail;
      if sid >= |sjobs| || f >= |sjobs[sid].flows| {
        return;
      }
      ghost var o := Current();
      ghost var s := sjobs[sid];
      PutSjob(sid, SetFlowState(sjobs[sid], f, FlowError));
      PutSjob(sid, SetBlockState(sjobs[sid], sjobs[sid].flows[f].block, BlockWaiting));
      ghost var s1 := SetBlockState(SetFlowState(s, f, FlowError), s.flows[f].block, BlockWaiting);
      assert sjobs == o.sjobs[sid := s1];
      assert Current() == PutJob(o, sid, Effect(s1, None, o.net));
      FailJob(sid, f, d);
      PutTwice(o, sid, Effect(s1, None, o.net), TearAndFail(s1, f, o.net, d));
    }

    /** The search for the next block: the first waiting one that is not the block just done. */
    method FindNextBlock(bs: seq<Block>, b: nat) returns (next: Option<nat>, finished: bool)
      ensures next == NextBlock(bs, b, 0)
      ensures next.None? ==> (finished <==> OthersFinished(bs, b))
    {
      finished := true;
      for i := 0 to |bs|
        invariant NextBlock(bs, b, i) == NextBlock(bs, b, 0)
        invariant finished <==> forall j :: 0 <= j < i && j != b ==> bs[j].state.BlockFinished?
      {
        if i == b || bs[i].state.BlockFinished? {
          continue;
        }
        finished := false;
        if bs[i].state.BlockTransferring? {
          continue;
        }
        return Some(i), finished;
      }
      return None, finished;
    }

    method RelaunchOn(sid: nat, f: nat, b: nat, a: FinishAnswer)
      requires sid < |sjobs| && f < |sjobs[sid].flows|
      modifies this`sjobs, this`raws, this`net
      ensures var o := old(Current()); Current() == PutJob(o, sid, Relaunch(o.sjobs[sid], f, b, o.net, a))
    {
      if !a.launcher {
        FailJob(sid, f, a.down);
        return;
      }
      ghost var o := Current();
      ghost var s := sjobs[sid];
      PutSjob(sid, sjobs[sid].(state := Launching, launches := sjobs[sid].launches + 1));
      PutSjob(sid, SetBlockState(sjobs[sid], b, BlockTransferring));
      PutSjob(sid, SetFlow(sjobs[sid], f, sjobs[sid].flows[f].(block := b)));
      PutSjob(sid, SetFlow(sjobs[sid], f,
                           sjobs[sid].flows[f].(state := FlowSetting,
                                                task := if a.launched then TaskLaunched else TaskSilent)));
      UpdateRawState(sjobs[sid].raw, RawTransferring);
      ghost var t := Relaunch(s, f, b, o.net, a).job;
      assert sjobs[sid].flows == t.flows;
      assert sjobs == o.sjobs[sid := t];
    }

    /** The end of a flow: release its path and, if every block is done, finish the sjob. */
    method RetireFlow(sid: nat, f: nat, finished: bool, d: Wan.Down)
      requires sid < |sjobs| && f < |sjobs[sid].flows|
      modifies this`sjobs, this`net
      ensures var o := old(Current()); Current() == PutJob(o, sid, Retire(o.sjobs[sid], f, finished, o.net, d))
    {
      var s := sjobs[sid];
      var p := s.flows[f].paths;
      PutSjob(sid, SetFlow(s, f, s.flows[f].(state := FlowWaitingToBeTeared, task := TaskSilent)));
      Teardown(p, d);
      PutSjob(sid, sjobs[sid].(state := if finished then Finished else TornState(p)));
    }

    /** Whether every sjob of a rawjob has finished. */
    method AllSjobsFinished(r: nat) returns (all: bool)
      ensures all == AllFinished(sjobs, r)
    {
      for i := 0 to |sjobs|
        invariant forall j :: 0 <= j < i && sjobs[j].raw == r ==> sjobs[j].state.Finished?
      {
        if sjobs[i].raw == r && !sjobs[i].state.Finished? {
          return false;
        }
      }
      return true;
    }

    /** The byte counters of status 3, before the checksum is known. */
    method CreditBlock(sid: nat, f: nat)
      requires sid < |sjobs| && f < |sjobs[sid].flows|
      modifies this`sjobs, this`raws, this`sites, this`siteTxrx
      ensures Current() == AfterCredit(old(Current()), sid, f)
    {
      hide AddSite, AddMem;
      ghost var o := Current();
      var s := sjobs[sid];
      var b := s.flows[f].block;
      PutSjob(sid, SetFlowState(s, f, FlowWaiting));
      var d := BlockSize(s, b) - BlockTx(s, b);
      PutSjob(sid, AddBlockTx(sjobs[sid], b, d));
      PutSjob(sid, AddFlowTx(sjobs[sid], f, d));
      PutSjob(sid, sjobs[sid].(tx := sjobs[sid].tx + d));
      assert sjobs == o.sjobs[sid := Credit(s, f)];
      IncrementRawTx(s.raw, d);
      IncrementSites(s.src, s.dst, d);
    }

    /** Takes the bytes of a block that failed its checksum back and counts the retry. */
    method TakeBack(sid: nat, f: nat, b: nat, retry: nat, lost: nat)
      requires sid < |sjobs| && f < |sjobs[sid].flows|
      modifies this`sjobs, this`raws
      ensures Current() == AfterTakeBack(old(Current()), sid, f, b, retry, lost)
    {
      ghost var o := Current();
      ghost var s := sjobs[sid];
      PutSjob(sid, sjobs[sid].(state := ChecksumVerification));
      PutSjob(sid, AddBlockTx(sjobs[sid], b, 0 - lost));
      PutSjob(sid, AddFlowTx(sjobs[sid], f, 0 - lost));
      PutSjob(sid, sjobs[sid].(tx := sjobs[sid].tx - lost));
      RollBackRaw(sjobs[sid].raw, lost);
      PutSjob(sid, sjobs[sid].(retry := retry + 1));
      assert sjobs == o.sjobs[sid := AddTx(s, f, b, 0 - lost).(state := ChecksumVerification, retry := retry + 1)];
    }

    /** The failed-checksum branch: the job fails, or the same block is launched again. */
    method RetryBlock(sid: nat, f: nat, b: nat, retry: nat, a: FinishAnswer)
      requires sid < |sjobs| && f < |sjobs[sid].flows|
      modifies this`sjobs, this`raws, this`net
      ensures var o := old(Current());
              var s := o.sjobs[sid];
              Current() == PutJob(o, sid, if retry >= 2 then TearAndFail(s, f, o.net, a.down)
                                          else Relaunch(s, f, b, o.net, a))
    {
      if retry >= 2 {
        FailJob(sid, f, a.down);
      } else {
        RelaunchOn(sid, f, b, a);
      }
    }

    method RollBackRaw(r: nat, lost: nat)
      modifies this`raws
      ensures Current() == AddRaw(old(Current()), r, 0 - lost, 0, lost)
    {
      if r < |raws| {
        raws := raws[r := raws[r].(tx := raws[r].tx - lost, rolledBack := raws[r].rolledBack + lost)];
      }
    }

    /** The branch for a block that needs no checksum or passed it. */
    method NextOrRetire(sid: nat, f: nat, b: nat, bs: seq<Block>, a: FinishAnswer)
      requires sid < |sjobs| && f < |sjobs[sid].flows|
      modifies this`sjobs, this`raws, this`net
      ensures var o := old(Current());
              var s := SetBlockState(o.sjobs[sid], b, BlockFinished);
              Current() == PutJob(o, sid, match NextBlock(bs, b, 0)
                                          case Some(nb) => Relaunch(s, f, nb, o.net, a)
                                          case None => Retire(s, f, OthersFinished(bs, b), o.net, a.down))
    {
      hide TeardownLedger, NextBlock, OthersFinished;
      ghost var o := Current();
      PutSjob(sid, SetBlockState(sjobs[sid], b, BlockFinished));
      ghost var s := sjobs[sid];
      var next, finished := FindNextBlock(bs, b);
      if next.Some? {
        RelaunchOn(sid, f, next.value, a);
        assert sjobs == o.sjobs[sid := Relaunch(s, f, next.value, o.net, a).job];
      } else {
        RetireFlow(sid, f, finished, a.down);
        assert sjobs == o.sjobs[sid := Retire(s, f, finished, o.net, a.down).job];
      }
    }

    /** Query and update the rawjob of an sjob that has finished. */
    method SettleRawjob(sid: nat)
      requires sid < |sjobs|
      modifies this`raws
      ensures Current() == SettleRaw(old(Current()), sid)
    {
      if sjobs[sid].state.Finished? {
        var all := AllSjobsFinished(sjobs[sid].raw);
        if all {
          UpdateRawState(sjobs[sid].raw, RawFinished);
        }
      }
    }

    /** Status 3. */
    method TaskFinished(sid: nat, f: nat, a: FinishAnswer)
      modifies this`sjobs, this`raws, this`sites, this`siteTxrx, this`net
      ensures Current() == Apply(old(Current()), ReportFinished(sid, f, a))
    {
      hide Credit, AddTx, Relaunch, Retire, TearAndFail, NextBlock, OthersFinished, AddSite, AddMem, SetBlockState, BlockTx, DoFinish, SettleRaw, AfterCredit, AfterTakeBack;
      if sid >= |sjobs| || f >= |sjobs[sid].flows| {
        return;
      }
      ghost var o := Current();
      var s := sjobs[sid];
      var b := s.flows[f].block;
      KnownAfterCredit(o, sid, f);
      CreditBlock(sid, f);
      ghost var o1 := Current();
      if a.check.CheckFailed? {
        KnownAfterTakeBack(o1, sid, f, b, s.retry, BlockSize(s, b));
        TakeBack(sid, f, b, s.retry, BlockSize(s, b));
        RetryBlock(sid, f, b, s.retry, a);
        FinishFailed(o, sid, f, a, o1, Current());
      } else {
        NextOrRetire(sid, f, b, s.blocks, a);
        FinishPassed(o, sid, f, a, o1, Current());
      }
      SettleRawjob(sid);
    }

    // ----- poll_rate

    /** One flow of one sjob: `tx` is what it gained, `abort` asks the caller to stop the whole poll. */
    method PollOneFlow(sid: nat, f: nat, now: int, a: PollAnswer) returns (tx: int, abort: bool)
      requires sid < |sjobs| && f < |sjobs[sid].flows|
      modifies this`sjobs, this`raws, this`net
      ensures var o := old(Current());
              var e := PollFlow(o.sjobs[sid], f, o.net, now, a);
              Current() == PutJob(o, sid, e.eff) && tx == e.tx && abort == e.abort
    {
      hide Failed, AddBlockTx, AddFlowTx, BlockTx;
      var s := sjobs[sid];
      var fl := s.flows[f];
      assert sjobs[sid := s] == sjobs;
      if !Live(fl) || a.rate.TimedOut? || a.rate.NoRate? {
        return 0, false;
      }
      if a.rate.UnknownTask? {
        TaskFailed(sid, f, a.down);
        return 0, true;
      }
      tx := a.rate.transferred - BlockTx(s, fl.block);
      if tx > 0 {
        PutSjob(sid, SetFlow(s, f, fl.(lastActive := now)));
      } else if now - fl.lastActive > INACTIVE_TIMEOUT {
        TaskFailed(sid, f, a.down);
        FailedKeepsShape(s, f, old(net), a.down);
      }
      CountFlow(sid, f, fl.block, tx);
      abort := false;
    }

    /** The byte counters of a block and of its flow. */
    method CountFlow(sid: nat, f: nat, b: nat, tx: int)
      requires sid < |sjobs|
      modifies this`sjobs
      ensures sjobs == old(sjobs)[sid := AddFlowTx(AddBlockTx(old(sjobs)[sid], b, tx), f, tx)]
    {
      PutSjob(sid, AddBlockTx(sjobs[sid], b, tx));
      PutSjob(sid, AddFlowTx(sjobs[sid], f, tx));
    }

    /** The flows of one sjob, then its own byte counter; an aborted poll leaves the counter alone. */
    method PollOneSjob(sid: nat, now: int, answer: nat -> PollAnswer) returns (tx: int, abort: bool)
      requires sid < |sjobs|
      modifies this`sjobs, this`raws, this`net
      ensures var o := old(Current());
              var e := PollSjob(o.sjobs[sid], o.net, now, answer);
              Current() == PutJob(o, sid, e.eff) && tx == e.tx && abort == e.abort
    {
      hide PollFlow;
      ghost var o := Current();
      ghost var s0 := sjobs[sid];
      ghost var raw: Option<RawState> := None;
      var n := |sjobs[sid].flows|;
      tx := 0;
      assert sjobs[sid := s0] == sjobs;
      for f := 0 to n
        invariant sid < |sjobs| && |sjobs[sid].flows| == n && sjobs[sid].raw == s0.raw
        invariant Current() == PutJob(o, sid, Effect(sjobs[sid], raw, net))
        invariant PollFlows(sjobs[sid], f, tx, raw, net, now, answer) == PollSjob(s0, o.net, now, answer)
      {
        ghost var e1 := Effect(sjobs[sid], raw, net);
        ghost var e := PollFlow(sjobs[sid], f, net, now, answer(f));
        var d;
        d, abort := PollOneFlow(sid, f, now, answer(f));
        PutTwice(o, sid, e1, e.eff);
        raw := if e.eff.raw.Some? then e.eff.raw else raw;
        if abort {
          return 0, true;
        }
        tx := tx + d;
      }
      ghost var e1 := Effect(sjobs[sid], raw, net);
      PutSjob(sid, sjobs[sid].(tx := sjobs[sid].tx + tx));
      PutTwice(o, sid, e1, Effect(sjobs[sid], None, net));
      abort := false;
    }

    /** One rawjob's pass: its sjobs in turn, then the rawjob and the sites unless the pass was aborted. */
    method PollRawjob(rid: nat, now: int, rates: (nat, nat) -> PollAnswer) returns (abort: bool)
      requires rid < |raws|
      modifies this`sjobs, this`raws, this`net, this`sites, this`siteTxrx
      ensures Current() == DoPoll(old(Current()), rid, now, rates)
      ensures abort == PollAborts(old(Current()), rid, now, rates)
    {
      ghost var o := Current();
      var src, dst := raws[rid].src, raws[rid].dst;
      ghost var raw: Option<RawState> := None;
      var n := |sjobs|;
      var rawTx := 0;
      abort := false;
      for i := 0 to n
        invariant |sjobs| == n && !abort
        invariant Current() == SetRaw(o.(sjobs := sjobs, net := net), rid, raw)
        invariant PollFrom(Pass(sjobs, net, raw, rawTx, false), rid, i, now, rates)
                  == PollFrom(Pass(o.sjobs, o.net, None, 0, false), rid, 0, now, rates)
      {
        if sjobs[i].raw != rid {
          continue;
        }
        ghost var p := Pass(sjobs, net, raw, rawTx, false);
        var tx;
        tx, abort := PollOneSjob(i, now, AnswersFor(i, rates));
        ghost var q := PollOne(p, i, now, rates);
        raw := q.raw;
        rawTx := rawTx + tx;
        assert Current() == SetRaw(o.(sjobs := sjobs, net := net), rid, raw);
        assert q == Pass(sjobs, net, raw, rawTx, abort);
        if abort {
          assert PollFrom(p, rid, i, now, rates) == PollFrom(q, rid, i + 1, now, rates) == q;
          Drop(rid, rawTx);
          return;
        }
      }
      IncrementRawTx(rid, rawTx);
      IncrementSites(src, dst, rawTx);
    }

    /** Records, in a history variable the source does not have, what the early return loses. */
    method Drop(r: nat, d: int)
      modifies this`raws
      ensures Current() == AddRaw(old(Current()), r, 0, d, 0)
    {
      if r < |raws| {
        raws := raws[r := raws[r].(dropped := raws[r].dropped + d)];
      }
    }

    /** `poll_rate`: the transferring rawjobs in turn, until a pass aborts. */
    method PollRate(now: int, rates: (nat, nat) -> PollAnswer)
      modifies this`sjobs, this`raws, this`net, this`sites, this`siteTxrx
      ensures Current() == PollAll(old(Current()), 0, now, rates)
    {
      var n := |raws|;
      for r := 0 to n
        invariant |raws| == n
        invariant PollAll(Current(), r, now, rates) == PollAll(old(Current()), 0, now, rates)
      {
        if raws[r].state != RawTransferring {
          continue;
        }
        var abort := PollRawjob(r, now, rates);
        if abort {
          return;
        }
      }
    }
  }

  lemma PutTwice(o: State, sid: nat, e1: Effect, e2: Effect)
    requires sid < |o.sjobs| && e1.job.raw == o.sjobs[sid].raw
    ensures PutJob(PutJob(o, sid, e1), sid, e2)
            == PutJob(o, sid, Effect(e2.job, if e2.raw.Some? then e2.raw else e1.raw, e2.net))
  {
    assert o.sjobs[sid := e1.job][sid := e2.job] == o.sjobs[sid := e2.job];
    var r := o.sjobs[sid].raw;
    if r < |o.raws| && e1.raw.Some? && e2.raw.Some? {
      var j := o.raws[r];
      assert o.raws[r := j.(state := e1.raw.value)][r := j.(state := e2.raw.value)] == o.raws[r := j.(state := e2.raw.value)];
    }
  }

  /** The state once the finished block has been credited. */
  function AfterCredit(o: State, sid: nat, f: nat): State
    requires Known(o, sid, f)
  {
    var s := o.sjobs[sid];
    var gained := BlockSize(s, s.flows[f].block) - BlockTx(s, s.flows[f].block);
    AddRaw(AddBoth(o, s.src, s.dst, gained), s.raw, gained, 0, 0).(sjobs := o.sjobs[sid := Credit(s, f)])
  }

  function AfterTakeBack(o: State, sid: nat, f: nat, b: nat, retry: nat, lost: nat): State
    requires Known(o, sid, f)
  {
    var s := o.sjobs[sid];
    AddRaw(o, s.raw, 0 - lost, 0, lost)
      .(sjobs := o.sjobs[sid := AddTx(s, f, b, 0 - lost).(state := ChecksumVerification, retry := retry + 1)])
  }

  lemma FailedKeepsShape(s: Sjob, f: nat, net: Ledger, d: Wan.Down)
    requires f < |s.flows|
    ensures Failed(s, f, net, d).job.raw == s.raw
  {}

  lemma RawKept(s: Sjob, f: nat, b: nat, d: int)
    requires f < |s.flows|
    ensures Credit(s, f).raw == s.raw && AddTx(s, f, b, d).raw == s.raw && SetBlockState(s, b, BlockFinished).raw == s.raw
    ensures |Credit(s, f).flows| == |s.flows|
  {}

  /** Adding to a rawjob and then setting its state, done in one or in several updates. */
  lemma RawUpdates(raws: seq<RawJob>, r: nat, g: int, l: int)
    requires r < |raws|
    ensures var j := raws[r].(tx := raws[r].tx + g);
            raws[r := j][r := j.(tx := j.tx + (0 - l), rolledBack := j.rolledBack + l)]
            == raws[r := raws[r].(tx := raws[r].tx + (g - l), rolledBack := raws[r].rolledBack + l)]
  {}

  lemma KnownAfterCredit(o: State, sid: nat, f: nat)
    requires Known(o, sid, f)
    ensures Known(AfterCredit(o, sid, f), sid, f)
  {}

  lemma KnownAfterTakeBack(o: State, sid: nat, f: nat, b: nat, retry: nat, lost: nat)
    requires Known(o, sid, f)
    ensures Known(AfterTakeBack(o, sid, f, b, retry, lost), sid, f)
  {}

  /** Crediting a block and taking it back is one change of the rawjob and one of the sjob. */
  lemma CreditAndTakeBack(o: State, sid: nat, f: nat)
    requires Known(o, sid, f) && Known(AfterCredit(o, sid, f), sid, f)
    ensures var s := o.sjobs[sid];
            var b := s.flows[f].block;
            var lost := BlockSize(s, b);
            var gained := lost - BlockTx(s, b);
            AfterTakeBack(AfterCredit(o, sid, f), sid, f, b, s.retry, lost)
            == AddRaw(AddBoth(o, s.src, s.dst, gained), s.raw, gained - lost, 0, lost)
                 .(sjobs := o.sjobs[sid := AddTx(Credit(s, f), f, b, 0 - lost)
                                            .(state := ChecksumVerification, retry := s.retry + 1)])
  {
    hide Credit, AddTx, AddSite, AddMem, BlockSize, BlockTx;
    var s := o.sjobs[sid];
    var b := s.flows[f].block;
    RawKept(s, f, b, 0);
    if s.raw < |o.raws| {
      RawUpdates(o.raws, s.raw, BlockSize(s, b) - BlockTx(s, b), BlockSize(s, b));
    }
  }

  lemma FinishFailed(o: State, sid: nat, f: nat, a: FinishAnswer, o1: State, st: State)
    requires Known(o, sid, f) && a.check.CheckFailed? && o1 == AfterCredit(o, sid, f)
    requires Known(o1, sid, f)
    requires var s := o.sjobs[sid];
             var b := s.flows[f].block;
             var o2 := AfterTakeBack(o1, sid, f, b, s.retry, BlockSize(s, b));
             && Known(o2, sid, f)
             && st == PutJob(o2, sid, if s.retry >= 2 then TearAndFail(o2.sjobs[sid], f, o2.net, a.down)
                                      else Relaunch(o2.sjobs[sid], f, b, o2.net, a))
    ensures SettleRaw(st, sid) == DoFinish(o, sid, f, a)
  {
    hide Credit, Relaunch, TearAndFail, AddTx, AddSite, AddMem, SettleRaw, BlockSize, BlockTx, AfterCredit, AfterTakeBack;
    var s := o.sjobs[sid];
    var b := s.flows[f].block;
    CreditAndTakeBack(o, sid, f);
    RawKept(s, f, b, 0);
    RawKept(Credit(s, f), f, b, 0 - BlockSize(s, b));
    assert st.sjobs == o.sjobs[sid := Finish(s, f, o.net, a).eff.job];
  }

  lemma FinishPassed(o: State, sid: nat, f: nat, a: FinishAnswer, o1: State, st: State)
    requires Known(o, sid, f) && !a.check.CheckFailed? && o1 == AfterCredit(o, sid, f)
    requires Known(o1, sid, f)
    requires var bs := o.sjobs[sid].blocks;
             var b := o.sjobs[sid].flows[f].block;
             var s2 := SetBlockState(o1.sjobs[sid], b, BlockFinished);
             st == PutJob(o1, sid, match NextBlock(bs, b, 0)
                                   case Some(nb) => Relaunch(s2, f, nb, o1.net, a)
                                   case None => Retire(s2, f, OthersFinished(bs, b), o1.net, a.down))
    ensures SettleRaw(st, sid) == DoFinish(o, sid, f, a)
  {
    hide Credit, Relaunch, Retire, AddTx, AddSite, AddMem, SettleRaw, BlockSize, BlockTx, NextBlock, OthersFinished;
    var s := o.sjobs[sid];
    var b := s.flows[f].block;
    RawKept(s, f, b, 0);
    RawKept(Credit(s, f), f, b, 0);
    var e := Finish(s, f, o.net, a);
    assert st.sjobs == o.sjobs[sid := e.eff.job];
    if s.raw < |o.raws| {
      RawUpdates(o.raws, s.raw, e.gained, 0);
    }
  }
}
