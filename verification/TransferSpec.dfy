/**
 The three handlers of the transfer scheduler as functions on states, together with what the outside
 world answers during each of them. One application of a handler is one atomic step.
 */
module TransferSpec {
  import opened Collections
  import opened TransferTypes
  import Wan

  // ----- network setup and teardown

  /** `setup_sdn_path` asks a controller at most three times. */
  const SDN_TRIES: nat := 3

  /** The first path a controller installs among the attempts from `i` up to `n`. */
  function FirstPath(tries: seq<Option<PathId>>, i: nat, n: nat): (p: Option<PathId>)
    requires i <= n
    ensures p.Some? ==> p in tries
    ensures p.None? ==> forall k :: i <= k < n && k < |tries| ==> tries[k].None?
    ensures p.Some? ==> exists k :: i <= k < n && k < |tries| && tries[k] == p && forall j :: i <= j < k ==> tries[j].None?
    decreases n - i
  {
    if i == n then None
    else if i < |tries| && tries[i].Some? then tries[i]
    else FirstPath(tries, i + 1, n)
  }

  datatype WanPlan =
    | StaticWan
    | NoWan
    | DynamicWan(uuid: Option<Wan.Uuid>, reserve: bool, commit: bool, delete: Wan.Answers)

  /** What the network answers while a private DTN pair is being connected. */
  datatype NetAnswer = NetAnswer(wan: WanPlan, src: seq<Option<PathId>>, dst: seq<Option<PathId>>)

  datatype NetResult = NetResult(ok: bool, paths: Paths, state: SjobState)

  const NO_PATHS := Paths(None, None, None)

  /** What an answer stands for: one path of the controller, or none when the number is not positive. */
  function PathOf(p: Option<PathId>): multiset<PathId> {
    if p.Some? && p.value.id > 0 then multiset{p.value} else multiset{}
  }

  /** The controllers' paths behind a flow's two answers. */
  function Installed(p: Paths): multiset<PathId> {
    PathOf(p.src) + PathOf(p.dst)
  }

  /** `setup_wan_path`: the circuit to use, or failure. */
  function WanOutcome(w: WanPlan): Option<Wan.Uuid> {
    if w.DynamicWan? && w.reserve && w.commit then w.uuid else None
  }

  function WanFails(w: WanPlan): bool {
    w.NoWan? || (w.DynamicWan? && WanOutcome(w).None?)
  }

  /** `network_handling`: the path ids are recorded whether or not the setup succeeds. */
  function NetworkHandling(a: NetAnswer): NetResult {
    if WanFails(a.wan) then
      NetResult(false, NO_PATHS, if a.wan.NoWan? then DtnMatching else WanSetup)
    else
      var wan := WanOutcome(a.wan);
      var src := FirstPath(a.src, 0, SDN_TRIES);
      var dst := if src.None? then None else FirstPath(a.dst, 0, SDN_TRIES);
      NetResult(src.Some? && dst.Some?, Paths(src, dst, wan), SdnSetup)
  }

  function SetupLedger(net: Ledger, a: NetAnswer): Ledger {
    var w := a.wan;
    net.(installed := net.installed + Installed(NetworkHandling(a).paths),
         wan := if w.DynamicWan? && w.uuid.Some?
                then net.wan[w.uuid.value := Wan.SetupCalls(w.reserve, w.commit, w.delete)]
                else net.wan)
  }

  /** `teardown_sdn_path` then `teardown_wan_path`. */
  function TeardownLedger(net: Ledger, p: Paths, d: Wan.Down): Ledger {
    net.(released := net.released + Installed(p),
         wan := if p.wan.Some?
                then net.wan[p.wan.value := Wan.History(net.wan, p.wan.value) + Wan.TeardownCalls(d)]
                else net.wan)
  }

  // ----- schedule

  datatype PairAnswer = NoPair | PublicPair | PrivatePair(net: NetAnswer)

  datatype ScheduleAnswer = ScheduleAnswer(
    pair: PairAnswer, pings: seq<bool>, launched: bool, now: int, down: Wan.Down)

  /** What a handler does to the sjob it works on, to the state of its rawjob, and to the network. */
  datatype Effect = Effect(job: Sjob, raw: Option<RawState>, net: Ledger)

  function FirstWaiting(bs: seq<Block>, i: nat): (r: Option<nat>)
    requires i <= |bs|
    ensures r.Some? ==> i <= r.value < |bs| && bs[r.value].state.BlockWaiting?
                        && forall j :: i <= j < r.value ==> !bs[j].state.BlockWaiting?
    ensures r.None? ==> forall j :: i <= j < |bs| ==> !bs[j].state.BlockWaiting?
    decreases |bs| - i
  {
    if i == |bs| then None
    else if bs[i].state.BlockWaiting? then Some(i)
    else FirstWaiting(bs, i + 1)
  }

  /** `verify_path`: five pings, or thirty over a dynamic circuit. */
  function Verified(pings: seq<bool>, p: Paths): bool {
    exists i :: 0 <= i < (if p.wan.Some? then 30 else 5) && i < |pings| && pings[i]
  }

  /** `schedule_clean_up` once a DTN pair is known. */
  function CleanUp(s: Sjob, net: Ledger, p: Paths, d: Wan.Down): Effect {
    Effect(s.(state := Error), Some(RawError), TeardownLedger(net, p, d))
  }

  function NewFlow(b: nat, p: Paths): Flow {
    Flow(FlowScheduling, b, 0, p, 0, TaskSilent)
  }

  /** From path verification to the launch call. */
  function VerifyAndLaunch(s: Sjob, b: nat, p: Paths, net: Ledger, a: ScheduleAnswer): Effect {
    if !Verified(a.pings, p) then CleanUp(s, net, p, a.down)
    else
      var s1 := s.(flows := s.flows + [NewFlow(b, p)], state := Launching, launches := s.launches + 1);
      if !a.launched then CleanUp(s1, net, p, a.down)
      else
        var f := |s.flows|;
        var s2 := SetBlockState(s1, b, BlockTransferring);
        Effect(SetFlow(s2, f, s2.flows[f].(state := FlowSetting, lastActive := a.now, task := TaskLaunched)),
               Some(RawTransferring), net)
  }

  /** The part of `schedule` that follows the choice of a block. */
  function Dispatch(s: Sjob, b: nat, net: Ledger, a: ScheduleAnswer): Effect {
    match a.pair
    case NoPair => Effect(s.(state := Error), Some(RawError), net)
    case PublicPair => VerifyAndLaunch(s, b, NO_PATHS, net, a)
    case PrivatePair(n) =>
      var r := NetworkHandling(n);
      var net' := SetupLedger(net, n);
      if !r.ok then CleanUp(s, net', r.paths, a.down)
      else VerifyAndLaunch(s, b, r.paths, net', a)
  }

  /** `get_active_best_effort_sjobs` and the flow limit. */
  predicate Schedulable(s: Sjob) {
    (s.state == Bootstrap || s.state == Transferring) && |s.flows| < 1
  }

  function ScheduleEffect(s: Sjob, net: Ledger, a: ScheduleAnswer): Effect {
    if !Schedulable(s) then Effect(s, None, net)
    else match FirstWaiting(s.blocks, 0)
      case None => Effect(s, None, net)
      case Some(b) => Dispatch(s, b, net, a)
  }

  // ----- mld_status

  /** The state left by the two teardown functions. */
  function TornState(p: Paths): SjobState { if p.wan.Some? then WanTeardown else SdnTeardown }

  /** Tear the flow's network resources down and fail the job. */
  function TearAndFail(s: Sjob, f: nat, net: Ledger, d: Wan.Down): Effect
    requires f < |s.flows|
  {
    Effect(SetFlow(s, f, s.flows[f].(task := TaskSilent)).(state := Error), Some(RawError),
           TeardownLedger(net, s.flows[f].paths, d))
  }

  /** Status 1. */
  function Started(s: Sjob, f: nat): Sjob
    requires f < |s.flows|
  {
    SetFlow(s, f, s.flows[f].(state := FlowTransferring, task := TaskStarted)).(state := Transferring)
  }

  /** Status 2. */
  function Failed(s: Sjob, f: nat, net: Ledger, d: Wan.Down): Effect
    requires f < |s.flows|
  {
    var s1 := SetBlockState(SetFlowState(s, f, FlowError), s.flows[f].block, BlockWaiting);
    TearAndFail(s1, f, net, d)
  }

  datatype Check = NoCheck | CheckPassed | CheckFailed

  datatype FinishAnswer = FinishAnswer(check: Check, launcher: bool, launched: bool, down: Wan.Down)

  /** The effect of status 3; `gained` goes to the sites as well, `lost` does not. */
  datatype FinishEffect = FinishEffect(eff: Effect, gained: int, lost: int)

  /** All three byte counters of an sjob at once. */
  function AddTx(s: Sjob, f: nat, b: nat, d: int): Sjob {
    var s1 := AddFlowTx(AddBlockTx(s, b, d), f, d);
    s1.(tx := s1.tx + d)
  }

  function BlockSize(s: Sjob, b: nat): int { if b < |s.blocks| then s.blocks[b].size else 0 }

  function BlockTx(s: Sjob, b: nat): int { if b < |s.blocks| then s.blocks[b].tx else 0 }

  /** The first waiting block other than `b`. */
  function NextBlock(bs: seq<Block>, b: nat, i: nat): (r: Option<nat>)
    requires i <= |bs|
    ensures r.Some? ==> i <= r.value < |bs| && r.value != b && bs[r.value].state.BlockWaiting?
                        && forall j :: i <= j < r.value ==> j == b || !bs[j].state.BlockWaiting?
    ensures r.None? ==> forall j :: i <= j < |bs| && j != b ==> !bs[j].state.BlockWaiting?
    decreases |bs| - i
  {
    if i == |bs| then None
    else if i != b && bs[i].state.BlockWaiting? then Some(i)
    else NextBlock(bs, b, i + 1)
  }

  predicate OthersFinished(bs: seq<Block>, b: nat) {
    forall j :: 0 <= j < |bs| && j != b ==> bs[j].state.BlockFinished?
  }

  /** Launch block `b` on the flow that has just become free. */
  function Relaunch(s: Sjob, f: nat, b: nat, net: Ledger, a: FinishAnswer): Effect
    requires f < |s.flows|
  {
    if !a.launcher then TearAndFail(s, f, net, a.down)
    else
      var s1 := SetBlockState(s.(state := Launching, launches := s.launches + 1), b, BlockTransferring);
      Effect(SetFlow(s1, f, s1.flows[f].(block := b, state := FlowSetting,
                                         task := if a.launched then TaskLaunched else TaskSilent)),
             Some(RawTransferring), net)
  }

  /** No block is left to assign: release the path, and finish the sjob if every block is done. */
  function Retire(s: Sjob, f: nat, finished: bool, net: Ledger, d: Wan.Down): Effect
    requires f < |s.flows|
  {
    var p := s.flows[f].paths;
    Effect(SetFlow(s, f, s.flows[f].(state := FlowWaitingToBeTeared, task := TaskSilent))
             .(state := if finished then Finished else TornState(p)),
           None, TeardownLedger(net, p, d))
  }

  /** The block of flow `f` is complete: count the rest of it and put the flow in waiting. */
  function Credit(s: Sjob, f: nat): Sjob
    requires f < |s.flows|
  {
    var b := s.flows[f].block;
    AddTx(SetFlowState(s, f, FlowWaiting), f, b, BlockSize(s, b) - BlockTx(s, b))
  }

  /** Status 3. */
  function Finish(s: Sjob, f: nat, net: Ledger, a: FinishAnswer): FinishEffect
    requires f < |s.flows|
  {
    var b := s.flows[f].block;
    var s1 := Credit(s, f);
    var gained := BlockSize(s, b) - BlockTx(s, b);
    if a.check.CheckFailed? then
      var lost := BlockSize(s, b);
      var s2 := AddTx(s1, f, b, -lost).(state := ChecksumVerification, retry := s.retry + 1);
      FinishEffect(if s.retry >= 2 then TearAndFail(s2, f, net, a.down) else Relaunch(s2, f, b, net, a),
                   gained, lost)
    else
      var s2 := SetBlockState(s1, b, BlockFinished);
      FinishEffect(match NextBlock(s.blocks, b, 0)
                   case Some(nb) => Relaunch(s2, f, nb, net, a)
                   case None => Retire(s2, f, OthersFinished(s.blocks, b), net, a.down),
                   gained, 0)
  }

  // ----- poll_rate

  const INACTIVE_TIMEOUT: int := 300000

  datatype RateAnswer = TimedOut | UnknownTask | NoRate | Rate(transferred: nat)

  datatype PollAnswer = PollAnswer(rate: RateAnswer, down: Wan.Down)

  /** `tx` is what the flow gained since the last poll; `abort` is the early return. */
  datatype PollEffect = PollEffect(eff: Effect, tx: int, abort: bool)

  /** Both failure branches do to the job what a reported error does. */
  function PollFlow(s: Sjob, f: nat, net: Ledger, now: int, a: PollAnswer): (e: PollEffect)
    requires f < |s.flows|
    ensures |e.eff.job.flows| == |s.flows| && e.eff.job.raw == s.raw
  {
    var fl := s.flows[f];
    if !Live(fl) || a.rate.TimedOut? || a.rate.NoRate? then PollEffect(Effect(s, None, net), 0, false)
    else if a.rate.UnknownTask? then PollEffect(Failed(s, f, net, a.down), 0, true)
    else
      var d := a.rate.transferred - BlockTx(s, fl.block);
      var e := if d > 0 then Effect(SetFlow(s, f, fl.(lastActive := now)), None, net)
               else if now - fl.lastActive > INACTIVE_TIMEOUT then Failed(s, f, net, a.down)
               else Effect(s, None, net);
      PollEffect(e.(job := AddFlowTx(AddBlockTx(e.job, fl.block, d), f, d)), d, false)
  }

  /** The flows of one sjob from `f` on; `acc` is what the sjob has gained so far. */
  function PollFlows(s: Sjob, f: nat, acc: int, raw: Option<RawState>, net: Ledger, now: int,
                     answer: nat -> PollAnswer): PollEffect
    requires f <= |s.flows|
    decreases |s.flows| - f
  {
    if f == |s.flows| then PollEffect(Effect(s.(tx := s.tx + acc), raw, net), acc, false)
    else
      var e := PollFlow(s, f, net, now, answer(f));
      var raw' := if e.eff.raw.Some? then e.eff.raw else raw;
      if e.abort then PollEffect(e.eff.(raw := raw'), 0, true)
      else PollFlows(e.eff.job, f + 1, acc + e.tx, raw', e.eff.net, now, answer)
  }

  function PollSjob(s: Sjob, net: Ledger, now: int, answer: nat -> PollAnswer): PollEffect {
    PollFlows(s, 0, 0, None, net, now, answer)
  }

  /** One rawjob's pass: `tx` is `raw_tx_bytes`, the sum of what its sjobs have gained. */
  datatype Pass = Pass(sjobs: seq<Sjob>, net: Ledger, raw: Option<RawState>, tx: int, abort: bool)

  function PollFrom(p: Pass, rid: nat, i: nat, now: int, answer: (nat, nat) -> PollAnswer): Pass
    requires i <= |p.sjobs|
    decreases |p.sjobs| - i
  {
    if i == |p.sjobs| || p.abort then p
    else if p.sjobs[i].raw != rid then PollFrom(p, rid, i + 1, now, answer)
    else PollFrom(PollOne(p, i, now, answer), rid, i + 1, now, answer)
  }

  function AnswersFor(i: nat, answer: (nat, nat) -> PollAnswer): nat -> PollAnswer {
    (f: nat) => answer(i, f)
  }

  function PollOne(p: Pass, i: nat, now: int, answer: (nat, nat) -> PollAnswer): (q: Pass)
    requires i < |p.sjobs|
    ensures |q.sjobs| == |p.sjobs|
  {
    var e := PollSjob(p.sjobs[i], p.net, now, AnswersFor(i, answer));
    Pass(p.sjobs[i := e.eff.job], e.eff.net, if e.eff.raw.Some? then e.eff.raw else p.raw,
         p.tx + e.tx, e.abort)
  }

  // ----- steps of the whole system

  /** A submitted transfer: one list of block sizes per storage. */
  datatype Step =
    | Submit(src: SiteId, dst: SiteId, jobs: seq<seq<nat>>)
    | Schedule(sid: nat, plan: ScheduleAnswer)
    | Poll(rid: nat, now: int, rates: (nat, nat) -> PollAnswer)
    | ReportStarted(sid: nat, f: nat)
    | ReportFailed(sid: nat, f: nat, down: Wan.Down)
    | ReportFinished(sid: nat, f: nat, fin: FinishAnswer)

  function SetRaw(st: State, r: nat, x: Option<RawState>): State {
    if r < |st.raws| && x.Some? then st.(raws := st.raws[r := st.raws[r].(state := x.value)]) else st
  }

  function AddRaw(st: State, r: nat, tx: int, dropped: int, rolledBack: int): State {
    if r < |st.raws| then
      var j := st.raws[r];
      st.(raws := st.raws[r := j.(tx := j.tx + tx, dropped := j.dropped + dropped,
                                  rolledBack := j.rolledBack + rolledBack)])
    else st
  }

  function PutJob(st: State, sid: nat, e: Effect): State
    requires sid < |st.sjobs|
  {
    SetRaw(st.(sjobs := st.sjobs[sid := e.job], net := e.net), st.sjobs[sid].raw, e.raw)
  }

  predicate AllFinished(sjobs: seq<Sjob>, r: nat) {
    forall i :: 0 <= i < |sjobs| && sjobs[i].raw == r ==> sjobs[i].state.Finished?
  }

  /** After an sjob has finished, its rawjob is finished as soon as every sjob of it is. */
  function SettleRaw(st: State, sid: nat): State
    requires sid < |st.sjobs|
  {
    var r := st.sjobs[sid].raw;
    if st.sjobs[sid].state.Finished? && AllFinished(st.sjobs, r) then SetRaw(st, r, Some(RawFinished)) else st
  }

  function NewSjob(raw: nat, src: SiteId, dst: SiteId, sizes: seq<nat>): Sjob {
    Sjob(raw, src, dst, Bootstrap, 0, 0, NewBlocks(sizes), [], 0)
  }

  function NewBlocks(sizes: seq<nat>): seq<Block> {
    seq(|sizes|, i requires 0 <= i < |sizes| => Block(sizes[i], BlockWaiting, 0))
  }

  /** `bootstrap_transfer_job`: a transfer that yields no sjob is an error. */
  function DoSubmit(st: State, src: SiteId, dst: SiteId, jobs: seq<seq<nat>>): State {
    var r := |st.raws|;
    var raw := RawJob(src, dst, if jobs == [] then RawError else RawWaiting, 0, 0, 0);
    st.(raws := st.raws + [raw],
        sjobs := st.sjobs + seq(|jobs|, i requires 0 <= i < |jobs| => NewSjob(r, src, dst, jobs[i])))
  }

  function DoFinish(st: State, sid: nat, f: nat, a: FinishAnswer): State
    requires sid < |st.sjobs| && f < |st.sjobs[sid].flows|
  {
    var s := st.sjobs[sid];
    var e := Finish(s, f, st.net, a);
    var st1 := AddBoth(st, s.src, s.dst, e.gained);
    var st2 := AddRaw(st1, s.raw, e.gained - e.lost, 0, e.lost);
    SettleRaw(PutJob(st2, sid, e.eff), sid)
  }

  function DoPoll(st: State, rid: nat, now: int, answer: (nat, nat) -> PollAnswer): State
    requires rid < |st.raws|
  {
    var p := PollFrom(Pass(st.sjobs, st.net, None, 0, false), rid, 0, now, answer);
    var st1 := SetRaw(st.(sjobs := p.sjobs, net := p.net), rid, p.raw);
    if p.abort then AddRaw(st1, rid, 0, p.tx, 0)
    else AddBoth(AddRaw(st1, rid, p.tx, 0, 0), st.raws[rid].src, st.raws[rid].dst, p.tx)
  }

  /** A report for an unknown task changes nothing. */
  predicate Known(st: State, sid: nat, f: nat) {
    sid < |st.sjobs| && f < |st.sjobs[sid].flows|
  }

  function Apply(st: State, step: Step): State {
    match step
    case Submit(src, dst, jobs) => DoSubmit(st, src, dst, jobs)
    case Schedule(sid, a) =>
      if sid < |st.sjobs| then PutJob(st, sid, ScheduleEffect(st.sjobs[sid], st.net, a)) else st
    case Poll(rid, now, answer) =>
      if rid < |st.raws| && st.raws[rid].state == RawTransferring then DoPoll(st, rid, now, answer) else st
    case ReportStarted(sid, f) =>
      if Known(st, sid, f) then PutJob(st, sid, Effect(Started(st.sjobs[sid], f), None, st.net)) else st
    case ReportFailed(sid, f, d) =>
      if Known(st, sid, f) then PutJob(st, sid, Failed(st.sjobs[sid], f, st.net, d)) else st
    case ReportFinished(sid, f, a) =>
      if Known(st, sid, f) then DoFinish(st, sid, f, a) else st
  }

  // ----- what the outside world may do

  /**
   The source's site and the destination's answer with numbers of their own. No controller reissues the
   number of a path, and the circuit service no identifier; two controllers may well use the same
   number, and a site may answer zero as often as it likes.
   */
  ghost predicate FreshNetwork(net: Ledger, src: SiteId, dst: SiteId, a: NetAnswer) {
    && (forall p :: p in a.src && p.Some? ==> p.value.site == src && (p.value.id > 0 ==> p.value !in net.installed))
    && (forall p :: p in a.dst && p.Some? ==> p.value.site == dst && (p.value.id > 0 ==> p.value !in net.installed))
    && (src == dst ==> forall p :: p in a.dst && p.Some? && p.value.id > 0 ==> p !in a.src)
    && (a.wan.DynamicWan? && a.wan.uuid.Some? ==> a.wan.uuid.value !in net.wan)
  }

  /**
   The launcher reports only on tasks it has accepted: `started` once after a launch, then one of
   `error` or `finished`; a task that was never accepted or was torn down stays silent. A rate answer
   never exceeds the size of the block.
   */
  ghost predicate Allowed(st: State, step: Step) {
    match step
    case Submit(src, dst, jobs) => true
    case Schedule(sid, a) =>
      sid < |st.sjobs| && a.pair.PrivatePair? ==>
        FreshNetwork(st.net, st.sjobs[sid].src, st.sjobs[sid].dst, a.pair.net)
    case Poll(rid, now, answer) =>
      forall i, f :: 0 <= i < |st.sjobs| && 0 <= f < |st.sjobs[i].flows| && answer(i, f).rate.Rate? ==>
        answer(i, f).rate.transferred <= BlockSize(st.sjobs[i], st.sjobs[i].flows[f].block)
    case ReportStarted(sid, f) => Known(st, sid, f) ==> st.sjobs[sid].flows[f].task == TaskLaunched
    case ReportFailed(sid, f, d) => Known(st, sid, f) ==> st.sjobs[sid].flows[f].task != TaskSilent
    case ReportFinished(sid, f, a) => Known(st, sid, f) ==> st.sjobs[sid].flows[f].task != TaskSilent
  }

  function Init(base: map<SiteId, Txrx>): State {
    State([], [], base, base, base, Ledger(multiset{}, multiset{}, map[]))
  }

  function Exec(st: State, steps: seq<Step>): State
    decreases |steps|
  {
    if steps == [] then st else Exec(Apply(st, steps[0]), steps[1..])
  }

  ghost predicate ValidRun(st: State, steps: seq<Step>)
    decreases |steps|
  {
    steps == [] || (Allowed(st, steps[0]) && ValidRun(Apply(st, steps[0]), steps[1..]))
  }
}
