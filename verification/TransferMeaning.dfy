/**
 What each handler does to a job, in terms of the stored fields and of the source's own numbers, without
 reference to the functions that define the handlers.
 */
module TransferMeaning {
  import opened Collections
  import opened TransferTypes
  import opened TransferSpec
  import opened TransferJob
  import opened TransferNet
  import opened TransferRuns
  import opened TransferTheorems
  import opened TransferLeaks
  import Wan

  // ----- polling

  /** The flow is being set up or transferring. */
  predicate Moving(s: Sjob) {
    |s.flows| == 1 && (s.flows[0].state == FlowSetting || s.flows[0].state == FlowTransferring)
  }

  /** The sjob's only flow has failed: its block waits again and its task is done with. */
  predicate GivenUp(s: Sjob, t: Sjob) {
    && |s.flows| == 1 && |t.flows| == 1 && |t.blocks| == |s.blocks| && t.raw == s.raw
    && t.state == Error && t.flows[0].state == FlowError && t.flows[0].task == TaskSilent
    && t.flows[0].block == s.flows[0].block < |t.blocks| && t.blocks[t.flows[0].block].state == BlockWaiting
    && t.flows[0].lastActive == s.flows[0].lastActive && t.flows[0].paths == s.flows[0].paths
  }

  /** Nothing changed but the bytes of the flow's block and, if they grew, the time of the last activity. */
  predicate GoesOn(s: Sjob, t: Sjob, lastActive: int) {
    && |s.flows| == 1 && |t.flows| == 1 && |t.blocks| == |s.blocks| && t.raw == s.raw && t.state == s.state
    && t.flows[0] == s.flows[0].(lastActive := lastActive, tx := t.flows[0].tx)
    && t.flows[0].block < |t.blocks| && t.blocks[t.flows[0].block].state == s.blocks[t.flows[0].block].state
  }

  /** What one poll makes of an sjob, by the launcher's answer and the clock. */
  predicate Polled(s: Sjob, t: Sjob, now: int, a: PollAnswer) {
    if !Moving(s) || a.rate.TimedOut? || a.rate.NoRate? then t == s
    else if a.rate.UnknownTask? then GivenUp(s, t) && t.tx == s.tx
    else
      var b := s.flows[0].block;
      && b < |s.blocks| == |t.blocks| && t.blocks[b].tx == a.rate.transferred
      && t.tx == s.tx + a.rate.transferred - s.blocks[b].tx
      && if a.rate.transferred > s.blocks[b].tx then GoesOn(s, t, now)
         else if now - s.flows[0].lastActive > 300000 then GivenUp(s, t)
         else GoesOn(s, t, s.flows[0].lastActive)
  }

  lemma FailedGivesUp(s: Sjob, net: Ledger, d: Wan.Down)
    requires Busy(s)
    ensures var e := Failed(s, 0, net, d); GivenUp(s, e.job) && e.job.tx == s.tx && e.raw == Some(RawError)
    ensures forall i :: 0 <= i < |s.blocks| ==> Failed(s, 0, net, d).job.blocks[i].tx == s.blocks[i].tx
  {
    hide TeardownLedger, Done;
  }

  lemma PollMeaning(s: Sjob, net: Ledger, now: int, answer: nat -> PollAnswer)
    requires |s.flows| <= 1 && (Moving(s) ==> Busy(s))
    ensures Polled(s, PollSjob(s, net, now, answer).eff.job, now, answer(0))
  {
    hide Done, Failed;
    PollUnfold(s, net, now, answer);
    if Moving(s) {
      FailedGivesUp(s, net, answer(0).down);
    } else if s.flows == [] {
      assert s.(tx := s.tx + 0) == s;
    } else {
      assert s.(tx := s.tx + 0) == s;
    }
  }

  /** What a pass leaves on sjob `i`: it is polled if it belongs to the rawjob and no lost task came before it. */
  lemma {:induction false} PassMeaning(p: Pass, rid: nat, k: nat, i: nat, now: int, answer: (nat, nat) -> PollAnswer)
    requires k <= i < |p.sjobs| && !p.abort && OneFlowEach(p.sjobs) && (Moving(p.sjobs[i]) ==> Busy(p.sjobs[i]))
    ensures var q := PollFrom(p, rid, k, now, answer);
            && |q.sjobs| == |p.sjobs|
            && if p.sjobs[i].raw == rid && (forall j :: k <= j < i ==> !Loses(p.sjobs[j], rid, answer(j, 0)))
               then Polled(p.sjobs[i], q.sjobs[i], now, answer(i, 0))
               else q.sjobs[i] == p.sjobs[i]
    decreases i - k
  {
    hide PollSjob, Polled, Busy, Loses, Moving;
    PollFromElsewhere(p, rid, k, now, answer);
    if p.sjobs[i].raw == rid {
      if p.sjobs[k].raw != rid {
        if k < i {
          PassMeaning(p, rid, k + 1, i, now, answer);
          NotLost(p.sjobs[k], rid, answer(k, 0));
        }
      } else {
        var q := PollOne(p, k, now, answer);
        PollOneFlows(p, k, now, answer);
        OnePollAborts(p.sjobs[k], p.net, now, AnswersFor(k, answer));
        if k == i {
          PollMeaning(p.sjobs[i], p.net, now, AnswersFor(i, answer));
          StaysPut(q, rid, i, now, answer);
        } else if !q.abort {
          PassMeaning(q, rid, k + 1, i, now, answer);
        }
      }
    }
  }

  lemma NotLost(s: Sjob, rid: nat, a: PollAnswer)
    requires s.raw != rid
    ensures !Loses(s, rid, a)
  {}

  /** Later sjobs of the pass do not change this one. */
  lemma {:induction false} StaysPut(p: Pass, rid: nat, i: nat, now: int, answer: (nat, nat) -> PollAnswer)
    requires i < |p.sjobs|
    ensures var q := PollFrom(p, rid, i + 1, now, answer); |q.sjobs| == |p.sjobs| && q.sjobs[i] == p.sjobs[i]
  {
    BeforeUnchanged(p, rid, i + 1, i, now, answer);
  }

  lemma {:induction false} BeforeUnchanged(p: Pass, rid: nat, k: nat, i: nat, now: int, answer: (nat, nat) -> PollAnswer)
    requires i < k <= |p.sjobs|
    ensures var q := PollFrom(p, rid, k, now, answer); |q.sjobs| == |p.sjobs| && q.sjobs[i] == p.sjobs[i]
    decreases |p.sjobs| - k
  {
    hide PollSjob;
    if k < |p.sjobs| && !p.abort {
      BeforeUnchanged(if p.sjobs[k].raw != rid then p else PollOne(p, k, now, answer), rid, k + 1, i, now, answer);
    }
  }

  lemma MovingIsBusy(st: State, i: nat)
    requires Inv(st) && i < |st.sjobs|
    ensures |st.sjobs[i].flows| <= 1 && (Moving(st.sjobs[i]) ==> Busy(st.sjobs[i]))
  {
    hide SumBy, Balanced, Counted, Settled, Mirrored, Accounted;
    assert SjobInv(st.sjobs[i]);
  }

  /** A poll of a transferring rawjob, sjob by sjob; sjobs of other rawjobs are left alone. */
  lemma PollOutcome(st: State, rid: nat, now: int, answer: (nat, nat) -> PollAnswer, i: nat)
    requires Inv(st) && rid < |st.raws| && st.raws[rid].state == RawTransferring && i < |st.sjobs|
    ensures var st' := Apply(st, Poll(rid, now, answer));
            && |st'.sjobs| == |st.sjobs|
            && if st.sjobs[i].raw == rid && (forall j :: 0 <= j < i ==> !Loses(st.sjobs[j], rid, answer(j, 0)))
               then Polled(st.sjobs[i], st'.sjobs[i], now, answer(i, 0))
               else st'.sjobs[i] == st.sjobs[i]
  {
    hide Inv, PollFrom, Polled, Busy, Loses, Moving, AddSite, AddMem;
    forall k | 0 <= k < |st.sjobs|
      ensures |st.sjobs[k].flows| <= 1
    {
      MovingIsBusy(st, k);
    }
    MovingIsBusy(st, i);
    PassMeaning(Pass(st.sjobs, st.net, None, 0, false), rid, 0, i, now, answer);
  }

  /**
   A poll puts an sjob into error if and only if it reaches the sjob while its flow is moving, and the
   launcher does not know its task, or reports no more bytes than before after more than 300000
   milliseconds without progress.
   */
  lemma PollFailsIff(st: State, rid: nat, now: int, answer: (nat, nat) -> PollAnswer, i: nat)
    requires Reachable(st) && rid < |st.raws| && st.raws[rid].state == RawTransferring
    requires i < |st.sjobs| && st.sjobs[i].state != Error
    ensures |Apply(st, Poll(rid, now, answer)).sjobs| == |st.sjobs|
    ensures var s, a := st.sjobs[i], answer(i, 0).rate;
            Apply(st, Poll(rid, now, answer)).sjobs[i].state == Error <==>
              && s.raw == rid && Moving(s) && (forall j :: 0 <= j < i ==> !Loses(st.sjobs[j], rid, answer(j, 0)))
              && (a.UnknownTask? || (a.Rate? && s.flows[0].block < |s.blocks| && a.transferred <= s.blocks[s.flows[0].block].tx
                                     && now - s.flows[0].lastActive > 300000))
  {
    hide Reachable, Inv, Apply, Loses;
    ReachableInv(st);
    PollOutcome(st, rid, now, answer, i);
  }

  // ----- polling and the rawjob

  /** The sjob was put into error. */
  predicate Fails(s: Sjob, t: Sjob) { s.state != Error && t.state == Error }

  lemma PollRaw(s: Sjob, net: Ledger, now: int, answer: nat -> PollAnswer)
    requires |s.flows| <= 1 && (Moving(s) ==> Busy(s))
    ensures var e := PollSjob(s, net, now, answer).eff; e.raw == if Fails(s, e.job) then Some(RawError) else None
  {
    hide Done, Failed;
    PollUnfold(s, net, now, answer);
    if Moving(s) {
      FailedGivesUp(s, net, answer(0).down);
    }
  }

  ghost predicate AnyFails(sjobs: seq<Sjob>, after: seq<Sjob>, k: nat)
    requires |after| == |sjobs|
  {
    exists i :: k <= i < |sjobs| && Fails(sjobs[i], after[i])
  }

  /** A pass puts the rawjob into error if and only if it puts one of the sjobs into error. */
  lemma {:induction false} PassRaw(p: Pass, rid: nat, k: nat, now: int, answer: (nat, nat) -> PollAnswer)
    requires k <= |p.sjobs| && (forall i :: k <= i < |p.sjobs| ==> |p.sjobs[i].flows| <= 1 && (Moving(p.sjobs[i]) ==> Busy(p.sjobs[i])))
    ensures var q := PollFrom(p, rid, k, now, answer);
            && |q.sjobs| == |p.sjobs| && (forall i :: 0 <= i < k ==> q.sjobs[i] == p.sjobs[i])
            && q.raw == if AnyFails(p.sjobs, q.sjobs, k) then Some(RawError) else p.raw
    decreases |p.sjobs| - k
  {
    hide PollSjob, Busy, Moving;
    if k < |p.sjobs| && !p.abort {
      var n := if p.sjobs[k].raw != rid then p else PollOne(p, k, now, answer);
      PassRaw(n, rid, k + 1, now, answer);
      PollRaw(p.sjobs[k], p.net, now, AnswersFor(k, answer));
      var q := PollFrom(p, rid, k, now, answer);
      assert forall i :: k + 1 <= i < |p.sjobs| ==> n.sjobs[i] == p.sjobs[i];
      assert q == PollFrom(n, rid, k + 1, now, answer) && q.sjobs[k] == n.sjobs[k];
      assert AnyFails(p.sjobs, q.sjobs, k) <==> Fails(p.sjobs[k], q.sjobs[k]) || AnyFails(n.sjobs, q.sjobs, k + 1);
    }
  }

  /** A poll leaves the number of jobs, and puts its rawjob into error exactly when it fails one of the sjobs. */
  lemma PollRawOutcome(st: State, rid: nat, now: int, answer: (nat, nat) -> PollAnswer)
    requires Inv(st) && rid < |st.raws| && st.raws[rid].state == RawTransferring
    ensures var st' := Apply(st, Poll(rid, now, answer));
            && |st'.sjobs| == |st.sjobs| && |st'.raws| == |st.raws|
            && st'.raws[rid].state == (if exists i :: 0 <= i < |st.sjobs| && Fails(st.sjobs[i], st'.sjobs[i])
                                       then RawError else RawTransferring)
            && forall r :: 0 <= r < |st.raws| && r != rid ==> st'.raws[r] == st.raws[r]
  {
    hide Inv, PollFrom, Busy, Moving, AddSite, AddMem, Fails;
    forall k | 0 <= k < |st.sjobs|
      ensures |st.sjobs[k].flows| <= 1 && (Moving(st.sjobs[k]) ==> Busy(st.sjobs[k]))
    {
      MovingIsBusy(st, k);
    }
    PassRaw(Pass(st.sjobs, st.net, None, 0, false), rid, 0, now, answer);
  }

  // ----- scheduling

  /** One of a controller's first three answers is a path, and `p` is the first of them. */
  ghost predicate FirstAnswer(tries: seq<Option<PathId>>, p: Option<PathId>) {
    p.Some? && exists k :: 0 <= k < 3 && k < |tries| && tries[k] == p && forall j :: 0 <= j < k ==> tries[j].None?
  }

  ghost predicate Answers(tries: seq<Option<PathId>>) {
    exists k :: 0 <= k < 3 && k < |tries| && tries[k].Some?
  }

  /** The two DTNs get connected: nothing to set up, or a circuit that stands and a path at both ends. */
  ghost predicate Connects(a: PairAnswer) {
    || a.PublicPair?
    || (a.PrivatePair? && Answers(a.net.src) && Answers(a.net.dst)
        && (a.net.wan.StaticWan? || (a.net.wan.DynamicWan? && a.net.wan.uuid.Some? && a.net.wan.reserve && a.net.wan.commit)))
  }

  /** One of the first five pings is answered, over a dynamic circuit one of the first thirty. */
  ghost predicate Pinged(a: ScheduleAnswer) {
    || (exists k :: 0 <= k < 5 && k < |a.pings| && a.pings[k])
    || (a.pair.PrivatePair? && a.pair.net.wan.DynamicWan? && exists k :: 5 <= k < 30 && k < |a.pings| && a.pings[k])
  }

  ghost predicate Launches(a: ScheduleAnswer) { Connects(a.pair) && Pinged(a) && a.launched }

  /** The flow holds exactly what the network handed out. */
  ghost predicate PathsOf(a: PairAnswer, p: Paths) {
    if a.PrivatePair? then
      && FirstAnswer(a.net.src, p.src) && FirstAnswer(a.net.dst, p.dst)
      && p.wan == if a.net.wan.DynamicWan? then a.net.wan.uuid else None
    else p.src.None? && p.dst.None? && p.wan.None?
  }

  /** An sjob that may be scheduled: no flow yet, and a block to send. */
  predicate Startable(s: Sjob) {
    (s.state == Bootstrap || s.state == Transferring) && s.flows == [] && HasWaiting(s)
  }

  /** Block `b` is the first one waiting. */
  predicate Foremost(s: Sjob, b: nat) {
    && b < |s.blocks| && s.blocks[b].state == BlockWaiting
    && forall j :: 0 <= j < b ==> s.blocks[j].state != BlockWaiting
  }

  /** The first waiting block is on its way with a task accepted at time `now`. */
  ghost predicate SetOff(s: Sjob, t: Sjob, a: ScheduleAnswer) {
    && |t.flows| == 1
    && var fl := t.flows[0];
       && t == s.(state := Launching, launches := s.launches + 1, flows := t.flows, blocks := t.blocks)
       && fl.state == FlowSetting && fl.task == TaskLaunched && fl.lastActive == a.now && fl.tx == 0
       && PathsOf(a.pair, fl.paths) && Foremost(s, fl.block)
       && t.blocks == s.blocks[fl.block := s.blocks[fl.block].(state := BlockTransferring)]
  }

  lemma NetworkMeaning(n: NetAnswer)
    ensures NetworkHandling(n).ok <==> Connects(PrivatePair(n))
    ensures NetworkHandling(n).ok ==> PathsOf(PrivatePair(n), NetworkHandling(n).paths)
  {
    var src := FirstPath(n.src, 0, SDN_TRIES);
    var dst := FirstPath(n.dst, 0, SDN_TRIES);
    assert src.Some? == Answers(n.src) && (src.Some? ==> FirstAnswer(n.src, src));
    assert dst.Some? == Answers(n.dst) && (dst.Some? ==> FirstAnswer(n.dst, dst));
  }

  lemma PingMeaning(a: ScheduleAnswer, p: Paths)
    requires p.wan.Some? <==> a.pair.PrivatePair? && a.pair.net.wan.DynamicWan?
    ensures Verified(a.pings, p) <==> Pinged(a)
  {
    if Verified(a.pings, p) {
      var k :| 0 <= k < (if p.wan.Some? then 30 else 5) && k < |a.pings| && a.pings[k];
    }
  }

  lemma LaunchMeaning(s: Sjob, b: nat, p: Paths, net: Ledger, a: ScheduleAnswer)
    requires s.flows == [] && Foremost(s, b) && PathsOf(a.pair, p) && Connects(a.pair)
    ensures var e := VerifyAndLaunch(s, b, p, net, a);
            && e.job.raw == s.raw
            && (if Launches(a) then SetOff(s, e.job, a) && e.raw == Some(RawTransferring)
                else e.job.state == Error && e.job.blocks == s.blocks && e.job.tx == s.tx && e.raw == Some(RawError))
  {
    hide Pinged, Verified, TeardownLedger, PathsOf;
    assert p.wan.Some? <==> a.pair.PrivatePair? && a.pair.net.wan.DynamicWan? by { WanOfPaths(a.pair, p); }
    PingMeaning(a, p);
  }

  lemma WanOfPaths(a: PairAnswer, p: Paths)
    requires PathsOf(a, p) && Connects(a)
    ensures p.wan.Some? <==> a.PrivatePair? && a.net.wan.DynamicWan?
  {}

  /** Scheduling one sjob, by what the network, the pings and the launcher answer. */
  ghost predicate ScheduledTo(s: Sjob, t: Sjob, raw: Option<RawState>, a: ScheduleAnswer) {
    if !Startable(s) then t == s && raw == None
    else if Launches(a) then SetOff(s, t, a) && raw == Some(RawTransferring)
    else t.state == Error && t.blocks == s.blocks && t.tx == s.tx && t.raw == s.raw && raw == Some(RawError)
  }

  lemma ScheduleMeaning(s: Sjob, net: Ledger, a: ScheduleAnswer)
    ensures var e := ScheduleEffect(s, net, a); ScheduledTo(s, e.job, e.raw, a)
  {
    hide Pinged, Verified, TeardownLedger, SetupLedger, NetworkHandling, PathsOf, VerifyAndLaunch, SetOff;
    var fw := FirstWaiting(s.blocks, 0);
    if Startable(s) {
      assert fw.Some? && Foremost(s, fw.value);
      match a.pair
      case NoPair =>
      case PublicPair =>
        assert PathsOf(a.pair, NO_PATHS) by { NoPaths(); }
        LaunchMeaning(s, fw.value, NO_PATHS, net, a);
      case PrivatePair(n) =>
        NetworkMeaning(n);
        if NetworkHandling(n).ok {
          LaunchMeaning(s, fw.value, NetworkHandling(n).paths, SetupLedger(net, n), a);
        }
    }
  }

  lemma NoPaths()
    ensures PathsOf(PublicPair, NO_PATHS)
  {}

  /** What a step on one sjob leaves alone. */
  predicate OnlyJob(st: State, st': State, sid: nat) {
    && sid < |st.sjobs| == |st'.sjobs| && |st'.raws| == |st.raws|
    && (forall i :: 0 <= i < |st.sjobs| && i != sid ==> st'.sjobs[i] == st.sjobs[i])
    && (forall r :: 0 <= r < |st.raws| && r != st.sjobs[sid].raw ==> st'.raws[r] == st.raws[r])
  }

  /** The state of rawjob `r` after a step that sets it, or leaves it. */
  predicate RawSet(st: State, st': State, r: nat, x: Option<RawState>) {
    r < |st.raws| == |st'.raws| && st'.raws[r].state == if x.Some? then x.value else st.raws[r].state
  }

  lemma PutOutcome(st: State, sid: nat, e: Effect)
    requires sid < |st.sjobs| && st.sjobs[sid].raw < |st.raws|
    ensures var st' := PutJob(st, sid, e);
            && OnlyJob(st, st', sid) && st'.sjobs[sid] == e.job && RawSet(st, st', st.sjobs[sid].raw, e.raw)
            && st'.sites == st.sites && st'.mem == st.mem
  {}

  lemma HasRaw(st: State, sid: nat)
    requires Inv(st) && sid < |st.sjobs|
    ensures st.sjobs[sid].raw < |st.raws| && SjobInv(st.sjobs[sid])
  {
    hide SjobInv, Counted, Settled, Mirrored, Accounted, Balanced;
  }

  lemma ScheduleOutcome(st: State, sid: nat, a: ScheduleAnswer)
    requires Inv(st) && sid < |st.sjobs|
    ensures var s, st' := st.sjobs[sid], Apply(st, Schedule(sid, a));
            && OnlyJob(st, st', sid) && st'.sites == st.sites && st'.mem == st.mem
            && if !Startable(s) then st'.sjobs == st.sjobs && st'.raws == st.raws
               else if Launches(a) then SetOff(s, st'.sjobs[sid], a) && RawSet(st, st', s.raw, Some(RawTransferring))
               else st'.sjobs[sid].state == Error && st'.sjobs[sid].blocks == s.blocks && RawSet(st, st', s.raw, Some(RawError))
  {
    hide Inv, ScheduleEffect, SetOff, Launches, Startable;
    HasRaw(st, sid);
    var e := ScheduleEffect(st.sjobs[sid], st.net, a);
    ScheduleMeaning(st.sjobs[sid], st.net, a);
    PutOutcome(st, sid, e);
    if !Startable(st.sjobs[sid]) {
      assert st.sjobs[sid := st.sjobs[sid]] == st.sjobs;
    }
  }

  // ----- reports

  /** The launcher says that it has started: both states move on, and nothing else changes. */
  lemma StartedOutcome(st: State, sid: nat, f: nat)
    requires Known(st, sid, f)
    ensures var s, st' := st.sjobs[sid], Apply(st, ReportStarted(sid, f));
            && OnlyJob(st, st', sid) && st'.raws == st.raws && f < |st'.sjobs[sid].flows| == |s.flows|
            && st'.sjobs[sid].state == Transferring && st'.sjobs[sid].flows[f].state == FlowTransferring
            && st'.sjobs[sid].flows[f].task == TaskStarted
            && st'.sjobs[sid].flows[f].lastActive == s.flows[f].lastActive
            && st'.sjobs[sid].flows[f].block == s.flows[f].block && st'.sjobs[sid].blocks == s.blocks
            && st'.sites == st.sites && st'.mem == st.mem
  {}

  /** The launcher reports an error. */
  lemma FailedOutcome(st: State, sid: nat, d: Wan.Down)
    requires Inv(st) && Known(st, sid, 0) && Allowed(st, ReportFailed(sid, 0, d))
    ensures var s, st' := st.sjobs[sid], Apply(st, ReportFailed(sid, 0, d));
            && OnlyJob(st, st', sid) && GivenUp(s, st'.sjobs[sid]) && RawSet(st, st', s.raw, Some(RawError))
            && st'.sjobs[sid].tx == s.tx && st'.sites == st.sites && st'.mem == st.mem
  {
    hide Inv, Failed, Busy, GivenUp;
    HasRaw(st, sid);
    assert Busy(st.sjobs[sid]) by { AllowedIsAlive(st, sid, 0); }
    FailedGivesUp(st.sjobs[sid], st.net, d);
    PutOutcome(st, sid, Failed(st.sjobs[sid], 0, st.net, d));
  }

  /** Block `nb` has been launched on the sjob's only flow, which keeps its network paths. */
  predicate Onwards(s: Sjob, t: Sjob, nb: nat, accepted: bool) {
    && |s.flows| == 1 && |t.flows| == 1 && t.state == Launching && t.launches == s.launches + 1
    && t.flows[0].state == FlowSetting && t.flows[0].block == nb < |t.blocks| && t.flows[0].paths == s.flows[0].paths
    && t.flows[0].task == (if accepted then TaskLaunched else TaskSilent)
    && t.flows[0].lastActive == s.flows[0].lastActive && t.blocks[nb].state == BlockTransferring
  }

  /** The sjob's flow has stopped for good and its rawjob is in error. */
  predicate Abandons(s: Sjob, t: Sjob) {
    && |s.flows| == 1 && |t.flows| == 1 && t.state == Error && t.launches == s.launches
    && t.flows[0].state == FlowWaiting && t.flows[0].task == TaskSilent
    && t.flows[0].lastActive == s.flows[0].lastActive
  }

  /** Every other block is as before. */
  predicate OtherBlocks(s: Sjob, t: Sjob, b: nat, c: nat) {
    |t.blocks| == |s.blocks| && forall j :: 0 <= j < |s.blocks| && j != b && j != c ==> t.blocks[j] == s.blocks[j]
  }

  /** The first waiting block other than `b`. */
  predicate NextAfter(s: Sjob, b: nat, nb: nat) {
    && nb < |s.blocks| && nb != b && s.blocks[nb].state == BlockWaiting
    && forall j :: 0 <= j < nb ==> j == b || s.blocks[j].state != BlockWaiting
  }

  /** A failed checksum: the block's bytes are taken back, and it is sent again at most twice. */
  predicate SentAgain(s: Sjob, t: Sjob, raw: Option<RawState>, a: FinishAnswer) {
    && |s.flows| == 1 && s.flows[0].block < |s.blocks|
    && var b := s.flows[0].block;
       && OtherBlocks(s, t, b, b) && t.blocks[b] == Block(s.blocks[b].size, BlockTransferring, 0)
       && t.raw == s.raw && t.retry == s.retry + 1 && t.tx == s.tx - s.blocks[b].tx
       && if s.retry < 2 && a.launcher then Onwards(s, t, b, a.launched) && raw == Some(RawTransferring)
          else Abandons(s, t) && raw == Some(RawError)
  }

  /** Block `nb` follows on the same flow, unless there is no launcher to ask. */
  predicate Follows(s: Sjob, t: Sjob, nb: nat, raw: Option<RawState>, a: FinishAnswer) {
    && |s.flows| == 1 && NextAfter(s, s.flows[0].block, nb) && OtherBlocks(s, t, s.flows[0].block, nb)
    && t.blocks[nb] == s.blocks[nb].(state := if a.launcher then BlockTransferring else BlockWaiting)
    && if a.launcher then Onwards(s, t, nb, a.launched) && raw == Some(RawTransferring)
       else Abandons(s, t) && raw == Some(RawError)
  }

  /** A block that arrived: the next waiting one follows, or the sjob is finished. */
  ghost predicate Arrived(s: Sjob, t: Sjob, raw: Option<RawState>, a: FinishAnswer) {
    && |s.flows| == 1 && s.flows[0].block < |s.blocks| == |t.blocks|
    && var b := s.flows[0].block;
       && t.blocks[b] == Block(s.blocks[b].size, BlockFinished, s.blocks[b].size)
       && t.raw == s.raw && t.retry == s.retry && t.tx == s.tx + s.blocks[b].size - s.blocks[b].tx
       && if HasWaiting(s) then exists nb: nat :: Follows(s, t, nb, raw, a)
          else
            && OtherBlocks(s, t, b, b) && t.state == Finished && raw == None
            && |t.flows| == 1 && t.flows[0].state == FlowWaitingToBeTeared && t.flows[0].task == TaskSilent
            && t.flows[0].lastActive == s.flows[0].lastActive
  }

  lemma FailedCheckMeaning(s: Sjob, net: Ledger, a: FinishAnswer)
    requires Busy(s) && a.check.CheckFailed?
    ensures var e, b := Finish(s, 0, net, a), s.flows[0].block;
            && SentAgain(s, e.eff.job, e.eff.raw, a)
            && e.gained == s.blocks[b].size - s.blocks[b].tx && e.lost == s.blocks[b].size
  {
    hide TeardownLedger, Done;
  }

  lemma PassedMeaning(s: Sjob, net: Ledger, a: FinishAnswer)
    requires Busy(s) && !a.check.CheckFailed?
    ensures var e, b := Finish(s, 0, net, a), s.flows[0].block;
            && Arrived(s, e.eff.job, e.eff.raw, a)
            && e.gained == s.blocks[b].size - s.blocks[b].tx && e.lost == 0
  {
    hide TeardownLedger, Done;
    var b := s.flows[0].block;
    match NextBlock(s.blocks, b, 0)
    case Some(nb) =>
      var e := Finish(s, 0, net, a);
      assert Follows(s, e.eff.job, nb, e.eff.raw, a);
    case None =>
      AllAssignedMeansFinished(s);
  }

  /**
   The launcher reports that its block has been sent. Both sites are credited with the bytes not yet
   counted, whatever the checksum says; the rawjob loses the whole block again when the checksum fails.
   */
  lemma FinishedOutcome(st: State, sid: nat, a: FinishAnswer)
    requires Inv(st) && Known(st, sid, 0) && Allowed(st, ReportFinished(sid, 0, a))
    ensures var s, st' := st.sjobs[sid], Apply(st, ReportFinished(sid, 0, a));
            && OnlyJob(st, st', sid) && s.raw < |st.raws|
            && (exists raw :: Reported(s, st'.sjobs[sid], raw, a) && RawAfter(st, st', s.raw, raw))
            && st'.raws[s.raw].tx - st.raws[s.raw].tx == st'.sjobs[sid].tx - s.tx
            && |s.flows| == 1 && s.flows[0].block < |s.blocks|
            && Moved(st, st', s, s.blocks[s.flows[0].block].size - s.blocks[s.flows[0].block].tx)
  {
    hide Inv, Finish, Busy, SentAgain, Arrived, DoFinish, AddBoth, Moved;
    HasRaw(st, sid);
    var s := st.sjobs[sid];
    assert Busy(s) by { AllowedIsAlive(st, sid, 0); }
    var e := Finish(s, 0, st.net, a);
    FinishedIsReported(s, st.net, a);
    FinishKeepsRaw(s, 0, st.net, a);
    FinishShape(st, sid, 0, a);
    FinishKeeps(s, 0, st.net, a);
    var st' := Apply(st, ReportFinished(sid, 0, a));
    assert RawAfter(st, st', s.raw, e.eff.raw);
    BothMoved(st, st', s, e.gained);
  }

  ghost predicate Reported(s: Sjob, t: Sjob, raw: Option<RawState>, a: FinishAnswer) {
    if a.check.CheckFailed? then SentAgain(s, t, raw, a) else Arrived(s, t, raw, a)
  }

  lemma FinishedIsReported(s: Sjob, net: Ledger, a: FinishAnswer)
    requires Busy(s)
    ensures var e, b := Finish(s, 0, net, a), s.flows[0].block;
            && Reported(s, e.eff.job, e.eff.raw, a) && |s.flows| == 1 && b < |s.blocks|
            && e.gained == s.blocks[b].size - s.blocks[b].tx
  {
    hide Finish, SentAgain, Arrived, Done;
    if a.check.CheckFailed? {
      FailedCheckMeaning(s, net, a);
    } else {
      PassedMeaning(s, net, a);
    }
  }

  /** Set to `raw` if there is a value; else finished when all sjobs are, or as it was. */
  ghost predicate RawAfter(st: State, st': State, r: nat, raw: Option<RawState>) {
    && r < |st.raws| == |st'.raws|
    && st'.raws[r].state == if raw.Some? then raw.value
                            else if forall i :: 0 <= i < |st'.sjobs| && st'.sjobs[i].raw == r ==> st'.sjobs[i].state == Finished
                            then RawFinished else st.raws[r].state
  }

  /**
   `d` bytes have gone from the sjob's source site to its destination: a stored site counts them if it is
   there, and a counter in memory is begun at zero if it is not.
   */
  ghost predicate Moved(st: State, st': State, s: Sjob, d: int) {
    && st'.sites.Keys == st.sites.Keys && st'.mem.Keys == st.mem.Keys + {s.src, s.dst}
    && (forall k :: k in st.sites ==> st'.sites[k] == Tallied(st.sites[k], k, s, d))
    && (forall k :: k in st'.mem ==> st'.mem[k] == Tallied(if k in st.mem then st.mem[k] else Txrx(0, 0), k, s, d))
  }

  function Tallied(x: Txrx, k: SiteId, s: Sjob, d: int): Txrx {
    Txrx(x.tx + (if k == s.src then d else 0), x.rx + (if k == s.dst then d else 0))
  }

  lemma BothMoved(st: State, st': State, s: Sjob, d: int)
    requires st'.sites == AddBoth(st, s.src, s.dst, d).sites && st'.mem == AddBoth(st, s.src, s.dst, d).mem
    ensures Moved(st, st', s, d)
  {
    hide AddSite, AddMem;
    SitesMoved(st.sites, s, d);
    MemMoved(st.mem, s, d);
  }

  lemma SitesMoved(m: map<SiteId, Txrx>, s: Sjob, d: int)
    ensures var n := AddSite(AddSite(m, s.src, d, 0), s.dst, 0, d);
            n.Keys == m.Keys && forall k :: k in m ==> n[k] == Tallied(m[k], k, s, d)
  {}

  lemma MemMoved(m: map<SiteId, Txrx>, s: Sjob, d: int)
    ensures var n := AddMem(AddMem(m, s.src, d, 0), s.dst, 0, d);
            && n.Keys == m.Keys + {s.src, s.dst}
            && forall k :: k in n ==> n[k] == Tallied(if k in m then m[k] else Txrx(0, 0), k, s, d)
  {}

  /** A submitted transfer adds one rawjob, waiting unless it has no sjobs, and one sjob per storage, all waiting. */
  lemma SubmitOutcome(st: State, src: SiteId, dst: SiteId, jobs: seq<seq<nat>>)
    ensures var st' := Apply(st, Submit(src, dst, jobs));
            && |st'.raws| == |st.raws| + 1 && st'.raws[..|st.raws|] == st.raws
            && st'.raws[|st.raws|] == RawJob(src, dst, if |jobs| == 0 then RawError else RawWaiting, 0, 0, 0)
            && |st'.sjobs| == |st.sjobs| + |jobs| && st'.sjobs[..|st.sjobs|] == st.sjobs
            && forall k :: 0 <= k < |jobs| ==>
                 var s := st'.sjobs[|st.sjobs| + k];
                 && s.raw == |st.raws| && s.src == src && s.dst == dst && s.state == Bootstrap && s.flows == []
                 && s.tx == 0 && s.retry == 0 && |s.blocks| == |jobs[k]|
                 && forall b :: 0 <= b < |jobs[k]| ==> s.blocks[b] == Block(jobs[k][b], BlockWaiting, 0)
  {}

  // ----- the controllers' side

  /** How often `q` is among two answers, of which only those with a positive number stand for a path. */
  function Times(p: Paths, q: PathId): nat {
    (if p.src == Some(q) && q.id > 0 then 1 else 0) + (if p.dst == Some(q) && q.id > 0 then 1 else 0)
  }

  /** An error report releases the flow's paths, each once, and asks for none. */
  lemma FailedReleases(st: State, sid: nat, d: Wan.Down, q: PathId)
    requires Known(st, sid, 0)
    ensures var st' := Apply(st, ReportFailed(sid, 0, d));
            && st'.net.installed == st.net.installed
            && st'.net.released[q] == st.net.released[q] + Times(st.sjobs[sid].flows[0].paths, q)
  {
    hide Failed, TeardownLedger, SetBlockState, Times;
    var s := st.sjobs[sid];
    FailedLedger(s, st.net, d);
    TeardownCounts(st.net, s.flows[0].paths, d, q);
  }

  lemma FailedLedger(s: Sjob, net: Ledger, d: Wan.Down)
    requires s.flows != []
    ensures Failed(s, 0, net, d).net == TeardownLedger(net, s.flows[0].paths, d)
  {
    hide TeardownLedger;
  }

  lemma InstalledTimes(p: Paths, q: PathId)
    ensures Installed(p)[q] == Times(p, q)
  {}

  lemma TeardownCounts(net: Ledger, p: Paths, d: Wan.Down, q: PathId)
    ensures var after := TeardownLedger(net, p, d);
            after.installed == net.installed && after.released[q] == net.released[q] + Times(p, q)
  {
    hide Installed, Times, Wan.TeardownCalls, Wan.History;
    InstalledTimes(p, q);
  }

  /** Setting up a pair installs exactly the paths that were answered, whether or not the whole setup succeeds. */
  lemma SetupInstalls(net: Ledger, n: NetAnswer, q: PathId)
    ensures var p := NetworkHandling(n).paths;
            && SetupLedger(net, n).installed[q] == net.installed[q] + Times(p, q)
            && SetupLedger(net, n).released == net.released
            && (p.src.Some? ==> FirstAnswer(n.src, p.src)) && (p.dst.Some? ==> FirstAnswer(n.dst, p.dst))
            && (p.dst.Some? ==> p.src.Some?)
  {
    hide Installed, Times, Wan.SetupCalls;
    var p := NetworkHandling(n).paths;
    InstalledTimes(p, q);
    assert p.src.Some? ==> FirstAnswer(n.src, p.src);
    assert p.dst.Some? ==> FirstAnswer(n.dst, p.dst);
  }
}
