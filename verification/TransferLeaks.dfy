/**
 What is lost in reachable states: bytes an aborted poll drops, bytes a failed checksum takes back from
 the rawjob but not from the sites, and network resources that nothing will ever release. A relaunch
 whose launch call is refused leaves a live flow without a task; only a poll of its rawjob can end it,
 and a rawjob that is not transferring is not polled.
 */
module TransferLeaks {
  import opened Collections
  import opened TransferTypes
  import opened TransferSpec
  import opened TransferJob
  import opened TransferNet
  import opened TransferRuns
  import opened TransferTheorems
  import Wan

  // ----- when a live flow can still be ended

  predicate HasWaiting(s: Sjob) {
    exists b :: 0 <= b < |s.blocks| && s.blocks[b].state.BlockWaiting?
  }

  /** The launcher may still report on the sjob's flow. */
  predicate TaskAlive(s: Sjob) {
    s.flows != [] && s.flows[0].task != TaskSilent
  }

  /** Through this sjob its rawjob can be set to transferring again: by a schedule, or by a relaunch. */
  predicate Revives(s: Sjob) {
    || (Schedulable(s) && HasWaiting(s))
    || (TaskAlive(s) && (HasWaiting(s) || s.retry < 2))
  }

  /**
   The flow of sjob `i` can still be ended: its own task may report an error, or its rawjob is polled, or
   some sjob of the rawjob can have it polled again.
   */
  ghost predicate Reclaimable(st: State, i: nat)
    requires i < |st.sjobs|
  {
    var r := st.sjobs[i].raw;
    || TaskAlive(st.sjobs[i])
    || (r < |st.raws| && st.raws[r].state == RawTransferring)
    || exists j :: 0 <= j < |st.sjobs| && st.sjobs[j].raw == r && Revives(st.sjobs[j])
  }

  /** The rawjob is not polled, and none of its sjobs can change that. */
  ghost predicate Stuck(st: State, r: nat) {
    && r < |st.raws| && st.raws[r].state != RawTransferring
    && forall j :: 0 <= j < |st.sjobs| && st.sjobs[j].raw == r ==> !Revives(st.sjobs[j])
  }

  /** Stuck as before, and what has a flow without a task is as it was. */
  ghost predicate StaysStuck(st: State, st': State, r: nat) {
    && |st.sjobs| <= |st'.sjobs| && Stuck(st', r)
    && forall i :: 0 <= i < |st.sjobs| && st.sjobs[i].raw == r && st.sjobs[i].flows != [] && !TaskAlive(st.sjobs[i]) ==>
         st'.sjobs[i] == st.sjobs[i]
  }

  /** Every sjob of rawjob `r` is as it was, and there is no new one. */
  ghost predicate Frozen(st: State, st': State, r: nat) {
    && |st.sjobs| <= |st'.sjobs| && |st.raws| <= |st'.raws|
    && (forall i :: 0 <= i < |st.sjobs| && st.sjobs[i].raw == r ==> st'.sjobs[i] == st.sjobs[i])
    && (forall i :: 0 <= i < |st'.sjobs| && st'.sjobs[i].raw == r ==> i < |st.sjobs| && st.sjobs[i].raw == r)
    && (r < |st.raws| ==> st'.raws[r].state == st.raws[r].state)
  }

  lemma FrozenStays(st: State, st': State, r: nat)
    requires Stuck(st, r) && Frozen(st, st', r)
    ensures StaysStuck(st, st', r)
  {
    hide Revives, TaskAlive;
  }

  /** Putting an effect on an sjob of another rawjob. */
  lemma PutElsewhere(st: State, sid: nat, e: Effect, r: nat)
    requires sid < |st.sjobs| && st.sjobs[sid].raw != r && e.job.raw == st.sjobs[sid].raw
    ensures Frozen(st, PutJob(st, sid, e), r)
  {}

  lemma EffectsKeepRaw(s: Sjob, net: Ledger, a: ScheduleAnswer)
    ensures ScheduleEffect(s, net, a).job.raw == s.raw
  {}

  lemma FinishKeepsRaw(s: Sjob, f: nat, net: Ledger, a: FinishAnswer)
    requires f < |s.flows|
    ensures Finish(s, f, net, a).eff.job.raw == s.raw
  {
    hide NextBlock, OthersFinished, TeardownLedger;
  }

  lemma FinishElsewhere(st: State, sid: nat, f: nat, a: FinishAnswer, r: nat)
    requires Known(st, sid, f) && st.sjobs[sid].raw != r
    ensures Frozen(st, DoFinish(st, sid, f, a), r)
  {
    hide Finish, AddSite, AddMem, AllFinished;
    FinishKeepsRaw(st.sjobs[sid], f, st.net, a);
  }

  lemma {:induction false} PollFlowsKeepRaw(s: Sjob, f: nat, acc: int, raw: Option<RawState>, net: Ledger, now: int, answer: nat -> PollAnswer)
    requires f <= |s.flows|
    ensures PollFlows(s, f, acc, raw, net, now, answer).eff.job.raw == s.raw
    decreases |s.flows| - f
  {
    hide PollFlow;
    if f < |s.flows| {
      var e := PollFlow(s, f, net, now, answer(f));
      var next := if e.eff.raw.Some? then e.eff.raw else raw;
      if !e.abort {
        PollFlowsKeepRaw(e.eff.job, f + 1, acc + e.tx, next, e.eff.net, now, answer);
      }
    }
  }

  /** A pass touches the sjobs of its rawjob only. */
  lemma {:induction false} PollFromElsewhere(p: Pass, rid: nat, i: nat, now: int, answer: (nat, nat) -> PollAnswer)
    requires i <= |p.sjobs|
    ensures var q := PollFrom(p, rid, i, now, answer);
            && |q.sjobs| == |p.sjobs|
            && forall k :: 0 <= k < |p.sjobs| ==>
                 q.sjobs[k].raw == p.sjobs[k].raw && (p.sjobs[k].raw != rid ==> q.sjobs[k] == p.sjobs[k])
    decreases |p.sjobs| - i
  {
    hide PollFlows;
    if i < |p.sjobs| && !p.abort {
      if p.sjobs[i].raw != rid {
        PollFromElsewhere(p, rid, i + 1, now, answer);
      } else {
        PollFlowsKeepRaw(p.sjobs[i], 0, 0, None, p.net, now, AnswersFor(i, answer));
        PollFromElsewhere(PollOne(p, i, now, answer), rid, i + 1, now, answer);
      }
    }
  }

  lemma PollElsewhere(st: State, rid: nat, now: int, answer: (nat, nat) -> PollAnswer, r: nat)
    requires rid < |st.raws| && rid != r
    ensures Frozen(st, DoPoll(st, rid, now, answer), r)
  {
    hide PollFrom, AddSite, AddMem;
    PollFromElsewhere(Pass(st.sjobs, st.net, None, 0, false), rid, 0, now, answer);
  }

  lemma StartedKeepsRaw(s: Sjob, f: nat)
    requires f < |s.flows|
    ensures Started(s, f).raw == s.raw
  {}

  lemma FailedKeepsRaw(s: Sjob, f: nat, net: Ledger, d: Wan.Down)
    requires f < |s.flows|
    ensures Failed(s, f, net, d).job.raw == s.raw
  {}

  // ----- nothing that happens to a stuck rawjob gets it unstuck

  /** One sjob of the rawjob changes, and the change neither revives it nor has the rawjob polled. */
  lemma PutStays(st: State, sid: nat, t: Sjob, st': State, r: nat)
    requires Stuck(st, r) && sid < |st.sjobs| && st.sjobs[sid].raw == r && st'.sjobs == st.sjobs[sid := t]
    requires t.raw == r && !Revives(t) && TaskAlive(st.sjobs[sid])
    requires r < |st'.raws| && st'.raws[r].state != RawTransferring
    ensures StaysStuck(st, st', r)
  {
    hide Revives, TaskAlive;
  }

  lemma StartedStays(s: Sjob)
    requires |s.flows| == 1 && TaskAlive(s) && !Revives(s)
    ensures !Revives(Started(s, 0)) && Started(s, 0).raw == s.raw
  {
    assert Started(s, 0).blocks == s.blocks;
  }

  lemma FailedStays(s: Sjob, net: Ledger, d: Wan.Down)
    requires |s.flows| == 1
    ensures var e := Failed(s, 0, net, d);
            !Revives(e.job) && e.job.raw == s.raw && e.raw == Some(RawError)
  {
    hide TeardownLedger;
  }

  /** Without another block to go to and without a retry left, a finished report ends the flow. */
  lemma FinishStays(s: Sjob, net: Ledger, a: FinishAnswer)
    requires Busy(s) && !HasWaiting(s) && s.retry >= 2
    ensures var e := Finish(s, 0, net, a).eff;
            !Revives(e.job) && e.job.raw == s.raw && e.raw != Some(RawTransferring)
  {
    hide TeardownLedger, NextBlock, Done;
    var b := s.flows[0].block;
    assert NextBlock(s.blocks, b, 0).None?;
    var e := Finish(s, 0, net, a).eff;
    assert |e.job.flows| == 1 && e.job.flows[0].task == TaskSilent;
  }

  lemma AliveIsBusy(st: State, sid: nat)
    requires Inv(st) && sid < |st.sjobs| && TaskAlive(st.sjobs[sid])
    ensures Busy(st.sjobs[sid]) && |st.sjobs[sid].flows| == 1
  {
    hide SumBy, Balanced, Counted, Settled, Mirrored, Accounted;
    assert SjobInv(st.sjobs[sid]);
  }

  lemma AllowedIsAlive(st: State, sid: nat, f: nat)
    requires Inv(st) && Known(st, sid, f) && st.sjobs[sid].flows[f].task != TaskSilent
    ensures f == 0 && TaskAlive(st.sjobs[sid])
  {
    hide SumBy, Balanced, Counted, Settled, Mirrored, Accounted;
    assert SjobInv(st.sjobs[sid]);
  }

  lemma NoScheduleStuck(st: State, sid: nat, a: ScheduleAnswer, r: nat)
    requires Stuck(st, r) && sid < |st.sjobs|
    ensures Frozen(st, PutJob(st, sid, ScheduleEffect(st.sjobs[sid], st.net, a)), r)
  {
    hide Dispatch;
    var s := st.sjobs[sid];
    if s.raw == r {
      assert !Revives(s);
      assert ScheduleEffect(s, st.net, a) == Effect(s, None, st.net);
      assert st.sjobs[sid := s] == st.sjobs;
    } else {
      EffectsKeepRaw(s, st.net, a);
      PutElsewhere(st, sid, ScheduleEffect(s, st.net, a), r);
    }
  }

  lemma StartedStuck(st: State, sid: nat, f: nat, r: nat)
    requires Inv(st) && Stuck(st, r) && Known(st, sid, f) && st.sjobs[sid].flows[f].task != TaskSilent
    ensures StaysStuck(st, PutJob(st, sid, Effect(Started(st.sjobs[sid], f), None, st.net)), r)
  {
    hide Inv, Revives, TaskAlive, Started;
    var s := st.sjobs[sid];
    AllowedIsAlive(st, sid, f);
    AliveIsBusy(st, sid);
    var e := Effect(Started(s, f), None, st.net);
    if s.raw == r {
      StartedStays(s);
      PutStays(st, sid, e.job, PutJob(st, sid, e), r);
    } else {
      StartedKeepsRaw(s, f);
      PutElsewhere(st, sid, e, r);
      FrozenStays(st, PutJob(st, sid, e), r);
    }
  }

  lemma FailedStuck(st: State, sid: nat, f: nat, d: Wan.Down, r: nat)
    requires Inv(st) && Stuck(st, r) && Known(st, sid, f) && st.sjobs[sid].flows[f].task != TaskSilent
    ensures StaysStuck(st, PutJob(st, sid, Failed(st.sjobs[sid], f, st.net, d)), r)
  {
    hide Inv, Revives, TaskAlive, Failed;
    var s := st.sjobs[sid];
    AllowedIsAlive(st, sid, f);
    AliveIsBusy(st, sid);
    var e := Failed(s, f, st.net, d);
    if s.raw == r {
      FailedStays(s, st.net, d);
      PutStays(st, sid, e.job, PutJob(st, sid, e), r);
    } else {
      FailedKeepsRaw(s, f, st.net, d);
      PutElsewhere(st, sid, e, r);
      FrozenStays(st, PutJob(st, sid, e), r);
    }
  }

  lemma FinishStuck(st: State, sid: nat, f: nat, a: FinishAnswer, r: nat)
    requires Inv(st) && Stuck(st, r) && Known(st, sid, f) && st.sjobs[sid].flows[f].task != TaskSilent
    ensures StaysStuck(st, DoFinish(st, sid, f, a), r)
  {
    hide Inv, Finish, AddSite, AddMem, AllFinished, HasWaiting, TaskAlive, Busy;
    var s := st.sjobs[sid];
    AllowedIsAlive(st, sid, f);
    AliveIsBusy(st, sid);
    if s.raw == r {
      assert !Revives(s);
      FinishStays(s, st.net, a);
      PutStays(st, sid, Finish(s, f, st.net, a).eff.job, DoFinish(st, sid, f, a), r);
    } else {
      FinishElsewhere(st, sid, f, a, r);
      FrozenStays(st, DoFinish(st, sid, f, a), r);
    }
  }

  lemma StuckStep(st: State, step: Step, r: nat)
    requires Inv(st) && Stuck(st, r) && Allowed(st, step)
    ensures StaysStuck(st, Apply(st, step), r)
  {
    hide Inv, Revives, TaskAlive, ScheduleEffect, Started, Failed, DoFinish, DoPoll, PutJob, StaysStuck, FreshNetwork;
    match step
    case Submit(src, dst, jobs) =>
      FrozenStays(st, Apply(st, step), r);
    case Schedule(sid, a) =>
      if sid < |st.sjobs| {
        NoScheduleStuck(st, sid, a, r);
      }
      FrozenStays(st, Apply(st, step), r);
    case Poll(rid, now, answer) =>
      if rid < |st.raws| && st.raws[rid].state == RawTransferring {
        PollElsewhere(st, rid, now, answer, r);
      }
      FrozenStays(st, Apply(st, step), r);
    case ReportStarted(sid, f) =>
      if Known(st, sid, f) {
        StartedStuck(st, sid, f, r);
      } else {
        FrozenStays(st, st, r);
      }
    case ReportFailed(sid, f, d) =>
      if Known(st, sid, f) {
        FailedStuck(st, sid, f, d, r);
      } else {
        FrozenStays(st, st, r);
      }
    case ReportFinished(sid, f, a) =>
      if Known(st, sid, f) {
        FinishStuck(st, sid, f, a, r);
      } else {
        FrozenStays(st, st, r);
      }
  }

  /** Over every run a stuck rawjob stays stuck, and its flows without a task do not change. */
  lemma {:induction false} StuckRun(st: State, steps: seq<Step>, r: nat)
    requires Inv(st) && Stuck(st, r) && ValidRun(st, steps)
    ensures StaysStuck(st, Exec(st, steps), r)
    decreases |steps|
  {
    hide Inv, Revives, TaskAlive, Apply, Allowed;
    if steps != [] {
      var next := Apply(st, steps[0]);
      StuckStep(st, steps[0], r);
      StepKeeps(st, steps[0]);
      StuckRun(next, steps[1..], r);
    }
  }

  lemma {:induction false} RunsJoin(st: State, a: seq<Step>, b: seq<Step>)
    requires ValidRun(st, a) && ValidRun(Exec(st, a), b)
    ensures ValidRun(st, a + b) && Exec(st, a + b) == Exec(Exec(st, a), b)
    decreases |a|
  {
    hide Apply, Allowed;
    if a == [] {
      assert a + b == b;
    } else {
      assert (a + b)[1..] == a[1..] + b;
      RunsJoin(Apply(st, a[0]), a[1..], b);
    }
  }

  lemma ReachableOnwards(st: State, steps: seq<Step>)
    requires Reachable(st) && ValidRun(st, steps)
    ensures Reachable(Exec(st, steps))
  {
    hide Exec, ValidRun;
    var base, before :| ValidRun(Init(base), before) && st == Exec(Init(base), before);
    RunsJoin(Init(base), before, steps);
  }


  // ----- and what is not stuck can be ended

  /** The launcher knows nothing of sjob `i`'s task, and does not answer about the others. */
  function OnlyUnknown(i: nat): (nat, nat) -> PollAnswer {
    (k, f) => PollAnswer(if k == i then UnknownTask else TimedOut, NO_ANSWERS)
  }

  lemma SilentPoll(p: Pass, k: nat, i: nat)
    requires k < |p.sjobs| && k != i && |p.sjobs[k].flows| <= 1 && !p.abort
    ensures PollOne(p, k, 0, OnlyUnknown(i)) == p
  {
    var s := p.sjobs[k];
    PollUnfold(s, p.net, 0, AnswersFor(k, OnlyUnknown(i)));
    assert s.(tx := s.tx + 0) == s;
    assert p.sjobs[k := s] == p.sjobs;
  }

  lemma EndingPoll(p: Pass, i: nat)
    requires i < |p.sjobs| && |p.sjobs[i].flows| == 1 && Live(p.sjobs[i].flows[0]) && !p.abort
    ensures var q := PollOne(p, i, 0, OnlyUnknown(i));
            q.abort && q.net == TeardownLedger(p.net, p.sjobs[i].flows[0].paths, NO_ANSWERS)
  {
    hide TeardownLedger;
    PollUnfold(p.sjobs[i], p.net, 0, AnswersFor(i, OnlyUnknown(i)));
  }

  lemma {:induction false} PollFromEnds(p: Pass, r: nat, k: nat, i: nat)
    requires k <= i < |p.sjobs| && !p.abort && OneFlowEach(p.sjobs)
    requires p.sjobs[i].raw == r && |p.sjobs[i].flows| == 1 && Live(p.sjobs[i].flows[0])
    ensures PollFrom(p, r, k, 0, OnlyUnknown(i)).net == TeardownLedger(p.net, p.sjobs[i].flows[0].paths, NO_ANSWERS)
    decreases i - k
  {
    hide PollOne, TeardownLedger;
    if k == i {
      EndingPoll(p, i);
    } else {
      if p.sjobs[k].raw == r {
        SilentPoll(p, k, i);
      }
      PollFromEnds(p, r, k + 1, i);
    }
  }

  /** A poll of a transferring rawjob can end any of its live flows. */
  lemma PollEnds(st: State, i: nat)
    requires i < |st.sjobs| && OneFlowEach(st.sjobs) && |st.sjobs[i].flows| == 1 && Live(st.sjobs[i].flows[0])
    requires st.sjobs[i].raw < |st.raws| && st.raws[st.sjobs[i].raw].state == RawTransferring
    ensures var step := Poll(st.sjobs[i].raw, 0, OnlyUnknown(i));
            Allowed(st, step) && Apply(st, step).net == TeardownLedger(st.net, st.sjobs[i].flows[0].paths, NO_ANSWERS)
  {
    hide PollFrom, TeardownLedger, AddSite, AddMem;
    PollFromEnds(Pass(st.sjobs, st.net, None, 0, false), st.sjobs[i].raw, 0, i);
  }

  /** A schedule of a sjob with a waiting block can put its rawjob back to transferring. */
  lemma ScheduleRevives(s: Sjob, net: Ledger)
    requires Schedulable(s) && HasWaiting(s)
    ensures ScheduleEffect(s, net, Public()).raw == Some(RawTransferring)
  {
    assert FirstWaiting(s.blocks, 0).Some?;
    assert Verified([true], NO_PATHS) by { assert [true][0]; }
  }

  function Relaunching(s: Sjob): FinishAnswer {
    FinishAnswer(if HasWaiting(s) then NoCheck else CheckFailed, true, true, NO_ANSWERS)
  }

  /** So can a finished report, by a relaunch: of another block, or of the same after a failed checksum. */
  lemma FinishRevives(s: Sjob, net: Ledger)
    requires Busy(s) && (HasWaiting(s) || s.retry < 2)
    ensures var e := Finish(s, 0, net, Relaunching(s)).eff;
            e.raw == Some(RawTransferring) && e.job.state == Launching && e.job.raw == s.raw
  {
    hide NextBlock, Done;
    var b := s.flows[0].block;
    if HasWaiting(s) {
      var w :| 0 <= w < |s.blocks| && s.blocks[w].state.BlockWaiting?;
      assert w != b;
      assert NextBlock(s.blocks, b, 0).Some?;
    }
  }

  lemma FinishSetsRaw(st: State, sid: nat, a: FinishAnswer)
    requires Known(st, sid, 0) && st.sjobs[sid].raw < |st.raws|
    requires var e := Finish(st.sjobs[sid], 0, st.net, a).eff;
             e.raw == Some(RawTransferring) && e.job.state == Launching && e.job.raw == st.sjobs[sid].raw
    ensures var st' := DoFinish(st, sid, 0, a);
            && |st'.raws| == |st.raws| && st'.raws[st.sjobs[sid].raw].state == RawTransferring
            && |st'.sjobs| == |st.sjobs| && forall k :: 0 <= k < |st.sjobs| && k != sid ==> st'.sjobs[k] == st.sjobs[k]
  {
    hide Finish, AddSite, AddMem, AllFinished;
  }

  lemma PutSetsRaw(st: State, sid: nat, e: Effect)
    requires sid < |st.sjobs| && st.sjobs[sid].raw < |st.raws| && e.raw == Some(RawTransferring)
    ensures var st' := PutJob(st, sid, e);
            && |st'.raws| == |st.raws| && st'.raws[st.sjobs[sid].raw].state == RawTransferring
            && |st'.sjobs| == |st.sjobs| && forall k :: 0 <= k < |st.sjobs| && k != sid ==> st'.sjobs[k] == st.sjobs[k]
  {}

  lemma RawKnown(st: State, sid: nat)
    requires Inv(st) && sid < |st.sjobs|
    ensures st.sjobs[sid].raw < |st.raws|
  {
    hide SjobInv, Balanced, Counted, Settled, Mirrored, Accounted;
  }

  /** An sjob that revives its rawjob does so in one allowed step, and leaves the others alone. */
  lemma RevivingStep(st: State, i: nat, j: nat) returns (step: Step)
    requires Inv(st) && i < |st.sjobs| && j < |st.sjobs| && st.sjobs[j].raw == st.sjobs[i].raw
    requires st.sjobs[i].flows != [] && !TaskAlive(st.sjobs[i]) && Revives(st.sjobs[j])
    ensures Allowed(st, step)
    ensures var st' := Apply(st, step);
            && i < |st'.sjobs| && st'.sjobs[i] == st.sjobs[i]
            && st.sjobs[i].raw < |st'.raws| && st'.raws[st.sjobs[i].raw].state == RawTransferring
  {
    hide ScheduleEffect, Finish, DoFinish, HasWaiting, Inv, Busy, FreshNetwork, PutJob;
    var s := st.sjobs[j];
    RawKnown(st, j);
    if Schedulable(s) && HasWaiting(s) {
      ScheduleRevives(s, st.net);
      PutSetsRaw(st, j, ScheduleEffect(s, st.net, Public()));
      step := Schedule(j, Public());
    } else {
      AliveIsBusy(st, j);
      FinishRevives(s, st.net);
      step := ReportFinished(j, 0, Relaunching(s));
      FinishSetsRaw(st, j, Relaunching(s));
    }
  }

  /** A reclaimable flow is ended by a run of at most two steps, out of a state in which it is as it was. */
  lemma Reclaims(st: State, i: nat) returns (mid: State, steps: seq<Step>)
    requires Reachable(st) && i < |st.sjobs| && |st.sjobs[i].flows| == 1 && Live(st.sjobs[i].flows[0])
    requires Reclaimable(st, i)
    ensures ValidRun(st, steps) && Reachable(mid) && i < |mid.sjobs| && mid.sjobs[i] == st.sjobs[i]
    ensures Exec(st, steps).net == TeardownLedger(mid.net, st.sjobs[i].flows[0].paths, NO_ANSWERS)
  {
    hide Reachable, Inv, TeardownLedger, Allowed, Apply, TaskAlive, Revives, OneFlowEach, HoldsPath;
    ReachableInv(st);
    ReachableFlows(st);
    var r := st.sjobs[i].raw;
    if TaskAlive(st.sjobs[i]) {
      var step := FailingStep(st, i);
      mid, steps := st, [step];
      One(st, step);
    } else if r < |st.raws| && st.raws[r].state == RawTransferring {
      PollEnds(st, i);
      var step := Poll(r, 0, OnlyUnknown(i));
      mid, steps := st, [step];
      One(st, step);
    } else {
      var j :| 0 <= j < |st.sjobs| && st.sjobs[j].raw == r && Revives(st.sjobs[j]);
      var first := RevivingStep(st, i, j);
      mid := Apply(st, first);
      One(st, first);
      ReachableOnwards(st, [first]);
      ReachableFlows(mid);
      PollEnds(mid, i);
      var poll := Poll(r, 0, OnlyUnknown(i));
      steps := [first, poll];
      Two(st, first, poll);
    }
  }

  lemma FailingStep(st: State, i: nat) returns (step: Step)
    requires i < |st.sjobs| && |st.sjobs[i].flows| == 1 && TaskAlive(st.sjobs[i])
    ensures Allowed(st, step)
    ensures Apply(st, step).net == TeardownLedger(st.net, st.sjobs[i].flows[0].paths, NO_ANSWERS)
  {
    hide TeardownLedger;
    step := ReportFailed(i, 0, NO_ANSWERS);
  }

  lemma One(st: State, a: Step)
    ensures Exec(st, [a]) == Apply(st, a) && (ValidRun(st, [a]) <==> Allowed(st, a))
  {
    hide Apply, Allowed;
    assert [a][1..] == [];
    assert Exec(Apply(st, a), []) == Apply(st, a) && ValidRun(Apply(st, a), []);
  }

  // ----- the exact condition

  lemma NotReclaimableIsStuck(st: State, i: nat)
    requires Inv(st) && i < |st.sjobs| && !Reclaimable(st, i)
    ensures Stuck(st, st.sjobs[i].raw)
  {
    hide SjobInv, Revives, TaskAlive, Counted, Settled, Mirrored, Accounted, Balanced;
  }

  /** A flow that is not reclaimable is never touched again. */
  lemma NeverTouched(st: State, i: nat, steps: seq<Step>)
    requires Reachable(st) && i < |st.sjobs| && st.sjobs[i].flows != [] && !Reclaimable(st, i) && ValidRun(st, steps)
    ensures i < |Exec(st, steps).sjobs| && Exec(st, steps).sjobs[i] == st.sjobs[i] && Reachable(Exec(st, steps))
  {
    hide Reachable, Inv, TaskAlive, Revives, Exec, ValidRun;
    ReachableInv(st);
    NotReclaimableIsStuck(st, i);
    StuckRun(st, steps, st.sjobs[i].raw);
    ReachableOnwards(st, steps);
  }

  /** What a live flow holds: one path, not yet released; a circuit, committed. */
  lemma HeldNow(st: State, i: nat, p: PathId, u: Wan.Uuid)
    requires Reachable(st) && i < |st.sjobs|
    ensures HoldsPath(st.sjobs, i, 0, p) ==> st.net.installed[p] == 1 && st.net.released[p] == 0
    ensures HoldsCircuit(st.sjobs, i, 0, u) ==> IsUp(st.net.wan, u)
  {
    hide Reachable, IsUp, HoldsPath, HoldsCircuit;
    SdnPathLifecycle(st, p);
    WanCircuitLifecycle(st, u);
  }

  lemma HoldsMeansLive(st: State, i: nat)
    requires Reachable(st) && i < |st.sjobs|
    ensures (exists p :: HoldsPath(st.sjobs, i, 0, p)) || (exists u :: HoldsCircuit(st.sjobs, i, 0, u)) ==>
              |st.sjobs[i].flows| == 1 && Live(st.sjobs[i].flows[0])
  {
    hide Reachable;
    ReachableFlows(st);
  }

  /**
   An SDN path held by a live flow is released in some run if and only if the flow's own task may still
   report, or its rawjob is transferring, or some sjob of the rawjob can be scheduled with a block that
   waits, or some sjob of it has a task that may report and a block that waits or a retry left.
   */
  lemma PathReclaimedIff(st: State, i: nat, p: PathId)
    requires Reachable(st) && i < |st.sjobs| && HoldsPath(st.sjobs, i, 0, p)
    ensures st.net.released[p] == 0
    ensures (exists steps :: ValidRun(st, steps) && Exec(st, steps).net.released[p] == 1) <==> Reclaimable(st, i)
  {
    hide Reachable, Reclaimable, Exec, ValidRun;
    HeldNow(st, i, p, "");
    HoldsMeansLive(st, i);
    if Reclaimable(st, i) {
      var mid, steps := Reclaims(st, i);
      HeldNow(mid, i, p, "");
      ReachableOnwards(st, steps);
      SdnPathLifecycle(Exec(st, steps), p);
      assert Exec(st, steps).net.released[p] == 1;
    } else {
      forall steps | ValidRun(st, steps)
        ensures Exec(st, steps).net.released[p] == 0
      {
        NeverTouched(st, i, steps);
        HeldNow(Exec(st, steps), i, p, "");
      }
    }
  }

  /** A circuit held by a live flow is taken down, or at least tried, in some run under the same condition. */
  lemma CircuitReclaimedIff(st: State, i: nat, u: Wan.Uuid)
    requires Reachable(st) && i < |st.sjobs| && HoldsCircuit(st.sjobs, i, 0, u)
    ensures IsUp(st.net.wan, u)
    ensures (exists steps :: ValidRun(st, steps) && !IsUp(Exec(st, steps).net.wan, u)) <==> Reclaimable(st, i)
  {
    hide Reachable, Reclaimable, Exec, ValidRun;
    var any := PathId("", 0);
    HeldNow(st, i, any, u);
    HoldsMeansLive(st, i);
    if Reclaimable(st, i) {
      var mid, steps := Reclaims(st, i);
      HeldNow(mid, i, any, u);
      Wan.TeardownFollowsProtocol(mid.net.wan[u], NO_ANSWERS);
      assert !IsUp(Exec(st, steps).net.wan, u);
    } else {
      forall steps | ValidRun(st, steps)
        ensures IsUp(Exec(st, steps).net.wan, u)
      {
        NeverTouched(st, i, steps);
        HeldNow(Exec(st, steps), i, any, u);
      }
    }
  }

  // ----- runs in which it happens

  const NO_ANSWERS := Wan.Down([], [], [])

  function Public(): ScheduleAnswer { ScheduleAnswer(PublicPair, [true], true, 0, NO_ANSWERS) }

  /** Two sites whose controllers both answer with path number one. */
  function Private(): ScheduleAnswer {
    ScheduleAnswer(PrivatePair(NetAnswer(StaticWan, [Some(PathId("a", 1))], [Some(PathId("b", 1))])),
                   [true], true, 0, NO_ANSWERS)
  }

  function Launched(raw: nat, sizes: seq<nat>, p: Paths): Sjob
    requires |sizes| > 0
  {
    Sjob(raw, "a", "b", Launching, 0, 0, NewBlocks(sizes)[0 := Block(sizes[0], BlockTransferring, 0)],
         [Flow(FlowSetting, 0, 0, p, 0, TaskLaunched)], 1)
  }

  lemma ScheduledPublic(sizes: seq<nat>, net: Ledger)
    requires |sizes| > 0
    ensures ScheduleEffect(NewSjob(0, "a", "b", sizes), net, Public())
         == Effect(Launched(0, sizes, NO_PATHS), Some(RawTransferring), net)
  {
    var s := NewSjob(0, "a", "b", sizes);
    assert FirstWaiting(s.blocks, 0) == Some(0);
    assert Verified([true], NO_PATHS) by { assert [true][0]; }
    assert s.flows + [NewFlow(0, NO_PATHS)] == [NewFlow(0, NO_PATHS)];
    assert ScheduleEffect(s, net, Public()).job.flows == Launched(0, sizes, NO_PATHS).flows;
  }

  const PRIVATE_PATHS := Paths(Some(PathId("a", 1)), Some(PathId("b", 1)), None)

  lemma ScheduledPrivate(sizes: seq<nat>, net: Ledger)
    requires |sizes| > 0
    ensures var e := ScheduleEffect(NewSjob(0, "a", "b", sizes), net, Private());
            e.job == Launched(0, sizes, PRIVATE_PATHS) && e.raw == Some(RawTransferring)
  {
    var s, n := NewSjob(0, "a", "b", sizes), Private().pair.net;
    assert FirstWaiting(s.blocks, 0) == Some(0);
    assert NetworkHandling(n) == NetResult(true, PRIVATE_PATHS, SdnSetup);
    assert Verified([true], PRIVATE_PATHS) by { assert [true][0]; }
    assert s.flows + [NewFlow(0, PRIVATE_PATHS)] == [NewFlow(0, PRIVATE_PATHS)];
    assert ScheduleEffect(s, net, Private()).job.flows == Launched(0, sizes, PRIVATE_PATHS).flows;
  }

  /** One rawjob, two sjobs of one block each, both launched. */
  lemma TwoLaunched() returns (st: State, steps: seq<Step>)
    ensures ValidRun(Init(map[]), steps) && st == Exec(Init(map[]), steps)
    ensures st.sjobs == [Launched(0, [10], NO_PATHS), Launched(0, [10], NO_PATHS)]
    ensures |st.raws| == 1 && st.raws[0].state == RawTransferring && st.raws[0].dropped == 0
  {
    var s0, s1, s2 := Submit("a", "b", [[10], [10]]), Schedule(0, Public()), Schedule(1, Public());
    var st0 := Init(map[]);
    var st1 := Apply(st0, s0);
    var job := NewSjob(0, "a", "b", [10]);
    assert st1.sjobs == [job, job] && |st1.raws| == 1;
    var st2 := Apply(st1, s1);
    ScheduledPublic([10], st1.net);
    assert st2.sjobs == [Launched(0, [10], NO_PATHS), job];
    st := Apply(st2, s2);
    ScheduledPublic([10], st2.net);
    assert st.sjobs == [Launched(0, [10], NO_PATHS), Launched(0, [10], NO_PATHS)];
    steps := [s0, s1, s2];
    Three(st0, s0, s1, s2);
  }

  lemma Two(st: State, a: Step, b: Step)
    ensures Exec(st, [a, b]) == Apply(Apply(st, a), b)
    ensures ValidRun(st, [a, b]) <==> Allowed(st, a) && Allowed(Apply(st, a), b)
  {
    hide Apply, Allowed;
    var st1 := Apply(st, a);
    assert [a, b][1..] == [b] && [b][1..] == [];
    assert Exec(st, [a, b]) == Exec(st1, [b]) == Exec(Apply(st1, b), []);
    assert ValidRun(Apply(st1, b), []);
    assert ValidRun(st1, [b]) <==> Allowed(st1, b);
  }

  lemma Three(st: State, a: Step, b: Step, c: Step)
    ensures Exec(st, [a, b, c]) == Apply(Apply(Apply(st, a), b), c)
    ensures ValidRun(st, [a, b, c])
       <==> Allowed(st, a) && Allowed(Apply(st, a), b) && Allowed(Apply(Apply(st, a), b), c)
  {
    hide Apply, Allowed;
    var st1 := Apply(st, a);
    assert [a, b, c][1..] == [b, c];
    Two(st1, b, c);
    assert Exec(st, [a, b, c]) == Exec(st1, [b, c]);
  }

  function Mixed(): (nat, nat) -> PollAnswer {
    (i, f) => if i == 0 then PollAnswer(Rate(4), NO_ANSWERS) else PollAnswer(UnknownTask, NO_ANSWERS)
  }

  /** The first sjob has moved four bytes and the second one's task is gone: the rawjob never sees the four. */
  lemma BytesAreDropped() returns (st: State)
    ensures Reachable(st) && |st.raws| == 1 && st.raws[0].dropped == 4 && st.raws[0].tx == 0
    ensures SumBy(st.sjobs, TxFor(0)) == 4
  {
    hide PollFrom, SumBy, AddSite, AddMem;
    var before, steps := TwoLaunched();
    assert Reachable(before);
    var poll := Poll(0, 0, Mixed());
    assert Allowed(before, poll);
    assert Loses(before.sjobs[1], 0, Mixed()(1, 0));
    assert LosesTask(before.sjobs, 0, 0, Mixed());
    AbortedPollDrops(before, 0, 0, Mixed());
    RawjobBytes(before, 0);
    st := Apply(before, poll);
    PolledBytes(before.sjobs, before.net);
    assert ValidRun(before, [poll]) && Exec(before, [poll]) == st by { assert [poll][1..] == []; }
    ReachableOnwards(before, [poll]);
    RawjobBytes(st, 0);
  }

  lemma SumTwo<T>(x: T, y: T, f: T -> int)
    ensures SumBy([x, y], f) == f(x) + f(y)
  {
    assert [x, y][1..] == [y] && [y][1..] == [];
    assert SumBy([y], f) == f(y) + SumBy([], f);
  }

  /** A poll that reports four bytes. */
  lemma FourBytes(net: Ledger)
    ensures var e := PollSjob(Launched(0, [10], NO_PATHS), net, 0, AnswersFor(0, Mixed()));
            e.eff.job.tx == 4 && e.eff.job.raw == 0 && e.tx == 4 && !e.abort
  {
    PollUnfold(Launched(0, [10], NO_PATHS), net, 0, AnswersFor(0, Mixed()));
  }

  lemma LostTask(net: Ledger)
    ensures var e := PollSjob(Launched(0, [10], NO_PATHS), net, 0, AnswersFor(1, Mixed()));
            e.eff.job.tx == 0 && e.eff.job.raw == 0 && e.abort
  {
    PollUnfold(Launched(0, [10], NO_PATHS), net, 0, AnswersFor(1, Mixed()));
  }

  /** What the aborted pass leaves on the two sjobs. */
  lemma PolledBytes(sjobs: seq<Sjob>, net: Ledger)
    requires sjobs == [Launched(0, [10], NO_PATHS), Launched(0, [10], NO_PATHS)]
    ensures SumBy(PollFrom(Pass(sjobs, net, None, 0, false), 0, 0, 0, Mixed()).sjobs, TxFor(0)) == 4
    ensures SumBy(sjobs, TxFor(0)) == 0
  {
    hide PollSjob, SumBy;
    var p0 := Pass(sjobs, net, None, 0, false);
    SumTwo(sjobs[0], sjobs[1], TxFor(0));
    FourBytes(net);
    var p1 := PollOne(p0, 0, 0, Mixed());
    LostTask(p1.net);
    var p2 := PollOne(p1, 1, 0, Mixed());
    assert p2.sjobs == [p1.sjobs[0], p2.sjobs[1]];
    SumTwo(p2.sjobs[0], p2.sjobs[1], TxFor(0));
    assert PollFrom(p0, 0, 0, 0, Mixed()) == PollFrom(p1, 0, 1, 0, Mixed()) == PollFrom(p2, 0, 2, 0, Mixed()) == p2;
  }

  // ----- bytes that only the sites keep

  const TWO_SITES := map["a" := Txrx(0, 0), "b" := Txrx(0, 0)]

  lemma OneLaunched() returns (st: State, steps: seq<Step>)
    ensures ValidRun(Init(TWO_SITES), steps) && st == Exec(Init(TWO_SITES), steps)
    ensures st.sjobs == [Launched(0, [10], NO_PATHS)] && st.sites == TWO_SITES && st.base == TWO_SITES
    ensures |st.raws| == 1 && st.raws[0].src == "a" && st.raws[0].dst == "b" && st.raws[0].rolledBack == 0 && st.raws[0].tx == 0
  {
    hide ScheduleEffect;
    var s0, s1 := Submit("a", "b", [[10]]), Schedule(0, Public());
    var st0 := Init(TWO_SITES);
    var st1 := Apply(st0, s0);
    assert st1.sjobs == [NewSjob(0, "a", "b", [10])] && |st1.raws| == 1;
    ScheduledPublic([10], st1.net);
    st, steps := Apply(st1, s1), [s0, s1];
    assert st.sjobs == [Launched(0, [10], NO_PATHS)];
    Two(st0, s0, s1);
  }

  /** One block of ten bytes fails its checksum: the rawjob is back at zero, and both sites have counted ten. */
  lemma BytesOnlySitesKeep() returns (st: State)
    ensures Reachable(st) && |st.raws| == 1 && st.raws[0].tx == 0 && st.raws[0].rolledBack == 10
    ensures "a" in st.sites && st.sites["a"].tx == 10 && "b" in st.sites && st.sites["b"].rx == 10
  {
    hide DoFinish, PollFrom, SumBy, Reachable, Exec, ValidRun;
    var before, steps := OneLaunched();
    ReachableStart(before, steps);
    var step := ReportFinished(0, 0, FinishAnswer(CheckFailed, true, true, NO_ANSWERS));
    assert Allowed(before, step);
    st := Apply(before, step);
    One(before, step);
    ReachableOnwards(before, [step]);
    HistoryChanges(before, step, 0);
    FinishedOnce(before, step.fin);
    RawjobBytes(st, 0);
    SiteBytes(st, "a");
    SiteBytes(st, "b");
    assert st.raws == [st.raws[0]];
    SumOne(st.raws[0], SentFrom("a"));
    SumOne(st.raws[0], ReceivedAt("b"));
  }

  lemma ReachableStart(st: State, steps: seq<Step>)
    requires ValidRun(Init(TWO_SITES), steps) && st == Exec(Init(TWO_SITES), steps)
    ensures Reachable(st)
  {}

  lemma SumOne<T>(x: T, f: T -> int)
    ensures SumBy([x], f) == f(x)
  {
    assert [x][1..] == [];
  }

  /** What the failed checksum leaves on the one sjob and on its rawjob. */
  lemma FinishedOnce(st: State, a: FinishAnswer)
    requires st.sjobs == [Launched(0, [10], NO_PATHS)] && |st.raws| == 1 && a.check.CheckFailed?
    requires st.raws[0].src == "a" && st.raws[0].dst == "b" && st.sites == TWO_SITES && st.base == TWO_SITES
    ensures var st' := DoFinish(st, 0, 0, a);
            && |st'.raws| == 1 && st'.raws[0].src == "a" && st'.raws[0].dst == "b"
            && st'.raws[0].tx == st.raws[0].tx && st'.sites.Keys == TWO_SITES.Keys && st'.base == TWO_SITES
  {
    hide Relaunch, TearAndFail, AddTx, Credit;
  }

  // ----- a stranded flow

  function Refused(): FinishAnswer { FinishAnswer(NoCheck, true, false, NO_ANSWERS) }

  /** The first block is done and the launch of the second is refused: a live flow with a silent task. */
  function Abandoned(): Sjob {
    Sjob(0, "a", "b", Launching, 1, 0, [Block(1, BlockFinished, 1), Block(1, BlockTransferring, 0)],
         [Flow(FlowSetting, 1, 1, PRIVATE_PATHS, 0, TaskSilent)], 2)
  }

  lemma RelaunchRefused(net: Ledger)
    ensures Finish(Launched(0, [1, 1], PRIVATE_PATHS), 0, net, Refused()).eff
         == Effect(Abandoned(), Some(RawTransferring), net)
  {
    var s := Launched(0, [1, 1], PRIVATE_PATHS);
    assert NextBlock(s.blocks, 0, 0) == NextBlock(s.blocks, 0, 1) == Some(1);
    var e := Finish(s, 0, net, Refused()).eff;
    assert e.job.blocks == Abandoned().blocks;
    assert e.job.flows == Abandoned().flows;
  }

  /** Both sjobs launched, the first over private paths. */
  lemma PrivateLaunched() returns (st: State, steps: seq<Step>)
    ensures ValidRun(Init(map[]), steps) && st == Exec(Init(map[]), steps)
    ensures st.sjobs == [Launched(0, [1, 1], PRIVATE_PATHS), Launched(0, [1], NO_PATHS)] && |st.raws| == 1
  {
    hide ScheduleEffect;
    var s0, s1, s2 := Submit("a", "b", [[1, 1], [1]]), Schedule(0, Private()), Schedule(1, Public());
    var st0 := Init(map[]);
    var st1 := Apply(st0, s0);
    assert st1.sjobs == [NewSjob(0, "a", "b", [1, 1]), NewSjob(0, "a", "b", [1])] && |st1.raws| == 1;
    var st2 := Apply(st1, s1);
    ScheduledPrivate([1, 1], st1.net);
    assert st2.sjobs == [Launched(0, [1, 1], PRIVATE_PATHS), NewSjob(0, "a", "b", [1])];
    st := Apply(st2, s2);
    ScheduledPublic([1], st2.net);
    assert st.sjobs == [Launched(0, [1, 1], PRIVATE_PATHS), Launched(0, [1], NO_PATHS)];
    steps := [s0, s1, s2];
    Three(st0, s0, s1, s2);
  }

  /** The first sjob's relaunch is refused; then the second sjob fails and takes the rawjob with it. */
  lemma StrandedReached() returns (st: State)
    ensures Reachable(st) && |st.sjobs| == 2 && !Reclaimable(st, 0)
    ensures |st.sjobs| == 2 && st.sjobs[0] == Abandoned()
    ensures HoldsPath(st.sjobs, 0, 0, PathId("a", 1)) && HoldsPath(st.sjobs, 0, 0, PathId("b", 1))
  {
    var st0, steps := PrivateLaunched();
    assert Reachable(st0);
    st := AfterRefusal(st0);
  }

  lemma AfterRefusal(st0: State) returns (st: State)
    requires Reachable(st0) && |st0.raws| == 1
    requires st0.sjobs == [Launched(0, [1, 1], PRIVATE_PATHS), Launched(0, [1], NO_PATHS)]
    ensures Reachable(st) && |st.sjobs| == 2 && !Reclaimable(st, 0)
    ensures |st.sjobs| == 2 && st.sjobs[0] == Abandoned()
    ensures HoldsPath(st.sjobs, 0, 0, PathId("a", 1)) && HoldsPath(st.sjobs, 0, 0, PathId("b", 1))
  {
    hide Finish, Reachable, AddSite, AddMem, TeardownLedger, AllFinished, Exec, ValidRun;
    var s3, s4 := ReportFinished(0, 0, Refused()), ReportFailed(1, 0, NO_ANSWERS);
    RelaunchRefused(st0.net);
    var st1 := Apply(st0, s3);
    assert st1.sjobs == [Abandoned(), Launched(0, [1], NO_PATHS)];
    st := Apply(st1, s4);
    assert st.sjobs[0] == Abandoned() && st.sjobs[1].state == Error;
    Two(st0, s3, s4);
    ReachableOnwards(st0, [s3, s4]);
  }
}
