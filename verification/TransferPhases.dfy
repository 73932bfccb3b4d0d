/** How the states of an sjob, of its flow and of the launcher's task go together, and how long a silent job lives. */
module TransferPhases {
  import opened Collections
  import opened TransferTypes
  import opened TransferSpec
  import opened TransferJob
  import opened TransferRuns
  import opened TransferTheorems
  import opened TransferLeaks
  import opened TransferMeaning
  import Wan

  /** The states that go together. */
  predicate InPhase(s: Sjob) {
    && |s.flows| <= 1
    && if s.flows == [] then s.state == Bootstrap || s.state == Error
       else
         var fl := s.flows[0];
         && (fl.task == TaskStarted <==> fl.state == FlowTransferring)
         && (fl.task == TaskLaunched ==> fl.state == FlowSetting)
         && (fl.state == FlowTransferring <==> s.state == Transferring)
         && (fl.state == FlowSetting <==> s.state == Launching)
         && (fl.state == FlowWaitingToBeTeared <==> s.state == Finished)
         && (fl.state == FlowScheduling || fl.state == FlowWaiting || fl.state == FlowError <==> s.state == Error)
  }

  ghost predicate Phased(st: State) { forall i :: 0 <= i < |st.sjobs| ==> InPhase(st.sjobs[i]) }

  lemma ScheduledInPhase(s: Sjob, net: Ledger, a: ScheduleAnswer)
    requires InPhase(s)
    ensures InPhase(ScheduleEffect(s, net, a).job)
  {
    hide TeardownLedger, SetupLedger, NetworkHandling, Verified;
  }

  lemma PolledInPhase(s: Sjob, t: Sjob, now: int, a: PollAnswer)
    requires InPhase(s) && Polled(s, t, now, a)
    ensures InPhase(t)
  {}

  lemma ReportedInPhase(s: Sjob, t: Sjob, raw: Option<RawState>, a: FinishAnswer)
    requires InPhase(s) && Reported(s, t, raw, a)
    ensures InPhase(t)
  {}

  lemma PutPhased(st: State, st': State, sid: nat)
    requires Phased(st) && OnlyJob(st, st', sid) && InPhase(st'.sjobs[sid])
    ensures Phased(st')
  {}

  lemma SchedulePhased(st: State, sid: nat, a: ScheduleAnswer)
    requires Inv(st) && Phased(st) && sid < |st.sjobs|
    ensures Phased(Apply(st, Schedule(sid, a)))
  {
    hide Inv, ScheduleEffect, InPhase, OnlyJob;
    HasRaw(st, sid);
    var e := ScheduleEffect(st.sjobs[sid], st.net, a);
    ScheduledInPhase(st.sjobs[sid], st.net, a);
    PutOutcome(st, sid, e);
    PutPhased(st, PutJob(st, sid, e), sid);
  }

  lemma PollPhased(st: State, rid: nat, now: int, answer: (nat, nat) -> PollAnswer)
    requires Inv(st) && Phased(st) && rid < |st.raws| && st.raws[rid].state == RawTransferring
    ensures Phased(Apply(st, Poll(rid, now, answer)))
  {
    hide Inv, Apply, Polled, Loses, InPhase;
    var st' := Apply(st, Poll(rid, now, answer));
    PollRawOutcome(st, rid, now, answer);
    forall i | 0 <= i < |st'.sjobs|
      ensures InPhase(st'.sjobs[i])
    {
      PollOutcome(st, rid, now, answer, i);
      if st'.sjobs[i] != st.sjobs[i] {
        PolledInPhase(st.sjobs[i], st'.sjobs[i], now, answer(i, 0));
      }
    }
  }

  lemma StartedPhased(st: State, sid: nat, f: nat)
    requires Inv(st) && Phased(st) && Known(st, sid, f)
    ensures Phased(Apply(st, ReportStarted(sid, f)))
  {
    hide Inv;
    PutPhased(st, Apply(st, ReportStarted(sid, f)), sid);
  }

  lemma FailedPhased(st: State, sid: nat, f: nat, d: Wan.Down)
    requires Inv(st) && Phased(st) && Known(st, sid, f) && Allowed(st, ReportFailed(sid, f, d))
    ensures Phased(Apply(st, ReportFailed(sid, f, d)))
  {
    hide Inv, Apply;
    assert |st.sjobs[sid].flows| <= 1;
    FailedOutcome(st, sid, d);
    PutPhased(st, Apply(st, ReportFailed(sid, f, d)), sid);
  }

  lemma FinishedPhased(st: State, sid: nat, f: nat, a: FinishAnswer)
    requires Inv(st) && Phased(st) && Known(st, sid, f) && Allowed(st, ReportFinished(sid, f, a))
    ensures Phased(Apply(st, ReportFinished(sid, f, a)))
  {
    hide Inv, Apply, Reported, Moved;
    assert |st.sjobs[sid].flows| <= 1;
    FinishedOutcome(st, sid, a);
    var st' := Apply(st, ReportFinished(sid, f, a));
    var raw :| Reported(st.sjobs[sid], st'.sjobs[sid], raw, a);
    ReportedInPhase(st.sjobs[sid], st'.sjobs[sid], raw, a);
    PutPhased(st, st', sid);
  }

  lemma SubmitPhased(st: State, src: SiteId, dst: SiteId, jobs: seq<seq<nat>>)
    requires Phased(st)
    ensures Phased(Apply(st, Submit(src, dst, jobs)))
  {}

  lemma StepPhased(st: State, step: Step)
    requires Inv(st) && Phased(st) && Allowed(st, step)
    ensures Phased(Apply(st, step))
  {
    hide Inv, Phased, DoSubmit, DoPoll, DoFinish, PutJob, ScheduleEffect, Failed, Started, FreshNetwork;
    match step
    case Submit(src, dst, jobs) => SubmitPhased(st, src, dst, jobs);
    case Schedule(sid, a) => if sid < |st.sjobs| { SchedulePhased(st, sid, a); }
    case Poll(rid, now, answer) =>
      if rid < |st.raws| && st.raws[rid].state == RawTransferring { PollPhased(st, rid, now, answer); }
    case ReportStarted(sid, f) => if Known(st, sid, f) { StartedPhased(st, sid, f); }
    case ReportFailed(sid, f, d) => if Known(st, sid, f) { FailedPhased(st, sid, f, d); }
    case ReportFinished(sid, f, a) => if Known(st, sid, f) { FinishedPhased(st, sid, f, a); }
  }

  lemma {:induction false} RunPhased(st: State, steps: seq<Step>)
    requires Inv(st) && Phased(st) && ValidRun(st, steps)
    ensures Phased(Exec(st, steps))
    decreases |steps|
  {
    hide Inv, Phased, Apply, Allowed;
    if steps != [] {
      StepKeeps(st, steps[0]);
      StepPhased(st, steps[0]);
      RunPhased(Apply(st, steps[0]), steps[1..]);
    }
  }

  /**
   In every reachable state an sjob is transferring if and only if its flow is, if and only if the
   launcher has said that it started and has not yet reported the end; and likewise for the other phases.
   */
  lemma ReachablePhased(st: State, i: nat)
    requires Reachable(st) && i < |st.sjobs|
    ensures InPhase(st.sjobs[i])
  {
    hide Inv, ValidRun, Exec, InPhase;
    var base, steps :| ValidRun(Init(base), steps) && st == Exec(Init(base), steps);
    InitInv(base);
    RunPhased(Init(base), steps);
  }

  // ----- activity

  /** No step of the run happens before `t0`, by the scheduler's clock. */
  predicate Since(steps: seq<Step>, t0: int) {
    forall k :: 0 <= k < |steps| ==> NotBefore(steps[k], t0)
  }

  predicate NotBefore(step: Step, t0: int) {
    (step.Poll? ==> step.now >= t0) && (step.Schedule? ==> step.plan.now >= t0)
  }

  /** The sjob's flow has been active since `t0`. */
  predicate ActiveSince(sjobs: seq<Sjob>, i: nat, t0: int) {
    i < |sjobs| && |sjobs[i].flows| == 1 && sjobs[i].flows[0].lastActive >= t0
  }

  lemma StaysActive(st: State, step: Step, i: nat, t0: int)
    requires Inv(st) && Allowed(st, step) && NotBefore(step, t0) && ActiveSince(st.sjobs, i, t0)
    ensures ActiveSince(Apply(st, step).sjobs, i, t0)
  {
    hide Inv, DoSubmit, DoPoll, DoFinish, PutJob, ScheduleEffect, Failed, Started, FreshNetwork, SetOff, Launches, Moved;
    match step
    case Submit(src, dst, jobs) => SubmitOutcome(st, src, dst, jobs);
    case Schedule(sid, a) => if sid < |st.sjobs| { ScheduleOutcome(st, sid, a); }
    case Poll(rid, now, answer) =>
      if rid < |st.raws| && st.raws[rid].state == RawTransferring { PollOutcome(st, rid, now, answer, i); }
    case ReportStarted(sid, f) => if Known(st, sid, f) { StartedOutcome(st, sid, f); }
    case ReportFailed(sid, f, d) => if Known(st, sid, f) { MovingIsBusy(st, sid); FailedOutcome(st, sid, d); }
    case ReportFinished(sid, f, a) => if Known(st, sid, f) { MovingIsBusy(st, sid); FinishedOutcome(st, sid, a); }
  }

  lemma {:induction false} RunStaysActive(st: State, steps: seq<Step>, i: nat, t0: int)
    requires Inv(st) && ValidRun(st, steps) && Since(steps, t0) && ActiveSince(st.sjobs, i, t0)
    ensures ActiveSince(Exec(st, steps).sjobs, i, t0)
    decreases |steps|
  {
    hide Inv, Apply, Allowed, ActiveSince, NotBefore;
    if steps != [] {
      StepKeeps(st, steps[0]);
      StaysActive(st, steps[0], i, t0);
      RunStaysActive(Apply(st, steps[0]), steps[1..], i, t0);
    }
  }

  /** The step that set sjob `i` going at time `t0`, or a poll at `t0` that found more bytes than before. */
  ghost predicate Stirs(st: State, step: Step, i: nat, t0: int) {
    && i < |st.sjobs|
    && var s := st.sjobs[i];
       match step
       case Schedule(sid, a) => sid == i && a.now == t0 && Startable(s) && Launches(a)
       case Poll(rid, now, answer) =>
         && now == t0 && rid == s.raw < |st.raws| && st.raws[rid].state == RawTransferring && Moving(s)
         && (forall j :: 0 <= j < i ==> !Loses(st.sjobs[j], rid, answer(j, 0)))
         && answer(i, 0).rate.Rate? && s.flows[0].block < |s.blocks|
         && answer(i, 0).rate.transferred > s.blocks[s.flows[0].block].tx
       case _ => false
  }

  lemma StirredIsActive(st: State, step: Step, i: nat, t0: int)
    requires Inv(st) && Stirs(st, step, i, t0)
    ensures var t := Apply(st, step).sjobs; i < |t| && |t[i].flows| == 1 && t[i].flows[0].lastActive == t0
  {
    hide Inv, Apply, Loses, Launches;
    match step
    case Schedule(sid, a) => ScheduleOutcome(st, sid, a);
    case Poll(rid, now, answer) => PollOutcome(st, rid, now, answer, i);
  }

  /**
   Once an sjob has been launched by `schedule`, or has been seen to progress, at time `t0`, then after
   whatever happens from there on, a poll at most 300000 milliseconds later does not put it into error
   unless the launcher does not know its task.
   */
  lemma RecentJobSurvives(st: State, step: Step, steps: seq<Step>, i: nat, t0: int, rid: nat, now: int,
                          answer: (nat, nat) -> PollAnswer)
    requires Reachable(st) && Stirs(st, step, i, t0)
    requires ValidRun(st, [step] + steps) && Since(steps, t0)
    requires now <= t0 + 300000 && !answer(i, 0).rate.UnknownTask?
    ensures var st1 := Exec(st, [step] + steps);
            var st2 := Apply(st1, Poll(rid, now, answer));
            i < |st1.sjobs| == |st2.sjobs| && (st2.sjobs[i].state == Error ==> st1.sjobs[i].state == Error)
  {
    hide Inv, Apply, Allowed, Reachable, Loses, Stirs, NotBefore;
    assert ([step] + steps)[1..] == steps;
    ReachableInv(st);
    StirredIsActive(st, step, i, t0);
    StepKeeps(st, step);
    RunKeeps(Apply(st, step), steps);
    RunStaysActive(Apply(st, step), steps, i, t0);
    ReachableOnwards(st, [step] + steps);
    var st1 := Exec(st, [step] + steps);
    if rid < |st1.raws| && st1.raws[rid].state == RawTransferring {
      if st1.sjobs[i].state != Error {
        PollFailsIff(st1, rid, now, answer, i);
      } else {
        PollOutcome(st1, rid, now, answer, i);
      }
    } else {
      PollOfOther(st1, rid, now, answer);
    }
  }

  /** Only a transferring rawjob is polled. */
  lemma PollOfOther(st: State, rid: nat, now: int, answer: (nat, nat) -> PollAnswer)
    requires !(rid < |st.raws| && st.raws[rid].state == RawTransferring)
    ensures Apply(st, Poll(rid, now, answer)) == st
  {}
}
