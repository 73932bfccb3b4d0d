/**
 What every handler keeps about the one sjob it works on: byte counters, the coupling of flow and
 block, the bound on launches, and completion. Nothing here looks beyond a single sjob.
 */
module TransferJob {
  import opened Collections
  import opened TransferTypes
  import opened TransferSpec
  import Wan

  function TxOf(b: Block): int { b.tx }

  function SizeOf(b: Block): int { b.size }

  function DoneOf(b: Block): int { if b.state.BlockFinished? then 1 else 0 }

  ghost function Done(s: Sjob): int { SumBy(s.blocks, DoneOf) }

  predicate BlockOk(b: Block) {
    0 <= b.tx <= b.size && (b.state.BlockFinished? ==> b.tx == b.size)
  }

  /** No flow has ever been created. */
  ghost predicate Fresh(s: Sjob) {
    && s.flows == [] && s.retry == 0 && s.launches == 0
    && (s.state == Bootstrap || s.state == Error)
    && forall i :: 0 <= i < |s.blocks| ==> s.blocks[i].state.BlockWaiting? && s.blocks[i].tx == 0
  }

  /** The flow owns its network path and the only block being transferred. */
  ghost predicate Busy(s: Sjob) {
    && |s.flows| == 1 && Live(s.flows[0])
    && (s.state == Launching || s.state == Transferring)
    && s.flows[0].block < |s.blocks|
    && (forall i :: 0 <= i < |s.blocks| ==> (s.blocks[i].state.BlockTransferring? <==> i == s.flows[0].block))
    && s.retry <= 2
    && s.launches == Done(s) + s.retry + 1
  }

  /** The flow is used up and the sjob has reached one of its two final states. */
  ghost predicate Over(s: Sjob) {
    && |s.flows| == 1 && !Live(s.flows[0]) && s.flows[0].task == TaskSilent
    && (s.state == Error || s.state == Finished)
    && (forall i, j :: 0 <= i < j < |s.blocks| ==>
          !(s.blocks[i].state.BlockTransferring? && s.blocks[j].state.BlockTransferring?))
    && s.retry <= 3
    && s.launches <= |s.blocks| + 2
    && (s.state == Finished ==> forall i :: 0 <= i < |s.blocks| ==> s.blocks[i].state.BlockFinished?)
  }

  /** The invariant of an sjob between handlers. */
  ghost predicate SjobInv(s: Sjob) {
    && (forall i :: 0 <= i < |s.blocks| ==> BlockOk(s.blocks[i]))
    && s.tx == SumBy(s.blocks, TxOf)
    && (s.flows != [] ==> s.flows[0].tx == s.tx)
    && (Fresh(s) || Busy(s) || Over(s))
  }

  /** What no handler undoes. */
  ghost predicate Evolves(s: Sjob, t: Sjob) {
    && t.raw == s.raw && t.src == s.src && t.dst == s.dst
    && |t.blocks| == |s.blocks|
    && (forall i :: 0 <= i < |s.blocks| ==> t.blocks[i].size == s.blocks[i].size)
    && (forall i :: 0 <= i < |s.blocks| && s.blocks[i].state.BlockFinished? ==> t.blocks[i] == s.blocks[i])
    && s.retry <= t.retry && s.launches <= t.launches
    && (s.state == Error ==> t.state == Error)
    && (s.state == Finished ==> t == s)
    && |s.flows| <= |t.flows|
  }

  lemma EvolvesRefl(s: Sjob)
    ensures Evolves(s, s)
  {}

  lemma EvolvesTrans(s: Sjob, t: Sjob, u: Sjob)
    requires Evolves(s, t) && Evolves(t, u)
    ensures Evolves(s, u)
  {}

  // ----- sums over blocks

  lemma DoneBound(bs: seq<Block>)
    ensures 0 <= SumBy(bs, DoneOf) <= |bs|
    ensures (exists i :: 0 <= i < |bs| && !bs[i].state.BlockFinished?) ==> SumBy(bs, DoneOf) < |bs|
  {
    if bs != [] {
      DoneBound(bs[1..]);
      if i :| 0 <= i < |bs| && !bs[i].state.BlockFinished? {
        if i > 0 {
          assert bs[1..][i - 1] == bs[i];
        }
      }
    }
  }

  lemma AllDone(bs: seq<Block>)
    requires forall i :: 0 <= i < |bs| ==> bs[i].state.BlockFinished?
    ensures SumBy(bs, DoneOf) == |bs|
  {
    if bs != [] {
      AllDone(bs[1..]);
    }
  }

  lemma NoneDone(bs: seq<Block>)
    requires forall i :: 0 <= i < |bs| ==> !bs[i].state.BlockFinished?
    ensures SumBy(bs, DoneOf) == 0
  {
    if bs != [] {
      NoneDone(bs[1..]);
    }
  }

  /** Changing one block changes the two sums by the difference of that block. */
  lemma BlockSums(s: Sjob, b: nat, x: Block)
    requires b < |s.blocks|
    ensures SumBy(s.blocks[b := x], TxOf) == SumBy(s.blocks, TxOf) - s.blocks[b].tx + x.tx
    ensures SumBy(s.blocks[b := x], DoneOf) == Done(s) - DoneOf(s.blocks[b]) + DoneOf(x)
  {
    SumByUpdate(s.blocks, b, x, TxOf);
    SumByUpdate(s.blocks, b, x, DoneOf);
  }

  // ----- the handlers

  lemma VerifyAndLaunchKeeps(s: Sjob, b: nat, p: Paths, net: Ledger, a: ScheduleAnswer)
    requires SjobInv(s) && Fresh(s) && s.state == Bootstrap
    requires b < |s.blocks|
    ensures var t := VerifyAndLaunch(s, b, p, net, a).job;
            SjobInv(t) && Evolves(s, t) && t.tx == s.tx && (t.state == Error || Busy(t))
  {
    BlockSums(s, b, s.blocks[b].(state := BlockTransferring));
    NoneDone(s.blocks);
    SumByZero(s.blocks, TxOf);
  }

  /** Scheduling an sjob keeps its invariant and counts no bytes. */
  lemma ScheduleKeeps(s: Sjob, net: Ledger, a: ScheduleAnswer)
    requires SjobInv(s)
    ensures var e := ScheduleEffect(s, net, a);
            && SjobInv(e.job) && Evolves(s, e.job) && e.job.tx == s.tx
            && (e.raw.Some? ==> e.raw.value != RawFinished && s.state == Bootstrap && e.job.state != Finished)
            && (e.raw.None? ==> e.job == s && e.net == net)
  {
    if Schedulable(s) {
      match FirstWaiting(s.blocks, 0)
      case None =>
      case Some(b) =>
        match a.pair
        case NoPair =>
        case PublicPair => VerifyAndLaunchKeeps(s, b, NO_PATHS, net, a);
        case PrivatePair(n) =>
          VerifyAndLaunchKeeps(s, b, NetworkHandling(n).paths, SetupLedger(net, n), a);
    }
  }

  lemma StartedKeeps(s: Sjob, f: nat)
    requires SjobInv(s) && f < |s.flows| && s.flows[f].task == TaskLaunched
    ensures SjobInv(Started(s, f)) && Evolves(s, Started(s, f)) && Started(s, f).tx == s.tx && Busy(Started(s, f))
  {}

  /** An error report, or a poll that finds no such task, ends the sjob without changing its bytes. */
  lemma FailedKeeps(s: Sjob, f: nat, net: Ledger, d: Wan.Down)
    requires SjobInv(s) && f < |s.flows| && Live(s.flows[f])
    ensures var e := Failed(s, f, net, d);
            && SjobInv(e.job) && Evolves(s, e.job) && e.job.tx == s.tx
            && e.job.state == Error && e.raw == Some(RawError) && Over(e.job)
  {
    var b := s.flows[f].block;
    BlockSums(s, b, s.blocks[b].(state := BlockWaiting));
    DoneBound(s.blocks);
    assert !s.blocks[b].state.BlockFinished?;
  }

  /** The state of an sjob whose flow has just become free: the block is fully counted. */
  ghost predicate Credited(s: Sjob, t: Sjob)
    requires Busy(s)
  {
    && Evolves(s, t) && |t.flows| == 1
    && t.flows[0] == s.flows[0].(state := FlowWaiting, tx := t.tx)
    && t.blocks == s.blocks[s.flows[0].block := s.blocks[s.flows[0].block].(tx := s.blocks[s.flows[0].block].size)]
    && t.tx == SumBy(t.blocks, TxOf)
    && SumBy(t.blocks, DoneOf) == Done(s)
    && t.retry == s.retry && t.launches == s.launches && t.state == s.state
  }

  lemma CreditKeeps(s: Sjob)
    requires SjobInv(s) && Busy(s)
    ensures Credited(s, Credit(s, 0))
    ensures Credit(s, 0).tx == s.tx + s.blocks[s.flows[0].block].size - s.blocks[s.flows[0].block].tx
  {
    var b := s.flows[0].block;
    BlockSums(s, b, s.blocks[b].(tx := s.blocks[b].size));
  }

  /** `t` is what `s` has become once its block is done with: no live flow, block `b` the next to launch. */
  ghost predicate Ready(s: Sjob, t: Sjob, b: nat) {
    && Evolves(s, t) && |t.flows| == 1 && !Live(t.flows[0]) && s.state != Error && s.state != Finished
    && (forall i :: 0 <= i < |t.blocks| ==> BlockOk(t.blocks[i]))
    && t.tx == SumBy(t.blocks, TxOf) && t.flows[0].tx == t.tx
    && b < |t.blocks| && !t.blocks[b].state.BlockFinished?
    && (forall i :: 0 <= i < |t.blocks| && t.blocks[i].state.BlockTransferring? ==> i == b)
    && t.launches == Done(t) + t.retry
  }

  lemma GiveUpKeeps(s: Sjob, t: Sjob, b: nat, net: Ledger, d: Wan.Down)
    requires Ready(s, t, b) && t.retry <= 3
    ensures var e := TearAndFail(t, 0, net, d);
            && SjobInv(e.job) && Evolves(s, e.job) && e.job.tx == t.tx
            && Over(e.job) && e.job.state == Error && e.raw == Some(RawError)
            && Done(e.job) == Done(t) && e.job.retry == t.retry
  {
    hide SumBy;
    DoneBound(t.blocks);
  }

  lemma RelaunchKeeps(s: Sjob, t: Sjob, b: nat, net: Ledger, a: FinishAnswer)
    requires Ready(s, t, b) && t.retry <= 2
    ensures var e := Relaunch(t, 0, b, net, a);
            && SjobInv(e.job) && Evolves(s, e.job) && e.job.tx == t.tx
            && (Busy(e.job) || (Over(e.job) && e.job.state == Error))
            && e.raw.Some? && e.raw.value != RawFinished
            && Done(e.job) == Done(t) && e.job.retry == t.retry
  {
    hide SumBy;
    BlockSums(t, b, t.blocks[b].(state := BlockTransferring));
    DoneBound(t.blocks);
  }

  /** What holds once a failed checksum has taken the block's bytes back. */
  lemma RollBack(s: Sjob, t: Sjob)
    requires SjobInv(s) && Busy(s)
    requires var b := s.flows[0].block;
             t == AddTx(Credit(s, 0), 0, b, 0 - BlockSize(s, b)).(state := ChecksumVerification, retry := s.retry + 1)
    ensures Evolves(s, t) && |t.flows| == 1 && t.flows[0].state == FlowWaiting && t.flows[0].tx == t.tx
    ensures t.flows[0].block == s.flows[0].block
    ensures t.tx == SumBy(t.blocks, TxOf) && Done(t) == Done(s)
    ensures t.tx == s.tx - BlockTx(s, s.flows[0].block)
    ensures t.retry == s.retry + 1 && t.launches == s.launches
    ensures forall i :: 0 <= i < |t.blocks| ==>
              t.blocks[i] == if i == s.flows[0].block then s.blocks[i].(tx := 0) else s.blocks[i]
  {
    hide SumBy;
    CreditKeeps(s);
    var b := s.flows[0].block;
    BlockSums(Credit(s, 0), b, Credit(s, 0).blocks[b].(tx := 0));
  }

  lemma FinishFailedCheck(s: Sjob, net: Ledger, a: FinishAnswer)
    requires SjobInv(s) && Busy(s) && a.check.CheckFailed?
    ensures var e := Finish(s, 0, net, a);
            && SjobInv(e.eff.job) && Evolves(s, e.eff.job) && e.eff.job.tx == s.tx + e.gained - e.lost
            && (e.eff.job.state == Error || Busy(e.eff.job))
            && e.eff.raw.Some? && e.eff.raw.value != RawFinished
            && Done(e.eff.job) == Done(s) && e.eff.job.retry == s.retry + 1
  {
    hide SumBy, Credit, AddTx, Relaunch, TearAndFail, SjobInv, Evolves, Ready;
    var b := s.flows[0].block;
    var t := AddTx(Credit(s, 0), 0, b, 0 - BlockSize(s, b)).(state := ChecksumVerification, retry := s.retry + 1);
    RollBackReady(s, t);
    if s.retry < 2 {
      RelaunchKeeps(s, t, b, net, a);
    } else {
      GiveUpKeeps(s, t, b, net, a.down);
    }
  }

  lemma RollBackReady(s: Sjob, t: Sjob)
    requires SjobInv(s) && Busy(s)
    requires var b := s.flows[0].block;
             t == AddTx(Credit(s, 0), 0, b, 0 - BlockSize(s, b)).(state := ChecksumVerification, retry := s.retry + 1)
    ensures Ready(s, t, s.flows[0].block) && t.retry == s.retry + 1 <= 3
    ensures t.tx == s.tx - BlockTx(s, s.flows[0].block) && Done(t) == Done(s)
  {
    hide SumBy, Credit, AddTx;
    RollBack(s, t);
  }

  /** What holds once the block of the flow has been marked finished. */
  lemma MarkFinished(s: Sjob, t: Sjob)
    requires SjobInv(s) && Busy(s)
    requires t == SetBlockState(Credit(s, 0), s.flows[0].block, BlockFinished)
    ensures Evolves(s, t) && |t.flows| == 1 && t.flows[0].state == FlowWaiting && t.flows[0].tx == t.tx
    ensures t.tx == SumBy(t.blocks, TxOf) && Done(t) == Done(s) + 1
    ensures t.tx == s.tx + BlockSize(s, s.flows[0].block) - BlockTx(s, s.flows[0].block)
    ensures t.retry == s.retry && t.launches == s.launches
    ensures forall i :: 0 <= i < |t.blocks| ==>
              t.blocks[i] == if i == s.flows[0].block then Block(s.blocks[i].size, BlockFinished, s.blocks[i].size)
                             else s.blocks[i]
  {
    CreditKeeps(s);
    var b := s.flows[0].block;
    BlockSums(Credit(s, 0), b, Credit(s, 0).blocks[b].(state := BlockFinished));
  }

  lemma FinishPassed(s: Sjob, net: Ledger, a: FinishAnswer)
    requires SjobInv(s) && Busy(s) && !a.check.CheckFailed?
    ensures var e := Finish(s, 0, net, a);
            && SjobInv(e.eff.job) && Evolves(s, e.eff.job) && e.eff.job.tx == s.tx + e.gained - e.lost
            && (e.eff.job.state == Error || e.eff.job.state == Finished || Busy(e.eff.job))
            && (e.eff.raw.Some? ==> e.eff.raw.value != RawFinished && e.eff.job.state != Finished)
            && (e.eff.raw.None? ==> e.eff.job.state == Finished)
            && Done(e.eff.job) == Done(s) + 1 && e.eff.job.retry == s.retry
  {
    hide SumBy, Credit, AddTx, Relaunch, NextBlock, TeardownLedger, OthersFinished;
    var b := s.flows[0].block;
    var t := SetBlockState(Credit(s, 0), b, BlockFinished);
    MarkFinished(s, t);
    match NextBlock(s.blocks, b, 0)
    case Some(nb) =>
      RelaunchKeeps(s, t, nb, net, a);
    case None =>
      AllAssignedMeansFinished(s);
      AllMarked(s, t);
      AllDone(t.blocks);
  }

  lemma AllMarked(s: Sjob, t: Sjob)
    requires |s.flows| == 1 && |t.blocks| == |s.blocks| && OthersFinished(s.blocks, s.flows[0].block)
    requires forall i :: 0 <= i < |t.blocks| ==>
               t.blocks[i] == if i == s.flows[0].block then Block(s.blocks[i].size, BlockFinished, s.blocks[i].size)
                              else s.blocks[i]
    ensures forall i :: 0 <= i < |t.blocks| ==> t.blocks[i].state.BlockFinished?
  {}

  /** With one transferring block, a job that has no waiting block left has finished every other block. */
  lemma AllAssignedMeansFinished(s: Sjob)
    requires Busy(s) && NextBlock(s.blocks, s.flows[0].block, 0).None?
    ensures OthersFinished(s.blocks, s.flows[0].block)
  {
    forall j | 0 <= j < |s.blocks| && j != s.flows[0].block
      ensures s.blocks[j].state.BlockFinished?
    {
      match s.blocks[j].state case BlockWaiting => case BlockTransferring => case BlockFinished =>
    }
  }

  /** A finished report keeps the invariant; the sjob gains what the report credits less what it takes back. */
  lemma FinishKeeps(s: Sjob, f: nat, net: Ledger, a: FinishAnswer)
    requires SjobInv(s) && f < |s.flows| && s.flows[f].task != TaskSilent
    ensures f == 0 && Busy(s)
    ensures var e := Finish(s, f, net, a);
            && SjobInv(e.eff.job) && Evolves(s, e.eff.job) && e.eff.job.tx == s.tx + e.gained - e.lost
            && (e.eff.raw.Some? ==> e.eff.raw.value != RawFinished && e.eff.job.state != Finished)
            && (e.eff.raw.None? ==> e.eff.job.state == Finished)
            && (a.check.CheckFailed? ==> e.eff.job.retry == s.retry + 1 && Done(e.eff.job) == Done(s))
            && (!a.check.CheckFailed? ==> e.eff.job.retry == s.retry && Done(e.eff.job) == Done(s) + 1)
  {
    if a.check.CheckFailed? {
      FinishFailedCheck(s, net, a);
    } else {
      FinishPassed(s, net, a);
    }
  }

  /** Unfinished blocks plus checksum retries left. */
  ghost function WorkLeft(s: Sjob): int { |s.blocks| - Done(s) + 3 - s.retry }

  /** Every finished report takes exactly one unit off the work left. */
  lemma FinishDecreases(s: Sjob, f: nat, net: Ledger, a: FinishAnswer)
    requires SjobInv(s) && f < |s.flows| && s.flows[f].task != TaskSilent
    ensures var t := Finish(s, f, net, a).eff.job; 0 <= WorkLeft(t) == WorkLeft(s) - 1
  {
    FinishKeeps(s, f, net, a);
    DoneBound(Finish(s, f, net, a).eff.job.blocks);
  }

  /** Counting `d` more bytes of the flow's unfinished block at all three levels. */
  lemma AddBytesKeeps(s: Sjob, b: nat, d: int)
    requires SjobInv(s) && |s.flows| == 1 && b < |s.blocks| && !s.blocks[b].state.BlockFinished?
    requires 0 <= s.blocks[b].tx + d <= s.blocks[b].size && s.state != Finished
    ensures var t := AddTx(s, 0, b, d);
            SjobInv(t) && Evolves(s, t) && t.tx == s.tx + d && t.state == s.state
  {
    hide SumBy;
    BlockSums(s, b, s.blocks[b].(tx := s.blocks[b].tx + d));
  }

  lemma PollFlowKeeps(s: Sjob, net: Ledger, now: int, a: PollAnswer)
    requires SjobInv(s) && |s.flows| == 1
    requires Live(s.flows[0]) && a.rate.Rate? ==> a.rate.transferred <= BlockSize(s, s.flows[0].block)
    ensures var e := PollFlow(s, 0, net, now, a);
            var t := e.eff.job.(tx := e.eff.job.tx + e.tx);
            && SjobInv(t) && Evolves(s, t) && t.tx == s.tx + e.tx
            && (e.abort ==> e.tx == 0)
            && (t == s || Busy(s)) && (t.state == Finished ==> t == s)
            && (e.eff.raw.None? || (e.eff.raw == Some(RawError) && t.state == Error && Busy(s)))
  {
    if Live(s.flows[0]) && (a.rate.UnknownTask? || a.rate.Rate?) {
      FailedKeeps(s, 0, net, a.down);
      if a.rate.Rate? {
        PollRateKeeps(s, net, now, a);
      }
    }
  }

  /** The sjob of a rate answer before its bytes are counted. */
  function PollTouched(s: Sjob, net: Ledger, now: int, a: PollAnswer): Effect
    requires |s.flows| == 1 && a.rate.Rate?
  {
    var fl := s.flows[0];
    if a.rate.transferred - BlockTx(s, fl.block) > 0 then Effect(SetFlow(s, 0, fl.(lastActive := now)), None, net)
    else if now - fl.lastActive > INACTIVE_TIMEOUT then Failed(s, 0, net, a.down)
    else Effect(s, None, net)
  }

  lemma PollTouchedKeeps(s: Sjob, net: Ledger, now: int, a: PollAnswer)
    requires SjobInv(s) && Busy(s) && a.rate.Rate?
    ensures var e := PollTouched(s, net, now, a);
            var b := s.flows[0].block;
            && SjobInv(e.job) && Evolves(s, e.job) && e.job.tx == s.tx && e.job.state != Finished
            && |e.job.flows| == 1 && e.job.blocks[b].tx == s.blocks[b].tx && !e.job.blocks[b].state.BlockFinished?
            && (e.raw.None? || (e.raw == Some(RawError) && e.job.state == Error))
  {
    hide SumBy, TeardownLedger;
    FailedKeeps(s, 0, net, a.down);
  }

  lemma PollRateKeeps(s: Sjob, net: Ledger, now: int, a: PollAnswer)
    requires SjobInv(s) && Busy(s) && a.rate.Rate? && a.rate.transferred <= BlockSize(s, s.flows[0].block)
    ensures var e := PollFlow(s, 0, net, now, a);
            var t := e.eff.job.(tx := e.eff.job.tx + e.tx);
            && SjobInv(t) && Evolves(s, t) && t.tx == s.tx + e.tx && !e.abort && t.state != Finished
            && (e.eff.raw.None? || (e.eff.raw == Some(RawError) && t.state == Error))
  {
    hide SjobInv, SumBy, Done, Failed, TeardownLedger, AddTx;
    var e := PollTouched(s, net, now, a);
    PollTouchedKeeps(s, net, now, a);
    var b := s.flows[0].block;
    var d := a.rate.transferred - s.blocks[b].tx;
    AddBytesKeeps(e.job, b, d);
    EvolvesTrans(s, e.job, AddTx(e.job, 0, b, d));
    PolledJob(s, net, now, a);
  }

  lemma PolledJob(s: Sjob, net: Ledger, now: int, a: PollAnswer)
    requires Busy(s) && a.rate.Rate?
    ensures var e, p, b := PollFlow(s, 0, net, now, a), PollTouched(s, net, now, a), s.flows[0].block;
            && e.tx == a.rate.transferred - s.blocks[b].tx && !e.abort && e.eff.raw == p.raw
            && e.eff.job.(tx := e.eff.job.tx + e.tx) == AddTx(p.job, 0, b, e.tx)
  {
    hide Done, TeardownLedger;
  }

  /** A poll keeps the invariant of each sjob; an aborting poll adds nothing to it. */
  lemma PollSjobKeeps(s: Sjob, net: Ledger, now: int, answer: nat -> PollAnswer)
    requires SjobInv(s)
    requires |s.flows| == 1 && answer(0).rate.Rate? ==>
               answer(0).rate.transferred <= BlockSize(s, s.flows[0].block)
    ensures var e := PollSjob(s, net, now, answer);
            && SjobInv(e.eff.job) && Evolves(s, e.eff.job) && e.eff.job.tx == s.tx + e.tx
            && (e.abort ==> e.tx == 0)
            && (e.eff.job == s || Busy(s)) && (e.eff.job.state == Finished ==> e.eff.job == s)
            && (e.eff.raw.None? || (e.eff.raw == Some(RawError) && e.eff.job.state == Error && Busy(s)))
  {
    PollUnfold(s, net, now, answer);
    if |s.flows| == 1 {
      PollFlowKeeps(s, net, now, answer(0));
    }
  }

  /** With at most one flow, the flow loop is one poll. */
  lemma PollUnfold(s: Sjob, net: Ledger, now: int, answer: nat -> PollAnswer)
    requires |s.flows| <= 1
    ensures PollSjob(s, net, now, answer)
            == if s.flows == [] then PollEffect(Effect(s.(tx := s.tx + 0), None, net), 0, false)
               else var e := PollFlow(s, 0, net, now, answer(0));
                    if e.abort then PollEffect(e.eff, 0, true)
                    else PollEffect(e.eff.(job := e.eff.job.(tx := e.eff.job.tx + e.tx)), e.tx, false)
  {
    if |s.flows| == 1 {
      var e := PollFlow(s, 0, net, now, answer(0));
      assert PollFlows(s, 0, 0, None, net, now, answer)
          == if e.abort then PollEffect(e.eff.(raw := if e.eff.raw.Some? then e.eff.raw else None), 0, true)
             else PollFlows(e.eff.job, 1, 0 + e.tx, if e.eff.raw.Some? then e.eff.raw else None, e.eff.net, now, answer);
    }
  }
}
