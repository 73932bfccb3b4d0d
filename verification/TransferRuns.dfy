/**
 The global invariant of the transfer system, kept by every step the outside world may take, and the
 properties of every run that follow from it.
 */
module TransferRuns {
  import opened Collections
  import opened TransferTypes
  import opened TransferSpec
  import opened TransferJob
  import opened TransferNet
  import Wan

  function TxFor(r: nat): Sjob -> int { (s: Sjob) => if s.raw == r then s.tx else 0 }

  /** What a rawjob has added to the counters of its source and destination site. */
  function SentFrom(k: SiteId): RawJob -> int { (j: RawJob) => if j.src == k then j.tx + j.rolledBack else 0 }

  function ReceivedAt(k: SiteId): RawJob -> int { (j: RawJob) => if j.dst == k then j.tx + j.rolledBack else 0 }

  ghost function HeldAll(sjobs: seq<Sjob>): multiset<PathId> { Gather(sjobs, Held) }

  ghost function HeldWanAll(sjobs: seq<Sjob>): multiset<Wan.Uuid> { Gather(sjobs, HeldWan) }

  /** Every sjob is consistent and belongs to a rawjob between the same sites. */
  ghost predicate JobsOk(raws: seq<RawJob>, sjobs: seq<Sjob>) {
    forall i :: 0 <= i < |sjobs| ==>
      var s := sjobs[i];
      SjobInv(s) && s.raw < |raws| && s.src == raws[s.raw].src && s.dst == raws[s.raw].dst
  }

  /** A rawjob's bytes are those of its sjobs, less what aborted polls dropped. */
  ghost predicate Counted(raws: seq<RawJob>, sjobs: seq<Sjob>) {
    forall r :: 0 <= r < |raws| ==> raws[r].tx + raws[r].dropped == SumBy(sjobs, TxFor(r))
  }

  ghost predicate HasJob(sjobs: seq<Sjob>, r: nat) {
    exists i :: 0 <= i < |sjobs| && sjobs[i].raw == r
  }

  /** A rawjob is finished exactly when it has sjobs and all of them are. */
  ghost predicate Settled(raws: seq<RawJob>, sjobs: seq<Sjob>) {
    forall r :: 0 <= r < |raws| ==>
      (raws[r].state == RawFinished <==> HasJob(sjobs, r) && AllFinished(sjobs, r))
  }

  ghost predicate Mirrored(sites: map<SiteId, Txrx>, mem: map<SiteId, Txrx>) {
    forall k :: k in sites ==> k in mem && mem[k] == sites[k]
  }

  /** A site has moved, since startup, the bytes of its rawjobs plus the bytes checksums took back. */
  ghost predicate Accounted(base: map<SiteId, Txrx>, sites: map<SiteId, Txrx>, raws: seq<RawJob>) {
    && sites.Keys == base.Keys
    && forall k :: k in sites ==>
         sites[k] == Txrx(base[k].tx + SumBy(raws, SentFrom(k)), base[k].rx + SumBy(raws, ReceivedAt(k)))
  }

  ghost predicate Inv(st: State) {
    && JobsOk(st.raws, st.sjobs)
    && Counted(st.raws, st.sjobs)
    && Settled(st.raws, st.sjobs)
    && Mirrored(st.sites, st.mem)
    && Accounted(st.base, st.sites, st.raws)
    && Balanced(st.net, HeldAll(st.sjobs), HeldWanAll(st.sjobs))
  }

  // ----- one sjob and its rawjob change

  lemma JobsOkPut(raws: seq<RawJob>, raws': seq<RawJob>, sjobs: seq<Sjob>, sid: nat, t: Sjob)
    requires JobsOk(raws, sjobs) && sid < |sjobs| && SjobInv(t) && Evolves(sjobs[sid], t)
    requires |raws'| == |raws|
    requires forall r :: 0 <= r < |raws| ==> raws'[r].src == raws[r].src && raws'[r].dst == raws[r].dst
    ensures JobsOk(raws', sjobs[sid := t])
  {}

  lemma CountedPut(raws: seq<RawJob>, sjobs: seq<Sjob>, sid: nat, t: Sjob, j: RawJob)
    requires Counted(raws, sjobs) && sid < |sjobs| && sjobs[sid].raw < |raws| && t.raw == sjobs[sid].raw
    requires var r := t.raw; j.tx + j.dropped == raws[r].tx + raws[r].dropped + t.tx - sjobs[sid].tx
    ensures Counted(raws[t.raw := j], sjobs[sid := t])
  {
    forall r | 0 <= r < |raws|
      ensures SumBy(sjobs[sid := t], TxFor(r))
              == SumBy(sjobs, TxFor(r)) + if r == t.raw then t.tx - sjobs[sid].tx else 0
    {
      SumByUpdate(sjobs, sid, t, TxFor(r));
    }
  }

  lemma UnfinishedRaw(raws: seq<RawJob>, sjobs: seq<Sjob>, sid: nat)
    requires Settled(raws, sjobs) && sid < |sjobs| && sjobs[sid].raw < |raws| && sjobs[sid].state != Finished
    ensures raws[sjobs[sid].raw].state != RawFinished
  {}

  lemma SettledPut(raws: seq<RawJob>, sjobs: seq<Sjob>, sid: nat, t: Sjob, j: RawJob)
    requires Settled(raws, sjobs) && sid < |sjobs| && sjobs[sid].raw < |raws| && t.raw == sjobs[sid].raw
    requires sjobs[sid].state != Finished
    requires j.state == RawFinished <==> AllFinished(sjobs[sid := t], t.raw)
    ensures Settled(raws[t.raw := j], sjobs[sid := t])
  {
    var sjobs' := sjobs[sid := t];
    forall r | 0 <= r < |raws|
      ensures raws[t.raw := j][r].state == RawFinished <==> HasJob(sjobs', r) && AllFinished(sjobs', r)
    {
      assert HasJob(sjobs', t.raw) by { assert sjobs'[sid].raw == t.raw; }
      if r != t.raw {
        assert forall i :: 0 <= i < |sjobs| && sjobs[i].raw == r ==> sjobs'[i] == sjobs[i];
        assert forall i :: 0 <= i < |sjobs| && sjobs'[i].raw == r ==> sjobs'[i] == sjobs[i];
        assert AllFinished(sjobs', r) == AllFinished(sjobs, r);
        assert HasJob(sjobs', r) == HasJob(sjobs, r) by {
          if i :| 0 <= i < |sjobs| && sjobs[i].raw == r { assert sjobs'[i].raw == r; }
          if i :| 0 <= i < |sjobs'| && sjobs'[i].raw == r { assert sjobs[i].raw == r; }
        }
      }
    }
  }

  lemma MirroredAdd(st: State, src: SiteId, dst: SiteId, d: int)
    requires Mirrored(st.sites, st.mem)
    ensures Mirrored(AddBoth(st, src, dst, d).sites, AddBoth(st, src, dst, d).mem)
  {}

  lemma SitesAfter(st: State, src: SiteId, dst: SiteId, d: int, k: SiteId)
    ensures AddBoth(st, src, dst, d).sites.Keys == st.sites.Keys
    ensures k in st.sites ==>
              AddBoth(st, src, dst, d).sites[k]
              == Txrx(st.sites[k].tx + (if src == k then d else 0), st.sites[k].rx + (if dst == k then d else 0))
  {}

  lemma AccountedPut(st: State, r: nat, j: RawJob, d: int)
    requires Accounted(st.base, st.sites, st.raws) && r < |st.raws|
    requires j.src == st.raws[r].src && j.dst == st.raws[r].dst
    requires j.tx + j.rolledBack == st.raws[r].tx + st.raws[r].rolledBack + d
    ensures Accounted(st.base, AddBoth(st, j.src, j.dst, d).sites, st.raws[r := j])
    ensures d == 0 ==> Accounted(st.base, st.sites, st.raws[r := j])
  {
    hide SumBy, AddBoth;
    SitesAfter(st, j.src, j.dst, d, j.src);
    forall k | k in st.sites
      ensures AddBoth(st, j.src, j.dst, d).sites[k]
           == Txrx(st.base[k].tx + SumBy(st.raws[r := j], SentFrom(k)), st.base[k].rx + SumBy(st.raws[r := j], ReceivedAt(k)))
      ensures d == 0 ==> AddBoth(st, j.src, j.dst, d).sites[k] == st.sites[k]
    {
      SitesAfter(st, j.src, j.dst, d, k);
      SiteSums(st.raws, r, j, d, k);
    }
  }

  lemma SiteSums(raws: seq<RawJob>, r: nat, j: RawJob, d: int, k: SiteId)
    requires r < |raws| && j.src == raws[r].src && j.dst == raws[r].dst
    requires j.tx + j.rolledBack == raws[r].tx + raws[r].rolledBack + d
    ensures SumBy(raws[r := j], SentFrom(k)) == SumBy(raws, SentFrom(k)) + (if j.src == k then d else 0)
    ensures SumBy(raws[r := j], ReceivedAt(k)) == SumBy(raws, ReceivedAt(k)) + (if j.dst == k then d else 0)
  {
    SumByUpdate(raws, r, j, SentFrom(k));
    SumByUpdate(raws, r, j, ReceivedAt(k));
  }

  /** What the other sjobs hold. */
  ghost function Rest<T>(all: multiset<T>, mine: multiset<T>): multiset<T> { all - mine }

  lemma RestSplits(sjobs: seq<Sjob>, sid: nat)
    requires sid < |sjobs|
    ensures HeldAll(sjobs) == Rest(HeldAll(sjobs), Held(sjobs[sid])) + Held(sjobs[sid])
    ensures HeldWanAll(sjobs) == Rest(HeldWanAll(sjobs), HeldWan(sjobs[sid])) + HeldWan(sjobs[sid])
  {
    GatherContains(sjobs, sid, Held);
    GatherContains(sjobs, sid, HeldWan);
  }

  lemma Exchange<T>(after: multiset<T>, before: multiset<T>, mine: multiset<T>, yours: multiset<T>)
    requires after + mine == before + yours && before == Rest(before, mine) + mine
    ensures after == Rest(before, mine) + yours
  {
    forall x ensures after[x] == (Rest(before, mine) + yours)[x] {
      assert (after + mine)[x] == (before + yours)[x];
      assert before[x] == (Rest(before, mine) + mine)[x];
    }
  }

  lemma HeldPut(sjobs: seq<Sjob>, sid: nat, t: Sjob)
    requires sid < |sjobs|
    ensures HeldAll(sjobs[sid := t]) == Rest(HeldAll(sjobs), Held(sjobs[sid])) + Held(t)
    ensures HeldWanAll(sjobs[sid := t]) == Rest(HeldWanAll(sjobs), HeldWan(sjobs[sid])) + HeldWan(t)
  {
    RestSplits(sjobs, sid);
    GatherUpdate(sjobs, sid, t, Held);
    GatherUpdate(sjobs, sid, t, HeldWan);
    Exchange(HeldAll(sjobs[sid := t]), HeldAll(sjobs), Held(sjobs[sid]), Held(t));
    Exchange(HeldWanAll(sjobs[sid := t]), HeldWanAll(sjobs), HeldWan(sjobs[sid]), HeldWan(t));
  }

  /** What changes when sjob `sid` becomes `t`, its rawjob becomes `j` and `d` bytes are moved. */
  ghost predicate OneJob(st: State, sid: nat, t: Sjob, j: RawJob, d: int, st': State)
    requires JobsOk(st.raws, st.sjobs) && sid < |st.sjobs|
  {
    var s := st.sjobs[sid];
    && st'.sjobs == st.sjobs[sid := t] && st'.raws == st.raws[s.raw := j] && st'.base == st.base
    && ((d == 0 && st'.sites == st.sites && st'.mem == st.mem)
        || (st'.sites == AddBoth(st, s.src, s.dst, d).sites && st'.mem == AddBoth(st, s.src, s.dst, d).mem))
  }

  /** What the new rawjob record must be. */
  ghost predicate RawFollows(st: State, sid: nat, t: Sjob, j: RawJob, d: int)
    requires JobsOk(st.raws, st.sjobs) && sid < |st.sjobs|
  {
    var s := st.sjobs[sid];
    var o := st.raws[s.raw];
    && j.src == o.src && j.dst == o.dst && j.dropped == o.dropped
    && j.tx == o.tx + t.tx - s.tx
    && j.tx + j.rolledBack == o.tx + o.rolledBack + d
    && (j.state == RawFinished <==> AllFinished(st.sjobs[sid := t], s.raw))
  }

  lemma OneJobCounts(st: State, sid: nat, t: Sjob, j: RawJob, d: int, st': State)
    requires Inv(st) && sid < |st.sjobs| && SjobInv(t) && Evolves(st.sjobs[sid], t)
    requires st.sjobs[sid].state != Finished
    requires OneJob(st, sid, t, j, d, st') && RawFollows(st, sid, t, j, d)
    ensures JobsOk(st'.raws, st'.sjobs) && Counted(st'.raws, st'.sjobs) && Settled(st'.raws, st'.sjobs)
  {
    hide SjobInv, Balanced, Mirrored, Accounted, AddBoth;
    JobsOkPut(st.raws, st'.raws, st.sjobs, sid, t);
    CountedPut(st.raws, st.sjobs, sid, t, j);
    SettledPut(st.raws, st.sjobs, sid, t, j);
  }

  lemma OneJobAccounts(st: State, sid: nat, t: Sjob, j: RawJob, d: int, st': State)
    requires Inv(st) && sid < |st.sjobs|
    requires OneJob(st, sid, t, j, d, st') && RawFollows(st, sid, t, j, d)
    ensures Mirrored(st'.sites, st'.mem) && Accounted(st'.base, st'.sites, st'.raws)
  {
    hide SjobInv, Balanced, Counted, Settled, Mirrored, Accounted, AddBoth, AllFinished;
    MirroredAdd(st, st.sjobs[sid].src, st.sjobs[sid].dst, d);
    AccountedPut(st, st.sjobs[sid].raw, j, d);
  }

  /** No sjob goes back on what it has reached. */
  ghost predicate AllEvolve(st: State, st': State) {
    |st.sjobs| <= |st'.sjobs| && forall i :: 0 <= i < |st.sjobs| ==> Evolves(st.sjobs[i], st'.sjobs[i])
  }

  lemma PutEvolves(st: State, sid: nat, t: Sjob, st': State)
    requires sid < |st.sjobs| && Evolves(st.sjobs[sid], t) && st'.sjobs == st.sjobs[sid := t]
    ensures AllEvolve(st, st')
  {}

  /** The handler's own balance, with everything the other sjobs hold alongside. */
  ghost predicate BalancedFor(sjobs: seq<Sjob>, sid: nat, net: Ledger, t: Sjob)
    requires sid < |sjobs|
  {
    var s := sjobs[sid];
    Balanced(net, Rest(HeldAll(sjobs), Held(s)) + Held(t), Rest(HeldWanAll(sjobs), HeldWan(s)) + HeldWan(t))
  }

  /** One step of one sjob: everything that is left to check once its own handler lemma is known. */
  lemma JobStepKeeps(st: State, sid: nat, t: Sjob, j: RawJob, d: int, st': State)
    requires Inv(st) && sid < |st.sjobs| && SjobInv(t) && Evolves(st.sjobs[sid], t)
    requires st.sjobs[sid].state != Finished
    requires OneJob(st, sid, t, j, d, st') && RawFollows(st, sid, t, j, d)
    requires BalancedFor(st.sjobs, sid, st'.net, t)
    ensures Inv(st')
  {
    OneJobCounts(st, sid, t, j, d, st');
    OneJobAccounts(st, sid, t, j, d, st');
    HeldPut(st.sjobs, sid, t);
    hide SjobInv, Evolves, JobsOk, Counted, Settled, Mirrored, Accounted, Balanced, RawFollows;
  }

  // ----- the steps

  lemma NotAllFinished(sjobs: seq<Sjob>, sid: nat, t: Sjob)
    requires sid < |sjobs| && t.state != Finished
    ensures !AllFinished(sjobs[sid := t], t.raw)
  {
    assert sjobs[sid := t][sid] == t;
  }

  lemma JobFacts(st: State, sid: nat, t: Sjob)
    requires Inv(st) && sid < |st.sjobs| && Evolves(st.sjobs[sid], t)
    ensures var s := st.sjobs[sid];
            && SjobInv(s) && s.raw < |st.raws| && t.raw == s.raw
            && s.src == st.raws[s.raw].src && s.dst == st.raws[s.raw].dst
  {}

  /** A step that puts an effect without counting bytes. */
  lemma PutKeeps(st: State, sid: nat, e: Effect)
    requires Inv(st) && sid < |st.sjobs|
    requires SjobInv(e.job) && Evolves(st.sjobs[sid], e.job) && e.job.tx == st.sjobs[sid].tx
    requires st.sjobs[sid].state != Finished && e.job.state != Finished && e.raw != Some(RawFinished)
    requires BalancedFor(st.sjobs, sid, e.net, e.job)
    ensures Inv(PutJob(st, sid, e))
  {
    hide JobsOk, SjobInv, Evolves, Counted, Settled, Mirrored, Accounted, Balanced, BalancedFor, AllFinished, AddBoth;
    var s := st.sjobs[sid];
    JobFacts(st, sid, e.job);
    UnfinishedRaw(st.raws, st.sjobs, sid);
    NotAllFinished(st.sjobs, sid, e.job);
    var j := if e.raw.Some? then st.raws[s.raw].(state := e.raw.value) else st.raws[s.raw];
    assert st.raws[s.raw := st.raws[s.raw]] == st.raws;
    JobStepKeeps(st, sid, e.job, j, 0, PutJob(st, sid, e));
  }

  lemma ScheduleStep(st: State, sid: nat, a: ScheduleAnswer)
    requires Inv(st) && Allowed(st, Schedule(sid, a)) && sid < |st.sjobs|
    ensures var st' := PutJob(st, sid, ScheduleEffect(st.sjobs[sid], st.net, a)); Inv(st') && AllEvolve(st, st')
  {
    hide SjobInv, Evolves, Counted, Settled, Mirrored, Accounted, Balanced, ScheduleEffect, FreshNetwork, AllEvolve;
    var s := st.sjobs[sid];
    var e := ScheduleEffect(s, st.net, a);
    ScheduleKeeps(s, st.net, a);
    PutEvolves(st, sid, e.job, PutJob(st, sid, e));
    if e.raw.None? {
      assert st.sjobs[sid := s] == st.sjobs;
    } else {
      RestSplits(st.sjobs, sid);
      ScheduleBalances(s, st.net, a, Rest(HeldAll(st.sjobs), Held(s)), Rest(HeldWanAll(st.sjobs), HeldWan(s)));
      PutKeeps(st, sid, e);
    }
  }

  /** A handler that lets go of its flow's resources, or keeps them, balances. */
  lemma LetsGoBalancedFor(st: State, sid: nat, e: Effect)
    requires Balanced(st.net, HeldAll(st.sjobs), HeldWanAll(st.sjobs)) && sid < |st.sjobs|
    requires LetsGo(st.sjobs[sid], st.net, e) && Live(st.sjobs[sid].flows[0])
    ensures BalancedFor(st.sjobs, sid, e.net, e.job)
  {
    hide Balanced;
    var s := st.sjobs[sid];
    RestSplits(st.sjobs, sid);
    LetsGoBalances(s, st.net, e, Rest(HeldAll(st.sjobs), Held(s)), Rest(HeldWanAll(st.sjobs), HeldWan(s)));
  }

  lemma StartedStep(st: State, sid: nat, f: nat)
    requires Inv(st) && Allowed(st, ReportStarted(sid, f)) && Known(st, sid, f)
    ensures var st' := PutJob(st, sid, Effect(Started(st.sjobs[sid], f), None, st.net)); Inv(st') && AllEvolve(st, st')
  {
    var s := st.sjobs[sid];
    var e := Effect(Started(s, f), None, st.net);
    StartedKeeps(s, f);
    StartedLetsGo(s, st.net);
    assert s.state != Finished && e.job.state != Finished;
    hide SjobInv, Evolves, Counted, Settled, Mirrored, Accounted, Balanced, BalancedFor, LetsGo;
    LetsGoBalancedFor(st, sid, e);
    PutKeeps(st, sid, e);
    PutEvolves(st, sid, e.job, PutJob(st, sid, e));
  }

  lemma FailedStep(st: State, sid: nat, f: nat, d: Wan.Down)
    requires Inv(st) && Allowed(st, ReportFailed(sid, f, d)) && Known(st, sid, f)
    ensures var st' := PutJob(st, sid, Failed(st.sjobs[sid], f, st.net, d)); Inv(st') && AllEvolve(st, st')
  {
    var s := st.sjobs[sid];
    assert f == 0 && Busy(s) && s.state != Finished;
    hide Failed;
    var e := Failed(s, f, st.net, d);
    FailedKeeps(s, f, st.net, d);
    FailedLetsGo(s, st.net, d);
    hide SjobInv, Evolves, Counted, Settled, Mirrored, Accounted, Balanced, BalancedFor, LetsGo;
    LetsGoBalancedFor(st, sid, e);
    PutKeeps(st, sid, e);
    PutEvolves(st, sid, e.job, PutJob(st, sid, e));
  }

  lemma BusyFacts(s: Sjob)
    requires Busy(s)
    ensures |s.flows| == 1 && Live(s.flows[0]) && s.state != Finished
  {}

  /** The rawjob record after a finished report. */
  ghost function FinishedRaw(st: State, sid: nat, fe: FinishEffect): RawJob
    requires sid < |st.sjobs| && st.sjobs[sid].raw < |st.raws|
  {
    var s := st.sjobs[sid];
    var o := st.raws[s.raw];
    var all := fe.eff.job.state == Finished && AllFinished(st.sjobs[sid := fe.eff.job], s.raw);
    o.(state := if all then RawFinished else if fe.eff.raw.Some? then fe.eff.raw.value else o.state,
       tx := o.tx + fe.gained - fe.lost, rolledBack := o.rolledBack + fe.lost)
  }

  lemma FinishedStep(st: State, sid: nat, f: nat, a: FinishAnswer)
    requires Inv(st) && Allowed(st, ReportFinished(sid, f, a)) && Known(st, sid, f)
    ensures Inv(DoFinish(st, sid, f, a)) && AllEvolve(st, DoFinish(st, sid, f, a))
  {
    hide JobsOk, SjobInv, Busy, Evolves, Counted, Settled, Mirrored, Accounted, Balanced, BalancedFor, LetsGo, AddBoth;
    hide Finish, DoFinish, AllFinished;
    var s := st.sjobs[sid];
    var fe := Finish(s, f, st.net, a);
    var t := fe.eff.job;
    JobFacts(st, sid, s) by { EvolvesRefl(s); }
    FinishKeeps(s, f, st.net, a);
    BusyFacts(s);
    FinishLetsGo(s, st.net, a);
    JobFacts(st, sid, t);
    UnfinishedRaw(st.raws, st.sjobs, sid);
    LetsGoBalancedFor(st, sid, fe.eff);
    var j := FinishedRaw(st, sid, fe);
    if t.state != Finished {
      NotAllFinished(st.sjobs, sid, t);
    }
    FinishShape(st, sid, f, a);
    JobStepKeeps(st, sid, t, j, fe.gained, DoFinish(st, sid, f, a));
    PutEvolves(st, sid, t, DoFinish(st, sid, f, a));
  }

  /** The state after a finished report, field by field. */
  lemma FinishShape(st: State, sid: nat, f: nat, a: FinishAnswer)
    requires Known(st, sid, f) && st.sjobs[sid].raw < |st.raws|
    requires Finish(st.sjobs[sid], f, st.net, a).eff.job.raw == st.sjobs[sid].raw
    ensures var fe := Finish(st.sjobs[sid], f, st.net, a);
            var s := st.sjobs[sid];
            var st' := DoFinish(st, sid, f, a);
            && st'.sjobs == st.sjobs[sid := fe.eff.job] && st'.raws == st.raws[s.raw := FinishedRaw(st, sid, fe)]
            && st'.net == fe.eff.net && st'.base == st.base
            && st'.sites == AddBoth(st, s.src, s.dst, fe.gained).sites
            && st'.mem == AddBoth(st, s.src, s.dst, fe.gained).mem
  {
    hide Finish, AllFinished, AddSite, AddMem;
    var s := st.sjobs[sid];
    var e := Finish(s, f, st.net, a);
    var st2 := AddRaw(AddBoth(st, s.src, s.dst, e.gained), s.raw, e.gained - e.lost, 0, e.lost);
    var st3 := PutJob(st2, sid, e.eff);
    assert st3.sjobs == st.sjobs[sid := e.eff.job] && st3.sjobs[sid] == e.eff.job;
    assert SettleRaw(st3, sid).raws == st.raws[s.raw := FinishedRaw(st, sid, e)];
  }

  // ----- one rawjob's poll

  /** The state of a pass before sjob `i`, against the state `st` it started from. */
  ghost predicate PassInv(st: State, rid: nat, i: nat, p: Pass) {
    && |p.sjobs| == |st.sjobs| && i <= |p.sjobs|
    && JobsOk(st.raws, p.sjobs)
    && (forall j :: i <= j < |p.sjobs| ==> p.sjobs[j] == st.sjobs[j])
    && (forall r :: 0 <= r < |st.raws| ==>
          SumBy(p.sjobs, TxFor(r)) == SumBy(st.sjobs, TxFor(r)) + if r == rid then p.tx else 0)
    && (forall j :: 0 <= j < |p.sjobs| ==>
          Evolves(st.sjobs[j], p.sjobs[j]) && (p.sjobs[j].state == Finished <==> st.sjobs[j].state == Finished))
    && (p.raw.Some? ==> p.raw.value == RawError && !AllFinished(st.sjobs, rid))
    && Balanced(p.net, HeldAll(p.sjobs), HeldWanAll(p.sjobs))
  }

  lemma PollOneBalances(sjobs: seq<Sjob>, net: Ledger, i: nat, now: int, answer: nat -> PollAnswer)
    requires i < |sjobs| && SjobInv(sjobs[i]) && Balanced(net, HeldAll(sjobs), HeldWanAll(sjobs))
    ensures var e := PollSjob(sjobs[i], net, now, answer).eff;
            Balanced(e.net, HeldAll(sjobs[i := e.job]), HeldWanAll(sjobs[i := e.job]))
  {
    hide SjobInv, Balanced, PollSjob;
    var s := sjobs[i];
    var e := PollSjob(s, net, now, answer).eff;
    RestSplits(sjobs, i);
    PollBalances(s, net, now, answer, Rest(HeldAll(sjobs), Held(s)), Rest(HeldWanAll(sjobs), HeldWan(s)));
    HeldPut(sjobs, i, e.job);
  }

  /** What one sjob's poll does, in the terms the pass needs. */
  lemma PollOneJob(st: State, rid: nat, i: nat, p: Pass, now: int, answer: (nat, nat) -> PollAnswer)
    requires PassInv(st, rid, i, p) && i < |p.sjobs| && p.sjobs[i].raw == rid
    requires Allowed(st, Poll(rid, now, answer))
    ensures var s := p.sjobs[i];
            var e := PollSjob(s, p.net, now, AnswersFor(i, answer));
            && SjobInv(e.eff.job) && Evolves(s, e.eff.job) && e.eff.job.tx == s.tx + e.tx && s.raw == e.eff.job.raw
            && (e.eff.job.state == Finished <==> s.state == Finished)
            && (e.eff.raw.Some? ==> e.eff.raw.value == RawError && !AllFinished(st.sjobs, rid))
            && Evolves(st.sjobs[i], e.eff.job)
            && Balanced(e.eff.net, HeldAll(p.sjobs[i := e.eff.job]), HeldWanAll(p.sjobs[i := e.eff.job]))
  {
    hide Balanced, PollSjob;
    var s := p.sjobs[i];
    var ans := AnswersFor(i, answer);
    assert |s.flows| == 1 && ans(0).rate.Rate? ==> ans(0).rate.transferred <= BlockSize(s, s.flows[0].block);
    PollSjobKeeps(s, p.net, now, ans);
    PollOneBalances(p.sjobs, p.net, i, now, ans);
  }

  lemma SumsMove(sjobs: seq<Sjob>, i: nat, t: Sjob, d: int, n: nat)
    requires i < |sjobs| && t.raw == sjobs[i].raw && t.tx == sjobs[i].tx + d
    ensures forall r :: 0 <= r < n ==>
              SumBy(sjobs[i := t], TxFor(r)) == SumBy(sjobs, TxFor(r)) + if r == t.raw then d else 0
  {
    forall r | 0 <= r < n
      ensures SumBy(sjobs[i := t], TxFor(r)) == SumBy(sjobs, TxFor(r)) + if r == t.raw then d else 0
    {
      SumByUpdate(sjobs, i, t, TxFor(r));
    }
  }

  lemma PollOneKeeps(st: State, rid: nat, i: nat, p: Pass, now: int, answer: (nat, nat) -> PollAnswer)
    requires PassInv(st, rid, i, p) && i < |p.sjobs| && p.sjobs[i].raw == rid && rid < |st.raws|
    requires Allowed(st, Poll(rid, now, answer))
    ensures PassInv(st, rid, i + 1, PollOne(p, i, now, answer))
  {
    hide Balanced, SjobInv, AllFinished, Evolves, PollSjob, Allowed, JobsOk;
    var e := PollSjob(p.sjobs[i], p.net, now, AnswersFor(i, answer));
    PollOneJob(st, rid, i, p, now, answer);
    JobsOkPut(st.raws, st.raws, p.sjobs, i, e.eff.job);
    SumsMove(p.sjobs, i, e.eff.job, e.tx, |st.raws|);
  }

  lemma {:induction false} PollFromKeeps(st: State, rid: nat, i: nat, p: Pass, now: int,
                                         answer: (nat, nat) -> PollAnswer)
    requires PassInv(st, rid, i, p) && rid < |st.raws| && Allowed(st, Poll(rid, now, answer))
    ensures PassInv(st, rid, |st.sjobs|, PollFrom(p, rid, i, now, answer))
    decreases |p.sjobs| - i
  {
    if i < |p.sjobs| && !p.abort {
      if p.sjobs[i].raw != rid {
        PollFromKeeps(st, rid, i + 1, p, now, answer);
      } else {
        PollOneKeeps(st, rid, i, p, now, answer);
        PollFromKeeps(st, rid, i + 1, PollOne(p, i, now, answer), now, answer);
      }
    }
  }

  /** The rawjob record after a pass. */
  function PolledRaw(o: RawJob, p: Pass): RawJob {
    var j := if p.abort then o.(dropped := o.dropped + p.tx) else o.(tx := o.tx + p.tx);
    j.(state := if p.raw.Some? then p.raw.value else o.state)
  }

  /** The state a completed pass leaves, field by field. */
  ghost predicate PassLeaves(st: State, rid: nat, p: Pass, st': State)
    requires rid < |st.raws|
  {
    && st'.raws == st.raws[rid := PolledRaw(st.raws[rid], p)] && st'.sjobs == p.sjobs && st'.net == p.net
    && st'.base == st.base
    && var b := AddBoth(st, st.raws[rid].src, st.raws[rid].dst, p.tx);
       if p.abort then st'.sites == st.sites && st'.mem == st.mem
       else st'.sites == b.sites && st'.mem == b.mem
  }

  lemma DoPollLeaves(st: State, rid: nat, now: int, answer: (nat, nat) -> PollAnswer)
    requires rid < |st.raws|
    ensures PassLeaves(st, rid, PollFrom(Pass(st.sjobs, st.net, None, 0, false), rid, 0, now, answer),
                       DoPoll(st, rid, now, answer))
  {
    hide PollFrom, AddSite, AddMem;
  }

  lemma PassCounts(st: State, rid: nat, p: Pass, st': State)
    requires Inv(st) && rid < |st.raws| && PassInv(st, rid, |st.sjobs|, p) && PassLeaves(st, rid, p, st')
    ensures JobsOk(st'.raws, st'.sjobs) && Counted(st'.raws, st'.sjobs) && Settled(st'.raws, st'.sjobs)
  {
    hide SjobInv, Balanced, Mirrored, Accounted, AddBoth, AllFinished, HasJob, Evolves;
    SameShape(st, p);
  }

  lemma PassAccounts(st: State, rid: nat, p: Pass, st': State)
    requires Inv(st) && rid < |st.raws| && PassLeaves(st, rid, p, st')
    ensures Mirrored(st'.sites, st'.mem) && Accounted(st'.base, st'.sites, st'.raws)
  {
    hide JobsOk, Counted, Settled, Balanced, Mirrored, Accounted, AddBoth;
    var o := st.raws[rid];
    MirroredAdd(st, o.src, o.dst, p.tx);
    AccountedPut(st, rid, PolledRaw(o, p), if p.abort then 0 else p.tx);
  }

  lemma PollStep(st: State, rid: nat, now: int, answer: (nat, nat) -> PollAnswer)
    requires Inv(st) && rid < |st.raws| && Allowed(st, Poll(rid, now, answer))
    ensures Inv(DoPoll(st, rid, now, answer)) && AllEvolve(st, DoPoll(st, rid, now, answer))
  {
    hide PollFrom, JobsOk, SjobInv, Evolves, Balanced, Mirrored, Accounted, Counted, Settled, AllFinished, HasJob;
    hide AddBoth, Allowed, DoPoll;
    var p0 := Pass(st.sjobs, st.net, None, 0, false);
    forall j | 0 <= j < |st.sjobs| ensures Evolves(st.sjobs[j], st.sjobs[j]) { EvolvesRefl(st.sjobs[j]); }
    var p := PollFrom(p0, rid, 0, now, answer);
    PollFromKeeps(st, rid, 0, p0, now, answer);
    DoPollLeaves(st, rid, now, answer);
    PassCounts(st, rid, p, DoPoll(st, rid, now, answer));
    PassAccounts(st, rid, p, DoPoll(st, rid, now, answer));
  }

  lemma SameShape(st: State, p: Pass)
    requires |p.sjobs| == |st.sjobs|
    requires forall j :: 0 <= j < |p.sjobs| ==>
               Evolves(st.sjobs[j], p.sjobs[j]) && (p.sjobs[j].state == Finished <==> st.sjobs[j].state == Finished)
    ensures forall r :: HasJob(p.sjobs, r) == HasJob(st.sjobs, r) && AllFinished(p.sjobs, r) == AllFinished(st.sjobs, r)
  {
    forall r
      ensures HasJob(p.sjobs, r) == HasJob(st.sjobs, r) && AllFinished(p.sjobs, r) == AllFinished(st.sjobs, r)
    {
      assert forall j :: 0 <= j < |p.sjobs| ==> p.sjobs[j].raw == st.sjobs[j].raw;
    }
  }

  // ----- submission

  lemma NewSjobOk(raw: nat, src: SiteId, dst: SiteId, sizes: seq<nat>)
    ensures var s := NewSjob(raw, src, dst, sizes); SjobInv(s) && Held(s) == multiset{} && HeldWan(s) == multiset{}
  {
    SumByZero(NewBlocks(sizes), TxOf);
  }

  lemma SubmitStep(st: State, src: SiteId, dst: SiteId, jobs: seq<seq<nat>>)
    requires Inv(st)
    ensures Inv(DoSubmit(st, src, dst, jobs)) && AllEvolve(st, DoSubmit(st, src, dst, jobs))
  {
    var st' := DoSubmit(st, src, dst, jobs);
    var r := |st.raws|;
    var added := st'.sjobs[|st.sjobs|..];
    assert st'.sjobs == st.sjobs + added;
    forall i | 0 <= i < |jobs|
      ensures added[i] == NewSjob(r, src, dst, jobs[i]) && SjobInv(added[i])
              && Held(added[i]) == multiset{} && HeldWan(added[i]) == multiset{}
    {
      NewSjobOk(r, src, dst, jobs[i]);
    }
    assert JobsOk(st'.raws, st'.sjobs) by { SubmitJobsOk(st, st', added); }
    hide SjobInv, JobsOk, Counted, Settled, Mirrored, Accounted, Evolves;
    SubmitCounts(st, st', added);
    SubmitSettles(st, st', added);
    SubmitAccounts(st, st');
    SubmitHolds(st.sjobs, added);
  }

  lemma SubmitJobsOk(st: State, st': State, added: seq<Sjob>)
    requires JobsOk(st.raws, st.sjobs)
    requires st'.sjobs == st.sjobs + added && |st'.raws| == |st.raws| + 1 && st'.raws[..|st.raws|] == st.raws
    requires forall i :: 0 <= i < |added| ==>
               SjobInv(added[i]) && added[i].raw == |st.raws|
               && added[i].src == st'.raws[|st.raws|].src && added[i].dst == st'.raws[|st.raws|].dst
    ensures JobsOk(st'.raws, st'.sjobs)
  {
    hide SjobInv;
    assert forall r :: 0 <= r < |st.raws| ==> st'.raws[r] == st.raws[r];
  }

  lemma SubmitHolds(sjobs: seq<Sjob>, added: seq<Sjob>)
    requires forall i :: 0 <= i < |added| ==> Held(added[i]) == multiset{} && HeldWan(added[i]) == multiset{}
    ensures HeldAll(sjobs + added) == HeldAll(sjobs) && HeldWanAll(sjobs + added) == HeldWanAll(sjobs)
  {
    GatherConcat(sjobs, added, Held);
    GatherConcat(sjobs, added, HeldWan);
    GatherEmpty(added, Held);
    GatherEmpty(added, HeldWan);
  }

  lemma SubmitCounts(st: State, st': State, added: seq<Sjob>)
    requires JobsOk(st.raws, st.sjobs) && Counted(st.raws, st.sjobs)
    requires st'.sjobs == st.sjobs + added && |st'.raws| == |st.raws| + 1 && st'.raws[..|st.raws|] == st.raws
    requires st'.raws[|st.raws|].tx == 0 && st'.raws[|st.raws|].dropped == 0
    requires forall i :: 0 <= i < |added| ==> added[i].tx == 0
    ensures Counted(st'.raws, st'.sjobs)
  {
    forall r | 0 <= r < |st'.raws|
      ensures st'.raws[r].tx + st'.raws[r].dropped == SumBy(st'.sjobs, TxFor(r))
    {
      SumByConcat(st.sjobs, added, TxFor(r));
      SumByZero(added, TxFor(r));
      if r == |st.raws| {
        SumByZero(st.sjobs, TxFor(r));
      } else {
        assert st'.raws[r] == st.raws[r];
      }
    }
  }

  lemma SubmitSettles(st: State, st': State, added: seq<Sjob>)
    requires JobsOk(st.raws, st.sjobs) && Settled(st.raws, st.sjobs)
    requires st'.sjobs == st.sjobs + added && |st'.raws| == |st.raws| + 1 && st'.raws[..|st.raws|] == st.raws
    requires st'.raws[|st.raws|].state != RawFinished
    requires forall i :: 0 <= i < |added| ==> added[i].raw == |st.raws| && added[i].state != Finished
    ensures Settled(st'.raws, st'.sjobs)
  {
    forall r | 0 <= r < |st'.raws|
      ensures st'.raws[r].state == RawFinished <==> HasJob(st'.sjobs, r) && AllFinished(st'.sjobs, r)
    {
      if r < |st.raws| {
        assert st'.raws[r] == st.raws[r];
        assert forall i :: 0 <= i < |st.sjobs| ==> st'.sjobs[i] == st.sjobs[i];
        assert forall i :: |st.sjobs| <= i < |st'.sjobs| ==> st'.sjobs[i] == added[i - |st.sjobs|];
        assert HasJob(st'.sjobs, r) == HasJob(st.sjobs, r);
        assert AllFinished(st'.sjobs, r) == AllFinished(st.sjobs, r);
      } else if HasJob(st'.sjobs, r) {
        var i :| 0 <= i < |st'.sjobs| && st'.sjobs[i].raw == r;
        assert i >= |st.sjobs|;
        assert st'.sjobs[i] == added[i - |st.sjobs|];
      }
    }
  }

  lemma SubmitAccounts(st: State, st': State)
    requires Accounted(st.base, st.sites, st.raws) && st'.sites == st.sites && st'.base == st.base
    requires exists j: RawJob :: j.tx == 0 && j.rolledBack == 0 && st'.raws == st.raws + [j]
    ensures Accounted(st'.base, st'.sites, st'.raws)
  {
    var j: RawJob :| j.tx == 0 && j.rolledBack == 0 && st'.raws == st.raws + [j];
    forall k | k in st.sites
      ensures SumBy(st'.raws, SentFrom(k)) == SumBy(st.raws, SentFrom(k))
      ensures SumBy(st'.raws, ReceivedAt(k)) == SumBy(st.raws, ReceivedAt(k))
    {
      SumByConcat(st.raws, [j], SentFrom(k));
      SumByConcat(st.raws, [j], ReceivedAt(k));
      SumByZero([j], SentFrom(k));
      SumByZero([j], ReceivedAt(k));
    }
  }

  // ----- every run

  /** Every step keeps the invariant, and no sjob ever goes back on what it has reached. */
  lemma StepKeeps(st: State, step: Step)
    requires Inv(st) && Allowed(st, step)
    ensures Inv(Apply(st, step)) && AllEvolve(st, Apply(st, step))
  {
    hide Inv, Allowed, DoSubmit, DoPoll, DoFinish, PutJob, ScheduleEffect, Started, Failed;
    match step
    case Submit(src, dst, jobs) => SubmitStep(st, src, dst, jobs);
    case Schedule(sid, a) => if sid < |st.sjobs| { ScheduleStep(st, sid, a); }
    case Poll(rid, now, answer) => if rid < |st.raws| { PollStep(st, rid, now, answer); }
    case ReportStarted(sid, f) => if Known(st, sid, f) { StartedStep(st, sid, f); }
    case ReportFailed(sid, f, d) => if Known(st, sid, f) { FailedStep(st, sid, f, d); }
    case ReportFinished(sid, f, a) => if Known(st, sid, f) { FinishedStep(st, sid, f, a); }
  }

  lemma AllEvolveTrans(st: State, st1: State, st2: State)
    requires AllEvolve(st, st1) && AllEvolve(st1, st2)
    ensures AllEvolve(st, st2)
  {
    hide Evolves;
    forall i | 0 <= i < |st.sjobs|
      ensures Evolves(st.sjobs[i], st2.sjobs[i])
    {
      EvolvesTrans(st.sjobs[i], st1.sjobs[i], st2.sjobs[i]);
    }
  }

  lemma {:induction false} RunKeeps(st: State, steps: seq<Step>)
    requires Inv(st) && ValidRun(st, steps)
    ensures Inv(Exec(st, steps)) && AllEvolve(st, Exec(st, steps))
    decreases |steps|
  {
    if steps != [] {
      hide Inv, Apply, Allowed;
      StepKeeps(st, steps[0]);
      RunKeeps(Apply(st, steps[0]), steps[1..]);
      AllEvolveTrans(st, Apply(st, steps[0]), Exec(st, steps));
    }
  }

  lemma InitInv(base: map<SiteId, Txrx>)
    ensures Inv(Init(base))
  {}

  /** A state some run of the system can reach. */
  ghost predicate Reachable(st: State) {
    exists base, steps :: ValidRun(Init(base), steps) && st == Exec(Init(base), steps)
  }

  lemma ReachableInv(st: State)
    requires Reachable(st)
    ensures Inv(st)
  {
    var base, steps :| ValidRun(Init(base), steps) && st == Exec(Init(base), steps);
    InitInv(base);
    RunKeeps(Init(base), steps);
  }
}
