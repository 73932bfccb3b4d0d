/**
 The wide-area circuit service: the REST calls one circuit receives over its life, the retry loops
 that issue them, and the protocol automaton those calls must follow.
 */
module Wan {

  type Uuid = string

  /** One answered REST call on a circuit. `ok` is the status code test the source makes. */
  datatype Call =
    | Create
    | Reserve(ok: bool)
    | Commit(ok: bool)
    | Release(ok: bool)
    | Terminate(ok: bool)
    | Delete(ok: bool)

  /** `while (++retry < max_retry)` with the default of 5 makes at most four attempts. */
  const MAX_RETRY: nat := 5
  const MAX_TRIES: nat := MAX_RETRY - 1

  /** The answers the service has ready for the successive attempts of one operation; none left means failure. */
  type Answers = seq<bool>

  function Answer(r: Answers, i: nat): bool { i < |r| && r[i] }

  /** How many attempts are made, from attempt `i` on, before a success or the limit `n`. */
  function Tries(r: Answers, i: nat, n: nat): (k: nat)
    ensures k <= n
    ensures n > 0 ==> k > 0
    ensures forall j :: i <= j < i + k - 1 ==> !Answer(r, j)
    ensures k < n ==> k > 0 && Answer(r, i + k - 1)
    decreases n
  {
    if n == 0 then 0 else if Answer(r, i) then 1 else 1 + Tries(r, i + 1, n - 1)
  }

  /** Whether an operation that may be tried four times succeeds. */
  function Succeeds(r: Answers): (ok: bool)
    ensures ok <==> exists i :: 0 <= i < MAX_TRIES && Answer(r, i)
  {
    var k := Tries(r, 0, MAX_TRIES);
    assert Answer(r, k - 1) ==> 0 <= k - 1 < MAX_TRIES;
    Answer(r, k - 1)
  }

  /** A loop ends with the first accepted attempt, and after the fourth in any case. */
  lemma FourAttempts(r: Answers)
    ensures Succeeds(r) <==> exists i :: 0 <= i < 4 && i < |r| && r[i]
    ensures |Releases(r)| == |Terminates(r)| == |Deletes(r)|
    ensures 1 <= |Deletes(r)| <= 4 && (forall i :: 0 <= i < |Deletes(r)| - 1 && i < |r| ==> !r[i])
    ensures Succeeds(r) <==> |Deletes(r)| <= |r| && r[|Deletes(r)| - 1]
    ensures |Deletes(r)| < 4 ==> Succeeds(r)
  {
    assert forall i :: 0 <= i < |r| ==> r[i] == Answer(r, i);
    if Succeeds(r) {
      var i :| 0 <= i < MAX_TRIES && Answer(r, i);
    }
  }

  function Releases(r: Answers): seq<Call> {
    seq(Tries(r, 0, MAX_TRIES), i requires i >= 0 => Release(Answer(r, i)))
  }

  function Terminates(r: Answers): seq<Call> {
    seq(Tries(r, 0, MAX_TRIES), i requires i >= 0 => Terminate(Answer(r, i)))
  }

  function Deletes(r: Answers): seq<Call> {
    seq(Tries(r, 0, MAX_TRIES), i requires i >= 0 => Delete(Answer(r, i)))
  }

  /** The answers to one teardown. */
  datatype Down = Down(release: Answers, terminate: Answers, delete: Answers)

  /** The calls of one teardown: release, then terminate, then delete, stopping at the first that gives up. */
  function TeardownCalls(d: Down): seq<Call> {
    Releases(d.release)
    + if !Succeeds(d.release) then [] else
      Terminates(d.terminate)
      + if !Succeeds(d.terminate) then [] else Deletes(d.delete)
  }

  /** The calls of one setup on a circuit that was created. */
  function SetupCalls(reserve: bool, commit: bool, delete: Answers): seq<Call> {
    [Create, Reserve(reserve)]
    + if !reserve then Deletes(delete) else
      [Commit(commit)] + if !commit then Deletes(delete) else []
  }

  // ----- the protocol automaton

  /** Where a circuit stands. The counters are the consecutive failures of a repeated call. */
  datatype Phase =
    | Unused
    | Created
    | Reserved
    | Up
    | Releasing(failures: nat)
    | Released
    | Terminating(failures: nat)
    | Terminated
    | Deleting(failures: nat)
    | Aborting(failures: nat)
    | Gone
    | Broken

  /** The transition relation a well-behaved client follows; everything else is `Broken`. */
  function Next(p: Phase, c: Call): Phase {
    match (p, c)
    case (Unused, Create) => Created
    case (Created, Reserve(ok)) => if ok then Reserved else Aborting(0)
    case (Reserved, Commit(ok)) => if ok then Up else Aborting(0)
    case (Up, Release(ok)) => if ok then Released else Releasing(1)
    case (Releasing(n), Release(ok)) =>
      if n >= 4 then Broken else if ok then Released else Releasing(n + 1)
    case (Released, Terminate(ok)) => if ok then Terminated else Terminating(1)
    case (Terminating(n), Terminate(ok)) =>
      if n >= 4 then Broken else if ok then Terminated else Terminating(n + 1)
    case (Terminated, Delete(ok)) => if ok then Gone else Deleting(1)
    case (Deleting(n), Delete(ok)) =>
      if n >= 4 then Broken else if ok then Gone else Deleting(n + 1)
    case (Aborting(n), Delete(ok)) =>
      if n >= 4 then Broken else if ok then Gone else Aborting(n + 1)
    case (_, _) => Broken
  }

  function Run(p: Phase, calls: seq<Call>): Phase
    decreases |calls|
  {
    if calls == [] then p else Run(Next(p, calls[0]), calls[1..])
  }

  /** The phase of a circuit after `calls`. */
  function PhaseOf(calls: seq<Call>): Phase { Run(Unused, calls) }

  /**
   A circuit nobody is working on: committed, deleted, or given up on after the fourth attempt.
   A failed setup rests only after at least one delete attempt.
   */
  predicate AtRest(p: Phase) {
    p == Up || p == Gone || p == Releasing(4) || p == Terminating(4)
    || p == Deleting(4) || p == Aborting(4)
  }

  lemma {:induction false} RunConcat(p: Phase, a: seq<Call>, b: seq<Call>)
    ensures Run(p, a + b) == Run(Run(p, a), b)
    decreases |a|
  {
    if a == [] {
      assert a + b == b;
    } else {
      assert (a + b)[1..] == a[1..] + b;
      RunConcat(Next(p, a[0]), a[1..], b);
    }
  }

  /** A phase in which one kind of call is being repeated. */
  datatype Repeat = RepRelease | RepTerminate | RepDelete | RepAbort

  function RepeatPhase(k: Repeat, failures: nat): Phase {
    match k
    case RepRelease => if failures == 0 then Up else Releasing(failures)
    case RepTerminate => if failures == 0 then Released else Terminating(failures)
    case RepDelete => if failures == 0 then Terminated else Deleting(failures)
    case RepAbort => Aborting(failures)
  }

  function RepeatDone(k: Repeat): Phase {
    match k
    case RepRelease => Released
    case RepTerminate => Terminated
    case RepDelete => Gone
    case RepAbort => Gone
  }

  function RepeatCall(k: Repeat, ok: bool): Call {
    match k
    case RepRelease => Release(ok)
    case RepTerminate => Terminate(ok)
    case RepDelete => Delete(ok)
    case RepAbort => Delete(ok)
  }

  function Repeated(k: Repeat, r: Answers, i: nat, n: nat): seq<Call> {
    seq(n, j requires j >= 0 => RepeatCall(k, Answer(r, i + j)))
  }

  lemma RepeatNext(k: Repeat, failures: nat, ok: bool)
    requires failures < MAX_TRIES
    ensures Next(RepeatPhase(k, failures), RepeatCall(k, ok))
            == if ok then RepeatDone(k) else RepeatPhase(k, failures + 1)
  {
    match k case RepRelease => case RepTerminate => case RepDelete => case RepAbort =>
  }

  lemma RunCons(p: Phase, c: Call, rest: seq<Call>)
    ensures Run(p, [c] + rest) == Run(Next(p, c), rest)
  {
    assert ([c] + rest)[1..] == rest;
  }

  /** A whole retry loop moves its phase to done on success, and to the exhausted phase otherwise. */
  lemma {:induction false} RunRepeated(k: Repeat, r: Answers, i: nat, failures: nat, n: nat)
    requires failures <= MAX_TRIES && n == Tries(r, i, MAX_TRIES - failures)
    ensures Run(RepeatPhase(k, failures), Repeated(k, r, i, n))
            == if n > 0 && Answer(r, i + n - 1) then RepeatDone(k) else RepeatPhase(k, MAX_TRIES)
    decreases MAX_TRIES - failures
  {
    hide Run, Next, RepeatPhase, RepeatDone, RepeatCall;
    if failures < MAX_TRIES {
      var c := RepeatCall(k, Answer(r, i));
      RepeatNext(k, failures, Answer(r, i));
      if Answer(r, i) {
        assert Repeated(k, r, i, n) == [c] + [];
        RunCons(RepeatPhase(k, failures), c, []);
        RunNothing(RepeatDone(k));
      } else {
        assert Repeated(k, r, i, n) == [c] + Repeated(k, r, i + 1, n - 1);
        RunCons(RepeatPhase(k, failures), c, Repeated(k, r, i + 1, n - 1));
        RunRepeated(k, r, i + 1, failures + 1, n - 1);
      }
    } else {
      RunNothing(RepeatPhase(k, failures));
    }
  }

  lemma RunNothing(p: Phase)
    ensures Run(p, []) == p
  {}

  lemma RunLoop(k: Repeat, r: Answers)
    ensures Run(RepeatPhase(k, 0), Repeated(k, r, 0, Tries(r, 0, MAX_TRIES)))
            == if Succeeds(r) then RepeatDone(k) else RepeatPhase(k, MAX_TRIES)
  {
    RunRepeated(k, r, 0, 0, Tries(r, 0, MAX_TRIES));
  }

  /** Tearing down a committed circuit follows the protocol and leaves the circuit at rest, not committed. */
  lemma TeardownFollowsProtocol(calls: seq<Call>, d: Down)
    requires PhaseOf(calls) == Up
    ensures var p := PhaseOf(calls + TeardownCalls(d));
            AtRest(p) && p != Up
            && (p == Gone <==> Succeeds(d.release) && Succeeds(d.terminate) && Succeeds(d.delete))
  {
    hide Run, Next, Tries, Succeeds;
    RunConcat(Unused, calls, TeardownCalls(d));
    var rel, ter, del := Releases(d.release), Terminates(d.terminate), Deletes(d.delete);
    RunLoop(RepRelease, d.release);
    assert rel == Repeated(RepRelease, d.release, 0, |rel|);
    if Succeeds(d.release) {
      RunLoop(RepTerminate, d.terminate);
      assert ter == Repeated(RepTerminate, d.terminate, 0, |ter|);
      if Succeeds(d.terminate) {
        RunLoop(RepDelete, d.delete);
        assert del == Repeated(RepDelete, d.delete, 0, |del|);
        assert TeardownCalls(d) == rel + (ter + del);
        RunConcat(Up, rel, ter + del);
        RunConcat(Released, ter, del);
      } else {
        assert TeardownCalls(d) == rel + ter;
        RunConcat(Up, rel, ter);
      }
    } else {
      assert TeardownCalls(d) == rel;
    }
  }

  /** A setup leaves the circuit committed exactly when both steps were accepted, and otherwise deletes it. */
  lemma SetupFollowsProtocol(reserve: bool, commit: bool, delete: Answers)
    ensures var p := PhaseOf(SetupCalls(reserve, commit, delete));
            AtRest(p) && (p == Up <==> reserve && commit)
            && (!(reserve && commit) ==> p == if Succeeds(delete) then Gone else Aborting(MAX_TRIES))
  {
    hide Run, Next, Tries, Succeeds;
    var del := Deletes(delete);
    RunLoop(RepAbort, delete);
    assert del == Repeated(RepAbort, delete, 0, |del|);
    SetupHeads(commit);
    RunNothing(Up);
    if !reserve {
      RunConcat(Unused, [Create, Reserve(false)], del);
    } else {
      var head := [Create, Reserve(true), Commit(commit)];
      assert SetupCalls(reserve, commit, delete) == head + if commit then [] else del;
      RunConcat(Unused, head, if commit then [] else del);
    }
  }

  lemma SetupHeads(commit: bool)
    ensures Run(Unused, [Create, Reserve(false)]) == Aborting(0)
    ensures Run(Unused, [Create, Reserve(true), Commit(commit)]) == if commit then Up else Aborting(0)
  {
    var head := [Create, Reserve(true), Commit(commit)];
    assert [Create, Reserve(false)][1..] == [Reserve(false)];
    assert head[1..] == [Reserve(true), Commit(commit)] && head[1..][1..] == [Commit(commit)];
    assert Run(Unused, head) == Run(Created, head[1..]) == Run(Reserved, [Commit(commit)]);
    assert [Commit(commit)][1..] == [];
    assert Run(Reserved, [Commit(commit)]) == Run(if commit then Up else Aborting(0), []);
  }

  // ----- the client

  function History(log: map<Uuid, seq<Call>>, uuid: Uuid): seq<Call> {
    if uuid in log then log[uuid] else []
  }

  lemma RepeatedNext(k: Repeat, r: Answers, n: nat)
    ensures Repeated(k, r, 0, n + 1) == Repeated(k, r, 0, n) + [RepeatCall(k, Answer(r, n))]
  {}

  /** The calls of a whole loop, under their three names. */
  lemma RepeatedNames(r: Answers)
    ensures Repeated(RepRelease, r, 0, Tries(r, 0, MAX_TRIES)) == Releases(r)
    ensures Repeated(RepTerminate, r, 0, Tries(r, 0, MAX_TRIES)) == Terminates(r)
    ensures Repeated(RepDelete, r, 0, Tries(r, 0, MAX_TRIES)) == Deletes(r)
  {}

  /**
   One retry loop of `release`, `terminate` or `del`: the call is repeated until it is accepted or the
   limit is reached. `calls` is the history of the circuit.
   */
  method Retry(k: Repeat, r: Answers, calls: seq<Call>, maxRetry: nat := MAX_RETRY)
    returns (ok: bool, history: seq<Call>)
    requires maxRetry >= 1
    ensures ok <==> exists i :: 0 <= i < maxRetry - 1 && Answer(r, i)
    ensures history == calls + Repeated(k, r, 0, Tries(r, 0, maxRetry - 1))
  {
    hide Repeated, RepeatCall, Tries, Answer;
    var retry := 1;
    ghost var total := Tries(r, 0, maxRetry - 1);
    history := calls;
    RepeatedNothing(k, r);
    assert calls + [] == calls;
    while retry < maxRetry
      invariant 1 <= retry <= maxRetry
      invariant total == retry - 1 + Tries(r, retry - 1, maxRetry - retry)
      invariant history == calls + Repeated(k, r, 0, retry - 1)
      invariant forall i :: 0 <= i < retry - 1 ==> !Answer(r, i)
    {
      var a := Answer(r, retry - 1);
      RepeatedNext(k, r, retry - 1);
      TriesNext(r, retry - 1, maxRetry - retry);
      history := history + [RepeatCall(k, a)];
      if a {
        return true, history;
      }
      retry := retry + 1;
    }
    return false, history;
  }

  /** The calls of `teardown_wan_path`: each step only after the one before was accepted. */
  method TearDown(d: Down, calls: seq<Call>) returns (history: seq<Call>)
    ensures history == calls + TeardownCalls(d)
  {
    hide Repeated, Tries, Releases, Terminates, Deletes;
    RepeatedNames(d.release);
    RepeatedNames(d.terminate);
    RepeatedNames(d.delete);
    var ok;
    ok, history := Retry(RepRelease, d.release, calls);
    if ok {
      ok, history := Retry(RepTerminate, d.terminate, history);
      if ok {
        ok, history := Retry(RepDelete, d.delete, history);
      }
    }
    assert history == calls + TeardownCalls(d);
  }

  lemma TriesNext(r: Answers, i: nat, n: nat)
    requires n > 0
    ensures Tries(r, i, n) == if Answer(r, i) then 1 else 1 + Tries(r, i + 1, n - 1)
  {
    hide Answer;
  }

  lemma RepeatedNothing(k: Repeat, r: Answers)
    ensures Repeated(k, r, 0, 0) == []
  {}
}
