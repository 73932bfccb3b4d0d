/**
 * The global count of checksum threads (AtomicCounter, utils/checksum.h) under any interleaving of
 * callers. A caller reads the counter, and if it is below the limit launches a task and then adds
 * one; it subtracts one for each task whose result it collects.
 */
module TaskCounter {
  import opened Collections

  /** size_t */
  const WRAP: nat := 0x1_0000_0000_0000_0000

  function Plus(n: nat): nat { if n + 1 == WRAP then 0 else n + 1 }

  function Minus(n: nat): nat { if n == 0 then WRAP - 1 else n - 1 }

  class AtomicCounter {
    var count: nat

    constructor (c: nat)
      ensures count == c
    {
      count := c;
    }

    method Increment()
      modifies this
      ensures count == Plus(old(count))
    {
      count := if count + 1 == WRAP then 0 else count + 1;
    }

    method Decrement()
      modifies this
      ensures count == Minus(old(count))
    {
      count := if count == 0 then WRAP - 1 else count - 1;
    }
  }

  /** passed: the check succeeded and the increment is still to come. held: tasks counted and not yet collected. */
  datatype Caller = Caller(passed: bool, held: nat)
  datatype World = World(count: nat, callers: seq<Caller>)
  datatype Step = Check(c: nat) | Increment(c: nat) | Decrement(c: nat)

  predicate Enabled(w: World, s: Step) {
    && s.c < |w.callers|
    && match s
       case Check(c) => !w.callers[c].passed
       case Increment(c) => w.callers[c].passed
       case Decrement(c) => !w.callers[c].passed && w.callers[c].held > 0
  }

  function Next(w: World, s: Step, max: nat): World
    requires Enabled(w, s)
  {
    match s
    case Check(c) => w.(callers := w.callers[c := w.callers[c].(passed := w.count < max)])
    case Increment(c) => World(Plus(w.count), w.callers[c := Caller(false, w.callers[c].held + 1)])
    case Decrement(c) => World(Minus(w.count), w.callers[c := Caller(false, w.callers[c].held - 1)])
  }

  /** The worlds of an interleaving, from first to last. */
  ghost predicate Interleaving(ws: seq<World>, steps: seq<Step>, max: nat) {
    && |ws| == |steps| + 1
    && forall k :: 0 <= k < |steps| ==> Enabled(ws[k], steps[k]) && ws[k + 1] == Next(ws[k], steps[k], max)
  }

  function Held(c: Caller): int { c.held }

  function Passed(c: Caller): int { if c.passed then 1 else 0 }

  function Idle(n: nat): (r: seq<Caller>)
    ensures |r| == n && forall i :: 0 <= i < n ==> r[i] == Caller(false, 0)
  {
    seq(n, i => Caller(false, 0))
  }

  ghost predicate Inv(w: World, start: nat, max: nat, n: nat) {
    && |w.callers| == n
    && w.count == start + SumBy(w.callers, Held)
    && w.count + SumBy(w.callers, Passed) <= max - 1 + n
  }

  lemma {:induction false} PassedAtMost(cs: seq<Caller>)
    ensures 0 <= SumBy(cs, Passed) <= |cs|
  {
    if cs != [] {
      PassedAtMost(cs[1..]);
    }
  }

  lemma {:induction false} HeldAtLeast(cs: seq<Caller>, i: nat)
    requires i < |cs|
    ensures SumBy(cs, Held) >= cs[i].held
  {
    if i > 0 {
      HeldAtLeast(cs[1..], i - 1);
    } else if |cs| > 1 {
      HeldAtLeast(cs[1..], 0);
    }
  }

  lemma NextKeeps(w: World, s: Step, start: nat, max: nat, n: nat)
    requires Inv(w, start, max, n) && Enabled(w, s) && max >= 1 && max - 1 + n < WRAP
    ensures Inv(Next(w, s, max), start, max, n)
  {
    var after := Next(w, s, max).callers;
    SumByUpdate(w.callers, s.c, after[s.c], Held);
    SumByUpdate(w.callers, s.c, after[s.c], Passed);
    PassedAtMost(after);
    HeldAtLeast(w.callers, s.c);
    PassedAtMost(w.callers[s.c := Caller(false, 0)]);
    SumByUpdate(w.callers, s.c, Caller(false, 0), Passed);
  }

  lemma {:induction false} IdleSums(n: nat, cs: seq<Caller>)
    requires cs == Idle(n)
    ensures SumBy(cs, Held) == 0 && SumBy(cs, Passed) == 0
  {
    SumByZero(cs, Held);
    SumByZero(cs, Passed);
  }

  /**
   * Under every interleaving of n callers the counter is its starting value plus the tasks still
   * held, so it never wraps below zero and is back where it started when all are done; and it never
   * exceeds the limit less one plus n.
   */
  lemma {:induction false} CounterBound(ws: seq<World>, steps: seq<Step>, start: nat, max: nat, n: nat, k: nat)
    requires Interleaving(ws, steps, max) && ws[0] == World(start, Idle(n)) && k < |ws|
    requires max >= 1 && start <= max - 1 + n < WRAP
    ensures Inv(ws[k], start, max, n)
    ensures ws[k].count <= max - 1 + n
    ensures (forall i :: 0 <= i < |ws[k].callers| ==> ws[k].callers[i].held == 0) ==> ws[k].count == start
    ensures k < |steps| && steps[k].Decrement? ==> ws[k].count > 0
  {
    if k == 0 {
      IdleSums(n, Idle(n));
    } else {
      CounterBound(ws, steps, start, max, n, k - 1);
      NextKeeps(ws[k - 1], steps[k - 1], start, max, n);
    }
    PassedAtMost(ws[k].callers);
    if forall i :: 0 <= i < |ws[k].callers| ==> ws[k].callers[i].held == 0 {
      SumByZero(ws[k].callers, Held);
    }
    if k < |steps| && steps[k].Decrement? {
      HeldAtLeast(ws[k].callers, steps[k].c);
    }
  }

  lemma Extended(ws: seq<World>, steps: seq<Step>, s: Step, max: nat)
    requires Interleaving(ws, steps, max) && Enabled(ws[|ws| - 1], s)
    ensures Interleaving(ws + [Next(ws[|ws| - 1], s, max)], steps + [s], max)
  {}

  /** The bound is exact: with the counter one short of the limit, every caller may check before any of them adds. */
  lemma BoundAttained(max: nat, n: nat) returns (ws: seq<World>, steps: seq<Step>)
    requires max >= 1 && n >= 1 && max - 1 + n < WRAP
    ensures Interleaving(ws, steps, max) && ws[0] == World(0, Idle(n))
    ensures ws[|ws| - 1].count == max - 1 + n
  {
    ws, steps := [World(0, Idle(n))], [];
    var j := 0;
    while j < max - 1
      invariant 0 <= j <= max - 1
      invariant Interleaving(ws, steps, max) && ws[0] == World(0, Idle(n))
      invariant var w := ws[|ws| - 1];
                w.count == j && |w.callers| == n && forall i :: 0 <= i < n ==> !w.callers[i].passed
    {
      ws, steps := Advance(ws, steps, Check(0), max);
      ws, steps := Advance(ws, steps, Increment(0), max);
      j := j + 1;
    }
    var c := 0;
    while c < n
      invariant 0 <= c <= n
      invariant Interleaving(ws, steps, max) && ws[0] == World(0, Idle(n))
      invariant var w := ws[|ws| - 1];
                w.count == max - 1 && |w.callers| == n && forall i :: 0 <= i < n ==> (w.callers[i].passed <==> i < c)
    {
      ws, steps := Advance(ws, steps, Check(c), max);
      c := c + 1;
    }
    c := 0;
    while c < n
      invariant 0 <= c <= n
      invariant Interleaving(ws, steps, max) && ws[0] == World(0, Idle(n))
      invariant var w := ws[|ws| - 1];
                w.count == max - 1 + c && |w.callers| == n && forall i :: 0 <= i < n ==> (w.callers[i].passed <==> i >= c)
    {
      ws, steps := Advance(ws, steps, Increment(c), max);
      c := c + 1;
    }
  }

  lemma Advance(ws: seq<World>, steps: seq<Step>, s: Step, max: nat) returns (ws2: seq<World>, steps2: seq<Step>)
    requires Interleaving(ws, steps, max) && Enabled(ws[|ws| - 1], s)
    ensures Interleaving(ws2, steps2, max) && ws2[0] == ws[0] && ws2[|ws2| - 1] == Next(ws[|ws| - 1], s, max)
  {
    Extended(ws, steps, s, max);
    ws2, steps2 := ws + [Next(ws[|ws| - 1], s, max)], steps + [s];
  }

  // ---- the callers and the counter they share ----

  /** The agents' callers around the one counter. Its methods are the three things a caller does to it. */
  class Callers {
    const counter: AtomicCounter
    const max: nat
    var callers: seq<Caller>

    ghost function Current(): World
      reads this, counter
    {
      World(counter.count, callers)
    }

    ghost predicate Valid(start: nat)
      reads this, counter
    {
      max >= 1 && max - 1 + |callers| < WRAP && Inv(Current(), start, max, |callers|)
    }

    constructor (start: nat, max: nat, n: nat)
      requires max >= 1 && start <= max - 1 + n < WRAP
      ensures Valid(start) && fresh(counter) && this.max == max && Current() == World(start, Idle(n))
    {
      counter := new AtomicCounter(start);
      this.max := max;
      callers := Idle(n);
      IdleSums(n, Idle(n));
    }

    /** `task_counter.get() < max_threads`. */
    method Ask(c: nat, ghost start: nat) returns (ok: bool)
      requires Valid(start) && Enabled(Current(), Check(c))
      modifies this`callers
      ensures Valid(start) && Current() == Next(old(Current()), Check(c), max) && ok == callers[c].passed
    {
      NextKeeps(Current(), Check(c), start, max, |callers|);
      ok := counter.count < max;
      callers := callers[c := callers[c].(passed := ok)];
    }

    /** After the launch: the counter goes up by one, and there is room for it below the wrap. */
    method Launched(c: nat, ghost start: nat)
      requires Valid(start) && Enabled(Current(), Increment(c))
      modifies this`callers, counter
      ensures Valid(start) && Current() == Next(old(Current()), Increment(c), max)
      ensures counter.count == old(counter.count) + 1 <= max - 1 + |callers|
    {
      NextKeeps(Current(), Increment(c), start, max, |callers|);
      HasPassed(callers, c);
      counter.Increment();
      callers := callers[c := Caller(false, callers[c].held + 1)];
      PassedAtMost(callers);
    }

    /** After a result is collected: the counter goes down by one, and it was not at zero. */
    method Collected(c: nat, ghost start: nat)
      requires Valid(start) && Enabled(Current(), Decrement(c))
      modifies this`callers, counter
      ensures Valid(start) && Current() == Next(old(Current()), Decrement(c), max)
      ensures counter.count == old(counter.count) - 1 >= start
    {
      NextKeeps(Current(), Decrement(c), start, max, |callers|);
      HeldAtLeast(callers, c);
      counter.Decrement();
      callers := callers[c := Caller(false, callers[c].held - 1)];
    }
  }

  lemma {:induction false} HasPassed(cs: seq<Caller>, c: nat)
    requires c < |cs| && cs[c].passed
    ensures SumBy(cs, Passed) >= 1
  {
    if c > 0 {
      HasPassed(cs[1..], c - 1);
    } else {
      PassedAtMost(cs[1..]);
    }
  }
}
