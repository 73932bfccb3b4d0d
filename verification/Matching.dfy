/**
 * match_path_dtns (server/resourcemanager.cc): the merge of the source's and the destination's
 * lists of DTN shares into pairs. A pair names its two DTNs by their places in the lists.
 */
module Matching {
  import opened Collections

  datatype Share = Share(dtn: string, rate: real)
  datatype Pair = Pair(from: nat, to: nat, rate: real)

  /** The loop's state: what is left of each share, the two indices, and the pairs so far. */
  datatype Merge = Merge(src: seq<real>, dst: seq<real>, i: nat, j: nat, pairs: seq<Pair>) {
    predicate Running() { i < |src| && j < |dst| }
    predicate Returned() { i >= |src| && j >= |dst| }
  }

  /** One turn. As written, equal rates fall through into the last branch; as meant, they do not. */
  function Turn(m: Merge, meant: bool): Merge
    requires m.Running()
  {
    var s, d := m.src[m.i], m.dst[m.j];
    if s > d then
      Merge(m.src[m.i := s - d], m.dst[m.j := d - d], m.i, m.j + 1, m.pairs + [Pair(m.i, m.j, d)])
    else if s < d then
      Merge(m.src[m.i := s - s], m.dst[m.j := d - s], m.i + 1, m.j, m.pairs + [Pair(m.i, m.j, s)])
    else if meant then
      Merge(m.src[m.i := s - s], m.dst[m.j := d - d], m.i + 1, m.j + 1, m.pairs + [Pair(m.i, m.j, d)])
    else
      Merge(m.src[m.i := s - s - s], m.dst[m.j := d - d - s], m.i + 2, m.j + 1, m.pairs + [Pair(m.i, m.j, s)])
  }

  /** Turns until an index runs off its list; normal if both did, an exception otherwise. */
  function Finish(m: Merge, meant: bool): (r: Merge)
    ensures |r.src| == |m.src| && |r.dst| == |m.dst| && !r.Running()
    decreases |m.src| + |m.dst| + 1 - m.i - m.j
  {
    if m.Running() then Finish(Turn(m, meant), meant) else m
  }

  function Start(src: seq<real>, dst: seq<real>): Merge {
    Merge(src, dst, 0, 0, [])
  }

  // ---- sums ----

  /** The sum of the first `k` rates. */
  function Pre(s: seq<real>, k: nat): real
    requires k <= |s|
  {
    if k == 0 then 0.0 else Pre(s, k - 1) + s[k - 1]
  }

  /** The sum of the rates from place `k` on. */
  function Left(s: seq<real>, k: nat): real
    decreases |s| - k
  {
    if k >= |s| then 0.0 else s[k] + Left(s, k + 1)
  }

  /** What the pairs take from the source at place `k`. */
  function Given(pairs: seq<Pair>, k: nat): real {
    if pairs == [] then 0.0
    else
      var p := pairs[|pairs| - 1];
      Given(pairs[..|pairs| - 1], k) + if p.from == k then p.rate else 0.0
  }

  /** What the pairs bring to the destination at place `k`. */
  function Received(pairs: seq<Pair>, k: nat): real {
    if pairs == [] then 0.0
    else
      var p := pairs[|pairs| - 1];
      Received(pairs[..|pairs| - 1], k) + if p.to == k then p.rate else 0.0
  }

  ghost predicate Positive(s: seq<real>) {
    forall k :: 0 <= k < |s| ==> s[k] > 0.0
  }

  ghost predicate NonNegative(s: seq<real>) {
    forall k :: 0 <= k < |s| ==> s[k] >= 0.0
  }

  lemma {:induction false} PreIncreases(s: seq<real>, a: nat, b: nat)
    requires Positive(s) && a < b <= |s|
    ensures Pre(s, a) < Pre(s, b)
  {
    if a + 1 < b {
      PreIncreases(s, a, b - 1);
    }
  }

  lemma PreOrder(s: seq<real>, a: nat, b: nat)
    requires Positive(s) && a <= |s| && b <= |s|
    ensures Pre(s, a) < Pre(s, b) <==> a < b
    ensures Pre(s, a) == Pre(s, b) <==> a == b
  {
    if a < b {
      PreIncreases(s, a, b);
    } else if b < a {
      PreIncreases(s, b, a);
    }
  }

  lemma {:induction false} LeftSame(s: seq<real>, t: seq<real>, k: nat)
    requires |s| == |t| && forall x :: k <= x < |s| ==> s[x] == t[x]
    ensures Left(s, k) == Left(t, k)
    decreases |s| - k
  {
    if k < |s| {
      LeftSame(s, t, k + 1);
    }
  }

  lemma {:induction false} LeftNonNegative(s: seq<real>, k: nat)
    requires forall x :: k <= x < |s| ==> s[x] >= 0.0
    ensures Left(s, k) >= 0.0
    decreases |s| - k
  {
    if k < |s| {
      LeftNonNegative(s, k + 1);
    }
  }

  /** What comes before `k` and what comes after make the whole. */
  lemma {:induction false} PreLeft(s: seq<real>, k: nat)
    requires k <= |s|
    ensures Pre(s, k) + Left(s, k) == Pre(s, |s|)
    decreases |s| - k
  {
    if k < |s| {
      PreLeft(s, k + 1);
    }
  }

  // ---- no share is overdrawn, on any lists ----

  /** Every place holds what it started with less what the pairs took; nothing ahead is touched. */
  ghost predicate Sound(m: Merge, src: seq<real>, dst: seq<real>) {
    && |m.src| == |src| && |m.dst| == |dst|
    && (forall k :: 0 <= k < |src| ==> 0.0 <= Given(m.pairs, k) <= src[k])
    && (forall k :: m.i <= k < |src| ==> m.src[k] == src[k] - Given(m.pairs, k))
    && (forall k :: m.i < k < |src| ==> Given(m.pairs, k) == 0.0)
    && (forall k :: 0 <= k < |dst| ==> 0.0 <= Received(m.pairs, k) <= dst[k])
    && (forall k :: m.j <= k < |dst| ==> m.dst[k] == dst[k] - Received(m.pairs, k))
    && (forall k :: m.j < k < |dst| ==> Received(m.pairs, k) == 0.0)
    && PairsSound(m.pairs, |src|, |dst|)
  }

  ghost predicate PairsSound(pairs: seq<Pair>, n: nat, k: nat) {
    forall x :: 0 <= x < |pairs| ==> pairs[x].rate >= 0.0 && pairs[x].from < n && pairs[x].to < k
  }

  lemma PairAdded(pairs: seq<Pair>, p: Pair, k: nat)
    ensures Given(pairs + [p], k) == Given(pairs, k) + if p.from == k then p.rate else 0.0
    ensures Received(pairs + [p], k) == Received(pairs, k) + if p.to == k then p.rate else 0.0
  {
    assert (pairs + [p])[..|pairs|] == pairs;
  }

  lemma TurnSound(m: Merge, meant: bool, src: seq<real>, dst: seq<real>)
    requires Sound(m, src, dst) && m.Running()
    ensures Sound(Turn(m, meant), src, dst)
  {
    hide Given, Received;
    var t := Turn(m, meant);
    var p := t.pairs[|m.pairs|];
    assert t.pairs == m.pairs + [p];
    forall k: nat
      ensures Given(t.pairs, k) == Given(m.pairs, k) + if p.from == k then p.rate else 0.0
      ensures Received(t.pairs, k) == Received(m.pairs, k) + if p.to == k then p.rate else 0.0
    {
      PairAdded(m.pairs, p, k);
    }
  }

  lemma {:induction false} FinishSound(m: Merge, meant: bool, src: seq<real>, dst: seq<real>)
    requires Sound(m, src, dst)
    ensures Sound(Finish(m, meant), src, dst)
    decreases |m.src| + |m.dst| + 1 - m.i - m.j
  {
    if m.Running() {
      TurnSound(m, meant, src, dst);
      FinishSound(Turn(m, meant), meant, src, dst);
    }
  }

  /** On any lists of nonnegative shares, paired rates never exceed a share on either side. */
  lemma NeverOverdrawn(src: seq<real>, dst: seq<real>, meant: bool)
    requires NonNegative(src) && NonNegative(dst)
    ensures Sound(Finish(Start(src, dst), meant), src, dst)
  {
    FinishSound(Start(src, dst), meant, src, dst);
  }

  // ---- what happens on positive lists with equal totals ----

  /** A proper prefix of the source that weighs as much as a proper prefix of the destination. */
  ghost predicate Coincide(src: seq<real>, dst: seq<real>, a: nat, b: nat) {
    0 < a < |src| && 0 < b < |dst| && Pre(src, a) == Pre(dst, b)
  }

  ghost predicate Matchable(src: seq<real>, dst: seq<real>) {
    && src != [] && dst != [] && Positive(src) && Positive(dst)
    && Pre(src, |src|) == Pre(dst, |dst|)
  }

  /** Both sides have been served the same amount, and everything behind is served in full. */
  ghost predicate Even(m: Merge, src: seq<real>, dst: seq<real>) {
    && Sound(m, src, dst)
    && (forall k :: 0 <= k < m.i && k < |src| ==> Given(m.pairs, k) == src[k])
    && (forall k :: 0 <= k < m.j && k < |dst| ==> Received(m.pairs, k) == dst[k])
    && (m.Running() ==> m.src[m.i] > 0.0 && m.dst[m.j] > 0.0
                        && Pre(src, m.i + 1) - m.src[m.i] == Pre(dst, m.j + 1) - m.dst[m.j])
  }

  /** With no coincidence ahead, a turn on unequal rates keeps both sides even. */
  lemma UnequalTurn(m: Merge, meant: bool, src: seq<real>, dst: seq<real>)
    requires Matchable(src, dst) && Even(m, src, dst) && m.Running() && m.src[m.i] != m.dst[m.j]
    ensures Even(Turn(m, meant), src, dst) && Turn(m, meant).Running()
    ensures |Turn(m, meant).pairs| - Turn(m, meant).i - Turn(m, meant).j == |m.pairs| - m.i - m.j
  {
    hide Given, Received;
    TurnSound(m, meant, src, dst);
    PreOrder(src, m.i + 1, |src|);
    PreOrder(dst, m.j + 1, |dst|);
    var t := Turn(m, meant);
    PairAdded(m.pairs, t.pairs[|m.pairs|], m.i);
    PairAdded(m.pairs, t.pairs[|m.pairs|], m.j);
    forall k: nat
      ensures k != m.i ==> Given(t.pairs, k) == Given(m.pairs, k)
      ensures k != m.j ==> Received(t.pairs, k) == Received(m.pairs, k)
    {
      PairAdded(m.pairs, t.pairs[|m.pairs|], k);
    }
  }

  /** Equal rates mean equal prefixes: both lists end here, or two proper prefixes coincide. */
  lemma EqualPlace(m: Merge, src: seq<real>, dst: seq<real>)
    requires Matchable(src, dst) && Even(m, src, dst) && m.Running() && m.src[m.i] == m.dst[m.j]
    ensures m.i + 1 == |src| <==> m.j + 1 == |dst|
    ensures m.i + 1 == |src| || Coincide(src, dst, m.i + 1, m.j + 1)
  {
    PreOrder(src, m.i + 1, |src|);
    PreOrder(dst, m.j + 1, |dst|);
  }

  /** Every share on both sides is met exactly. */
  ghost predicate Exact(pairs: seq<Pair>, src: seq<real>, dst: seq<real>) {
    && PairsSound(pairs, |src|, |dst|)
    && (forall k :: 0 <= k < |src| ==> Given(pairs, k) == src[k])
    && (forall k :: 0 <= k < |dst| ==> Received(pairs, k) == dst[k])
  }

  /** A turn on equal rates, as meant anywhere or as written at the end of both lists, keeps both sides even. */
  lemma EqualTurn(m: Merge, meant: bool, src: seq<real>, dst: seq<real>)
    requires Matchable(src, dst) && Even(m, src, dst) && m.Running() && m.src[m.i] == m.dst[m.j]
    requires meant || m.i + 1 == |src|
    ensures Even(Turn(m, meant), src, dst)
    ensures m.i + 1 == |src| ==> Turn(m, meant).Returned()
    ensures m.i + 1 < |src| ==> Turn(m, meant).Running()
    ensures |Turn(m, meant).pairs| == |m.pairs| + 1
  {
    hide Given, Received;
    TurnSound(m, meant, src, dst);
    EqualPlace(m, src, dst);
    var t := Turn(m, meant);
    forall k: nat
      ensures Given(t.pairs, k) == Given(m.pairs, k) + if k == m.i then m.src[m.i] else 0.0
      ensures Received(t.pairs, k) == Received(m.pairs, k) + if k == m.j then m.dst[m.j] else 0.0
    {
      PairAdded(m.pairs, t.pairs[|m.pairs|], k);
    }
  }

  lemma EvenAtEnd(m: Merge, src: seq<real>, dst: seq<real>)
    requires Even(m, src, dst) && m.Returned()
    ensures Exact(m.pairs, src, dst)
  {}

  /** As meant: the merge returns, exactly, in at most one pair per place less one. */
  lemma {:induction false} MeantReturns(m: Merge, src: seq<real>, dst: seq<real>)
    requires Matchable(src, dst) && Even(m, src, dst) && m.Running() && |m.pairs| <= m.i + m.j
    ensures var r := Finish(m, true);
            r.Returned() && Exact(r.pairs, src, dst) && |r.pairs| <= |src| + |dst| - 1
    decreases |m.src| + |m.dst| + 1 - m.i - m.j
  {
    hide Even, Given, Received;
    var t := Turn(m, true);
    assert |m.src| == |src| && |m.dst| == |dst| by { EvenLengths(m, src, dst); }
    if m.src[m.i] == m.dst[m.j] {
      EqualTurn(m, true, src, dst);
      if m.i + 1 == |src| {
        EvenAtEnd(t, src, dst);
      } else {
        MeantReturns(t, src, dst);
      }
    } else {
      UnequalTurn(m, true, src, dst);
      MeantReturns(t, src, dst);
    }
  }

  lemma EvenLengths(m: Merge, src: seq<real>, dst: seq<real>)
    requires Even(m, src, dst)
    ensures |m.src| == |src| && |m.dst| == |dst|
  {}

  ghost predicate NoCoincidence(src: seq<real>, dst: seq<real>) {
    forall a, b :: !Coincide(src, dst, a, b)
  }

  /** As written, and no two proper prefixes weigh the same: it returns, exactly, in n + m - 1 pairs. */
  lemma {:induction false} WrittenReturns(m: Merge, src: seq<real>, dst: seq<real>)
    requires Matchable(src, dst) && Even(m, src, dst) && m.Running() && |m.pairs| == m.i + m.j
    requires NoCoincidence(src, dst)
    ensures var r := Finish(m, false);
            r.Returned() && Exact(r.pairs, src, dst) && |r.pairs| == |src| + |dst| - 1
    decreases |m.src| + |m.dst| + 1 - m.i - m.j
  {
    hide Even, Given, Received;
    var t := Turn(m, false);
    assert |m.src| == |src| && |m.dst| == |dst| by { EvenLengths(m, src, dst); }
    if m.src[m.i] == m.dst[m.j] {
      EqualPlace(m, src, dst);
      EqualTurn(m, false, src, dst);
      EvenAtEnd(t, src, dst);
    } else {
      UnequalTurn(m, false, src, dst);
      WrittenReturns(t, src, dst);
    }
  }

  /** Less left on the source side than on the other: it never returns, so it throws. */
  ghost predicate Starved(m: Merge) {
    && (forall k :: m.i <= k < |m.src| ==> m.src[k] >= 0.0)
    && (forall k :: m.j <= k < |m.dst| ==> m.dst[k] >= 0.0)
    && Left(m.src, m.i) < Left(m.dst, m.j)
  }

  lemma StarvedTurn(m: Merge)
    requires Starved(m) && m.Running()
    ensures Starved(Turn(m, false))
  {
    var t := Turn(m, false);
    assert Left(m.src, m.i) == m.src[m.i] + Left(m.src, m.i + 1);
    assert Left(m.dst, m.j) == m.dst[m.j] + Left(m.dst, m.j + 1);
    LeftSame(m.src, t.src, m.i + 1);
    LeftSame(m.dst, t.dst, m.j + 1);
    if m.src[m.i] == m.dst[m.j] {
      LeftSame(m.src, t.src, m.i + 2);
      LeftNonNegative(m.src, m.i + 1);
      assert Left(m.src, m.i + 2) <= Left(m.src, m.i + 1);
    }
  }

  lemma {:induction false} StarvedThrows(m: Merge)
    requires Starved(m)
    ensures !Finish(m, false).Returned()
    decreases |m.src| + |m.dst| + 1 - m.i - m.j
  {
    if m.Running() {
      StarvedTurn(m);
      StarvedThrows(Turn(m, false));
    } else {
      LeftNonNegative(m.src, m.i);
    }
  }

  /** The turn that steps over a source after two proper prefixes coincided leaves the source short. */
  lemma SkippedIsStarved(m: Merge, src: seq<real>, dst: seq<real>)
    requires Matchable(src, dst) && Even(m, src, dst) && m.Running()
    requires m.src[m.i] == m.dst[m.j] && m.i + 1 < |src|
    ensures Starved(Turn(m, false))
  {
    hide Given, Received;
    var t := Turn(m, false);
    EqualPlace(m, src, dst);
    TurnSound(m, false, src, dst);
    AheadUntouched(m, src, dst);
    LeftSame(src, t.src, m.i + 2);
    LeftSame(dst, t.dst, m.j + 1);
    PreLeft(src, m.i + 1);
    PreLeft(dst, m.j + 1);
    assert Left(src, m.i + 1) == src[m.i + 1] + Left(src, m.i + 2);
  }

  lemma AheadUntouched(m: Merge, src: seq<real>, dst: seq<real>)
    requires Sound(m, src, dst)
    ensures forall k :: m.i < k < |src| ==> m.src[k] == src[k]
    ensures forall k :: m.j < k < |dst| ==> m.dst[k] == dst[k]
  {}

  /** As written, and a coincidence is still ahead: it throws. */
  lemma {:induction false} WrittenThrows(m: Merge, src: seq<real>, dst: seq<real>, a: nat, b: nat)
    requires Matchable(src, dst) && Even(m, src, dst) && m.Running()
    requires Coincide(src, dst, a, b) && m.i < a && m.j < b
    ensures !Finish(m, false).Returned()
    decreases |m.src| + |m.dst| + 1 - m.i - m.j
  {
    hide Given, Received;
    var t := Turn(m, false);
    if m.src[m.i] == m.dst[m.j] {
      SkippedIsStarved(m, src, dst);
      StarvedThrows(t);
    } else {
      UnequalTurn(m, false, src, dst);
      PreOrder(src, m.i + 1, a);
      PreOrder(dst, m.j + 1, b);
      WrittenThrows(t, src, dst, a, b);
    }
  }

  lemma StartEven(src: seq<real>, dst: seq<real>)
    requires Matchable(src, dst)
    ensures Even(Start(src, dst), src, dst) && Start(src, dst).Running()
  {
    assert Pre(src, 1) == Pre(src, 0) + src[0] && Pre(dst, 1) == Pre(dst, 0) + dst[0];
    assert Given([], 0) == 0.0 && Received([], 0) == 0.0;
  }

  /**
   * match_path_dtns as written, on nonempty positive lists with equal totals: it always ends, and
   * it returns if and only if no proper prefix of the sources weighs as much as a proper prefix of
   * the destinations. When it returns, every share is met exactly.
   */
  lemma MatchAsWritten(src: seq<real>, dst: seq<real>)
    requires Matchable(src, dst)
    ensures Finish(Start(src, dst), false).Returned() <==> NoCoincidence(src, dst)
    ensures Finish(Start(src, dst), false).Returned() ==>
              var pairs := Finish(Start(src, dst), false).pairs;
              Exact(pairs, src, dst) && |pairs| == |src| + |dst| - 1
  {
    hide Even;
    StartEven(src, dst);
    if NoCoincidence(src, dst) {
      WrittenReturns(Start(src, dst), src, dst);
    } else {
      var a, b :| Coincide(src, dst, a, b);
      WrittenThrows(Start(src, dst), src, dst, a, b);
    }
  }

  /** With the missing `else` in place it always returns, and every share is met exactly. */
  lemma MatchAsMeant(src: seq<real>, dst: seq<real>)
    requires Matchable(src, dst)
    ensures Finish(Start(src, dst), true).Returned()
    ensures var pairs := Finish(Start(src, dst), true).pairs;
            Exact(pairs, src, dst) && |pairs| <= |src| + |dst| - 1
  {
    StartEven(src, dst);
    MeantReturns(Start(src, dst), src, dst);
  }

  /** The smallest failure: two equal shares on each side. */
  lemma TwoEqualSharesThrow()
    ensures Matchable([1.0, 1.0], [1.0, 1.0]) && !Finish(Start([1.0, 1.0], [1.0, 1.0]), false).Returned()
  {
    var l := [1.0, 1.0];
    assert Pre(l, 1) == Pre(l, 0) + 1.0;
    assert Pre(l, 2) == Pre(l, 1) + 1.0;
    assert Coincide(l, l, 1, 1);
    MatchAsWritten(l, l);
  }

  // ---- the loop, on the two vectors ----

  function Rates(s: seq<Share>): (r: seq<real>)
    ensures |r| == |s| && forall k :: 0 <= k < |s| ==> r[k] == s[k].rate
  {
    seq(|s|, k requires 0 <= k < |s| => s[k].rate)
  }

  datatype Named = Named(src: string, dst: string, rate: real)

  /** The pairs of places, with the DTN names read off the two lists. */
  ghost predicate NamesFor(out: seq<Named>, pairs: seq<Pair>, src: seq<Share>, dst: seq<Share>) {
    && |out| == |pairs|
    && forall k :: 0 <= k < |out| ==>
         && pairs[k].from < |src| && pairs[k].to < |dst|
         && out[k] == Named(src[pairs[k].from].dtn, dst[pairs[k].to].dtn, pairs[k].rate)
  }

  ghost predicate SameNames(a: seq<Share>, b: seq<Share>) {
    |a| == |b| && forall k :: 0 <= k < |a| ==> a[k].dtn == b[k].dtn
  }

  lemma RateUpdated(before: seq<Share>, after: seq<Share>, k: nat, rate: real)
    requires k < |before| && after == before[k := before[k].(rate := rate)]
    ensures Rates(after) == Rates(before)[k := rate] && SameNames(before, after)
  {}

  /** `v[k].second -= x`, on a vector passed by reference. */
  method Deduct(v: array<Share>, k: nat, x: real)
    requires k < v.Length
    modifies v
    ensures v[..] == old(v[..])[k := old(v[k]).(rate := old(v[k]).rate - x)]
    ensures Rates(v[..]) == Rates(old(v[..]))[k := old(v[k]).rate - x] && SameNames(old(v[..]), v[..])
  {
    v[k] := Share(v[k].dtn, v[k].rate - x);
    assert v[..] == old(v[..])[k := old(v[k]).(rate := old(v[k]).rate - x)];
    RateUpdated(old(v[..]), v[..], k, old(v[k]).rate - x);
  }

  /** One turn of the loop, branch for branch. */
  method TakeTurn(src: array<Share>, dst: array<Share>, i: nat, j: nat, ghost m: Merge)
    returns (pair: Named, i': nat, j': nat)
    requires src != dst && i < src.Length && j < dst.Length
    requires m.src == Rates(src[..]) && m.dst == Rates(dst[..]) && m.i == i && m.j == j
    modifies src, dst
    ensures var t := Turn(m, false);
            && Rates(src[..]) == t.src && Rates(dst[..]) == t.dst && i' == t.i && j' == t.j
            && t.pairs == m.pairs + [Pair(i, j, pair.rate)]
    ensures pair.src == old(src[i]).dtn && pair.dst == old(dst[j]).dtn
    ensures SameNames(old(src[..]), src[..]) && SameNames(old(dst[..]), dst[..])
  {
    hide Rates;
    RateAt(src[..], i);
    RateAt(dst[..], j);
    var s, d := src[i].rate, dst[j].rate;
    var rate := 0.0;
    i', j' := i, j;
    if s == d {
      rate := d;
      Deduct(src, i, s);
      Deduct(dst, j, d);
      i', j' := i' + 1, j' + 1;
    }
    if s > d {
      rate := d;
      Deduct(src, i, d);
      Deduct(dst, j, d);
      j' := j' + 1;
    } else {
      rate := s;
      Deduct(src, i, s);
      Deduct(dst, j, s);
      i' := i' + 1;
    }
    pair := Named(src[i].dtn, dst[j].dtn, rate);
  }

  lemma RateAt(s: seq<Share>, k: nat)
    requires k < |s|
    ensures |Rates(s)| == |s| && Rates(s)[k] == s[k].rate
  {}

  /** match_path_dtns. The lists must not be empty: the first elements are read before any test. */
  method MatchPathDtns(src: array<Share>, dst: array<Share>) returns (r: Option<seq<Named>>)
    requires src != dst && src.Length > 0 && dst.Length > 0
    modifies src, dst
    ensures var f := Finish(Start(Rates(old(src[..])), Rates(old(dst[..]))), false);
            && Rates(src[..]) == f.src && Rates(dst[..]) == f.dst
            && (r.Some? <==> f.Returned())
            && (r.Some? ==> NamesFor(r.value, f.pairs, old(src[..]), old(dst[..])))
    ensures SameNames(old(src[..]), src[..]) && SameNames(old(dst[..]), dst[..])
  {
    hide Rates, Turn;
    ghost var S, D := src[..], dst[..];
    RateAt(S, 0);
    RateAt(D, 0);
    ghost var m := Start(Rates(S), Rates(D));
    var i, j, out := 0, 0, [];
    var done := false;
    while !done
      invariant m.i == i && m.j == j && m.src == Rates(src[..]) && m.dst == Rates(dst[..])
      invariant |m.src| == src.Length && |m.dst| == dst.Length
      invariant Finish(m, false) == Finish(Start(Rates(S), Rates(D)), false)
      invariant NamesFor(out, m.pairs, S, D) && SameNames(S, src[..]) && SameNames(D, dst[..])
      invariant if done then m.Returned() else m.Running()
      decreases src.Length + dst.Length + 1 - i - j, !done
    {
      ghost var t := Turn(m, false);
      var pair, i', j' := TakeTurn(src, dst, i, j, m);
      RateAt(src[..], 0);
      RateAt(dst[..], 0);
      out := out + [pair];
      TurnAdvances(m);
      m := t;
      i, j := i', j';
      if i >= src.Length && j >= dst.Length {
        done := true;
      } else if (i >= src.Length && j < dst.Length) || (i < src.Length && j >= dst.Length) {
        return None;
      }
    }
    return Some(out);
  }

  lemma TurnAdvances(m: Merge)
    requires m.Running()
    ensures var t := Turn(m, false);
            && |t.src| == |m.src| && |t.dst| == |m.dst|
            && m.i + m.j < t.i + t.j <= |m.src| + |m.dst| + 1
  {}

  /** When names are not repeated in a list, the pairs that carry a name are those of its place. */
  function GivenTo(out: seq<Named>, dtn: string): real {
    if out == [] then 0.0
    else
      var p := out[|out| - 1];
      GivenTo(out[..|out| - 1], dtn) + if p.src == dtn then p.rate else 0.0
  }

  lemma {:induction false} GivenByName(out: seq<Named>, pairs: seq<Pair>, src: seq<Share>, dst: seq<Share>, k: nat)
    requires NamesFor(out, pairs, src, dst) && k < |src|
    requires forall a, b :: 0 <= a < b < |src| ==> src[a].dtn != src[b].dtn
    ensures GivenTo(out, src[k].dtn) == Given(pairs, k)
  {
    if out != [] {
      GivenByName(out[..|out| - 1], pairs[..|out| - 1], src, dst, k);
    }
  }
}
