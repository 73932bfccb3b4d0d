/**
 * How the parallel checksum divides a directory into groups (DirectoryWalker::partition,
 * utils/paths/dirwalker.cc), when that loses files, and the directory checksum as it runs.
 */
module Partition {
  import opened Collections
  import opened Texts
  import opened Checksum

  // ---- the target size of a group ----

  function Total(paths: seq<Path>): nat {
    if paths == [] then 0
    else Total(paths[..|paths| - 1]) + if paths[|paths| - 1].regular then paths[|paths| - 1].size else 0
  }

  /** The first sum of leading sizes that reaches the target becomes the target, within the first `mean` paths. */
  function Readjusted(paths: seq<Path>, i: nat, mean: nat, acc: nat, target: nat): nat
    requires mean <= |paths|
    decreases mean - i
  {
    if i >= mean then target
    else if acc + paths[i].size >= target then acc + paths[i].size
    else Readjusted(paths, i + 1, mean, acc + paths[i].size, target)
  }

  lemma {:induction false} ProductAtLeast(q: nat, k: nat)
    requires k > 0
    ensures q * k >= q
  {
    if k > 1 {
      ProductAtLeast(q, k - 1);
    }
  }

  lemma QuotientAtMost(n: nat, k: nat)
    requires k > 0
    ensures n / k <= n
  {
    ProductAtLeast(n / k, k);
  }

  function GroupSize(sorted: seq<Path>, k: nat): nat
    requires k > 0
  {
    QuotientAtMost(|sorted|, k);
    Readjusted(sorted, 0, |sorted| / k, 0, Total(sorted) / k)
  }

  // ---- filling the groups ----

  /** The first group below the target, or the number of groups. */
  function FirstOpen(groups: seq<Group>, limit: nat): (r: nat)
    ensures r <= |groups| && (r < |groups| ==> groups[r].size < limit)
    ensures forall i :: 0 <= i < r ==> groups[i].size >= limit
  {
    if groups == [] || groups[0].size < limit then 0
    else
      var r := 1 + FirstOpen(groups[1..], limit);
      assert forall i :: 0 < i < r ==> groups[i] == groups[1..][i - 1];
      r
  }

  function Added(groups: seq<Group>, p: Path, limit: nat): seq<Group> {
    var r := FirstOpen(groups, limit);
    if !p.regular || r == |groups| then groups
    else groups[r := Group(groups[r].files + [p], groups[r].size + p.size)]
  }

  function EmptyGroups(k: nat): (r: seq<Group>)
    ensures |r| == k && forall i :: 0 <= i < k ==> r[i] == Group([], 0)
  {
    seq(k, i => Group([], 0))
  }

  function Fill(paths: seq<Path>, limit: nat, k: nat): (r: seq<Group>)
    ensures |r| == k
  {
    if paths == [] then EmptyGroups(k)
    else Added(Fill(paths[..|paths| - 1], limit, k), paths[|paths| - 1], limit)
  }

  /** The regular files that found every group full. */
  function Dropped(paths: seq<Path>, limit: nat, k: nat): seq<Path> {
    if paths == [] then []
    else
      var init, p := paths[..|paths| - 1], paths[|paths| - 1];
      Dropped(init, limit, k) + if p.regular && FirstOpen(Fill(init, limit, k), limit) == k then [p] else []
  }

  lemma {:induction false} NoFilesYet(k: nat)
    ensures AllFiles(EmptyGroups(k)) == []
  {
    if k > 0 {
      NoFilesYet(k - 1);
      assert EmptyGroups(k)[..k - 1] == EmptyGroups(k - 1);
    }
  }

  lemma AllFilesLast(groups: seq<Group>, k: nat)
    requires k + 1 == |groups|
    ensures multiset(AllFiles(groups)) == multiset(AllFiles(groups[..k])) + multiset(groups[k].files)
  {}

  lemma OneMoreFile(files: seq<Path>, p: Path)
    ensures multiset(files + [p]) == multiset(files) + multiset{p}
  {}

  lemma RegroupFiles(a: multiset<Path>, b: multiset<Path>, c: multiset<Path>)
    ensures a + (b + c) == (a + b) + c && (a + c) + b == (a + b) + c
  {}

  lemma {:induction false} AddedFile(groups: seq<Group>, r: nat, p: Path)
    requires r < |groups|
    ensures multiset(AllFiles(groups[r := Group(groups[r].files + [p], groups[r].size + p.size)]))
         == multiset(AllFiles(groups)) + multiset{p}
  {
    hide AllFiles;
    var k := |groups| - 1;
    var more := Group(groups[r].files + [p], groups[r].size + p.size);
    var after := groups[r := more];
    AllFilesLast(groups, k);
    AllFilesLast(after, k);
    RegroupFiles(multiset(AllFiles(groups[..k])), multiset(groups[k].files), multiset{p});
    if r == k {
      assert after[..k] == groups[..k];
      OneMoreFile(groups[k].files, p);
    } else {
      AddedFile(groups[..k], r, p);
      assert after[..k] == groups[..k][r := more];
    }
  }

  /** One more path: it is in a group, or dropped, or not a regular file. */
  lemma AddedAccounts(groups: seq<Group>, p: Path, limit: nat)
    ensures multiset(AllFiles(Added(groups, p, limit)))
         == multiset(AllFiles(groups)) + if p.regular && FirstOpen(groups, limit) < |groups| then multiset{p} else multiset{}
  {
    hide AllFiles, FirstOpen;
    var r := FirstOpen(groups, limit);
    if p.regular && r < |groups| {
      AddedFile(groups, r, p);
    }
  }

  /** Every regular file ends up in exactly one group, or is dropped. */
  lemma {:induction false} FillAccounts(paths: seq<Path>, limit: nat, k: nat)
    ensures multiset(AllFiles(Fill(paths, limit, k))) + multiset(Dropped(paths, limit, k)) == multiset(Regular(paths))
  {
    hide AllFiles, FirstOpen, Added, EmptyGroups;
    if paths == [] {
      NoFilesYet(k);
    } else {
      var init, p := paths[..|paths| - 1], paths[|paths| - 1];
      FillAccounts(init, limit, k);
      AddedAccounts(Fill(init, limit, k), p, limit);
    }
  }

  // ---- when files are dropped ----

  /** Cutting the list of files, in order, into chunks that each just reach the target. */
  datatype Chunks = Chunks(closed: nat, open: nat)

  function Chunk(paths: seq<Path>, limit: nat): Chunks {
    if paths == [] then Chunks(0, 0)
    else
      var c, p := Chunk(paths[..|paths| - 1], limit), paths[|paths| - 1];
      if !p.regular then c
      else if c.open + p.size >= limit then Chunks(c.closed + 1, 0)
      else Chunks(c.closed, c.open + p.size)
  }

  /** The groups are the chunks: full ones first, then the one being filled, then empty ones. */
  ghost predicate Chunked(groups: seq<Group>, c: Chunks, limit: nat) {
    && c.open < limit
    && (forall i :: 0 <= i < |groups| && i < c.closed ==> groups[i].size >= limit)
    && (c.closed < |groups| ==> groups[c.closed].size == c.open)
    && (forall i :: c.closed < i < |groups| ==> groups[i].size == 0)
  }

  lemma {:induction false} FillChunks(paths: seq<Path>, limit: nat, k: nat)
    requires limit > 0
    ensures Chunked(Fill(paths, limit, k), Chunk(paths, limit), limit)
    ensures FirstOpen(Fill(paths, limit, k), limit) == k <==> Chunk(paths, limit).closed >= k
  {
    hide Fill, FirstOpen;
    if paths == [] {
      FillNothing(limit, k);
      ChunkedOpen(EmptyGroups(k), Chunks(0, 0), limit);
    } else {
      var n := |paths| - 1;
      FillChunks(paths[..n], limit, k);
      assert paths[..n + 1] == paths;
      FillNext(paths, n, limit, k);
      AddedChunks(Fill(paths[..n], limit, k), Chunk(paths[..n], limit), paths[n], limit);
      ChunkedOpen(Fill(paths, limit, k), Chunk(paths, limit), limit);
    }
  }

  /** The first open group is the chunk being filled. */
  lemma ChunkedOpen(groups: seq<Group>, c: Chunks, limit: nat)
    requires Chunked(groups, c, limit)
    ensures FirstOpen(groups, limit) == if c.closed < |groups| then c.closed else |groups|
  {
    hide FirstOpen;
    OpenIsFirst(groups, limit, if c.closed < |groups| then c.closed else |groups|);
  }

  lemma AddedChunks(groups: seq<Group>, c: Chunks, p: Path, limit: nat)
    requires Chunked(groups, c, limit) && limit > 0
    ensures Chunked(Added(groups, p, limit),
              if !p.regular then c
              else if c.open + p.size >= limit then Chunks(c.closed + 1, 0)
              else Chunks(c.closed, c.open + p.size), limit)
  {
    hide FirstOpen;
    ChunkedOpen(groups, c, limit);
  }

  /** Some regular file comes after as many chunks as there are groups have been closed. */
  ghost predicate Overflows(paths: seq<Path>, limit: nat, k: nat) {
    exists i :: 0 <= i < |paths| && OverflowsAt(paths, limit, k, i)
  }

  ghost predicate OverflowsAt(paths: seq<Path>, limit: nat, k: nat, i: nat)
    requires i < |paths|
  {
    paths[i].regular && (limit == 0 || Chunk(paths[..i], limit).closed >= k)
  }

  lemma OverflowsAtPrefix(paths: seq<Path>, limit: nat, k: nat, i: nat)
    requires i < |paths| - 1
    ensures OverflowsAt(paths, limit, k, i) <==> OverflowsAt(paths[..|paths| - 1], limit, k, i)
  {
    assert paths[..|paths| - 1][..i] == paths[..i];
  }

  lemma OverflowsStep(paths: seq<Path>, limit: nat, k: nat)
    requires paths != []
    ensures Overflows(paths, limit, k) <==> Overflows(paths[..|paths| - 1], limit, k) || OverflowsAt(paths, limit, k, |paths| - 1)
  {
    hide OverflowsAt;
    var last := |paths| - 1;
    if Overflows(paths, limit, k) {
      var i :| 0 <= i < |paths| && OverflowsAt(paths, limit, k, i);
      if i < last {
        OverflowsAtPrefix(paths, limit, k, i);
      }
    }
    if Overflows(paths[..last], limit, k) {
      var i :| 0 <= i < last && OverflowsAt(paths[..last], limit, k, i);
      OverflowsAtPrefix(paths, limit, k, i);
    }
  }

  /** Files are dropped exactly when the list overflows. */
  lemma {:induction false} DroppedIff(paths: seq<Path>, limit: nat, k: nat)
    ensures Dropped(paths, limit, k) != [] <==> Overflows(paths, limit, k)
  {
    hide Overflows, Fill, Chunk, FirstOpen;
    if paths == [] {
      NothingOverflows(limit, k);
    } else {
      var init := paths[..|paths| - 1];
      DroppedIff(init, limit, k);
      OverflowsStep(paths, limit, k);
      if limit > 0 {
        FillChunks(init, limit, k);
      }
    }
  }

  lemma NothingOverflows(limit: nat, k: nat)
    ensures !Overflows([], limit, k)
  {}

  // ---- the parallel checksum of a directory ----

  /** The groups parallel_directory_checksum works on, from the list the walker sorted by size. */
  function Groups(sorted: seq<Path>, k: nat): seq<Group>
    requires k > 0
  {
    Fill(sorted, GroupSize(sorted, k), k)
  }

  lemma {:induction false} SumsAtMost(paths: seq<Path>, sum: Path -> Text)
    ensures |Sums(paths, sum)| <= |paths|
  {
    if paths != [] {
      SumsAtMost(paths[..|paths| - 1], sum);
    }
  }

  /** With a file dropped there are fewer checksums than regular files. */
  lemma DroppedCounts(paths: seq<Path>, limit: nat, k: nat, launched: nat -> bool, sum: Path -> Text)
    requires Dropped(paths, limit, k) != []
    ensures |ParallelSums(Fill(paths, limit, k), launched, sum)| < |Regular(paths)|
  {
    hide Fill, Dropped, AllFiles, Regular, Sums, ParallelSums;
    var groups := Fill(paths, limit, k);
    FillAccounts(paths, limit, k);
    var all, lost := AllFiles(groups), Dropped(paths, limit, k);
    assert |all| + |lost| == |Regular(paths)| by {
      assert |multiset(all) + multiset(lost)| == |multiset(Regular(paths))|;
    }
    PickedTogether(groups, launched, sum);
    SameSize(ParallelSums(groups, launched, sum), Sums(all, sum));
    SumsAtMost(all, sum);
  }

  lemma SequentialOrderFree(a: seq<Path>, b: seq<Path>, sum: Path -> Text, digest: Text -> Text)
    requires multiset(a) == multiset(b)
    ensures Sequential(a, sum, digest) == Sequential(b, sum, digest)
  {
    SumsPermute(a, b, sum);
    CombinedOrderFree(Sums(a, sum), Sums(b, sum), digest);
  }

  /**
   * The parallel checksum returns if and only if the sorted list of files does not overflow its
   * groups; when it returns, the result is the sequential checksum, whatever the order of the walk,
   * the order among files of equal size, and the thread limit's decisions.
   */
  lemma ParallelReturnsIff(tree: seq<Path>, sorted: seq<Path>, k: nat, launched: nat -> bool, sum: Path -> Text, digest: Text -> Text)
    requires k > 0 && multiset(sorted) == multiset(tree)
    ensures Parallel(sorted, Groups(sorted, k), launched, sum, digest)
         == if Overflows(sorted, GroupSize(sorted, k), k) then None else Some(Sequential(tree, sum, digest))
  {
    hide Overflows, GroupSize, Sequential, Fill, Dropped, AllFiles, Regular, ParallelSums;
    var limit := GroupSize(sorted, k);
    DroppedIff(sorted, limit, k);
    if Overflows(sorted, limit, k) {
      DroppedCounts(sorted, limit, k, launched, sum);
    } else {
      FillAccounts(sorted, limit, k);
      assert multiset(AllFiles(Groups(sorted, k))) == multiset(Regular(sorted));
      ParallelIsSequential(sorted, Groups(sorted, k), launched, sum, digest);
      SequentialOrderFree(sorted, tree, sum, digest);
    }
  }

  lemma SmallQuotient(n: nat, k: nat)
    requires n < k
    ensures n / k == 0
  {}

  /** Fewer paths and fewer bytes than threads: the target is zero, so any regular file makes it throw. */
  lemma SmallDirectoriesThrow(sorted: seq<Path>, k: nat, i: nat)
    requires |sorted| < k && Total(sorted) < k && i < |sorted| && sorted[i].regular
    ensures GroupSize(sorted, k) == 0 && Overflows(sorted, GroupSize(sorted, k), k)
  {
    hide Total;
    SmallQuotient(|sorted|, k);
    SmallQuotient(Total(sorted), k);
    assert OverflowsAt(sorted, 0, k, i);
  }

  lemma {:induction false} ChunkWeight(paths: seq<Path>, limit: nat)
    ensures Chunk(paths, limit).closed * limit + Chunk(paths, limit).open <= Total(paths)
  {
    if paths != [] {
      var init, p := paths[..|paths| - 1], paths[|paths| - 1];
      ChunkWeight(init, limit);
      var c := Chunk(init, limit);
      assert (c.closed + 1) * limit == c.closed * limit + limit;
    }
  }

  lemma {:induction false} FactorAtMost(a: nat, b: nat, limit: nat)
    ensures a >= b ==> a * limit >= b * limit
  {
    if a > b {
      FactorAtMost(a - 1, b, limit);
    }
  }

  /** Nothing is dropped while what comes before each file is below the groups' joint target. */
  lemma RoomyDirectoriesReturn(sorted: seq<Path>, limit: nat, k: nat)
    requires limit > 0 && forall i :: 0 <= i < |sorted| && sorted[i].regular ==> Total(sorted[..i]) < k * limit
    ensures !Overflows(sorted, limit, k)
  {
    forall i | 0 <= i < |sorted|
      ensures !OverflowsAt(sorted, limit, k, i)
    {
      hide Chunk, Total;
      ChunkWeight(sorted[..i], limit);
      FactorAtMost(Chunk(sorted[..i], limit).closed, k, limit);
    }
  }

  // ---- as it runs ----

  /** The inner loop: the first group below the target. */
  method FindOpen(groups: seq<Group>, limit: nat) returns (g: nat)
    ensures g == FirstOpen(groups, limit)
  {
    hide FirstOpen;
    g := 0;
    while g < |groups| && groups[g].size >= limit
      invariant 0 <= g <= |groups|
      invariant forall i :: 0 <= i < g ==> groups[i].size >= limit
    {
      g := g + 1;
    }
    OpenIsFirst(groups, limit, g);
  }

  /** Both loops of partition(max_groups); None where it throws. */
  method MakeGroups(sorted: seq<Path>, k: nat) returns (r: Option<seq<Group>>)
    ensures r == if k == 0 then None else Some(Groups(sorted, k))
  {
    hide Fill, FirstOpen, GroupSize;
    if k == 0 {
      return None;
    }
    var limit := TargetSize(sorted, k);
    var groups := EmptyGroups(k);
    var n := 0;
    FillNothing(limit, k);
    while n < |sorted|
      invariant 0 <= n <= |sorted|
      invariant groups == Fill(sorted[..n], limit, k)
    {
      FillNext(sorted, n, limit, k);
      var p := sorted[n];
      n := n + 1;
      if !p.regular {
        continue;
      }
      var g := FindOpen(groups, limit);
      if g < |groups| {
        groups := groups[g := Group(groups[g].files + [p], groups[g].size + p.size)];
      }
    }
    assert sorted[..n] == sorted;
    return Some(groups);
  }

  lemma FillNothing(limit: nat, k: nat)
    ensures Fill([], limit, k) == EmptyGroups(k)
  {}

  lemma FillNext(paths: seq<Path>, n: nat, limit: nat, k: nat)
    requires n < |paths|
    ensures Fill(paths[..n + 1], limit, k) == Added(Fill(paths[..n], limit, k), paths[n], limit)
  {
    hide Added;
    assert paths[..n + 1][..n] == paths[..n];
  }

  lemma OpenIsFirst(groups: seq<Group>, limit: nat, g: nat)
    requires g <= |groups| && (forall i :: 0 <= i < g ==> groups[i].size >= limit)
    requires g < |groups| ==> groups[g].size < limit
    ensures g == FirstOpen(groups, limit)
  {}

  method TargetSize(sorted: seq<Path>, k: nat) returns (limit: nat)
    requires k > 0
    ensures limit == GroupSize(sorted, k)
  {
    var total, n := 0, 0;
    while n < |sorted|
      invariant 0 <= n <= |sorted| && total == Total(sorted[..n])
    {
      assert sorted[..n + 1][..n] == sorted[..n];
      total := total + if sorted[n].regular then sorted[n].size else 0;
      n := n + 1;
    }
    assert sorted[..n] == sorted;
    limit := total / k;
    QuotientAtMost(|sorted|, k);
    var mean := |sorted| / k;
    var acc: nat, i := 0, 0;
    while i < mean
      invariant 0 <= i <= mean
      invariant GroupSize(sorted, k) == Readjusted(sorted, i, mean, acc, limit)
    {
      acc := acc + sorted[i].size;
      if acc >= limit {
        limit := acc;
        return;
      }
      i := i + 1;
    }
  }

  /** checksum_group, and the loop of sequential_directory_checksum. */
  method SumFiles(files: seq<Path>, sum: Path -> Text) returns (sums: seq<Text>)
    ensures sums == Sums(files, sum)
  {
    sums := [];
    var n := 0;
    while n < |files|
      invariant 0 <= n <= |files| && sums == Sums(files[..n], sum)
    {
      assert files[..n + 1][..n] == files[..n];
      if files[n].regular {
        sums := sums + [sum(files[n])];
      }
      n := n + 1;
    }
    assert files[..n] == files;
  }

  function SumsOf(groups: seq<Group>, sum: Path -> Text): seq<Text> {
    if groups == [] then [] else SumsOf(groups[..|groups| - 1], sum) + Sums(groups[|groups| - 1].files, sum)
  }

  /** The loops over the remainders and over the futures. */
  method Collect(groups: seq<Group>, sum: Path -> Text) returns (sums: seq<Text>)
    ensures sums == SumsOf(groups, sum)
  {
    sums := [];
    var n := 0;
    while n < |groups|
      invariant 0 <= n <= |groups| && sums == SumsOf(groups[..n], sum)
    {
      assert groups[..n + 1][..n] == groups[..n];
      var result := SumFiles(groups[n].files, sum);
      sums := sums + result;
      n := n + 1;
    }
    assert groups[..n] == groups;
  }

  lemma SumsOfOneMore(groups: seq<Group>, g: Group, sum: Path -> Text)
    ensures SumsOf(groups + [g], sum) == SumsOf(groups, sum) + Sums(g.files, sum)
  {
    assert (groups + [g])[..|groups|] == groups;
  }

  /** The loop over the groups: a nonempty one goes to a thread if the counter allowed it, else to the remainders. */
  method Distribute(groups: seq<Group>, launched: nat -> bool, ghost sum: Path -> Text)
    returns (futures: seq<Group>, remainders: seq<Group>)
    ensures SumsOf(futures, sum) == Picked(groups, launched, true, sum)
    ensures SumsOf(remainders, sum) == Picked(groups, launched, false, sum)
  {
    hide Sums, SumsOf, Picked;
    futures, remainders := [], [];
    var n := 0;
    NothingPicked(launched, sum);
    while n < |groups|
      invariant 0 <= n <= |groups|
      invariant SumsOf(futures, sum) == Picked(groups[..n], launched, true, sum)
      invariant SumsOf(remainders, sum) == Picked(groups[..n], launched, false, sum)
    {
      PickedNext(groups, n, launched, true, sum);
      PickedNext(groups, n, launched, false, sum);
      if |groups[n].files| != 0 {
        if launched(n) {
          SumsOfOneMore(futures, groups[n], sum);
          futures := futures + [groups[n]];
        } else {
          SumsOfOneMore(remainders, groups[n], sum);
          remainders := remainders + [groups[n]];
        }
      }
      n := n + 1;
    }
    assert groups[..n] == groups;
  }

  lemma NothingPicked(launched: nat -> bool, sum: Path -> Text)
    ensures SumsOf([], sum) == [] && forall which :: Picked([], launched, which, sum) == []
  {}

  lemma PickedNext(groups: seq<Group>, n: nat, launched: nat -> bool, which: bool, sum: Path -> Text)
    requires n < |groups|
    ensures Picked(groups[..n + 1], launched, which, sum)
         == if groups[n].files != [] && launched(n) == which
            then Picked(groups[..n], launched, which, sum) + Sums(groups[n].files, sum)
            else Picked(groups[..n], launched, which, sum)
  {
    hide Sums;
    assert groups[..n + 1][..n] == groups[..n];
  }

  /**
   * parallel_directory_checksum. What the shared task counter allowed for each group is a parameter;
   * a thread's result is that of checksum_group, collected when its future is read.
   */
  method ParallelDirectoryChecksum(tree: seq<Path>, sorted: seq<Path>, k: nat, launched: nat -> bool, sum: Path -> Text, digest: Text -> Text)
    returns (r: Option<Text>)
    requires multiset(sorted) == multiset(tree)
    ensures r == if k == 0 || Overflows(sorted, GroupSize(sorted, k), k) then None else Some(Sequential(tree, sum, digest))
  {
    hide Overflows, GroupSize, Sequential, Fill, Sums, SumsOf, Picked, Combined, Regular;
    var made := MakeGroups(sorted, k);
    if made.None? {
      return None;
    }
    var groups := made.value;
    var futures, remainders := Distribute(groups, launched, sum);
    var here := Collect(remainders, sum);
    var there := Collect(futures, sum);
    var sums := here + there;
    var files := CountRegular(sorted);
    ParallelReturnsIff(tree, sorted, k, launched, sum, digest);
    return if files != |sums| then None else Some(Combined(sums, digest));
  }

  method CountRegular(paths: seq<Path>) returns (count: nat)
    ensures count == |Regular(paths)|
  {
    count := 0;
    var n := 0;
    while n < |paths|
      invariant 0 <= n <= |paths| && count == |Regular(paths[..n])|
    {
      assert paths[..n + 1][..n] == paths[..n];
      if paths[n].regular {
        count := count + 1;
      }
      n := n + 1;
    }
    assert paths[..n] == paths;
  }
}
