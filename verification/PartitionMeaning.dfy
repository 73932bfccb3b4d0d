/** What the directory checksum is computed from, and how the groups of its parallel form are filled. */
module PartitionMeaning {
  import opened Collections
  import opened Texts
  import opened Checksum
  import opened Partition

  // ---- the digest's input ----

  /** Ascending: each text is a prefix of the next, or smaller where the two first differ. */
  ghost predicate Ascending(s: seq<Text>) {
    forall i :: 0 <= i < |s| - 1 ==> NotAbove(s[i], s[i + 1])
  }

  ghost predicate NotAbove(a: Text, b: Text) {
    a <= b || exists k :: 0 <= k < |a| && k < |b| && a[..k] == b[..k] && a[k] < b[k]
  }

  lemma {:induction false} AscendingIsSorted(s: seq<Text>, i: nat, j: nat)
    requires Ascending(s) && i < j < |s|
    ensures AtMost(s[i], s[j])
  {
    hide AtMost;
    AtMostMeaning(s[j - 1], s[j]);
    assert NotAbove(s[j - 1], s[j - 1 + 1]);
    if i < j - 1 {
      AscendingIsSorted(s, i, j - 1);
      AtMostTransitive(s[i], s[j - 1], s[j]);
    }
  }

  /** The texts go into the digest end to end in ascending order, each as often as it occurs. */
  lemma CombinedMeaning(sums: seq<Text>, inOrder: seq<Text>, digest: Text -> Text)
    requires multiset(inOrder) == multiset(sums) && Ascending(inOrder)
    ensures Combined(sums, digest) == digest(Flatten(inOrder))
  {
    hide Ascending, Sorted, Flatten, Sort;
    assert Sorted(inOrder) by { SortedFromAscending(inOrder); }
    SortCorrect(sums);
    SortedUnique(Sort(sums), inOrder);
  }

  lemma SortedFromAscending(s: seq<Text>)
    requires Ascending(s)
    ensures Sorted(s)
  {
    hide Ascending, AtMost;
    forall i, j | 0 <= i < j < |s|
      ensures AtMost(s[i], s[j])
    {
      AscendingIsSorted(s, i, j);
    }
  }

  /** The regular files of a walk are in order, each as often as it occurs, and nothing else is. */
  lemma {:induction false} RegularMeaning(paths: seq<Path>, p: Path)
    ensures multiset(Regular(paths))[p] == if p.regular then multiset(paths)[p] else 0
  {
    if paths != [] {
      RegularMeaning(paths[..|paths| - 1], p);
      LastMultiset(paths);
    }
  }

  /** One checksum per regular file, in the order of the walk. */
  lemma {:induction false} SumsMeaning(paths: seq<Path>, sum: Path -> Text)
    ensures |Sums(paths, sum)| == |Regular(paths)|
    ensures forall i :: 0 <= i < |Regular(paths)| ==> Sums(paths, sum)[i] == sum(Regular(paths)[i])
  {
    if paths != [] {
      SumsMeaning(paths[..|paths| - 1], sum);
    }
  }

  // ---- the target size ----

  /** The sizes of the first `n` paths together, directories included. */
  function Lead(paths: seq<Path>, n: nat): nat
    requires n <= |paths|
  {
    if n == 0 then 0 else Lead(paths, n - 1) + paths[n - 1].size
  }

  /**
   The target is a k-th of the bytes, unless the sizes of some of the first |sorted| / k paths reach
   that: then it is the first such sum.
   */
  lemma GroupSizeMeaning(sorted: seq<Path>, k: nat, n: nat)
    requires k > 0 && n <= |sorted| && n <= |sorted| / k && (forall j :: 1 <= j < n ==> Lead(sorted, j) < Total(sorted) / k)
    ensures n > 0 && Lead(sorted, n) >= Total(sorted) / k ==> GroupSize(sorted, k) == Lead(sorted, n)
    ensures n == |sorted| / k && (n == 0 || Lead(sorted, n) < Total(sorted) / k) ==> GroupSize(sorted, k) == Total(sorted) / k
  {
    hide Total;
    QuotientAtMost(|sorted|, k);
    var mean, target := |sorted| / k, Total(sorted) / k;
    if n > 0 {
      ReadjustedFrom(sorted, 0, n - 1, mean, target);
    }
  }

  lemma {:induction false} ReadjustedFrom(paths: seq<Path>, i: nat, n: nat, mean: nat, target: nat)
    requires i <= n <= mean <= |paths| && (forall j :: i < j <= n ==> Lead(paths, j) < target)
    ensures Readjusted(paths, i, mean, Lead(paths, i), target) == Readjusted(paths, n, mean, Lead(paths, n), target)
    decreases n - i
  {
    if i < n {
      assert Lead(paths, i + 1) < target;
      ReadjustedFrom(paths, i + 1, n, mean, target);
    }
  }

  // ---- filling ----

  function Weight(files: seq<Path>): nat {
    if files == [] then 0 else Weight(files[..|files| - 1]) + files[|files| - 1].size
  }

  /** A group was below the target until its last file came. */
  ghost predicate WellFilled(g: Group, limit: nat) {
    g.size == Weight(g.files) && (g.files != [] ==> Weight(g.files[..|g.files| - 1]) < limit)
  }

  /** A group is begun only when all before it have reached the target. */
  ghost predicate OneByOne(groups: seq<Group>, limit: nat) {
    forall i, j :: 0 <= i < j < |groups| && groups[j].files != [] ==> groups[i].size >= limit
  }

  ghost predicate AllWellFilled(groups: seq<Group>, limit: nat) {
    forall i :: 0 <= i < |groups| ==> WellFilled(groups[i], limit)
  }

  lemma FilledMore(g: Group, p: Path, limit: nat)
    requires WellFilled(g, limit) && g.size < limit
    ensures WellFilled(Group(g.files + [p], g.size + p.size), limit)
  {
    assert (g.files + [p])[..|g.files|] == g.files;
  }

  lemma AddedWellFilled(groups: seq<Group>, p: Path, limit: nat)
    requires AllWellFilled(groups, limit) && OneByOne(groups, limit)
    ensures AllWellFilled(Added(groups, p, limit), limit) && OneByOne(Added(groups, p, limit), limit)
  {
    hide FirstOpen, WellFilled;
    var r := FirstOpen(groups, limit);
    if p.regular && r < |groups| {
      FilledMore(groups[r], p, limit);
    }
  }

  lemma {:induction false} AddedAtEnd(groups: seq<Group>, r: nat, p: Path)
    requires r < |groups| && forall j :: r < j < |groups| ==> groups[j].files == []
    ensures AllFiles(groups[r := Group(groups[r].files + [p], groups[r].size + p.size)]) == AllFiles(groups) + [p]
  {
    var k := |groups| - 1;
    var more := Group(groups[r].files + [p], groups[r].size + p.size);
    var after := groups[r := more];
    if r == k {
      assert after[..k] == groups[..k];
    } else {
      AddedAtEnd(groups[..k], r, p);
      assert after[..k] == groups[..k][r := more];
      assert after[k].files == [];
      assert AllFiles(after) == AllFiles(after[..k]) && AllFiles(groups) == AllFiles(groups[..k]);
    }
  }

  lemma AddedInOrder(groups: seq<Group>, p: Path, limit: nat)
    requires OneByOne(groups, limit)
    ensures AllFiles(Added(groups, p, limit))
         == AllFiles(groups) + if p.regular && FirstOpen(groups, limit) < |groups| then [p] else []
  {
    hide FirstOpen, AllFiles;
    var r := FirstOpen(groups, limit);
    if p.regular && r < |groups| {
      AddedAtEnd(groups, r, p);
    } else {
      assert AllFiles(groups) + [] == AllFiles(groups);
    }
  }

  /**
   The groups, one after the other, hold the regular files in order, up to the dropped ones at the end;
   each is filled until it reaches the target, and files are dropped only when every group has.
   */
  lemma {:induction false} FillMeaning(paths: seq<Path>, limit: nat, k: nat)
    ensures var groups := Fill(paths, limit, k);
            && AllFiles(groups) + Dropped(paths, limit, k) == Regular(paths)
            && AllWellFilled(groups, limit) && OneByOne(groups, limit)
            && (Dropped(paths, limit, k) != [] ==> forall i :: 0 <= i < k ==> groups[i].size >= limit)
  {
    hide Added, FirstOpen, AllFiles, EmptyGroups, AllWellFilled, OneByOne;
    if paths == [] {
      NoFilesYet(k);
      EmptyWellFilled(k, limit);
    } else {
      var init, p := paths[..|paths| - 1], paths[|paths| - 1];
      FillMeaning(init, limit, k);
      var groups := Fill(init, limit, k);
      AddedInOrder(groups, p, limit);
      AddedWellFilled(groups, p, limit);
      if Dropped(init, limit, k) != [] {
        FullIsClosed(groups, limit);
      }
      if FirstOpen(groups, limit) == k {
        FullStaysFull(groups, p, limit);
      }
    }
  }

  lemma EmptyWellFilled(k: nat, limit: nat)
    ensures AllWellFilled(EmptyGroups(k), limit) && OneByOne(EmptyGroups(k), limit)
  {}

  lemma FullIsClosed(groups: seq<Group>, limit: nat)
    requires forall i :: 0 <= i < |groups| ==> groups[i].size >= limit
    ensures FirstOpen(groups, limit) == |groups|
  {
    hide FirstOpen;
  }

  lemma FullStaysFull(groups: seq<Group>, p: Path, limit: nat)
    requires FirstOpen(groups, limit) == |groups|
    ensures Added(groups, p, limit) == groups && forall i :: 0 <= i < |groups| ==> groups[i].size >= limit
  {
    hide FirstOpen;
  }
}
