/**
 * The checksum of a directory (utils/checksum.cc): the digest of the sorted list of its files'
 * checksums, computed one file after the other or by groups on several threads. The digest of a
 * text and the checksum of a file are parameters.
 */
module Checksum {
  import opened Collections
  import opened Texts

  // ---- sorting texts ----

  ghost predicate Sorted(s: seq<Text>) {
    forall i, j :: 0 <= i < j < |s| ==> AtMost(s[i], s[j])
  }

  function Place(x: Text, s: seq<Text>): seq<Text> {
    if s == [] || AtMost(x, s[0]) then [x] + s else [s[0]] + Place(x, s[1..])
  }

  function Sort(s: seq<Text>): seq<Text> {
    if s == [] then [] else Place(s[0], Sort(s[1..]))
  }

  lemma {:induction false} PlaceKeeps(x: Text, s: seq<Text>)
    ensures multiset(Place(x, s)) == multiset{x} + multiset(s)
  {
    if s != [] {
      assert s == [s[0]] + s[1..];
      PlaceKeeps(x, s[1..]);
    }
  }

  lemma {:induction false} PlaceSorted(x: Text, s: seq<Text>)
    requires Sorted(s)
    ensures Sorted(Place(x, s))
  {
    if s == [] {
    } else if AtMost(x, s[0]) {
      forall j | 0 <= j < |s|
        ensures AtMost(x, s[j])
      {
        if j > 0 {
          AtMostTransitive(x, s[0], s[j]);
        }
      }
    } else {
      AtMostTotal(x, s[0]);
      PlaceSorted(x, s[1..]);
      PlaceKeeps(x, s[1..]);
      var rest := Place(x, s[1..]);
      forall j | 0 <= j < |rest|
        ensures AtMost(s[0], rest[j])
      {
        assert rest[j] in multiset(rest);
        assert rest[j] == x || rest[j] in s[1..];
      }
    }
  }

  /** The result is the sorted permutation. */
  lemma {:induction false} SortCorrect(s: seq<Text>)
    ensures Sorted(Sort(s)) && multiset(Sort(s)) == multiset(s)
  {
    if s != [] {
      SortCorrect(s[1..]);
      PlaceSorted(s[0], Sort(s[1..]));
      PlaceKeeps(s[0], Sort(s[1..]));
      assert s == [s[0]] + s[1..];
    }
  }

  lemma SameHead(a: seq<Text>, b: seq<Text>)
    requires Sorted(a) && Sorted(b) && multiset(a) == multiset(b) && a != []
    ensures b != [] && a[0] == b[0]
  {
    hide Sorted, AtMost;
    assert a[0] in multiset(b);
    assert b[0] in multiset(a);
    HeadIsLeast(a, b[0]);
    HeadIsLeast(b, a[0]);
    AtMostAntisymmetric(a[0], b[0]);
  }

  lemma SameTails(a: seq<Text>, b: seq<Text>)
    requires multiset(a) == multiset(b) && a != [] && b != [] && a[0] == b[0]
    ensures multiset(a[1..]) == multiset(b[1..])
  {
    HeadMultiset(a);
    HeadMultiset(b);
  }

  lemma HeadMultiset(s: seq<Text>)
    requires s != []
    ensures multiset(s[1..]) == multiset(s) - multiset{s[0]}
  {
    assert s == [s[0]] + s[1..];
  }

  /** There is only one: any correct sort gives the same list. */
  lemma {:induction false} SortedUnique(a: seq<Text>, b: seq<Text>)
    requires Sorted(a) && Sorted(b) && multiset(a) == multiset(b)
    ensures a == b
  {
    hide Sorted, AtMost;
    SameSize(a, b);
    if a != [] {
      SameHead(a, b);
      SameTails(a, b);
      TailSorted(a);
      TailSorted(b);
      SortedUnique(a[1..], b[1..]);
      assert a == [a[0]] + a[1..] && b == [b[0]] + b[1..];
    }
  }

  lemma TailSorted(s: seq<Text>)
    requires Sorted(s) && s != []
    ensures Sorted(s[1..])
  {}

  lemma HeadIsLeast(s: seq<Text>, x: Text)
    requires Sorted(s) && x in s
    ensures AtMost(s[0], x)
  {
    var i :| 0 <= i < |s| && s[i] == x;
    if i == 0 {
      AtMostTotal(x, x);
    }
  }

  // ---- checksum_of_checksums ----

  /** Sort, feed the texts to the digest one after the other, and take the result. */
  function Combined(sums: seq<Text>, digest: Text -> Text): Text {
    digest(Flatten(Sort(sums)))
  }

  /** The order in which checksums arrive does not matter. */
  lemma CombinedOrderFree(a: seq<Text>, b: seq<Text>, digest: Text -> Text)
    requires multiset(a) == multiset(b)
    ensures Combined(a, digest) == Combined(b, digest)
  {
    SortCorrect(a);
    SortCorrect(b);
    SortedUnique(Sort(a), Sort(b));
  }

  ghost predicate AllOfLength(s: seq<Text>, n: nat) {
    forall i :: 0 <= i < |s| ==> |s[i]| == n
  }

  lemma {:induction false} FlattenInjective(a: seq<Text>, b: seq<Text>, n: nat)
    requires n > 0 && AllOfLength(a, n) && AllOfLength(b, n) && Flatten(a) == Flatten(b)
    ensures a == b
  {
    if b != [] {
      assert |Flatten(b)| >= |b[0]|;
    }
    if a != [] {
      assert |Flatten(a)| >= |a[0]|;
      assert b != [];
      assert a[0] == Flatten(a)[..n] && b[0] == Flatten(b)[..n];
      assert Flatten(a[1..]) == Flatten(a)[n..] && Flatten(b[1..]) == Flatten(b)[n..];
      FlattenInjective(a[1..], b[1..], n);
      assert a == [a[0]] + a[1..] && b == [b[0]] + b[1..];
    }
  }

  /** With checksums of one length, what goes into the digest tells exactly which checksums there were, and how many of each. */
  lemma InputDeterminesChecksums(a: seq<Text>, b: seq<Text>, n: nat)
    requires n > 0 && AllOfLength(a, n) && AllOfLength(b, n)
    ensures Flatten(Sort(a)) == Flatten(Sort(b)) <==> multiset(a) == multiset(b)
  {
    SortCorrect(a);
    SortCorrect(b);
    if Flatten(Sort(a)) == Flatten(Sort(b)) {
      SortLength(a, n);
      SortLength(b, n);
      FlattenInjective(Sort(a), Sort(b), n);
    }
    if multiset(a) == multiset(b) {
      SortedUnique(Sort(a), Sort(b));
    }
  }

  lemma SortLength(a: seq<Text>, n: nat)
    requires AllOfLength(a, n)
    ensures AllOfLength(Sort(a), n)
  {
    SortCorrect(a);
    forall i | 0 <= i < |Sort(a)|
      ensures |Sort(a)[i]| == n
    {
      assert Sort(a)[i] in multiset(Sort(a));
    }
  }

  // ---- files and groups ----

  datatype Path = Path(name: string, regular: bool, size: nat)

  /** PathGroup: its files, and their total size. */
  datatype Group = Group(files: seq<Path>, size: nat)

  function Regular(paths: seq<Path>): seq<Path> {
    if paths == [] then []
    else Regular(paths[..|paths| - 1]) + if paths[|paths| - 1].regular then [paths[|paths| - 1]] else []
  }

  function Sums(paths: seq<Path>, sum: Path -> Text): seq<Text> {
    if paths == [] then []
    else
      var p := paths[|paths| - 1];
      Sums(paths[..|paths| - 1], sum) + if p.regular then [sum(p)] else []
  }

  /** sequential_directory_checksum, over the paths in the order of the walk. */
  function Sequential(tree: seq<Path>, sum: Path -> Text, digest: Text -> Text): Text {
    Combined(Sums(tree, sum), digest)
  }

  lemma {:induction false} SumsLength(paths: seq<Path>, sum: Path -> Text)
    ensures |Sums(paths, sum)| == |Regular(paths)|
  {
    if paths != [] {
      SumsLength(paths[..|paths| - 1], sum);
    }
  }

  lemma {:induction false} SumsConcat(a: seq<Path>, b: seq<Path>, sum: Path -> Text)
    ensures Sums(a + b, sum) == Sums(a, sum) + Sums(b, sum)
  {
    if b == [] {
      assert a + b == a;
      assert Sums(a, sum) + [] == Sums(a, sum);
    } else {
      assert (a + b)[..|a + b| - 1] == a + b[..|b| - 1];
      SumsConcat(a, b[..|b| - 1], sum);
    }
  }

  lemma {:induction false} RegularConcat(a: seq<Path>, b: seq<Path>)
    ensures Regular(a + b) == Regular(a) + Regular(b)
  {
    if b == [] {
      assert a + b == a;
      assert Regular(a) + [] == Regular(a);
    } else {
      assert (a + b)[..|a + b| - 1] == a + b[..|b| - 1];
      RegularConcat(a, b[..|b| - 1]);
    }
  }

  /** Only the regular files matter. */
  lemma {:induction false} SumsOfRegular(paths: seq<Path>, sum: Path -> Text)
    ensures Sums(Regular(paths), sum) == Sums(paths, sum)
    ensures Regular(Regular(paths)) == Regular(paths)
  {
    if paths != [] {
      var init, p := paths[..|paths| - 1], paths[|paths| - 1];
      SumsOfRegular(init, sum);
      if p.regular {
        assert (Regular(init) + [p])[..|Regular(init)|] == Regular(init);
      } else {
        assert Regular(init) + [] == Regular(init);
        assert Sums(init, sum) + [] == Sums(init, sum);
      }
    }
  }

  /** The same files in another order give the same checksums in another order. */
  lemma {:induction false} SumsPermute(a: seq<Path>, b: seq<Path>, sum: Path -> Text)
    requires multiset(a) == multiset(b)
    ensures multiset(Sums(a, sum)) == multiset(Sums(b, sum))
    ensures multiset(Regular(a)) == multiset(Regular(b))
    decreases |a|
  {
    if a == [] {
      assert |multiset(b)| == 0;
    } else {
      var p, init := a[|a| - 1], a[..|a| - 1];
      LastMultiset(a);
      var x, y := Split(b, p);
      assert multiset(init) == multiset(a) - multiset{p} == multiset(b) - multiset{p} == multiset(x + y);
      SumsPermute(init, x + y, sum);
      SumsMiddle(x, p, y, sum);
      RegularMiddle(x, p, y);
    }
  }

  lemma LastMultiset(s: seq<Path>)
    requires s != []
    ensures multiset(s) == multiset(s[..|s| - 1]) + multiset{s[|s| - 1]}
  {
    assert s == s[..|s| - 1] + [s[|s| - 1]];
  }

  lemma Split(s: seq<Path>, p: Path) returns (x: seq<Path>, y: seq<Path>)
    requires p in multiset(s)
    ensures s == x + [p] + y && multiset(s) == multiset(x + y) + multiset{p}
  {
    var i :| 0 <= i < |s| && s[i] == p;
    x, y := s[..i], s[i + 1..];
    assert s == x + [p] + y;
  }

  lemma SumsMiddle(x: seq<Path>, p: Path, y: seq<Path>, sum: Path -> Text)
    ensures multiset(Sums(x + [p] + y, sum)) == multiset(Sums(x + y, sum)) + if p.regular then multiset{sum(p)} else multiset{}
  {
    SumsConcat(x, y, sum);
    SumsConcat(x + [p], y, sum);
    assert (x + [p])[..|x|] == x;
  }

  lemma RegularMiddle(x: seq<Path>, p: Path, y: seq<Path>)
    ensures multiset(Regular(x + [p] + y)) == multiset(Regular(x + y)) + if p.regular then multiset{p} else multiset{}
  {
    RegularConcat(x, y);
    RegularConcat(x + [p], y);
    assert (x + [p])[..|x|] == x;
  }

  // ---- the parallel form ----

  function AllFiles(groups: seq<Group>): seq<Path> {
    if groups == [] then [] else AllFiles(groups[..|groups| - 1]) + groups[|groups| - 1].files
  }

  /** The checksums of the nonempty groups that were (or were not) given to a thread. */
  function Picked(groups: seq<Group>, launched: nat -> bool, which: bool, sum: Path -> Text): seq<Text> {
    if groups == [] then []
    else
      var k := |groups| - 1;
      Picked(groups[..k], launched, which, sum)
      + if groups[k].files != [] && launched(k) == which then Sums(groups[k].files, sum) else []
  }

  /** Groups done here first, then those of the threads. */
  function ParallelSums(groups: seq<Group>, launched: nat -> bool, sum: Path -> Text): seq<Text> {
    Picked(groups, launched, false, sum) + Picked(groups, launched, true, sum)
  }

  lemma {:induction false} PickedTogether(groups: seq<Group>, launched: nat -> bool, sum: Path -> Text)
    ensures multiset(ParallelSums(groups, launched, sum)) == multiset(Sums(AllFiles(groups), sum))
  {
    if groups != [] {
      var k := |groups| - 1;
      PickedTogether(groups[..k], launched, sum);
      SumsConcat(AllFiles(groups[..k]), groups[k].files, sum);
    }
  }

  /**
   * parallel_directory_checksum after the partition: None where the number of checksums is not the
   * number of regular files.
   */
  function Parallel(tree: seq<Path>, groups: seq<Group>, launched: nat -> bool, sum: Path -> Text, digest: Text -> Text): Option<Text> {
    var sums := ParallelSums(groups, launched, sum);
    if |Regular(tree)| != |sums| then None else Some(Combined(sums, digest))
  }

  /**
   * Whatever the groups, as long as together they hold each regular file once, and whatever the
   * thread limit decided for each of them, the parallel form returns the sequential checksum.
   */
  lemma ParallelIsSequential(tree: seq<Path>, groups: seq<Group>, launched: nat -> bool, sum: Path -> Text, digest: Text -> Text)
    requires multiset(AllFiles(groups)) == multiset(Regular(tree))
    ensures Parallel(tree, groups, launched, sum, digest) == Some(Sequential(tree, sum, digest))
  {
    PickedTogether(groups, launched, sum);
    SumsPermute(AllFiles(groups), Regular(tree), sum);
    SumsOfRegular(tree, sum);
    SumsLength(tree, sum);
    SameSize(ParallelSums(groups, launched, sum), Sums(tree, sum));
    CombinedOrderFree(ParallelSums(groups, launched, sum), Sums(tree, sum), digest);
  }

  lemma SameSize(a: seq<Text>, b: seq<Text>)
    requires multiset(a) == multiset(b)
    ensures |a| == |b|
  {
    assert |multiset(a)| == |a| && |multiset(b)| == |b|;
  }
}
