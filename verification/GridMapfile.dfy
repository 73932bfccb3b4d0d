/**
 * The grid-mapfile (utils/grid-mapfile.cc): reading its entries, and replacing the entries between
 * the two BDE markers. A file is its text; a multimap of entries is its list in key order.
 */
module GridMapfile {
  import opened Collections
  import Texts

  const BEGIN_MARKER := "## BEGIN-BDE-SECTION"
  const END_MARKER := "## END-BDE-SECTION"
  const QUOTE := '\"'
  const COMMENT := '#'

  // ---- text ----

  /** isspace in the C locale. */
  predicate IsSpace(c: char) { c in {' ', '\t', '\n', 11 as char, 12 as char, '\r'} }

  function TrimLeft(s: string): string {
    if s != [] && IsSpace(s[0]) then TrimLeft(s[1..]) else s
  }

  function TrimRight(s: string): string {
    if s != [] && IsSpace(s[|s| - 1]) then TrimRight(s[..|s| - 1]) else s
  }

  function Trim(s: string): string { TrimRight(TrimLeft(s)) }

  /** Neither end is a space. */
  predicate IsTrimmed(s: string) {
    s != [] ==> !IsSpace(s[0]) && !IsSpace(s[|s| - 1])
  }

  predicate StartsWith(s: string, p: string) { |p| <= |s| && s[..|p|] == p }

  /** The place of the first character of `stop`, or the length. */
  function Next(s: string, stop: set<char>): (k: nat)
    ensures k <= |s| && (k < |s| ==> s[k] in stop)
    ensures forall i :: 0 <= i < k ==> s[i] !in stop
  {
    if s == [] || s[0] in stop then 0
    else
      var k := 1 + Next(s[1..], stop);
      assert forall i :: 0 < i < k ==> s[i] == s[1..][i - 1];
      k
  }

  /** getline until the end of the text. */
  function Lines(text: string): (r: seq<string>)
    ensures forall i :: 0 <= i < |r| ==> '\n' !in r[i]
    decreases |text|
  {
    if text == [] then []
    else
      var k := Next(text, {'\n'});
      [text[..k]] + if k < |text| then Lines(text[k + 1..]) else []
  }

  /** Each line followed by a newline. */
  function Unlines(lines: seq<string>): string {
    if lines == [] then [] else lines[0] + ['\n'] + Unlines(lines[1..])
  }

  /** The nonempty pieces between delimiters. */
  function Pieces(s: string, delim: set<char>): (r: seq<string>)
    ensures forall i :: 0 <= i < |r| ==> r[i] != [] && forall c :: c in r[i] ==> c !in delim
    decreases |s|
  {
    if s == [] then []
    else
      var k := Next(s, delim);
      (if k > 0 then [s[..k]] else []) + if k < |s| then Pieces(s[k + 1..], delim) else []
  }

  /** split_string: the pieces of each line. */
  function SplitString(s: string, delim: set<char>): seq<string> {
    SplitLines(Lines(s), delim)
  }

  function SplitLines(lines: seq<string>, delim: set<char>): seq<string> {
    if lines == [] then [] else Pieces(lines[0], delim) + SplitLines(lines[1..], delim)
  }

  lemma NextAt(s: string, stop: set<char>, k: nat)
    requires k <= |s| && (k < |s| ==> s[k] in stop) && forall i :: 0 <= i < k ==> s[i] !in stop
    ensures Next(s, stop) == k
  {}

  /** Writing lines and reading them back. */
  lemma {:induction false} LinesUnlines(lines: seq<string>)
    requires forall i :: 0 <= i < |lines| ==> '\n' !in lines[i]
    ensures Lines(Unlines(lines)) == lines
  {
    hide Lines;
    if lines == [] {
      NoLines();
    } else {
      LinesUnlines(lines[1..]);
      FirstLine(lines[0], Unlines(lines[1..]));
      assert lines == [lines[0]] + lines[1..];
    }
  }

  lemma NoLines()
    ensures Lines([]) == []
  {}

  lemma FirstLine(line: string, rest: string)
    requires '\n' !in line
    ensures Lines(line + ['\n'] + rest) == [line] + Lines(rest)
  {
    var text, k := line + ['\n'] + rest, |line|;
    assert text[..k] == line && text[k] == '\n' && text[k + 1..] == rest;
    NextAt(text, {'\n'}, k);
  }

  lemma OneLine(s: string)
    requires s != [] && '\n' !in s
    ensures Lines(s) == [s]
  {
    NextAt(s, {'\n'}, |s|);
    assert s[..|s|] == s;
  }

  lemma TrimIdle(s: string)
    requires IsTrimmed(s)
    ensures Trim(s) == s
  {}

  lemma {:induction false} TrimLeftMeaning(s: string) returns (i: nat)
    ensures i <= |s| && TrimLeft(s) == s[i..] && (i < |s| ==> !IsSpace(s[i]))
    ensures forall k :: 0 <= k < i ==> IsSpace(s[k])
  {
    if s != [] && IsSpace(s[0]) {
      var j := TrimLeftMeaning(s[1..]);
      i := j + 1;
      assert forall k :: 0 < k < i ==> s[k] == s[1..][k - 1];
      assert s[1..][j..] == s[i..];
    } else {
      i := 0;
    }
  }

  lemma {:induction false} TrimRightMeaning(s: string) returns (j: nat)
    ensures j <= |s| && TrimRight(s) == s[..j] && (j > 0 ==> !IsSpace(s[j - 1]))
    ensures forall k :: j <= k < |s| ==> IsSpace(s[k])
  {
    if s != [] && IsSpace(s[|s| - 1]) {
      j := TrimRightMeaning(s[..|s| - 1]);
      assert forall k :: j <= k < |s| - 1 ==> s[k] == s[..|s| - 1][k];
    } else {
      j := |s|;
    }
  }

  /** Trimming cuts off spaces at both ends, all of them, and nothing else. */
  lemma TrimMeaning(s: string) returns (i: nat, j: nat)
    ensures i <= j <= |s| && Trim(s) == s[i..j] && IsTrimmed(Trim(s))
    ensures forall k :: 0 <= k < i || j <= k < |s| ==> IsSpace(s[k])
  {
    hide IsSpace;
    i := TrimLeftMeaning(s);
    var t := s[i..];
    var n := TrimRightMeaning(t);
    j := i + n;
    assert forall k :: j <= k < |s| ==> s[k] == t[k - i];
    assert t[..n] == s[i..j];
  }

  function Undelimited(s: string, delim: set<char>): string {
    if s == [] then [] else (if s[0] in delim then [] else [s[0]]) + Undelimited(s[1..], delim)
  }

  /** The pieces, end to end, are everything but the delimiters. */
  lemma {:induction false} PiecesComplete(s: string, delim: set<char>)
    ensures Texts.Flatten(Pieces(s, delim)) == Undelimited(s, delim)
    decreases |s|
  {
    hide Pieces, Undelimited;
    NoPieces(delim);
    if s != [] {
      var k := Next(s, delim);
      UndelimitedCut(s, k, delim);
      PiecesStep(s, 0, k, delim);
      assert s[0..] == s && s[0..k] == s[..k];
      var rest := if k < |s| then Pieces(s[k + 1..], delim) else [];
      if k < |s| {
        PiecesComplete(s[k + 1..], delim);
      }
      FlattenFront(if k > 0 then [s[..k]] else [], s[..k], rest);
    } else {
      UndelimitedCut(s, 0, delim);
    }
  }

  lemma FlattenFront(front: seq<string>, text: string, rest: seq<string>)
    requires front == if text == [] then [] else [text]
    ensures Texts.Flatten(front + rest) == text + Texts.Flatten(rest)
    ensures Texts.Flatten([]) == []
  {
    if text == [] {
      assert front + rest == rest;
    } else {
      assert (front + rest)[1..] == rest;
    }
  }

  lemma UndelimitedStep(s: string, delim: set<char>)
    ensures s == [] ==> Undelimited(s, delim) == []
    ensures s != [] && s[0] in delim ==> Undelimited(s, delim) == Undelimited(s[1..], delim)
    ensures s != [] && s[0] !in delim ==> Undelimited(s, delim) == [s[0]] + Undelimited(s[1..], delim)
  {}

  lemma {:induction false} UndelimitedCut(s: string, k: nat, delim: set<char>)
    requires k <= |s| && (k < |s| ==> s[k] in delim) && forall i :: 0 <= i < k ==> s[i] !in delim
    ensures Undelimited(s, delim) == s[..k] + if k < |s| then Undelimited(s[k + 1..], delim) else []
  {
    hide Undelimited;
    UndelimitedStep(s, delim);
    if k > 0 {
      var t := s[1..];
      UndelimitedCut(t, k - 1, delim);
      var rest := if k < |s| then Undelimited(s[k + 1..], delim) else [];
      assert k < |s| ==> t[k..] == s[k + 1..];
      assert Undelimited(t, delim) == t[..k - 1] + rest;
      assert s[..k] == [s[0]] + t[..k - 1];
      assert [s[0]] + (t[..k - 1] + rest) == ([s[0]] + t[..k - 1]) + rest;
    }
  }

  // ---- entries ----

  datatype Entry = Entry(dn: string, name: string)

  /** A multimap: in key order, equal keys in the order of insertion. */
  ghost predicate Keyed(m: seq<Entry>) {
    forall i, j :: 0 <= i < j < |m| ==> Texts.AtMost(m[i].dn, m[j].dn)
  }

  function Emplace(m: seq<Entry>, e: Entry): seq<Entry> {
    if m == [] || Texts.AtMost(m[|m| - 1].dn, e.dn) then m + [e]
    else Emplace(m[..|m| - 1], e) + [m[|m| - 1]]
  }

  /** Emplacing keeps the order of keys and adds just that entry. */
  lemma {:induction false} EmplaceKeeps(m: seq<Entry>, e: Entry)
    requires Keyed(m)
    ensures Keyed(Emplace(m, e)) && multiset(Emplace(m, e)) == multiset(m) + multiset{e}
  {
    if m != [] {
      var init, last := m[..|m| - 1], m[|m| - 1];
      assert m == init + [last];
      if Texts.AtMost(last.dn, e.dn) {
        forall i | 0 <= i < |m|
          ensures Texts.AtMost(m[i].dn, e.dn)
        {
          if i < |m| - 1 {
            Texts.AtMostTransitive(m[i].dn, last.dn, e.dn);
          }
        }
      } else {
        Texts.AtMostTotal(last.dn, e.dn);
        EmplaceKeeps(init, e);
        var r := Emplace(init, e);
        forall i | 0 <= i < |r|
          ensures Texts.AtMost(r[i].dn, last.dn)
        {
          assert r[i] in multiset(r);
          assert r[i] == e || r[i] in init;
        }
      }
    }
  }

  /** What one trimmed line holds. An unquoted line never yields an entry: its third field is asked for when there are two. */
  datatype Parsed = Nothing | Holds(entry: Entry) | Malformed

  function Parse(t: string): Parsed {
    if t == [] || t[0] == COMMENT then Nothing
    else if t[0] == QUOTE then
      var v := SplitString(t, {QUOTE});
      if |v| == 2 then Holds(Entry(v[0], Trim(v[1]))) else Malformed
    else Malformed
  }

  // ---- reading ----

  datatype Reading = Reading(system: bool, sys: seq<Entry>, bde: seq<Entry>)

  function Feed(st: Reading, line: string): Option<Reading> {
    var t := Trim(line);
    var system := if StartsWith(t, END_MARKER) then true else if StartsWith(t, BEGIN_MARKER) then false else st.system;
    match Parse(t)
    case Malformed => None
    case Nothing => Some(st.(system := system))
    case Holds(e) =>
      Some(if system then Reading(system, Emplace(st.sys, e), st.bde) else Reading(system, st.sys, Emplace(st.bde, e)))
  }

  function Read(st: Reading, lines: seq<string>): Option<Reading> {
    if lines == [] then Some(st)
    else
      var r := Read(st, lines[..|lines| - 1]);
      if r.None? then None else Feed(r.value, lines[|lines| - 1])
  }

  const START := Reading(true, [], [])

  datatype GridMap = GridMap(system: seq<Entry>, bde: seq<Entry>)

  /** grid_mapfile_get_entries on a file with this text; None where it throws. */
  function GetEntries(text: string): Option<GridMap> {
    var r := Read(START, Lines(text));
    if r.None? then None else Some(GridMap(r.value.sys, r.value.bde))
  }

  // ---- writing ----

  function Quoted(e: Entry): string { [QUOTE] + e.dn + [QUOTE] + " " + e.name }

  function Unquoted(e: Entry): string { e.dn + " " + e.name }

  function Rendered(es: seq<Entry>, quoted: bool): (r: seq<string>)
    ensures |r| == |es|
    ensures forall i :: 0 <= i < |es| ==> r[i] == if quoted then Quoted(es[i]) else Unquoted(es[i])
  {
    seq(|es|, i requires 0 <= i < |es| => if quoted then Quoted(es[i]) else Unquoted(es[i]))
  }

  /** std::find from a place on. */
  function Find(lines: seq<string>, line: string, from: nat): (k: nat)
    requires from <= |lines|
    ensures from <= k <= |lines| && (k < |lines| ==> lines[k] == line)
    ensures forall i :: from <= i < k ==> lines[i] != line
    decreases |lines| - from
  {
    if from == |lines| || lines[from] == line then from else Find(lines, line, from + 1)
  }

  /** The lines after a push; None where it throws. */
  function Pushed(lines: seq<string>, es: seq<Entry>): Option<seq<string>> {
    var b := Find(lines, BEGIN_MARKER, 0);
    if b == |lines| then Some(lines + [BEGIN_MARKER] + Rendered(es, false) + [END_MARKER])
    else
      var e := Find(lines, END_MARKER, b);
      if e == |lines| then None else Some(lines[..b + 1] + Rendered(es, true) + lines[e..])
  }

  /** grid_mapfile_push_entries: the text of the file afterwards. A file that is not there is created. */
  function PushEntries(file: Option<string>, es: seq<Entry>): Option<string> {
    match file
    case None => Some(Unlines([BEGIN_MARKER] + Rendered(es, false) + [END_MARKER]))
    case Some(text) =>
      var r := Pushed(Lines(text), es);
      if r.None? then None else Some(Unlines(r.value))
  }

  // ---- a written entry is read back ----

  /** An entry that can be written: DN and name nonempty, on one line, without quotes, the name trimmed. */
  ghost predicate Writable(e: Entry) {
    && e.dn != [] && QUOTE !in e.dn && '\n' !in e.dn
    && e.name != [] && QUOTE !in e.name && '\n' !in e.name && IsTrimmed(e.name)
  }

  lemma QuotedPieces(dn: string, rest: string)
    requires dn != [] && QUOTE !in dn && rest != [] && QUOTE !in rest
    ensures Pieces([QUOTE] + dn + [QUOTE] + rest, {QUOTE}) == [dn, rest]
  {
    var s := [QUOTE] + dn + [QUOTE] + rest;
    NextAt(s, {QUOTE}, 0);
    var s1 := s[1..];
    assert s1 == dn + [QUOTE] + rest;
    assert Pieces(s, {QUOTE}) == Pieces(s1, {QUOTE});
    NextAt(s1, {QUOTE}, |dn|);
    assert s1[..|dn|] == dn && s1[|dn| + 1..] == rest;
    NextAt(rest, {QUOTE}, |rest|);
    assert rest[..|rest|] == rest;
    assert Pieces(rest, {QUOTE}) == [rest];
  }

  lemma QuotedLine(e: Entry)
    requires Writable(e)
    ensures var l := Quoted(e);
            '\n' !in l && Trim(l) == l && l != [] && l[0] == QUOTE && Parse(l) == Holds(e)
  {
    hide Pieces, Lines;
    var l, rest := Quoted(e), " " + e.name;
    assert l == [QUOTE] + e.dn + [QUOTE] + rest;
    TrimIdle(l);
    OneLine(l);
    QuotedPieces(e.dn, rest);
    assert [l][1..] == [] && SplitLines([l], {QUOTE}) == Pieces(l, {QUOTE}) + SplitLines([], {QUOTE});
    assert SplitString(l, {QUOTE}) == [e.dn, rest] + SplitLines([], {QUOTE}) == [e.dn, rest];
    assert rest[1..] == e.name;
    TrimIdle(e.name);
    assert Trim(rest) == Trim(e.name);
  }

  // ---- reading by sections ----

  /** No line that the reader takes for a marker. */
  ghost predicate MarkerFree(lines: seq<string>) {
    forall i :: 0 <= i < |lines| ==> !StartsWith(Trim(lines[i]), BEGIN_MARKER) && !StartsWith(Trim(lines[i]), END_MARKER)
  }

  /** The entries of lines without markers, added to those before. */
  function Collect(lines: seq<string>, m: seq<Entry>): Option<seq<Entry>> {
    if lines == [] then Some(m)
    else
      var r := Collect(lines[..|lines| - 1], m);
      if r.None? then None
      else
        match Parse(Trim(lines[|lines| - 1]))
        case Malformed => None
        case Nothing => r
        case Holds(e) => Some(Emplace(r.value, e))
  }

  lemma {:induction false} ReadConcat(st: Reading, a: seq<string>, b: seq<string>)
    ensures var r := Read(st, a);
            Read(st, a + b) == if r.None? then None else Read(r.value, b)
  {
    hide Feed;
    if b == [] {
      assert a + b == a;
    } else {
      assert (a + b)[..|a + b| - 1] == a + b[..|b| - 1];
      ReadConcat(st, a, b[..|b| - 1]);
    }
  }

  /** Without markers, all entries go to one side and the other stays. */
  lemma {:induction false} ReadPlain(st: Reading, lines: seq<string>)
    requires MarkerFree(lines)
    ensures var m := Collect(lines, if st.system then st.sys else st.bde);
            Read(st, lines)
            == if m.None? then None
               else Some(if st.system then st.(sys := m.value) else st.(bde := m.value))
  {
    hide Parse, Trim, Emplace;
    if lines != [] {
      ReadPlain(st, lines[..|lines| - 1]);
    }
  }

  lemma MarkerLines(st: Reading)
    ensures Read(st, [BEGIN_MARKER]) == Some(st.(system := false))
    ensures Read(st, [END_MARKER]) == Some(st.(system := true))
  {
    TrimIdle(BEGIN_MARKER);
    TrimIdle(END_MARKER);
    assert [BEGIN_MARKER][..0] == [] && [END_MARKER][..0] == [];
    assert BEGIN_MARKER[..|END_MARKER|] != END_MARKER by { assert BEGIN_MARKER[3] != END_MARKER[3]; }
    assert BEGIN_MARKER[..|BEGIN_MARKER|] == BEGIN_MARKER && END_MARKER[..|END_MARKER|] == END_MARKER;
  }

  /** A file with one section: lines before, the markers around `inside`, lines after. */
  function Sectioned(before: seq<string>, inside: seq<string>, after: seq<string>): seq<string> {
    before + [BEGIN_MARKER] + inside + [END_MARKER] + after
  }

  ghost predicate OneSection(lines: seq<string>, before: seq<string>, inside: seq<string>, after: seq<string>) {
    && lines == Sectioned(before, inside, after)
    && MarkerFree(before) && MarkerFree(inside) && MarkerFree(after)
  }

  /** System entries come from outside the section, BDE entries from inside. */
  lemma ReadSectioned(before: seq<string>, inside: seq<string>, after: seq<string>)
    requires MarkerFree(before) && MarkerFree(inside) && MarkerFree(after)
    ensures var m, n := Collect(before, []), Collect(inside, []);
            Read(START, Sectioned(before, inside, after))
            == if m.None? || n.None? || Collect(after, m.value).None? then None
               else Some(Reading(true, Collect(after, m.value).value, n.value))
  {
    hide Read, Collect, MarkerFree;
    var m, n := Collect(before, []), Collect(inside, []);
    ReadPlain(START, before);
    ReadConcat(START, before, [BEGIN_MARKER]);
    ReadConcat(START, before + [BEGIN_MARKER], inside);
    ReadConcat(START, before + [BEGIN_MARKER] + inside, [END_MARKER]);
    ReadConcat(START, before + [BEGIN_MARKER] + inside + [END_MARKER], after);
    if m.Some? {
      var s1 := START.(sys := m.value);
      MarkerLines(s1);
      var s2 := s1.(system := false);
      ReadPlain(s2, inside);
      if n.Some? {
        var s3 := s2.(bde := n.value);
        MarkerLines(s3);
        ReadPlain(s3.(system := true), after);
      }
    }
  }

  // ---- push, then get ----

  ghost predicate AllWritable(es: seq<Entry>) {
    forall i :: 0 <= i < |es| ==> Writable(es[i])
  }

  lemma RenderedPlain(es: seq<Entry>)
    requires AllWritable(es)
    ensures MarkerFree(Rendered(es, true))
    ensures forall i :: 0 <= i < |es| ==> '\n' !in Rendered(es, true)[i] && Rendered(es, true)[i] != END_MARKER
  {
    hide Quoted, Parse, Trim;
    forall i | 0 <= i < |es|
      ensures var l := Rendered(es, true)[i];
              '\n' !in l && l != [] && l[0] == QUOTE && Trim(l) == l
    {
      QuotedLine(es[i]);
    }
  }

  /** Reading the written lines gives the entries back, in the same order. */
  lemma {:induction false} CollectRendered(es: seq<Entry>)
    requires AllWritable(es) && Keyed(es)
    ensures Collect(Rendered(es, true), []) == Some(es)
  {
    hide Quoted, Parse, Trim;
    if es != [] {
      var init, e := es[..|es| - 1], es[|es| - 1];
      CollectRendered(init);
      QuotedLine(e);
      assert Rendered(es, true)[..|es| - 1] == Rendered(init, true);
      assert es == init + [e];
    }
  }

  lemma FindAt(lines: seq<string>, line: string, from: nat, k: nat)
    requires from <= k < |lines| && lines[k] == line && forall i :: from <= i < k ==> lines[i] != line
    ensures Find(lines, line, from) == k
  {}

  /** A line the reader does not take for a marker is not a marker. */
  lemma PlainIsNotMarker(lines: seq<string>, i: nat)
    requires MarkerFree(lines) && i < |lines|
    ensures lines[i] != BEGIN_MARKER && lines[i] != END_MARKER
  {
    TrimIdle(BEGIN_MARKER);
    TrimIdle(END_MARKER);
    assert BEGIN_MARKER[..|BEGIN_MARKER|] == BEGIN_MARKER && END_MARKER[..|END_MARKER|] == END_MARKER;
  }

  /** A push replaces what is inside the section and nothing else. */
  lemma PushedSection(lines: seq<string>, before: seq<string>, inside: seq<string>, after: seq<string>, es: seq<Entry>)
    requires OneSection(lines, before, inside, after)
    ensures Pushed(lines, es) == Some(Sectioned(before, Rendered(es, true), after))
  {
    hide MarkerFree, Find;
    var b, e := |before|, |before| + 1 + |inside|;
    assert lines[b] == BEGIN_MARKER && lines[e] == END_MARKER;
    forall i | 0 <= i < b
      ensures lines[i] != BEGIN_MARKER
    {
      PlainIsNotMarker(before, i);
    }
    FindAt(lines, BEGIN_MARKER, 0, b);
    forall i | b <= i < e
      ensures lines[i] != END_MARKER
    {
      if i > b {
        PlainIsNotMarker(inside, i - b - 1);
      }
    }
    FindAt(lines, END_MARKER, b, e);
    assert lines[..b + 1] == before + [BEGIN_MARKER];
    assert lines[e..] == [END_MARKER] + after;
    assert lines[..b + 1] + Rendered(es, true) + lines[e..] == Sectioned(before, Rendered(es, true), after);
  }

  lemma SectionOnLines(before: seq<string>, inside: seq<string>, after: seq<string>)
    requires forall i :: 0 <= i < |before| ==> '\n' !in before[i]
    requires forall i :: 0 <= i < |inside| ==> '\n' !in inside[i]
    requires forall i :: 0 <= i < |after| ==> '\n' !in after[i]
    ensures Lines(Unlines(Sectioned(before, inside, after))) == Sectioned(before, inside, after)
  {
    var all := Sectioned(before, inside, after);
    forall i | 0 <= i < |all|
      ensures '\n' !in all[i]
    {
      assert all[i] in before || all[i] in inside || all[i] in after || all[i] in [BEGIN_MARKER, END_MARKER];
    }
    LinesUnlines(all);
  }

  lemma SectionParts(lines: seq<string>, before: seq<string>, inside: seq<string>, after: seq<string>)
    requires lines == Sectioned(before, inside, after) && forall i :: 0 <= i < |lines| ==> '\n' !in lines[i]
    ensures forall i :: 0 <= i < |before| ==> '\n' !in before[i]
    ensures forall i :: 0 <= i < |after| ==> '\n' !in after[i]
  {
    assert forall i :: 0 <= i < |before| ==> before[i] == lines[i];
    assert forall i :: 0 <= i < |after| ==> after[i] == lines[|before| + |inside| + 2 + i];
  }

  /**
   * For a readable file with one section, and writable entries: a push succeeds; the lines outside
   * the section are the same; reading back gives exactly the new BDE entries and the same system
   * entries; and a second push, of the same or other entries, leaves what it alone would have left.
   */
  lemma PushThenGet(text: string, before: seq<string>, inside: seq<string>, after: seq<string>, es: seq<Entry>, es2: seq<Entry>)
    requires OneSection(Lines(text), before, inside, after) && GetEntries(text).Some?
    requires AllWritable(es) && Keyed(es)
    ensures PushEntries(Some(text), es).Some?
    ensures var now := PushEntries(Some(text), es).value;
            && OneSection(Lines(now), before, Rendered(es, true), after)
            && GetEntries(now) == Some(GridMap(GetEntries(text).value.system, es))
            && PushEntries(Some(now), es2) == PushEntries(Some(text), es2)
  {
    hide Lines, Unlines, Read, Collect, MarkerFree, Sectioned, Rendered, Pushed;
    PushedSection(Lines(text), before, inside, after, es);
    PushedSection(Lines(text), before, inside, after, es2);
    RenderedPlain(es);
    CollectRendered(es);
    SectionParts(Lines(text), before, inside, after);
    SectionOnLines(before, Rendered(es, true), after);
    ReadSectioned(before, inside, after);
    ReadSectioned(before, Rendered(es, true), after);
    PushedSection(Lines(PushEntries(Some(text), es).value), before, Rendered(es, true), after, es2);
  }

  // ---- the branches that write without quotes ----

  lemma {:induction false} TrimRightHead(s: string)
    requires s != [] && !IsSpace(s[0])
    ensures TrimRight(s) != [] && TrimRight(s)[0] == s[0]
  {
    if IsSpace(s[|s| - 1]) {
      TrimRightHead(s[..|s| - 1]);
    }
  }

  /** A file can be read exactly when no line of it is malformed. */
  lemma {:induction false} ReadSomeIff(st: Reading, lines: seq<string>)
    ensures Read(st, lines).Some? <==> forall i :: 0 <= i < |lines| ==> Parse(Trim(lines[i])) != Malformed
  {
    hide Parse, Trim, Emplace;
    if lines != [] {
      ReadSomeIff(st, lines[..|lines| - 1]);
    }
  }

  /**
   * What an unquoted line may be for the reader to accept it: blank, a comment, or one that happens to
   * start with a quote and to have two pieces between quotes.
   */
  ghost predicate Harmless(e: Entry) {
    var t := Trim(Unquoted(e));
    t == [] || t[0] == COMMENT || (t[0] == QUOTE && |Pieces(t, {QUOTE})| == 2)
  }

  ghost predicate OneLined(e: Entry) {
    '\n' !in e.dn && '\n' !in e.name
  }

  lemma HarmlessIff(e: Entry)
    requires OneLined(e)
    ensures '\n' !in Unquoted(e) && (Parse(Trim(Unquoted(e))) != Malformed <==> Harmless(e))
  {
    hide Pieces, Lines, Trim;
    var l := Unquoted(e);
    var t := Trim(l);
    var i, j := TrimMeaning(l);
    assert '\n' !in l;
    assert '\n' !in t;
    if t != [] {
      OneLine(t);
      assert [t][1..] == [] && SplitLines([t], {QUOTE}) == Pieces(t, {QUOTE}) + SplitLines([], {QUOTE});
      assert SplitString(t, {QUOTE}) == Pieces(t, {QUOTE});
    }
  }

  /** An ordinary DN, with no quote, comment sign or space in front, is not harmless. */
  lemma OrdinaryIsNot(e: Entry)
    requires e.dn != [] && e.dn[0] != QUOTE && e.dn[0] != COMMENT && !IsSpace(e.dn[0])
    ensures !Harmless(e)
  {
    hide Pieces;
    assert Unquoted(e)[0] == e.dn[0];
    TrimRightHead(Unquoted(e));
  }

  lemma MarkersParse()
    ensures Parse(Trim(BEGIN_MARKER)) == Nothing && Parse(Trim(END_MARKER)) == Nothing
  {
    TrimIdle(BEGIN_MARKER);
    TrimIdle(END_MARKER);
  }

  lemma AppendedReads(lines: seq<string>, es: seq<Entry>)
    requires Read(START, lines).Some? && forall i :: 0 <= i < |es| ==> OneLined(es[i])
    ensures Read(START, Appended(lines, es)).Some? <==> forall i :: 0 <= i < |es| ==> Harmless(es[i])
  {
    hide Read, Parse, Trim, Unquoted, Harmless, Rendered;
    var r := Rendered(es, false);
    ReadSomeIff(START, lines);
    ReadSomeIff(START, lines + [BEGIN_MARKER] + r + [END_MARKER]);
    MarkersParse();
    PartsParse(lines, BEGIN_MARKER, r, END_MARKER);
    forall i | 0 <= i < |es|
      ensures Parse(Trim(r[i])) != Malformed <==> Harmless(es[i])
    {
      HarmlessIff(es[i]);
    }
  }

  /** Four parts put together are readable exactly when the third is, if the others are. */
  lemma PartsParse(a: seq<string>, x: string, b: seq<string>, y: string)
    requires Parse(Trim(x)) != Malformed && Parse(Trim(y)) != Malformed
    requires forall i :: 0 <= i < |a| ==> Parse(Trim(a[i])) != Malformed
    ensures var all := a + [x] + b + [y];
            (forall i :: 0 <= i < |all| ==> Parse(Trim(all[i])) != Malformed) <==> (forall i :: 0 <= i < |b| ==> Parse(Trim(b[i])) != Malformed)
  {
    hide Parse, Trim;
    var all := a + [x] + b + [y];
    assert forall i :: 0 <= i < |b| ==> all[|a| + 1 + i] == b[i];
  }

  /**
   * A push that creates the file, or that appends a section to a readable file without one, leaves a
   * file that can be read if and only if every entry is harmless when written without quotes; no
   * ordinary one is.
   */
  lemma FirstPushReadsIff(file: Option<string>, es: seq<Entry>)
    requires forall i :: 0 <= i < |es| ==> OneLined(es[i])
    requires file.Some? ==> GetEntries(file.value).Some? && BEGIN_MARKER !in Lines(file.value)
    ensures PushEntries(file, es).Some?
    ensures GetEntries(PushEntries(file, es).value).Some? <==> forall i :: 0 <= i < |es| ==> Harmless(es[i])
  {
    hide Lines, Unlines, Read, Harmless, Rendered, Find;
    var lines := if file.None? then [] else Lines(file.value);
    var all := Appended(lines, es);
    if file.None? {
      NothingBefore(es);
      ReadNothing();
    } else {
      NoMarker(lines);
    }
    AppendedOneLined(lines, es);
    LinesUnlines(all);
    AppendedReads(lines, es);
  }

  /** The lines of a file with a section appended. */
  function Appended(lines: seq<string>, es: seq<Entry>): seq<string> {
    lines + [BEGIN_MARKER] + Rendered(es, false) + [END_MARKER]
  }

  lemma NothingBefore(es: seq<Entry>)
    ensures Appended([], es) == [BEGIN_MARKER] + Rendered(es, false) + [END_MARKER]
  {
    hide Rendered;
    assert [] + [BEGIN_MARKER] == [BEGIN_MARKER];
  }

  lemma NoMarker(lines: seq<string>)
    requires BEGIN_MARKER !in lines
    ensures Find(lines, BEGIN_MARKER, 0) == |lines|
  {
    hide Find;
  }

  lemma RenderedOneLined(es: seq<Entry>, k: nat)
    requires k < |es| && OneLined(es[k])
    ensures '\n' !in Rendered(es, false)[k]
  {
    HarmlessIff(es[k]);
  }

  lemma AppendedOneLined(lines: seq<string>, es: seq<Entry>)
    requires forall i :: 0 <= i < |lines| ==> '\n' !in lines[i]
    requires forall i :: 0 <= i < |es| ==> OneLined(es[i])
    ensures forall i :: 0 <= i < |Appended(lines, es)| ==> '\n' !in Appended(lines, es)[i]
  {
    hide OneLined, Unquoted;
    var all, n := Appended(lines, es), |lines|;
    forall i | 0 <= i < |all|
      ensures '\n' !in all[i]
    {
      if i < n {
        assert all[i] == lines[i];
      } else if n < i < |all| - 1 {
        assert all[i] == Rendered(es, false)[i - n - 1];
        RenderedOneLined(es, i - n - 1);
      }
    }
  }

  /** The ordinary case: readable if and only if there was nothing to push. */
  lemma OrdinaryPushUnreadable(file: Option<string>, es: seq<Entry>)
    requires forall i :: 0 <= i < |es| ==>
               && OneLined(es[i]) && es[i].dn != []
               && es[i].dn[0] != QUOTE && es[i].dn[0] != COMMENT && !IsSpace(es[i].dn[0])
    requires file.Some? ==> GetEntries(file.value).Some? && BEGIN_MARKER !in Lines(file.value)
    ensures PushEntries(file, es).Some?
    ensures GetEntries(PushEntries(file, es).value).Some? <==> es == []
  {
    hide GetEntries, PushEntries, Harmless;
    FirstPushReadsIff(file, es);
    if es != [] {
      OrdinaryIsNot(es[0]);
    }
  }

  lemma ReadNothing()
    ensures Read(START, []).Some?
  {}

  // ---- as it runs ----

  lemma TrimSteps(s: string)
    ensures s != [] && IsSpace(s[0]) ==> TrimLeft(s) == TrimLeft(s[1..])
    ensures s == [] || !IsSpace(s[0]) ==> TrimLeft(s) == s
    ensures s != [] && IsSpace(s[|s| - 1]) ==> TrimRight(s) == TrimRight(s[..|s| - 1])
    ensures s == [] || !IsSpace(s[|s| - 1]) ==> TrimRight(s) == s
  {
    hide IsSpace;
  }

  /** trim_left, then trim_right. */
  method TrimLine(s: string) returns (r: string)
    ensures r == Trim(s)
  {
    hide IsSpace, TrimLeft, TrimRight;
    var i := 0;
    assert s[0..] == s;
    while i < |s| && IsSpace(s[i])
      invariant 0 <= i <= |s| && TrimLeft(s) == TrimLeft(s[i..])
    {
      TrimSteps(s[i..]);
      assert s[i..][1..] == s[i + 1..];
      i := i + 1;
    }
    TrimSteps(s[i..]);
    var j := |s|;
    assert s[i..j] == s[i..];
    while j > i && IsSpace(s[j - 1])
      invariant i <= j <= |s| && TrimRight(s[i..]) == TrimRight(s[i..j])
    {
      TrimSteps(s[i..j]);
      assert s[i..j][..j - i - 1] == s[i..j - 1];
      j := j - 1;
    }
    TrimSteps(s[i..j]);
    return s[i..j];
  }

  lemma PiecesFront(s: string, k: nat, delim: set<char>)
    requires s != [] && k == Next(s, delim)
    ensures Pieces(s, delim) == (if k > 0 then [s[..k]] else []) + if k < |s| then Pieces(s[k + 1..], delim) else []
  {}

  lemma PiecesStep(s: string, prev: nat, pos: nat, delim: set<char>)
    requires prev < |s| && prev <= pos <= |s| && (pos < |s| ==> s[pos] in delim)
    requires forall i :: prev <= i < pos ==> s[i] !in delim
    ensures Pieces(s[prev..], delim)
         == (if pos > prev then [s[prev..pos]] else []) + if pos < |s| then Pieces(s[pos + 1..], delim) else []
  {
    var t, k := s[prev..], pos - prev;
    assert t[..k] == s[prev..pos];
    assert pos < |s| ==> t[k + 1..] == s[pos + 1..];
    assert pos < |s| ==> t[k] == s[pos];
    NextAt(t, delim, k);
    PiecesFront(t, k, delim);
  }

  /** The inner loop of split_string. */
  method SplitLine(s: string, delim: set<char>) returns (r: seq<string>)
    ensures r == Pieces(s, delim)
  {
    hide Pieces;
    r := [];
    var prev := 0;
    assert s[0..] == s;
    NoPieces(delim);
    while prev < |s|
      invariant 0 <= prev <= |s|
      invariant r + Pieces(s[prev..], delim) == Pieces(s, delim)
    {
      var pos := prev;
      while pos < |s| && s[pos] !in delim
        invariant prev <= pos <= |s| && forall i :: prev <= i < pos ==> s[i] !in delim
      {
        pos := pos + 1;
      }
      PiecesStep(s, prev, pos, delim);
      if pos > prev {
        r := r + [s[prev..pos]];
      }
      if pos == |s| {
        return;
      }
      prev := pos + 1;
    }
    assert s[prev..] == [];
  }

  lemma NoPieces(delim: set<char>)
    ensures Pieces([], delim) == []
  {}

  lemma SplitLinesStep(lines: seq<string>, n: nat, delim: set<char>)
    requires n < |lines|
    ensures SplitLines(lines[n..], delim) == Pieces(lines[n], delim) + SplitLines(lines[n + 1..], delim)
  {
    assert lines[n..][1..] == lines[n + 1..];
  }

  /** The outer loop of split_string. */
  method Split(s: string, delim: set<char>) returns (r: seq<string>)
    ensures r == SplitString(s, delim)
  {
    hide Pieces, Lines;
    r := [];
    var lines := Lines(s);
    var n := 0;
    assert lines[0..] == lines;
    while n < |lines|
      invariant 0 <= n <= |lines|
      invariant r + SplitLines(lines[n..], delim) == SplitString(s, delim)
    {
      var v := SplitLine(lines[n], delim);
      SplitLinesStep(lines, n, delim);
      r := r + v;
      n := n + 1;
    }
    assert lines[n..] == [];
  }

  /** The loop of grid_mapfile_get_entries. */
  method ReadMapfile(text: string) returns (r: Option<GridMap>)
    ensures r == GetEntries(text)
  {
    hide Trim, Pieces, Emplace;
    var system, sys, bde := true, [], [];
    var lines := Lines(text);
    var n := 0;
    while n < |lines|
      invariant 0 <= n <= |lines|
      invariant Read(START, lines[..n]) == Some(Reading(system, sys, bde))
    {
      assert lines[..n + 1][..n] == lines[..n];
      ghost var before := Reading(system, sys, bde);
      var line := TrimLine(lines[n]);
      n := n + 1;
      if StartsWith(line, BEGIN_MARKER) { system := false; }
      if StartsWith(line, END_MARKER) { system := true; }
      if |line| == 0 || line[0] == COMMENT {
        continue;
      }
      if line[0] != QUOTE {
        Doomed(lines, n);
        return None;
      }
      var v := Split(line, {QUOTE});
      if |v| != 2 {
        Doomed(lines, n);
        return None;
      }
      var name := TrimLine(v[1]);
      if system {
        sys := Emplace(sys, Entry(v[0], name));
      } else {
        bde := Emplace(bde, Entry(v[0], name));
      }
    }
    assert lines[..n] == lines;
    return Some(GridMap(sys, bde));
  }

  lemma {:induction false} Doomed(lines: seq<string>, n: nat)
    requires n <= |lines| && Read(START, lines[..n]) == None
    ensures Read(START, lines) == None
  {
    if n < |lines| {
      assert lines[..|lines| - 1][..n] == lines[..n];
      Doomed(lines[..|lines| - 1], n);
    } else {
      assert lines[..n] == lines;
    }
  }

  /** grid_mapfile_push_entries: find the markers, erase between them, insert line by line. */
  method PushMapfile(file: Option<string>, es: seq<Entry>) returns (r: Option<string>)
    ensures r == PushEntries(file, es)
  {
    hide Quoted, Unquoted, Lines, Unlines;
    if file.None? {
      var lines := AppendRendered([BEGIN_MARKER], es);
      return Some(Unlines(lines + [END_MARKER]));
    }
    var lines := Lines(file.value);
    var b := Find(lines, BEGIN_MARKER, 0);
    if b == |lines| {
      lines := AppendRendered(lines + [BEGIN_MARKER], es);
      return Some(Unlines(lines + [END_MARKER]));
    }
    var e := Find(lines, END_MARKER, b);
    if e == |lines| {
      return None;
    }
    ghost var whole := lines;
    var rest := lines[e..];
    lines := lines[..b + 1] + rest;
    var i := 0;
    assert whole[..b + 1] + [] + rest == lines;
    while i < |es|
      invariant 0 <= i <= |es|
      invariant lines == whole[..b + 1] + Rendered(es, true)[..i] + rest
    {
      var at := b + 1 + i;
      assert lines[..at] == whole[..b + 1] + Rendered(es, true)[..i] && lines[at..] == rest;
      lines := lines[..at] + [Quoted(es[i])] + lines[at..];
      assert Rendered(es, true)[..i + 1] == Rendered(es, true)[..i] + [Quoted(es[i])];
      i := i + 1;
    }
    assert Rendered(es, true)[..i] == Rendered(es, true);
    return Some(Unlines(lines));
  }

  method AppendRendered(lines: seq<string>, es: seq<Entry>) returns (r: seq<string>)
    ensures r == lines + Rendered(es, false)
  {
    hide Unquoted;
    r := lines;
    var i := 0;
    while i < |es|
      invariant 0 <= i <= |es| && r == lines + Rendered(es, false)[..i]
    {
      assert Rendered(es, false)[..i + 1] == Rendered(es, false)[..i] + [Unquoted(es[i])];
      r := r + [Unquoted(es[i])];
      i := i + 1;
    }
    assert Rendered(es, false)[..i] == Rendered(es, false);
  }
}
