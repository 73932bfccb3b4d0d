/** What a push leaves in the grid-mapfile, line by line and with the markers written out. */
module MapfilePush {
  import opened Collections
  import opened GridMapfile
  import Texts

  ghost predicate AllOneLined(es: seq<Entry>) { forall i :: 0 <= i < |es| ==> OneLined(es[i]) }

  /** The old lines in order, then `begin`, one line per entry in order, and `end`. */
  ghost predicate Extended(was: seq<string>, now: seq<string>, begin: string, es: seq<Entry>, end: string) {
    && |now| == |was| + 1 + |es| + 1 && now[..|was|] == was && now[|was|] == begin
    && (forall i :: 0 <= i < |es| ==> now[|was| + 1 + i] == es[i].dn + " " + es[i].name)
    && now[|was| + 1 + |es|] == end
  }

  lemma AppendedExtends(lines: seq<string>, es: seq<Entry>, begin: string, end: string)
    ensures Extended(lines, lines + [begin] + Rendered(es, false) + [end], begin, es, end)
  {
    hide Rendered;
    var r := Rendered(es, false);
    Laid(lines, begin, r, end);
    assert forall i :: 0 <= i < |es| ==> r[i] == Unquoted(es[i]);
  }

  lemma Laid(a: seq<string>, x: string, b: seq<string>, y: string)
    ensures var all := a + [x] + b + [y];
            && |all| == |a| + 1 + |b| + 1 && all[..|a|] == a && all[|a|] == x
            && (forall i :: 0 <= i < |b| ==> all[|a| + 1 + i] == b[i]) && all[|a| + 1 + |b|] == y
  {}

  /**
   A file without a section, or no file at all: the old lines stay in order, and after them come the
   begin marker, one line per entry in order, and the end marker.
   */
  lemma FirstPushLines(file: Option<string>, es: seq<Entry>)
    requires AllOneLined(es) && (file.Some? ==> "## BEGIN-BDE-SECTION" !in Lines(file.value))
    ensures PushEntries(file, es).Some?
    ensures Extended(if file.Some? then Lines(file.value) else [], Lines(PushEntries(file, es).value),
                     "## BEGIN-BDE-SECTION", es, "## END-BDE-SECTION")
  {
    hide Lines, Unlines, Rendered, PushEntries, Extended;
    FirstPushIs(file, es);
    AppendedExtends(if file.Some? then Lines(file.value) else [], es, BEGIN_MARKER, END_MARKER);
  }

  lemma FirstPushIs(file: Option<string>, es: seq<Entry>)
    requires AllOneLined(es) && (file.Some? ==> BEGIN_MARKER !in Lines(file.value))
    ensures PushEntries(file, es).Some?
    ensures Lines(PushEntries(file, es).value) == Appended(if file.None? then [] else Lines(file.value), es)
  {
    hide Lines, Unlines, Find, Rendered, OneLined;
    var lines := if file.None? then [] else Lines(file.value);
    if file.None? {
      NothingBefore(es);
    } else {
      NoMarker(lines);
    }
    AppendedOneLined(lines, es);
    LinesUnlines(Appended(lines, es));
  }

  /**
   A file with a begin marker at line `b`, the first, and an end marker at line `e`, the first from
   there on: the lines between the two are replaced, one quoted line per entry in order.
   */
  lemma LaterPushLines(text: string, es: seq<Entry>, b: nat, e: nat)
    requires AllOneLined(es)
    requires b < e < |Lines(text)| && Lines(text)[b] == "## BEGIN-BDE-SECTION" && Lines(text)[e] == "## END-BDE-SECTION"
    requires "## BEGIN-BDE-SECTION" !in Lines(text)[..b] && "## END-BDE-SECTION" !in Lines(text)[b..e]
    ensures PushEntries(Some(text), es).Some?
    ensures var was, now := Lines(text), Lines(PushEntries(Some(text), es).value);
            && |now| == b + 1 + |es| + (|was| - e) && now[..b + 1] == was[..b + 1]
            && (forall i :: 0 <= i < |es| ==> now[b + 1 + i] == "\"" + es[i].dn + "\"" + " " + es[i].name)
            && now[b + 1 + |es|..] == was[e..]
  {
    hide Lines, Unlines, Find, Rendered, OneLined, Pushed;
    var lines := Lines(text);
    SectionFound(lines, es, b, e);
    Replaced(lines, es, b, e);
    LinesUnlines(lines[..b + 1] + Rendered(es, true) + lines[e..]);
  }

  lemma SectionFound(lines: seq<string>, es: seq<Entry>, b: nat, e: nat)
    requires b < e < |lines| && lines[b] == BEGIN_MARKER && lines[e] == END_MARKER
    requires BEGIN_MARKER !in lines[..b] && END_MARKER !in lines[b..e]
    ensures Pushed(lines, es) == Some(lines[..b + 1] + Rendered(es, true) + lines[e..])
  {
    hide Find, Rendered;
    Apart(lines, BEGIN_MARKER, 0, b);
    FindAt(lines, BEGIN_MARKER, 0, b);
    Apart(lines, END_MARKER, b, e);
    FindAt(lines, END_MARKER, b, e);
  }

  lemma Apart(lines: seq<string>, line: string, b: nat, e: nat)
    requires b <= e <= |lines| && line !in lines[b..e]
    ensures forall i :: b <= i < e ==> lines[i] != line
  {
    assert forall i :: b <= i < e ==> lines[i] == lines[b..e][i - b];
  }

  lemma Replaced(lines: seq<string>, es: seq<Entry>, b: nat, e: nat)
    requires b < e < |lines| && (forall i :: 0 <= i < |lines| ==> '\n' !in lines[i]) && AllOneLined(es)
    ensures var now := lines[..b + 1] + Rendered(es, true) + lines[e..];
            && |now| == b + 1 + |es| + (|lines| - e) && now[..b + 1] == lines[..b + 1] && now[b + 1 + |es|..] == lines[e..]
            && (forall i :: 0 <= i < |es| ==> now[b + 1 + i] == "\"" + es[i].dn + "\"" + " " + es[i].name)
            && forall i :: 0 <= i < |now| ==> '\n' !in now[i]
  {
    hide Rendered;
    var now := lines[..b + 1] + Rendered(es, true) + lines[e..];
    forall i | 0 <= i < |now|
      ensures '\n' !in now[i]
    {
      if b < i <= b + |es| {
        assert now[i] == Quoted(es[i - b - 1]);
      } else if i <= b {
        assert now[i] == lines[i];
      } else {
        assert now[i] == lines[i - b - 1 - |es| + e];
      }
    }
  }

  /** A begin marker without an end marker after it: nothing is written. */
  lemma NoEndThrows(text: string, es: seq<Entry>, b: nat)
    requires b < |Lines(text)| && Lines(text)[b] == "## BEGIN-BDE-SECTION" && "## BEGIN-BDE-SECTION" !in Lines(text)[..b]
    requires "## END-BDE-SECTION" !in Lines(text)[b..]
    ensures PushEntries(Some(text), es).None?
  {
    hide Lines, Find;
    var lines := Lines(text);
    Apart(lines, BEGIN_MARKER, 0, b);
    FindAt(lines, BEGIN_MARKER, 0, b);
    Apart(lines, END_MARKER, b, |lines|);
  }

  // ----- what the reader makes of it

  predicate Begins(line: string) { StartsWith(Trim(line), "## BEGIN-BDE-SECTION") }

  predicate Ends(line: string) { StartsWith(Trim(line), "## END-BDE-SECTION") }

  /** After these lines of a section, the reader believes itself outside again. */
  ghost predicate Escaped(lines: seq<string>) {
    exists j :: 0 <= j < |lines| && Ends(lines[j]) && forall k :: j < k < |lines| ==> !Begins(lines[k])
  }

  /** Line `i` of a section holds an entry that the reader takes for a system entry. */
  ghost predicate Strays(lines: seq<string>, i: nat) {
    i < |lines| && Escaped(lines[..i]) && Trim(lines[i]) != [] && Trim(lines[i])[0] == '\"'
  }

  lemma EmplaceLonger(m: seq<Entry>, e: Entry)
    ensures |Emplace(m, e)| == |m| + 1
  {}

  lemma NotBoth(line: string)
    ensures !(Begins(line) && Ends(line))
  {
    assert Begins(line) ==> |Trim(line)| > 3 && Trim(line)[3] == 'B';
    assert Ends(line) ==> |Trim(line)| > 3 && Trim(line)[3] == 'E';
  }

  lemma EscapedNext(lines: seq<string>)
    requires lines != []
    ensures Escaped(lines) <==> Ends(lines[|lines| - 1]) || (Escaped(lines[..|lines| - 1]) && !Begins(lines[|lines| - 1]))
  {
    hide Ends, Begins;
    var n := |lines| - 1;
    NotBoth(lines[n]);
    if Escaped(lines) {
      var j :| 0 <= j < |lines| && Ends(lines[j]) && forall k :: j < k < |lines| ==> !Begins(lines[k]);
      if j < n {
        assert lines[..n][j] == lines[j];
      }
    }
    if Escaped(lines[..n]) && !Begins(lines[n]) {
      var j :| 0 <= j < n && Ends(lines[..n][j]) && forall k :: j < k < n ==> !Begins(lines[..n][k]);
      assert forall k :: j < k < n ==> lines[k] == lines[..n][k];
    }
  }

  /** Inside a section, the system entries stay as they are if and only if no line strays. */
  lemma {:induction false} ReadInside(st: Reading, lines: seq<string>)
    requires !st.system && Read(st, lines).Some?
    ensures var r := Read(st, lines).value;
            && (r.system <==> Escaped(lines)) && (r.sys == st.sys || |st.sys| < |r.sys|)
            && (r.sys == st.sys <==> forall i :: 0 <= i < |lines| ==> !Strays(lines, i))
  {
    hide Escaped, Trim, Emplace, StartsWith, Parse;
    if lines == [] {
      NeverEscaped();
    } else {
      var n := |lines| - 1;
      var init := lines[..n];
      ReadInside(st, init);
      EscapedNext(lines);
      FeedInside(Read(st, init).value, lines[n]);
      forall i | 0 <= i < n
        ensures Strays(init, i) <==> Strays(lines, i)
      {
        assert init[..i] == lines[..i];
      }
      assert (forall i :: 0 <= i < |lines| ==> !Strays(lines, i))
        <==> (forall i :: 0 <= i < n ==> !Strays(init, i)) && !Strays(lines, n);
    }
  }

  lemma NeverEscaped()
    ensures !Escaped([])
  {}

  lemma FeedInside(st: Reading, line: string)
    requires Feed(st, line).Some?
    ensures var r := Feed(st, line).value;
            && (r.system <==> Ends(line) || (st.system && !Begins(line))) && (r.sys == st.sys || |st.sys| < |r.sys|)
            && (r.sys == st.sys <==> !(st.system && Trim(line) != [] && Trim(line)[0] == '\"'))
  {
    hide Trim, Emplace;
    var t := Trim(line);
    if Parse(t).Holds? {
      EmplaceLonger(st.sys, Parse(t).entry);
    }
  }

  /** What the harmless entries of a first push, as lines of the new section, may still do. */
  lemma HarmlessHolds(lines: seq<string>, es: seq<Entry>)
    requires AllOneLined(es) && (forall i :: 0 <= i < |es| ==> Harmless(es[i]))
    requires Read(START, lines).Some?
    ensures var st, all := Read(START, lines), Read(START, Appended(lines, es));
            && all.Some?
            && (all.value.sys == st.value.sys <==> forall i :: 0 <= i < |es| ==> !Strays(Rendered(es, false), i))
  {
    hide Read, Rendered, Strays, Harmless, OneLined;
    AppendedReads(lines, es);
    var r, st := Rendered(es, false), Read(START, lines).value;
    var front := lines + [BEGIN_MARKER];
    ReadConcat(START, lines, [BEGIN_MARKER]);
    MarkerLines(st);
    ReadConcat(START, front, r);
    ReadConcat(START, front + r, [END_MARKER]);
    var mid := Read(st.(system := false), r);
    ReadInside(st.(system := false), r);
    MarkerLines(mid.value);
  }

  /**
   A first push of harmless entries leaves a readable file. Its system entries are the old ones, or
   none for a new file, if and only if no line of the new section strays.
   */
  lemma FirstPushKeepsSystemIff(file: Option<string>, es: seq<Entry>)
    requires AllOneLined(es) && (forall i :: 0 <= i < |es| ==> Harmless(es[i]))
    requires file.Some? ==> GetEntries(file.value).Some? && "## BEGIN-BDE-SECTION" !in Lines(file.value)
    ensures PushEntries(file, es).Some? && GetEntries(PushEntries(file, es).value).Some?
    ensures var was := if file.Some? then GetEntries(file.value).value.system else [];
            var written := seq(|es|, i requires 0 <= i < |es| => es[i].dn + " " + es[i].name);
            GetEntries(PushEntries(file, es).value).value.system == was <==> forall i :: 0 <= i < |es| ==> !Strays(written, i)
  {
    hide Lines, Read, Rendered, Strays, Harmless, OneLined, PushEntries, Appended;
    var lines := if file.Some? then Lines(file.value) else [];
    FirstPushIs(file, es);
    StartReads();
    HarmlessHolds(lines, es);
    assert Rendered(es, false) == seq(|es|, i requires 0 <= i < |es| => es[i].dn + " " + es[i].name);
  }

  lemma StartReads()
    ensures Read(START, []) == Some(START)
  {}

  /** In particular nothing strays while no entry looks like the end marker. */
  lemma NoEndNoStray(lines: seq<string>)
    requires forall i :: 0 <= i < |lines| ==> !Ends(lines[i])
    ensures forall i :: 0 <= i < |lines| ==> !Strays(lines, i)
  {
    hide Ends;
    forall i | 0 <= i < |lines|
      ensures !Escaped(lines[..i])
    {
      assert forall j :: 0 <= j < i ==> lines[..i][j] == lines[j];
    }
  }

  /** Such entries exist, in the order of their names: the second is read as a system entry of the site. */
  lemma StrayEntry()
    ensures var es := [Entry([' '] + "## END-BDE-SECTION", "x"), Entry("\"a\"", "b")];
            && Keyed(es) && AllOneLined(es) && (forall i :: 0 <= i < |es| ==> Harmless(es[i]))
            && Strays([Unquoted(es[0]), Unquoted(es[1])], 1)
  {
    hide Harmless, Strays, Unquoted, Trim, OneLined;
    var e, f := Entry([' '] + "## END-BDE-SECTION", "x"), Entry("\"a\"", "b");
    EndEntry(e);
    QuotedEntry(f);
    assert Texts.AtMost(e.dn, f.dn);
    StrayPair(Unquoted(e), Unquoted(f));
  }

  lemma EndEntry(e: Entry)
    requires e == Entry([' '] + "## END-BDE-SECTION", "x")
    ensures Harmless(e) && OneLined(e) && Ends(Unquoted(e))
  {
    hide Harmless, OneLined, Unquoted, Trim, StartsWith;
    CommentEntry("## END-BDE-SECTION", e);
  }

  lemma CommentEntry(m: string, e: Entry)
    requires m != [] && m[0] == COMMENT && '\n' !in m && e == Entry([' '] + m, "x")
    ensures Harmless(e) && OneLined(e) && StartsWith(Trim(Unquoted(e)), m)
  {
    var l := Unquoted(e);
    assert l[1..] == m + " x";
    assert TrimLeft(l) == l[1..];
    TrimIdle(l[1..]);
  }

  lemma QuotedEntry(e: Entry)
    requires e == Entry("\"a\"", "b")
    ensures Harmless(e) && OneLined(e) && Trim(Unquoted(e)) != [] && Trim(Unquoted(e))[0] == '\"'
  {
    var l := Unquoted(e);
    TrimIdle(l);
    assert l == ['\"'] + "a" + ['\"'] + " b";
    QuotedPieces("a", " b");
  }

  lemma StrayPair(x: string, y: string)
    requires Ends(x) && Trim(y) != [] && Trim(y)[0] == '\"'
    ensures Strays([x, y], 1)
  {
    hide Ends, Trim;
    assert [x, y][..1] == [x];
    assert [x][0] == x;
  }

  // ----- trimming and the order of entries

  predicate IsBlank(c: char) { c == ' ' || '\t' <= c <= '\r' }

  /** Trimming cuts off all blanks, tabs, line and page ends at both ends, and nothing else. */
  lemma TrimCuts(s: string) returns (i: nat, j: nat)
    ensures i <= j <= |s| && Trim(s) == s[i..j] && (i < j ==> !IsBlank(s[i]) && !IsBlank(s[j - 1]))
    ensures forall k :: 0 <= k < i || j <= k < |s| ==> IsBlank(s[k])
  {
    hide Trim, IsSpace;
    i, j := TrimMeaning(s);
    forall c: char
      ensures IsSpace(c) == IsBlank(c)
    {
      SpaceIsBlank(c);
    }
  }

  lemma SpaceIsBlank(c: char)
    ensures IsSpace(c) == IsBlank(c)
  {
    if IsBlank(c) && c != ' ' {
      assert 9 <= c as int <= 13;
      assert c == c as int as char;
    }
  }

  /** An entry goes after those with a name not above its own, and before all others: equal names stay in order of arrival. */
  lemma {:induction false} EmplaceAt(m: seq<Entry>, e: Entry) returns (k: nat)
    requires Keyed(m)
    ensures k <= |m| && Emplace(m, e) == m[..k] + [e] + m[k..]
    ensures forall i :: 0 <= i < k ==> Texts.AtMost(m[i].dn, e.dn)
    ensures forall i :: k <= i < |m| ==> !Texts.AtMost(m[i].dn, e.dn)
  {
    hide Texts.AtMost;
    if m == [] || Texts.AtMost(m[|m| - 1].dn, e.dn) {
      k := |m|;
      forall i | 0 <= i < |m|
        ensures Texts.AtMost(m[i].dn, e.dn)
      {
        if i < |m| - 1 {
          Texts.AtMostTransitive(m[i].dn, m[|m| - 1].dn, e.dn);
        }
      }
      assert m[..k] + [e] + m[k..] == m + [e];
    } else {
      var init := m[..|m| - 1];
      k := EmplaceAt(init, e);
      LastMoved(m, k, e);
      assert forall i :: 0 <= i < |m| - 1 ==> m[i] == init[i];
    }
  }

  lemma LastMoved(m: seq<Entry>, k: nat, e: Entry)
    requires m != [] && k < |m|
    ensures m[..k] + [e] + m[k..] == (m[..|m| - 1][..k] + [e] + m[..|m| - 1][k..]) + [m[|m| - 1]]
  {
    var init := m[..|m| - 1];
    assert m[..k] == init[..k] && m[k..] == init[k..] + [m[|m| - 1]];
  }
}
