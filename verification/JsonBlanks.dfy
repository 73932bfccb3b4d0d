/** Blanks between tokens: what the reader skips, and that no text is read differently for having more of it. */
module JsonBlanks {
  import opened Collections
  import opened JsonText
  import opened JsonNumber
  import opened JsonString
  import opened JsonCodec
  import opened JsonRoundTrip

  /** Space, tab, carriage return, line feed. */
  predicate IsBlank(b: Byte) { b in {0x20, 0x09, 0x0D, 0x0A} }

  predicate Blank(g: Bytes) { forall i :: 0 <= i < |g| ==> IsBlank(g[i]) }

  /** A byte in front of a text changes nothing, whatever the text, if and only if it is one of the four blanks. */
  lemma SkippedIff(b: Byte)
    ensures (forall s :: ReadToken([b] + s) == ReadToken(s)) <==> b in {0x20, 0x09, 0x0D, 0x0A}
  {
    hide ReadToken;
    if b in {0x20, 0x09, 0x0D, 0x0A} {
      forall s
        ensures ReadToken([b] + s) == ReadToken(s)
      {
        BlanksFirst([b], s);
      }
    } else {
      BeforeBrace(b);
      assert ReadToken([b] + [LBRACE]) != ReadToken([LBRACE]);
    }
  }

  lemma BeforeBrace(b: Byte)
    requires b !in {0x20, 0x09, 0x0D, 0x0A}
    ensures ReadToken([b] + [LBRACE]) != ReadToken([LBRACE])
  {
    var s := [b] + [LBRACE];
    assert s[0] == b && s[1..] == [LBRACE];
    TokenAt(s);
    TokenAt([LBRACE]);
    assert ReadToken([LBRACE]) == Lexed(ObjectBegin, []);
  }

  lemma {:induction false} BlanksFirst(g: Bytes, s: Bytes)
    requires Blank(g)
    ensures SkipSpaces(g + s) == SkipSpaces(s) && ReadToken(g + s) == ReadToken(s)
  {
    hide ReadToken;
    SkipBlanks(g, s);
    TokenAfterSkip(s);
    TokenAfterSkip(g + s);
  }

  lemma {:induction false} SkipBlanks(g: Bytes, s: Bytes)
    requires Blank(g)
    ensures SkipSpaces(g + s) == SkipSpaces(s)
  {
    if g == [] {
      assert g + s == s;
    } else {
      assert (g + s)[0] == g[0] && (g + s)[1..] == g[1..] + s;
      SkipBlanks(g[1..], s);
    }
  }

  lemma SkipAgain(s: Bytes)
    ensures SkipSpaces(SkipSpaces(s)) == SkipSpaces(s)
  {
    var r := SkipSpaces(s);
    if r != [] {
      TokenAt(r);
    }
  }

  /** The token does not depend on the blanks before it. */
  lemma TokenAfterSkip(s: Bytes)
    ensures ReadToken(s) == ReadToken(SkipSpaces(s))
  {
    hide NumberEnd, Literal, ReadString, SkipSpaces, IsDigit;
    SkipAgain(s);
  }

  // ----- loosening a text

  /**
   The text with the blanks `gaps(n)`, `gaps(n + 1)`, ... put before its successive tokens, up to its end
   or to the first thing that is no token, where the reader stops.
   */
  function Loosen(s: Bytes, gaps: nat -> Bytes, n: nat): Bytes
    decreases |s|
  {
    var l := ReadToken(s);
    if l.token.EndOfStream? || l.token.BadToken? then gaps(n) + s
    else gaps(n) + s[..|s| - |l.rest|] + Loosen(l.rest, gaps, n + 1)
  }

  ghost predicate Blanks(gaps: nat -> Bytes) { forall n: nat :: Blank(gaps(n)) }

  /** What a loosened text starts with. */
  lemma LoosenHead(s: Bytes, gaps: nat -> Bytes, n: nat)
    requires Blanks(gaps)
    ensures var t := Loosen(s, gaps, n); t == [] || IsBlank(t[0]) || (s != [] && t[0] == s[0])
  {
    hide ReadToken;
    var g := gaps(n);
    assert Blank(g);
    if g != [] {
      assert Loosen(s, gaps, n)[0] == g[0];
    } else {
      var l := ReadToken(s);
      if l.token.EndOfStream? || l.token.BadToken? {
        assert g + s == s;
      } else {
        assert (s[..|s| - |l.rest|])[0] == s[0];
      }
    }
  }

  /** `x` may stand in the place of `rest` after a number: it starts alike, or with a blank, or is nothing. */
  predicate MayFollow(x: Bytes, rest: Bytes) { x == [] || IsBlank(x[0]) || (rest != [] && x[0] == rest[0]) }

  lemma {:induction false} ScanPrefix(r: Bytes, i: nat, k: nat, x: Bytes)
    requires i <= |r| && Scan(r, i) == Some(k)
    ensures i <= k < |r| && Scan(r[..k + 1] + x, i) == Some(k)
    decreases |r| - i
  {
    var u := r[..k + 1] + x;
    assert forall j :: 0 <= j <= k ==> u[j] == r[j];
    if r[i] == BACKSLASH {
      ScanPrefix(r, i + 2, k, x);
    } else if r[i] != QUOTE {
      ScanPrefix(r, i + 1, k, x);
    }
  }

  /** Equal up to `k`, and from there on `u` continues in a way `s` may be continued. */
  ghost predicate Alike(s: Bytes, u: Bytes, k: nat) {
    && k <= |s| && k <= |u| && (forall j :: 0 <= j < k ==> u[j] == s[j])
    && (k < |u| ==> IsBlank(u[k]) || (k < |s| && u[k] == s[k]))
  }

  lemma DigitsAlike(s: Bytes, u: Bytes, i: nat, k: nat)
    requires Alike(s, u, k) && i <= k && DigitsEnd(s, i) <= k
    ensures DigitsEnd(u, i) == DigitsEnd(s, i)
  {
    hide DigitsEnd;
    DigitsEndAt(u, i, DigitsEnd(s, i));
  }

  lemma FractionAlike(s: Bytes, u: Bytes, a: nat, k: nat)
    requires Alike(s, u, k) && a <= k && FractionEnd(s, a) <= k
    ensures FractionEnd(u, a) == FractionEnd(s, a)
  {
    if a < k && s[a] == 0x2E {
      DigitsAlike(s, u, a + 1, k);
    }
  }

  lemma ExponentAlike(s: Bytes, u: Bytes, b: nat, k: nat)
    requires Alike(s, u, k) && b <= k && ExponentEnd(s, b) == k
    ensures ExponentEnd(u, b) == k
  {
    hide DigitsEnd;
    if b < k {
      var signed := b + 1 < |s| && (s[b + 1] == 0x2B || s[b + 1] == MINUS);
      DigitsAlike(s, u, if signed then b + 2 else b + 1, k);
    }
  }

  lemma NumberAlike(s: Bytes, u: Bytes, k: nat)
    requires s != [] && u != [] && NumberEnd(s) == k && Alike(s, u, k)
    ensures NumberEnd(u) == k
  {
    hide DigitsEnd, FractionEnd, ExponentEnd, Alike;
    var a := DigitsEnd(s, 1);
    var b := FractionEnd(s, a);
    assert 1 <= a <= b <= k;
    DigitsAlike(s, u, 1, k);
    FractionAlike(s, u, a, k);
    ExponentAlike(s, u, b, k);
  }

  /** A token that starts the text stays the same token when only what follows is changed. */
  lemma TokenKept(s: Bytes, x: Bytes)
    requires s != [] && !IsSpace(s[0])
    requires var l := ReadToken(s); !l.token.EndOfStream? && !l.token.BadToken? && MayFollow(x, l.rest)
    ensures var l := ReadToken(s); ReadToken(s[..|s| - |l.rest|] + x) == Lexed(l.token, x)
  {
    hide SkipSpaces, NumberEnd, ReadString, IsSpace, Literal, MayFollow;
    var l := ReadToken(s);
    var core := s[..|s| - |l.rest|];
    var u := core + x;
    assert core != [] && u[0] == s[0];
    TokenAt(s);
    TokenAt(u);
    var c := s[0];
    if c == QUOTE {
      StringKept(s, x);
    } else if IsDigit(c) || c == MINUS {
      NumberKept(s, x);
    } else if c == TEXT_TRUE[0] {
      LiteralKept(s, TEXT_TRUE, TrueToken, x);
    } else if c == TEXT_FALSE[0] {
      LiteralKept(s, TEXT_FALSE, FalseToken, x);
    } else if c == TEXT_NULL[0] {
      LiteralKept(s, TEXT_NULL, NullToken, x);
    } else {
      assert core == [c] && u[1..] == x;
    }
  }

  lemma StringKept(s: Bytes, x: Bytes)
    requires s != [] && s[0] == QUOTE && !ReadString(s[1..]).token.BadToken?
    ensures var l := ReadString(s[1..]);
            |l.rest| < |s| && ReadString((s[..|s| - |l.rest|] + x)[1..]) == Lexed(l.token, x)
  {
    hide Scan;
    var r := s[1..];
    var k := Scan(r, 0).value;
    ScanPrefix(r, 0, k, x);
    var u := s[..|s| - |r[k + 1..]|] + x;
    assert u[1..] == r[..k + 1] + x;
    assert u[1..][..k] == r[..k] && u[1..][k + 1..] == x;
  }

  lemma NumberKept(s: Bytes, x: Bytes)
    requires s != [] && MayFollow(x, s[NumberEnd(s)..])
    ensures var k := NumberEnd(s);
            var u := s[..k] + x;
            u != [] && NumberEnd(u) == k && u[..k] == s[..k] && u[k..] == x
  {
    hide NumberEnd;
    var k := NumberEnd(s);
    var u := s[..k] + x;
    assert k < |s| ==> s[k..][0] == s[k];
    NumberAlike(s, u, k);
  }

  lemma LiteralKept(s: Bytes, text: Bytes, t: Token, x: Bytes)
    requires s != [] && text != [] && s[0] == text[0] && !t.BadToken? && !Literal(s, text, t).token.BadToken?
    ensures var l := Literal(s, text, t);
            var u := s[..|s| - |l.rest|] + x;
            |l.rest| < |s| && u != [] && u[0] == text[0] && Literal(u, text, t) == Lexed(t, x) && l.token == t
  {
    var u := s[..|text|] + x;
    assert |s| - |s[|text|..]| == |text|;
    assert u[..|text|] == text && u[|text|..] == x;
  }

  /** Loosening changes no token, and what is left after a token is what is left of the text, loosened. */
  lemma LoosenToken(s: Bytes, gaps: nat -> Bytes, n: nat)
    requires Blanks(gaps)
    ensures var l, t := ReadToken(s), ReadToken(Loosen(s, gaps, n));
            && t.token == l.token
            && (l.token.EndOfStream? || l.token.BadToken? || t.rest == Loosen(l.rest, gaps, n + 1))
  {
    hide ReadToken;
    var l := ReadToken(s);
    assert Blank(gaps(n));
    if l.token.EndOfStream? || l.token.BadToken? {
      BlanksFirst(gaps(n), s);
    } else {
      var x := Loosen(l.rest, gaps, n + 1);
      var all := s[..|s| - |l.rest|];
      LoosenHead(l.rest, gaps, n + 1);
      AfterBlanks(s, x);
      assert gaps(n) + all + x == gaps(n) + (all + x);
      BlanksFirst(gaps(n), all + x);
    }
  }

  /** The same with blanks before the token. */
  lemma {:induction false} AfterBlanks(s: Bytes, x: Bytes)
    requires var l := ReadToken(s); !l.token.EndOfStream? && !l.token.BadToken? && MayFollow(x, l.rest)
    ensures var l := ReadToken(s); ReadToken(s[..|s| - |l.rest|] + x) == Lexed(l.token, x)
    decreases |s|
  {
    hide ReadToken, MayFollow;
    NothingRead();
    var l := ReadToken(s);
    if IsSpace(s[0]) {
      var b := [s[0]];
      assert Blank(b) && s == b + s[1..];
      BlanksFirst(b, s[1..]);
      AfterBlanks(s[1..], x);
      var u := s[1..][..|s| - 1 - |l.rest|] + x;
      assert s[..|s| - |l.rest|] + x == b + u;
      BlanksFirst(b, u);
    } else {
      TokenKept(s, x);
    }
  }

  lemma NothingRead()
    ensures ReadToken([]).token.EndOfStream?
  {}

  // ----- reading a loosened text

  /** The same outcome, with the rest of the text loosened from some gap on. */
  ghost predicate Agrees<T>(r: Read<T>, t: Read<T>, gaps: nat -> Bytes, m: nat) {
    match r
    case Done(v, rest) => t == Done(v, Loosen(rest, gaps, m))
    case _ => t == r
  }

  /** The blanks before the first item make no difference to the items. */
  lemma SkipItems(s: Bytes, d: nat)
    ensures ReadItems(SkipSpaces(s), d) == ReadItems(s, d)
  {
    hide ReadToken, SkipSpaces, ReadMembers;
    TokenAfterSkip(s);
    SkipValue(s, d);
  }

  lemma SkipValue(s: Bytes, d: nat)
    ensures ReadValue(SkipSpaces(s), d) == ReadValue(s, d)
  {
    hide ReadToken, SkipSpaces, ReadMembers, ReadItems, Unescape, NumberValue;
    TokenAfterSkip(s);
  }

  /** An array ends at once exactly when its next token is the closing bracket. */
  lemma EndsAtOnce(s: Bytes)
    ensures var r := SkipSpaces(s);
            (r != [] && r[0] == RBRACKET) <==> ReadToken(s).token.ArrayEnd?
    ensures ReadToken(s).token.ArrayEnd? ==> ReadToken(s).rest == SkipSpaces(s)[1..]
  {
    hide SkipSpaces;
  }

  lemma {:induction false} ReadLoosened(s: Bytes, d: nat, gaps: nat -> Bytes, n: nat) returns (m: nat)
    requires Blanks(gaps)
    ensures Agrees(ReadValue(s, d), ReadValue(Loosen(s, gaps, n), d), gaps, m)
    decreases |s|, 1
  {
    hide ReadToken, SkipSpaces, ReadMembers, ReadItems, Unescape, NumberValue, Loosen;
    m := n + 1;
    if d < STACK_LIMIT {
      var l := ReadToken(s);
      LoosenToken(s, gaps, n);
      match l.token
      case ObjectBegin => m := MembersLoosened(l.rest, d + 1, [], [], gaps, n + 1);
      case ArrayBegin =>
        var x := Loosen(l.rest, gaps, n + 1);
        EndsAtOnce(l.rest);
        EndsAtOnce(x);
        LoosenToken(l.rest, gaps, n + 1);
        if ReadToken(l.rest).token.ArrayEnd? {
          m := n + 2;
        } else {
          SkipItems(l.rest, d + 1);
          SkipItems(x, d + 1);
          m := ItemsLoosened(l.rest, d + 1, gaps, n + 1);
        }
      case _ =>
    }
  }

  lemma {:induction false} ItemsLoosened(s: Bytes, d: nat, gaps: nat -> Bytes, n: nat) returns (m: nat)
    requires Blanks(gaps)
    ensures Agrees(ReadItems(s, d), ReadItems(Loosen(s, gaps, n), d), gaps, m)
    decreases |s|, 2
  {
    hide ReadToken, ReadValue, Loosen;
    m := ReadLoosened(s, d, gaps, n);
    var r := ReadValue(s, d);
    if r.Done? {
      var l := ReadToken(r.rest);
      LoosenToken(r.rest, gaps, m);
      m := m + 1;
      if l.token.Separator? {
        m := ItemsLoosened(l.rest, d, gaps, m);
      }
    }
  }

  lemma {:induction false} MembersLoosened(s: Bytes, d: nat, name: Bytes, ms: seq<Member>, gaps: nat -> Bytes, n: nat)
    returns (m: nat)
    requires Blanks(gaps)
    ensures Agrees(ReadMembers(s, d, name, ms), ReadMembers(Loosen(s, gaps, n), d, name, ms), gaps, m)
    decreases |s|, 2
  {
    hide ReadToken, ReadValue, Loosen, Unescape, Insert;
    var l := ReadToken(s);
    LoosenToken(s, gaps, n);
    m := n + 1;
    if l.token.StringToken? && Unescape(l.token.body).Some? {
      var key := Unescape(l.token.body).value;
      var c := ReadToken(l.rest);
      LoosenToken(l.rest, gaps, n + 1);
      if c.token.MemberSeparator? {
        m := ReadLoosened(c.rest, d, gaps, n + 2);
        var v := ReadValue(c.rest, d);
        if v.Done? {
          var e := ReadToken(v.rest);
          LoosenToken(v.rest, gaps, m);
          m := m + 1;
          if e.token.Separator? {
            m := MembersLoosened(e.rest, d, key, Insert(ms, Member(key, v.value)), gaps, m);
          }
        }
      }
    }
  }

  /** Whatever the text, and whether or not it is accepted: more blanks between its tokens do not change the answer. */
  lemma BlanksDoNotMatter(s: Bytes, gaps: nat -> Bytes)
    requires forall n: nat :: Blank(gaps(n))
    ensures Parse(Loosen(s, gaps, 0)) == Parse(s)
  {
    hide ReadValue, Loosen;
    var m := ReadLoosened(s, 0, gaps, 0);
  }

  /** A written value with any blanks between its tokens is read as what was written. */
  lemma SpacedRoundTrip(v: Value, gaps: nat -> Bytes)
    requires Sendable(v) && forall n: nat :: Blank(gaps(n))
    ensures Parse(Loosen(Write(v) + [NEWLINE], gaps, 0)) == if Depth(v) <= 1000 then Parsed(Retag(v)) else Thrown
  {
    hide Parse, Loosen, Sendable, Depth, Retag, Write;
    BlanksDoNotMatter(WriteDocument(v), gaps);
    RoundTrip(v);
  }
}
