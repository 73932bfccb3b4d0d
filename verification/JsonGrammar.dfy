/** The reader's and writer's tables written out: escapes, hexadecimal digits, numbers, and the order of members. */
module JsonGrammar {
  import opened Collections
  import opened JsonText
  import opened JsonNumber
  import opened JsonString
  import opened JsonCodec
  import opened JsonRoundTrip
  import opened JsonReading

  // ----- members

  /** The order of keys is ascending: a proper prefix, or the smaller byte where the two first differ. */
  lemma {:induction false} LessMeaning(a: Bytes, b: Bytes)
    ensures Less(a, b) <==> a < b || exists k :: 0 <= k < |a| && k < |b| && a[..k] == b[..k] && a[k] < b[k]
  {
    if a != [] && b != [] && a[0] == b[0] {
      LessMeaning(a[1..], b[1..]);
      assert a == [a[0]] + a[1..] && b == [b[0]] + b[1..];
      assert a < b <==> a[1..] < b[1..];
      if k :| 0 <= k < |a[1..]| && k < |b[1..]| && a[1..][..k] == b[1..][..k] && a[1..][k] < b[1..][k] {
        assert a[..k + 1] == [a[0]] + a[1..][..k] && b[..k + 1] == [b[0]] + b[1..][..k];
        assert a[k + 1] < b[k + 1];
      }
      if k :| 0 <= k < |a| && k < |b| && a[..k] == b[..k] && a[k] < b[k] {
        assert k > 0 && a[1..][..k - 1] == a[..k][1..] && b[1..][..k - 1] == b[..k][1..];
        assert a[1..][k - 1] < b[1..][k - 1];
      }
    } else if a != [] && b != [] {
      if k :| 0 <= k < |a| && k < |b| && a[..k] == b[..k] && a[k] < b[k] {
        if k > 0 { SameStart(a, b, k); }
      }
      assert a[..0] == b[..0];
    }
  }

  lemma SameStart(a: Bytes, b: Bytes, k: nat)
    requires 0 < k <= |a| && k <= |b| && a[..k] == b[..k]
    ensures a[0] == b[0]
  {
    assert a[..k][0] == b[..k][0];
  }

  /** Of two members with one name the later wins, and no other member is touched. */
  lemma {:induction false} InsertMeaning(ms: seq<Member>, m: Member)
    requires KeysSorted(ms)
    ensures KeysSorted(Insert(ms, m))
    ensures forall x :: x in Insert(ms, m) <==> x == m || (x in ms && x.key != m.key)
  {
    hide KeysSorted;
    InsertSorted(ms, m);
    if ms != [] {
      SortedApart(ms);
      assert forall x :: x in ms <==> x == ms[0] || x in ms[1..];
      if Less(m.key, ms[0].key) {
        AboveApart(ms, m.key);
      } else if m.key != ms[0].key {
        InsertMeaning(ms[1..], m);
      }
    }
  }

  lemma SortedApart(ms: seq<Member>)
    requires KeysSorted(ms) && ms != []
    ensures KeysSorted(ms[1..]) && forall x :: x in ms[1..] ==> x.key != ms[0].key
  {
    hide Less;
    forall j | 1 <= j < |ms|
      ensures ms[j].key != ms[0].key
    {
      LessAsymmetric(ms[0].key, ms[j].key);
    }
  }

  lemma AboveApart(ms: seq<Member>, key: Bytes)
    requires KeysSorted(ms) && ms != [] && Less(key, ms[0].key)
    ensures forall x :: x in ms ==> x.key != key
  {
    hide Less;
    forall j | 0 <= j < |ms|
      ensures ms[j].key != key
    {
      if j > 0 {
        LessTransitive(key, ms[0].key, ms[j].key);
      }
      LessAsymmetric(key, ms[j].key);
    }
  }

  // ----- symbols and words

  /** The six structural characters, whatever follows. */
  lemma Symbols(s: Bytes)
    ensures ReadToken([0x7B] + s) == Lexed(ObjectBegin, s) && ReadToken([0x7D] + s) == Lexed(ObjectEnd, s)
    ensures ReadToken([0x5B] + s) == Lexed(ArrayBegin, s) && ReadToken([0x5D] + s) == Lexed(ArrayEnd, s)
    ensures ReadToken([0x2C] + s) == Lexed(Separator, s) && ReadToken([0x3A] + s) == Lexed(MemberSeparator, s)
  {
    hide ReadToken;
    SymbolRead(0x7B, ObjectBegin, s);
    SymbolRead(0x7D, ObjectEnd, s);
    SymbolRead(0x5B, ArrayBegin, s);
    SymbolRead(0x5D, ArrayEnd, s);
    SymbolRead(0x2C, Separator, s);
    SymbolRead(0x3A, MemberSeparator, s);
  }

  /** The three words, whatever follows. */
  lemma Words(s: Bytes)
    ensures ReadToken([0x74, 0x72, 0x75, 0x65] + s) == Lexed(TrueToken, s)
    ensures ReadToken([0x66, 0x61, 0x6C, 0x73, 0x65] + s) == Lexed(FalseToken, s)
    ensures ReadToken([0x6E, 0x75, 0x6C, 0x6C] + s) == Lexed(NullToken, s)
  {
    hide ReadToken;
    WordRead(Bool(true), s);
    WordRead(Bool(false), s);
    WordRead(Null, s);
  }

  /** What may start a token besides: a quote, a digit, a minus; and a zero byte, which ends the text. */
  predicate StartsToken(b: Byte) {
    0x30 <= b <= 0x39 || b in {0x7B, 0x7D, 0x5B, 0x5D, 0x2C, 0x3A, 0x22, 0x2D, 0x74, 0x66, 0x6E}
  }

  /** Nothing else starts one. */
  lemma NoToken(b: Byte, s: Bytes)
    requires b !in {0x20, 0x09, 0x0D, 0x0A}
    ensures !StartsToken(b) ==> ReadToken([b] + s).token == if b == 0 then EndOfStream else BadToken
    ensures StartsToken(b) ==> !ReadToken([b] + s).token.EndOfStream?
  {
    hide NumberEnd, SkipSpaces;
    var t := [b] + s;
    assert t[0] == b;
    TokenAt(t);
  }

  // ----- strings

  /** The two-character escapes of section 7 of RFC 8259: the character after the backslash, and what it stands for. */
  const ESCAPES: map<Byte, Byte> :=
    map[0x22 := 0x22, 0x5C := 0x5C, 0x2F := 0x2F, 0x62 := 0x08, 0x66 := 0x0C, 0x6E := 0x0A, 0x72 := 0x0D, 0x74 := 0x09]

  /** Every escape of the table is read, before any tail; a backslash before anything else but `u` is refused. */
  lemma EscapesRead(c: Byte, tail: Bytes)
    requires c != 0x75
    ensures Unescape([0x5C, c] + tail) == if c in ESCAPES then Prepend([ESCAPES[c]], Unescape(tail)) else None
  {
    var s := [0x5C, c] + tail;
    assert s[0] == BACKSLASH && s[1] == c && s[2..] == tail;
  }

  /** The writer uses the table for what it must escape, a solidus excepted, and four digits for other control bytes. */
  lemma EscapesWritten(b: Byte)
    ensures (exists c :: c in ESCAPES && c != 0x2F && EscapeByte(b) == [0x5C, c] && ESCAPES[c] == b)
       <==> b in {0x22, 0x5C, 0x08, 0x0C, 0x0A, 0x0D, 0x09}
    ensures b >= 0x20 && b != 0x22 && b != 0x5C ==> EscapeByte(b) == [b]
    ensures b < 0x20 && b !in {0x08, 0x0C, 0x0A, 0x0D, 0x09} ==>
              EscapeByte(b) == [0x5C, 0x75, 0x30, 0x30, 0x30 + b / 16, UPPER[b % 16]]
  {
    if b == 0x22 { assert 0x22 in ESCAPES; }
    if b == 0x5C { assert 0x5C in ESCAPES; }
    if b == 0x08 { assert 0x62 in ESCAPES; }
    if b == 0x0C { assert 0x66 in ESCAPES; }
    if b == 0x0A { assert 0x6E in ESCAPES; }
    if b == 0x0D { assert 0x72 in ESCAPES; }
    if b == 0x09 { assert 0x74 in ESCAPES; }
  }

  const LOWER: seq<Byte> := [0x30, 0x31, 0x32, 0x33, 0x34, 0x35, 0x36, 0x37, 0x38, 0x39, 0x61, 0x62, 0x63, 0x64, 0x65, 0x66]
  const UPPER: seq<Byte> := [0x30, 0x31, 0x32, 0x33, 0x34, 0x35, 0x36, 0x37, 0x38, 0x39, 0x41, 0x42, 0x43, 0x44, 0x45, 0x46]

  /** A byte has a value as a hexadecimal digit if and only if it is in one of the two tables, in that place. */
  lemma HexTables(b: Byte, v: nat)
    ensures HexValue(b) == Some(v) <==> v < 16 && (b == LOWER[v] || b == UPPER[v])
  {}

  /** Four digits, of either case and mixed, most significant first. */
  lemma FourDigits(v: seq<nat>, h: Bytes)
    requires |v| == 4 && |h| == 4
    requires forall i :: 0 <= i < 4 ==> v[i] < 16 && (h[i] == LOWER[v[i]] || h[i] == UPPER[v[i]])
    ensures Hex4(h) == Some(4096 * v[0] + 256 * v[1] + 16 * v[2] + v[3])
  {
    hide HexValue;
    forall i | 0 <= i < 4
      ensures HexValue(h[i]) == Some(v[i])
    {
      HexTables(h[i], v[i]);
    }
  }

  /** A text with anything else among its first four bytes, or with fewer, is no four digits. */
  lemma NotFourDigits(h: Bytes)
    requires |h| < 4 || exists i :: 0 <= i < 4 && h[i] !in LOWER && h[i] !in UPPER
    ensures Hex4(h) == None
  {
    if |h| >= 4 {
      var i :| 0 <= i < 4 && h[i] !in LOWER && h[i] !in UPPER;
      if HexValue(h[i]).Some? {
        HexTables(h[i], HexValue(h[i]).value);
        assert false;
      }
    }
  }

  /**
   The escape after a high surrogate is not looked at: whatever it is, its low ten bits are used. A high
   surrogate with no escape after it is refused.
   */
  lemma AfterHighSurrogate(hi: Bytes, u: nat, lo: Bytes, v: nat, tail: Bytes)
    requires |hi| == 4 && Hex4(hi) == Some(u) && 0xD800 <= u <= 0xDBFF && |lo| == 4 && Hex4(lo) == Some(v)
    ensures Unescape([0x5C, 0x75] + hi + [0x5C, 0x75] + lo + tail)
         == Prepend(Utf8(0x10000 + (u - 0xD800) * 0x400 + v % 0x400), Unescape(tail))
    ensures |tail| < 2 || tail[..2] != [0x5C, 0x75] ==> Unescape([0x5C, 0x75] + hi + tail) == None
  {
    hide Hex4, Utf8, Unescape;
    PairOfAny(hi, u, lo, v, tail);
    if |tail| < 2 || tail[..2] != [0x5C, 0x75] {
      HighAlone(hi, u, tail);
    }
  }

  lemma PairOfAny(hi: Bytes, u: nat, lo: Bytes, v: nat, tail: Bytes)
    requires |hi| == 4 && Hex4(hi) == Some(u) && 0xD800 <= u <= 0xDBFF && |lo| == 4 && Hex4(lo) == Some(v)
    ensures Unescape([0x5C, 0x75] + hi + [0x5C, 0x75] + lo + tail)
         == Prepend(Utf8(0x10000 + (u - 0xD800) * 0x400 + v % 0x400), Unescape(tail))
  {
    hide Hex4, Utf8, Unescape;
    var t := hi + [0x5C, 0x75] + lo + tail;
    var s := [0x5C, 0x75] + hi + [0x5C, 0x75] + lo + tail;
    assert s[2..] == t && s[12..] == tail;
    assert t[..4] == hi && t[4] == BACKSLASH && t[5] == LOWER_U && t[6..] == lo + tail;
    Hex4Prefix(hi, t);
    assert (lo + tail)[..4] == lo;
    Hex4Prefix(lo, lo + tail);
    UnescapePoint(s, 0x10000 + (u - 0xD800) * 0x400 + v % 0x400, 10);
  }

  lemma HighAlone(hi: Bytes, u: nat, tail: Bytes)
    requires |hi| == 4 && Hex4(hi) == Some(u) && 0xD800 <= u <= 0xDBFF && (|tail| < 2 || tail[..2] != [0x5C, 0x75])
    ensures Unescape([0x5C, 0x75] + hi + tail) == None
  {
    hide CodePoint, Hex4, Unescape;
    var s := [0x5C, 0x75] + hi + tail;
    assert s[2..] == hi + tail && s[0] == BACKSLASH && s[1] == LOWER_U;
    NoSecondEscape(hi, u, tail);
    NoPoint(s);
  }

  lemma NoPoint(s: Bytes)
    requires |s| >= 2 && s[0] == BACKSLASH && s[1] == LOWER_U && CodePoint(s[2..]).None?
    ensures Unescape(s) == None
  {
    hide CodePoint, Utf8;
  }

  lemma NoSecondEscape(hi: Bytes, u: nat, tail: Bytes)
    requires |hi| == 4 && Hex4(hi) == Some(u) && 0xD800 <= u <= 0xDBFF && (|tail| < 2 || tail[..2] != [0x5C, 0x75])
    ensures CodePoint(hi + tail) == None
  {
    hide Hex4;
    var t := hi + tail;
    assert t[..4] == hi;
    Hex4Prefix(hi, t);
    if |tail| >= 2 {
      assert t[4] == tail[..2][0] && t[5] == tail[..2][1];
    }
  }

  // ----- numbers

  /** A fraction: nothing, or a point and digits. */
  predicate IsFraction(f: Bytes) { f == [] || (f[0] == 0x2E && AllDigits(f[1..])) }

  /** An exponent: nothing, or `e` or `E`, perhaps a sign, and digits. */
  predicate IsExponent(e: Bytes) {
    e == [] || ((e[0] == 0x65 || e[0] == 0x45)
                && (AllDigits(e[1..]) || (|e| > 1 && (e[1] == 0x2B || e[1] == 0x2D) && AllDigits(e[2..]))))
  }

  /** A byte that can be part of a number. */
  predicate InNumber(b: Byte) { 0x30 <= b <= 0x39 || b in {0x2E, 0x65, 0x45, 0x2B, 0x2D} }

  /** A number, with its fraction and exponent if any, is one token, wherever it ends at something foreign to numbers. */
  lemma NumberRead(c: Byte, ds: Bytes, f: Bytes, e: Bytes, tail: Bytes)
    requires (0x30 <= c <= 0x39 || c == 0x2D) && AllDigits(ds) && IsFraction(f) && IsExponent(e)
    requires tail == [] || !InNumber(tail[0])
    ensures ReadToken([c] + ds + f + e + tail) == Lexed(NumberToken([c] + ds + f + e), tail)
  {
    hide NumberEnd, SkipSpaces;
    var t := [c] + ds + f + e;
    var s := t + tail;
    TokenAt(s);
    NumberEndsAt(c, ds, f, e, tail);
    assert s[..|t|] == t && s[|t|..] == tail;
  }

  lemma NumberEndsAt(c: Byte, ds: Bytes, f: Bytes, e: Bytes, tail: Bytes)
    requires AllDigits(ds) && IsFraction(f) && IsExponent(e) && (tail == [] || !InNumber(tail[0]))
    ensures NumberEnd([c] + ds + f + e + tail) == 1 + |ds| + |f| + |e|
  {
    hide DigitsEnd, FractionEnd, ExponentEnd, IsFraction, IsExponent;
    var s := [c] + ds + f + e + tail;
    var a, b := 1 + |ds|, 1 + |ds| + |f|;
    assert s[a..] == f + e + tail && s[b..] == e + tail;
    assert forall j :: 1 <= j < a ==> s[j] == ds[j - 1];
    Starts(f, e, tail);
    DigitsEndAt(s, 1, a);
    FractionEndsAt(s, a, f, e, tail);
    ExponentEndsAt(s, b, e, tail);
  }

  lemma Starts(f: Bytes, e: Bytes, tail: Bytes)
    requires IsFraction(f) && IsExponent(e) && (tail == [] || !InNumber(tail[0]))
    ensures f + e + tail != [] ==> !IsDigit((f + e + tail)[0])
    ensures e + tail != [] ==> !IsDigit((e + tail)[0]) && (e + tail)[0] != 0x2E
  {}

  lemma FractionEndsAt(s: Bytes, a: nat, f: Bytes, e: Bytes, tail: Bytes)
    requires a <= |s| && s[a..] == f + e + tail && IsFraction(f) && IsExponent(e) && (tail == [] || !InNumber(tail[0]))
    ensures FractionEnd(s, a) == a + |f|
  {
    hide DigitsEnd, IsExponent;
    Starts(f, e, tail);
    assert s[a + |f|..] == e + tail;
    assert forall j :: a <= j < a + |f| ==> s[j] == s[a..][j - a] == f[j - a];
    assert e + tail != [] ==> s[a + |f|] == (e + tail)[0];
    if f != [] {
      assert forall j :: a + 1 <= j < a + |f| ==> s[j] == f[1..][j - a - 1];
      DigitsEndAt(s, a + 1, a + |f|);
    }
  }

  lemma ExponentEndsAt(s: Bytes, b: nat, e: Bytes, tail: Bytes)
    requires b <= |s| && s[b..] == e + tail && IsExponent(e) && (tail == [] || !InNumber(tail[0]))
    ensures ExponentEnd(s, b) == b + |e|
  {
    hide DigitsEnd;
    assert forall j :: b <= j < |s| ==> s[j] == s[b..][j - b] == (e + tail)[j - b];
    assert tail != [] ==> s[b + |e|] == tail[0];
    if e != [] {
      var signed := |e| > 1 && (e[1] == 0x2B || e[1] == 0x2D);
      var from := if signed then 2 else 1;
      assert AllDigits(e[from..]);
      assert forall j :: b + from <= j < b + |e| ==> s[j] == e[from..][j - b - from];
      DigitsEndAt(s, b + from, b + |e|);
    }
  }

  /** And every number token has this form. */
  lemma NumberForm(s: Bytes) returns (ds: Bytes, f: Bytes, e: Bytes)
    requires s != []
    ensures AllDigits(ds) && IsFraction(f) && IsExponent(e) && s[..NumberEnd(s)] == [s[0]] + ds + f + e
  {
    hide DigitsEnd, FractionEnd, ExponentEnd, IsFraction, IsExponent;
    var a := DigitsEnd(s, 1);
    var b := FractionEnd(s, a);
    var k := NumberEnd(s);
    ds, f, e := s[1..a], s[a..b], s[b..k];
    FractionForm(s, a);
    ExponentForm(s, b);
    assert s[..k] == s[..1] + s[1..a] + s[a..b] + s[b..k];
  }

  lemma FractionForm(s: Bytes, a: nat)
    requires a <= |s|
    ensures IsFraction(s[a..FractionEnd(s, a)])
  {
    hide DigitsEnd;
  }

  lemma ExponentForm(s: Bytes, b: nat)
    requires b <= |s|
    ensures IsExponent(s[b..ExponentEnd(s, b)])
  {
    hide DigitsEnd;
    var k := ExponentEnd(s, b);
    var e := s[b..k];
    assert forall j :: 0 <= j < |e| ==> e[j] == s[b + j];
    if k > b {
      var from := if b + 1 < |s| && (s[b + 1] == 0x2B || s[b + 1] == MINUS) then 2 else 1;
      assert AllDigits(e[from..]);
    }
  }
}
