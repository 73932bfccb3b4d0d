/** Strings between quotes: escaping, the tokeniser's scan, unescaping, and UTF-8. */
module JsonString {
  import opened Collections
  import opened JsonText

  // ----- writing

  function HexDigit(n: int): Byte
    requires 0 <= n < 16
  {
    if n < 10 then 0x30 + n else 0x41 + (n - 10)
  }

  /** `\u` and four upper-case hexadecimal digits. */
  function UnicodeEscape(b: Byte): Bytes { [BACKSLASH, LOWER_U, 0x30, 0x30, HexDigit(b / 16), HexDigit(b % 16)] }

  /** What `valueToQuotedStringN` writes for one byte. */
  function EscapeByte(b: Byte): Bytes {
    if b == QUOTE then [BACKSLASH, QUOTE]
    else if b == BACKSLASH then [BACKSLASH, BACKSLASH]
    else if b == 0x08 then [BACKSLASH, 0x62]
    else if b == 0x0C then [BACKSLASH, 0x66]
    else if b == 0x0A then [BACKSLASH, 0x6E]
    else if b == 0x0D then [BACKSLASH, 0x72]
    else if b == 0x09 then [BACKSLASH, 0x74]
    else if b <= 0x1F then UnicodeEscape(b)
    else [b]
  }

  function Escape(s: Bytes): Bytes { if s == [] then [] else EscapeByte(s[0]) + Escape(s[1..]) }

  function Quoted(s: Bytes): Bytes { [QUOTE] + Escape(s) + [QUOTE] }

  predicate NeedsEscape(b: Byte) { b == QUOTE || b == BACKSLASH || b <= 0x1F }

  /** The short cut for strings without special bytes agrees with the general loop. */
  lemma {:induction false} PlainEscape(s: Bytes)
    requires forall i :: 0 <= i < |s| ==> !NeedsEscape(s[i])
    ensures Escape(s) == s
  {
    if s != [] {
      PlainEscape(s[1..]);
      assert s == [s[0]] + s[1..];
    }
  }

  lemma {:induction false} EscapeAppend(s: Bytes, b: Byte)
    ensures Escape(s + [b]) == Escape(s) + EscapeByte(b)
  {
    if s == [] {
      assert s + [b] == [b] && [b][1..] == [];
      assert EscapeByte(b) + [] == EscapeByte(b) && [] + EscapeByte(b) == EscapeByte(b);
    } else {
      assert (s + [b])[1..] == s[1..] + [b];
      EscapeAppend(s[1..], b);
      assert EscapeByte(s[0]) + (Escape(s[1..]) + EscapeByte(b)) == (EscapeByte(s[0]) + Escape(s[1..])) + EscapeByte(b);
    }
  }

  lemma EscapeNothing()
    ensures Escape([]) == []
  {}

  /** `valueToQuotedStringN`: the short cut, then the byte loop. */
  method ValueToQuotedString(s: Bytes) returns (r: Bytes)
    ensures r == Quoted(s)
  {
    hide Escape, EscapeByte;
    var plain := true;
    for i := 0 to |s|
      invariant plain ==> forall j :: 0 <= j < i ==> !NeedsEscape(s[j])
    {
      if NeedsEscape(s[i]) {
        plain := false;
      }
    }
    if plain {
      PlainEscape(s);
      return [QUOTE] + s + [QUOTE];
    }
    r := [QUOTE];
    EscapeNothing();
    for i := 0 to |s|
      invariant r == [QUOTE] + Escape(s[..i])
    {
      EscapeAppend(s[..i], s[i]);
      assert s[..i + 1] == s[..i] + [s[i]];
      r := r + EscapeByte(s[i]);
    }
    assert s[..|s|] == s;
    r := r + [QUOTE];
  }

  // ----- scanning

  /** `readString`: the index of the closing quote, skipping the character after every backslash. */
  function Scan(s: Bytes, i: nat): (k: Option<nat>)
    requires i <= |s|
    ensures k.Some? ==> i <= k.value < |s| && s[k.value] == QUOTE
    decreases |s| - i
  {
    if i == |s| then None
    else if s[i] == BACKSLASH then (if i + 1 == |s| then None else Scan(s, i + 2))
    else if s[i] == QUOTE then Some(i)
    else Scan(s, i + 1)
  }

  // ----- reading

  function HexValue(b: Byte): (v: Option<nat>)
    ensures v.Some? ==> v.value < 16
  {
    if 0x30 <= b <= 0x39 then Some(b - 0x30)
    else if 0x61 <= b <= 0x66 then Some(b - 0x61 + 10)
    else if 0x41 <= b <= 0x46 then Some(b - 0x41 + 10)
    else None
  }

  /** `decodeUnicodeEscapeSequence`: four hexadecimal digits of either case. */
  function Hex4(s: Bytes): (v: Option<nat>)
    ensures v.Some? ==> |s| >= 4 && v.value < 0x10000
  {
    if |s| < 4 || exists i :: 0 <= i < 4 && HexValue(s[i]).None? then None
    else
      assert HexValue(s[0]).Some? && HexValue(s[1]).Some? && HexValue(s[2]).Some? && HexValue(s[3]).Some?;
      Some(((HexValue(s[0]).value * 16 + HexValue(s[1]).value) * 16 + HexValue(s[2]).value) * 16 + HexValue(s[3]).value)
  }

  /** A code point and the number of characters it took. */
  datatype Point = Point(cp: nat, used: nat)

  /** `decodeUnicodeCodePoint`: a high surrogate takes a second escape, whose low ten bits are used. */
  function CodePoint(s: Bytes): (p: Option<Point>)
    ensures p.Some? ==> 4 <= p.value.used <= |s| && p.value.cp <= 0x10FFFF
  {
    match Hex4(s)
    case None => None
    case Some(u) =>
      if !(0xD800 <= u <= 0xDBFF) then Some(Point(u, 4))
      else if |s| - 4 < 6 || s[4] != BACKSLASH || s[5] != LOWER_U then None
      else match Hex4(s[6..])
        case None => None
        case Some(v) => Some(Point(0x10000 + (u % 0x400) * 0x400 + v % 0x400, 10))
  }

  /** `codePointToUTF8`. */
  function Utf8(cp: nat): (s: Bytes)
    requires cp <= 0x10FFFF
  {
    if cp <= 0x7F then [cp]
    else if cp <= 0x7FF then [0xC0 + cp / 0x40, 0x80 + cp % 0x40]
    else if cp <= 0xFFFF then [0xE0 + cp / 0x1000, 0x80 + cp / 0x40 % 0x40, 0x80 + cp % 0x40]
    else [0xF0 + cp / 0x40000, 0x80 + cp / 0x1000 % 0x40, 0x80 + cp / 0x40 % 0x40, 0x80 + cp % 0x40]
  }

  function SimpleEscape(b: Byte): Option<Byte> {
    if b == QUOTE || b == 0x2F || b == BACKSLASH then Some(b)
    else if b == 0x62 then Some(0x08)
    else if b == 0x66 then Some(0x0C)
    else if b == 0x6E then Some(0x0A)
    else if b == 0x72 then Some(0x0D)
    else if b == 0x74 then Some(0x09)
    else None
  }

  function Prepend(a: Bytes, r: Option<Bytes>): Option<Bytes> {
    if r.None? then None else Some(a + r.value)
  }

  /** `decodeString` on the characters between the quotes. */
  function Unescape(s: Bytes): Option<Bytes>
    decreases |s|
  {
    if s == [] || s[0] == QUOTE then Some([])
    else if s[0] != BACKSLASH then Prepend([s[0]], Unescape(s[1..]))
    else if |s| == 1 then None
    else if s[1] == LOWER_U then
      match CodePoint(s[2..])
      case None => None
      case Some(p) => Prepend(Utf8(p.cp), Unescape(s[2 + p.used..]))
    else if SimpleEscape(s[1]).Some? then Prepend([SimpleEscape(s[1]).value], Unescape(s[2..]))
    else None
  }

  // ----- round trip

  /** Scanning passes over the text of one escaped byte. */
  lemma ScanByte(pre: Bytes, b: Byte, tail: Bytes)
    ensures Scan(pre + EscapeByte(b) + tail, |pre|) == Scan(pre + EscapeByte(b) + tail, |pre| + |EscapeByte(b)|)
  {
    var s := pre + EscapeByte(b) + tail;
    assert forall k :: 0 <= k < |EscapeByte(b)| ==> s[|pre| + k] == EscapeByte(b)[k];
    if |EscapeByte(b)| == 6 {
      assert Scan(s, |pre|) == Scan(s, |pre| + 2);
      assert Scan(s, |pre| + 2) == Scan(s, |pre| + 3);
      assert Scan(s, |pre| + 3) == Scan(s, |pre| + 4);
      assert Scan(s, |pre| + 4) == Scan(s, |pre| + 5);
      assert Scan(s, |pre| + 5) == Scan(s, |pre| + 6);
    }
  }

  /** The scan of an escaped string stops at the writer's closing quote. */
  lemma {:induction false} ScanEscaped(pre: Bytes, s: Bytes, tail: Bytes)
    ensures Scan(pre + Escape(s) + [QUOTE] + tail, |pre|) == Some(|pre| + |Escape(s)|)
    decreases |s|
  {
    hide Scan, EscapeByte;
    if s == [] {
      assert pre + Escape(s) + [QUOTE] + tail == pre + [QUOTE] + tail;
      ScanStops(pre, tail);
    } else {
      var e, more := EscapeByte(s[0]), Escape(s[1..]);
      var rest := more + [QUOTE] + tail;
      Regroup(pre, e, more, tail);
      ScanByte(pre, s[0], rest);
      ScanEscaped(pre + e, s[1..], tail);
    }
  }

  lemma ScanStops(pre: Bytes, tail: Bytes)
    ensures Scan(pre + [QUOTE] + tail, |pre|) == Some(|pre|)
  {
    assert (pre + [QUOTE] + tail)[|pre|] == QUOTE;
  }

  lemma Regroup(pre: Bytes, e: Bytes, more: Bytes, tail: Bytes)
    ensures pre + (e + more) + [QUOTE] + tail == pre + e + (more + [QUOTE] + tail) == (pre + e) + more + [QUOTE] + tail
  {}

  lemma HexDigitValue(n: int)
    requires 0 <= n < 16
    ensures HexValue(HexDigit(n)) == Some(n)
  {}

  lemma UnicodeEscapePoint(b: Byte, tail: Bytes)
    requires b < 0x80
    ensures CodePoint((UnicodeEscape(b) + tail)[2..]) == Some(Point(b, 4))
  {
    var s := (UnicodeEscape(b) + tail)[2..];
    HexDigitValue(b / 16);
    HexDigitValue(b % 16);
    assert s[0] == 0x30 && s[1] == 0x30 && s[2] == HexDigit(b / 16) && s[3] == HexDigit(b % 16);
    assert forall i :: 0 <= i < 4 ==> HexValue(s[i]).Some?;
  }

  lemma UnescapePlain(b: Byte, tail: Bytes)
    requires b != QUOTE && b != BACKSLASH
    ensures Unescape([b] + tail) == Prepend([b], Unescape(tail))
  {
    assert ([b] + tail)[1..] == tail;
  }

  lemma UnescapeSimple(c: Byte, tail: Bytes)
    requires c != LOWER_U && SimpleEscape(c).Some?
    ensures Unescape([BACKSLASH, c] + tail) == Prepend([SimpleEscape(c).value], Unescape(tail))
  {
    var s := [BACKSLASH, c] + tail;
    assert s[0] == BACKSLASH && s[1] == c && s[2..] == tail;
  }

  lemma UnescapeControl(b: Byte, tail: Bytes)
    requires b < 0x80
    ensures Unescape(UnicodeEscape(b) + tail) == Prepend([b], Unescape(tail))
  {
    hide CodePoint, Hex4;
    var s := UnicodeEscape(b) + tail;
    UnicodeEscapePoint(b, tail);
    assert s[0] == BACKSLASH && s[1] == LOWER_U && s[6..] == tail;
    assert Utf8(b) == [b];
  }

  /** Unescaping the text of one escaped byte gives the byte. */
  lemma UnescapeByte(b: Byte, tail: Bytes)
    ensures Unescape(EscapeByte(b) + tail) == Prepend([b], Unescape(tail))
  {
    hide Unescape, UnicodeEscape;
    var e := EscapeByte(b);
    if b in {QUOTE, BACKSLASH, 0x08, 0x0C, 0x0A, 0x0D, 0x09} {
      UnescapeSimple(e[1], tail);
    } else if b <= 0x1F {
      UnescapeControl(b, tail);
    } else {
      UnescapePlain(b, tail);
    }
  }

  /** Unescaping inverts escaping on every byte string. */
  lemma {:induction false} UnescapeEscape(s: Bytes)
    ensures Unescape(Escape(s)) == Some(s)
  {
    if s != [] {
      UnescapeByte(s[0], Escape(s[1..]));
      UnescapeEscape(s[1..]);
      assert [s[0]] + s[1..] == s;
    }
  }

  // ----- Unicode

  predicate IsScalar(cp: nat) { cp <= 0x10FFFF && !(0xD800 <= cp <= 0xDFFF) }

  predicate Tail(b: Byte) { 0x80 <= b <= 0xBF }

  /** The scalar value of one well-formed UTF-8 sequence, by the syntax of section 4 of RFC 3629. */
  function Utf8Value(s: Bytes): Option<nat> {
    if |s| == 1 && s[0] <= 0x7F then Some(s[0])
    else if |s| == 2 && 0xC2 <= s[0] <= 0xDF && Tail(s[1]) then Some(0x40 * (s[0] as int - 0xC0) + (s[1] - 0x80))
    else if |s| == 3 && 0xE0 <= s[0] <= 0xEF && Tail(s[1]) && Tail(s[2])
            && (s[0] == 0xE0 ==> s[1] >= 0xA0) && (s[0] == 0xED ==> s[1] <= 0x9F) then
      Some(0x1000 * (s[0] as int - 0xE0) + 0x40 * (s[1] as int - 0x80) + (s[2] - 0x80))
    else if |s| == 4 && 0xF0 <= s[0] <= 0xF4 && Tail(s[1]) && Tail(s[2]) && Tail(s[3])
            && (s[0] == 0xF0 ==> s[1] >= 0x90) && (s[0] == 0xF4 ==> s[1] <= 0x8F) then
      Some(0x40000 * (s[0] as int - 0xF0) + 0x1000 * (s[1] as int - 0x80) + 0x40 * (s[2] as int - 0x80) + (s[3] - 0x80))
    else None
  }

  /** `codePointToUTF8` writes the well-formed UTF-8 sequence of every scalar value, and of nothing else. */
  lemma Utf8WellFormed(cp: nat)
    requires cp <= 0x10FFFF
    ensures Utf8Value(Utf8(cp)) == if IsScalar(cp) then Some(cp) else None
  {
    hide Utf8, Utf8Value;
    if cp <= 0x7FF {
      ShortUtf8(cp);
    } else if cp <= 0xFFFF {
      ThreeByteUtf8(cp);
    } else {
      FourByteUtf8(cp);
    }
  }

  lemma ShortUtf8(cp: nat)
    requires cp <= 0x7FF
    ensures Utf8Value(Utf8(cp)) == Some(cp)
  {
    assert cp == cp / 0x40 * 0x40 + cp % 0x40;
  }

  lemma ThreeByteUtf8(cp: nat)
    requires 0x7FF < cp <= 0xFFFF
    ensures Utf8Value(Utf8(cp)) == if 0xD800 <= cp <= 0xDFFF then None else Some(cp)
  {
    var a, b, c := cp / 0x1000, cp / 0x40 % 0x40, cp % 0x40;
    assert Utf8(cp) == [0xE0 + a, 0x80 + b, 0x80 + c];
    assert cp == 0x1000 * a + 0x40 * b + c;
  }

  lemma FourByteUtf8(cp: nat)
    requires 0xFFFF < cp <= 0x10FFFF
    ensures Utf8Value(Utf8(cp)) == Some(cp)
  {
    FourParts(cp);
  }

  lemma FourParts(cp: nat)
    requires 0xFFFF < cp <= 0x10FFFF
    ensures var a, b := cp / 0x40000, cp / 0x1000 % 0x40;
            && a <= 4 && (a == 0 ==> b >= 0x10) && (a == 4 ==> b <= 0xF)
            && cp == 0x40000 * a + 0x1000 * b + 0x40 * (cp / 0x40 % 0x40) + cp % 0x40
  {
    var x, y := cp / 0x40, cp / 0x1000;
    assert cp == 0x40 * x + cp % 0x40;
    assert x == 0x40 * y + x % 0x40;
    assert y == 0x40 * (cp / 0x40000) + y % 0x40;
  }

  /** One escape of a scalar value below 2^16 decodes to its UTF-8 form, whatever follows. */
  lemma OneEscapeDecodes(h: Bytes, cp: nat, tail: Bytes)
    requires |h| == 4 && Hex4(h) == Some(cp) && IsScalar(cp)
    ensures Unescape([BACKSLASH, LOWER_U] + h + tail) == Prepend(Utf8(cp), Unescape(tail))
    ensures Utf8Value(Utf8(cp)) == Some(cp)
  {
    hide Hex4, Utf8, Unescape, Utf8Value;
    var t := h + tail;
    var s := [BACKSLASH, LOWER_U] + h + tail;
    assert s[2..] == t && t[..4] == h && s[6..] == tail;
    Hex4Prefix(h, t);
    UnescapePoint(s, cp, 4);
    Utf8WellFormed(cp);
  }

  /** A surrogate pair, section 7 of RFC 8259, decodes to the UTF-8 form of the scalar value it stands for, whatever follows. */
  lemma SurrogatePairDecodes(hi: Bytes, lo: Bytes, cp: nat, tail: Bytes)
    requires 0x10000 <= cp <= 0x10FFFF && |hi| == 4 && |lo| == 4
    requires Hex4(hi) == Some(0xD800 + (cp - 0x10000) / 0x400) && Hex4(lo) == Some(0xDC00 + (cp - 0x10000) % 0x400)
    ensures Unescape([BACKSLASH, LOWER_U] + hi + [BACKSLASH, LOWER_U] + lo + tail) == Prepend(Utf8(cp), Unescape(tail))
    ensures Utf8Value(Utf8(cp)) == Some(cp)
  {
    hide Hex4, Utf8, Unescape, Utf8Value, CodePoint;
    var t := hi + [BACKSLASH, LOWER_U] + lo + tail;
    var s := [BACKSLASH, LOWER_U] + hi + [BACKSLASH, LOWER_U] + lo + tail;
    assert s[2..] == t && s[12..] == tail;
    PairPoint(t, hi, lo, cp, tail);
    UnescapePoint(s, cp, 10);
    Utf8WellFormed(cp);
  }

  lemma PairPoint(t: Bytes, hi: Bytes, lo: Bytes, cp: nat, tail: Bytes)
    requires 0x10000 <= cp <= 0x10FFFF && |hi| == 4 && |lo| == 4 && t == hi + [BACKSLASH, LOWER_U] + lo + tail
    requires Hex4(hi) == Some(0xD800 + (cp - 0x10000) / 0x400) && Hex4(lo) == Some(0xDC00 + (cp - 0x10000) % 0x400)
    ensures CodePoint(t) == Some(Point(cp, 10))
  {
    hide Hex4;
    assert t[..4] == hi && t[4] == BACKSLASH && t[5] == LOWER_U && t[6..] == lo + tail;
    Hex4Prefix(hi, t);
    assert (lo + tail)[..4] == lo;
    Hex4Prefix(lo, lo + tail);
    PairArithmetic(cp);
  }

  /** A string that starts with a unicode escape. */
  lemma UnescapePoint(s: Bytes, cp: nat, used: nat)
    requires |s| >= 2 + used && s[0] == BACKSLASH && s[1] == LOWER_U && CodePoint(s[2..]) == Some(Point(cp, used))
    ensures Unescape(s) == Prepend(Utf8(cp), Unescape(s[2 + used..]))
  {
    hide CodePoint, Utf8;
  }

  lemma PairArithmetic(cp: nat)
    requires 0x10000 <= cp <= 0x10FFFF
    ensures var hi := 0xD800 + (cp - 0x10000) / 0x400;
            var lo := 0xDC00 + (cp - 0x10000) % 0x400;
            0xD800 <= hi <= 0xDBFF && 0x10000 + (hi % 0x400) * 0x400 + lo % 0x400 == cp
  {}

  lemma Hex4Prefix(h: Bytes, s: Bytes)
    requires |h| == 4 <= |s| && s[..4] == h
    ensures Hex4(s) == Hex4(h)
  {
    assert forall i :: 0 <= i < 4 ==> s[i] == h[i];
  }
}
