/** The writer and reader objects: one grows a document, the other moves through one. */
module JsonMachine {
  import opened Collections
  import opened JsonText
  import opened JsonNumber
  import opened JsonString
  import opened JsonCodec
  import opened JsonRoundTrip

  // ----- FastWriter

  lemma {:induction false} WriteItemsAppend(items: seq<Value>, v: Value)
    ensures WriteItems(items + [v]) == WriteItems(items) + (if items == [] then [] else [COMMA]) + Write(v)
    decreases |items|
  {
    hide Write;
    if items == [] {
      assert items + [v] == [v];
    } else {
      assert (items + [v])[1..] == items[1..] + [v];
      WriteItemsAppend(items[1..], v);
      var w := Write(items[0]) + [COMMA];
      if |items| == 1 {
        assert WriteItems(items[1..] + [v]) == Write(v);
      } else {
        assert w + (WriteItems(items[1..]) + [COMMA] + Write(v)) == (w + WriteItems(items[1..])) + [COMMA] + Write(v);
      }
    }
  }

  lemma {:induction false} WriteMembersAppend(ms: seq<Member>, m: Member)
    ensures WriteMembers(ms + [m]) == WriteMembers(ms) + (if ms == [] then [] else [COMMA]) + WriteMember(m)
    decreases |ms|
  {
    hide WriteMember;
    if ms == [] {
      assert ms + [m] == [m];
    } else {
      assert (ms + [m])[1..] == ms[1..] + [m];
      WriteMembersAppend(ms[1..], m);
      var w := WriteMember(ms[0]) + [COMMA];
      if |ms| == 1 {
        assert WriteMembers(ms[1..] + [m]) == WriteMember(m);
      } else {
        assert w + (WriteMembers(ms[1..]) + [COMMA] + WriteMember(m)) == (w + WriteMembers(ms[1..])) + [COMMA] + WriteMember(m);
      }
    }
  }

  class FastWriter {
    var document: Bytes

    constructor ()
      ensures document == []
    {
      document := [];
    }

    method Append(s: Bytes)
      modifies this
      ensures document == old(document) + s
    {
      document := document + s;
    }

    /** `write`. */
    method WriteRoot(v: Value) returns (text: Bytes)
      requires Sendable(v)
      modifies this
      ensures text == document == WriteDocument(v)
    {
      document := [];
      WriteValue(v);
      assert [] + Write(v) == Write(v);
      Append([NEWLINE]);
      text := document;
    }

    /** `writeValue`: appends exactly the text of the value. */
    method WriteValue(v: Value)
      requires Sendable(v)
      modifies this
      ensures document == old(document) + Write(v)
      decreases v, 1
    {
      match v
      case Null => Append(TEXT_NULL);
      case Bool(b) => Append(if b then TEXT_TRUE else TEXT_FALSE);
      case Int(i) => var t := ValueToString(i); Append(t);
      case UInt(u) => var t := ValueToString(u); Append(t);
      case Str(s) => var t := ValueToQuotedString(s); Append(t);
      case Arr(items) => WriteArray(items);
      case Obj(ms) => WriteObject(ms);
    }

    method WriteArray(items: seq<Value>)
      requires forall x :: x in items ==> Sendable(x)
      modifies this
      ensures document == old(document) + ([LBRACKET] + WriteItems(items) + [RBRACKET])
      decreases items, 0
    {
      hide Write, Sendable;
      ghost var start := document;
      Append([LBRACKET]);
      for index := 0 to |items|
        invariant document == start + [LBRACKET] + WriteItems(items[..index])
      {
        ghost var before := document;
        WriteItemsAppend(items[..index], items[index]);
        assert items[..index + 1] == items[..index] + [items[index]];
        if index > 0 {
          Append([COMMA]);
        }
        WriteValue(items[index]);
        Glue(start + [LBRACKET], WriteItems(items[..index]), if index == 0 then [] else [COMMA], Write(items[index]));
        assert document == before + (if index == 0 then [] else [COMMA]) + Write(items[index]);
      }
      assert items[..|items|] == items;
      Append([RBRACKET]);
      Wrap(start, LBRACKET, WriteItems(items), RBRACKET);
    }

    method WriteObject(ms: seq<Member>)
      requires forall m :: m in ms ==> Sendable(m.value)
      modifies this
      ensures document == old(document) + ([LBRACE] + WriteMembers(ms) + [RBRACE])
      decreases ms, 0
    {
      hide Write, Sendable, Quoted;
      ghost var start := document;
      Append([LBRACE]);
      for index := 0 to |ms|
        invariant document == start + [LBRACE] + WriteMembers(ms[..index])
      {
        ghost var before := document;
        var m := ms[index];
        WriteMembersAppend(ms[..index], m);
        assert ms[..index + 1] == ms[..index] + [m];
        if index > 0 {
          Append([COMMA]);
        }
        ghost var mid := document;
        var key := ValueToQuotedString(m.key);
        Append(key);
        Append([COLON]);
        WriteValue(m.value);
        Glue(mid, Quoted(m.key), [COLON], Write(m.value));
        Glue(start + [LBRACE], WriteMembers(ms[..index]), if index == 0 then [] else [COMMA], WriteMember(m));
        assert document == before + (if index == 0 then [] else [COMMA]) + WriteMember(m);
      }
      assert ms[..|ms|] == ms;
      Append([RBRACE]);
      Wrap(start, LBRACE, WriteMembers(ms), RBRACE);
    }
  }

  lemma Glue(a: Bytes, b: Bytes, c: Bytes, d: Bytes)
    ensures a + b + c + d == a + (b + c + d)
  {}

  lemma Wrap(a: Bytes, open: Byte, b: Bytes, close: Byte)
    ensures a + [open] + b + [close] == a + ([open] + b + [close])
  {}

  // ----- Reader

  ghost function HexPrefix(s: Bytes, i: nat): nat
    requires i <= |s| && forall j :: 0 <= j < i ==> HexValue(s[j]).Some?
  {
    if i == 0 then 0 else HexPrefix(s, i - 1) * 16 + HexValue(s[i - 1]).value
  }

  lemma FourDigits(s: Bytes)
    requires |s| >= 4 && forall j :: 0 <= j < 4 ==> HexValue(s[j]).Some?
    ensures Hex4(s) == Some(HexPrefix(s, 4))
  {
    hide HexValue;
    assert HexPrefix(s, 1) == HexPrefix(s, 0) * 16 + HexValue(s[0]).value;
    assert HexPrefix(s, 2) == HexPrefix(s, 1) * 16 + HexValue(s[1]).value;
    assert HexPrefix(s, 3) == HexPrefix(s, 2) * 16 + HexValue(s[2]).value;
    assert HexPrefix(s, 4) == HexPrefix(s, 3) * 16 + HexValue(s[3]).value;
  }

  lemma BadDigit(s: Bytes, i: nat)
    requires |s| < 4 || (i < 4 && HexValue(s[i]).None?)
    ensures Hex4(s) == None
  {
    hide HexValue;
  }

  /** `decodeUnicodeEscapeSequence`. */
  method DecodeHex(s: Bytes) returns (r: Option<nat>)
    ensures r == Hex4(s)
  {
    hide HexValue, Hex4;
    if |s| < 4 {
      BadDigit(s, 0);
      return None;
    }
    var unicode: nat := 0;
    for index := 0 to 4
      invariant forall j :: 0 <= j < index ==> HexValue(s[j]).Some?
      invariant unicode == HexPrefix(s, index)
    {
      var v := HexValue(s[index]);
      if v.None? {
        BadDigit(s, index);
        return None;
      }
      unicode := unicode * 16 + v.value;
    }
    FourDigits(s);
    return Some(unicode);
  }

  lemma PrependTwice(a: Bytes, b: Bytes, r: Option<Bytes>)
    ensures Prepend(a, Prepend(b, r)) == Prepend(a + b, r)
  {
    if r.Some? {
      assert a + (b + r.value) == a + b + r.value;
    }
  }

  lemma PrependNothing(r: Option<Bytes>)
    ensures Prepend([], r) == r
  {
    if r.Some? {
      assert [] + r.value == r.value;
    }
  }

  /** `decodeUnicodeCodePoint`: one escape, and a second one after a high surrogate. */
  method DecodeCodePoint(s: Bytes) returns (p: Option<Point>)
    ensures p == CodePoint(s)
  {
    hide Hex4;
    var hi := DecodeHex(s);
    if hi.None? {
      return None;
    }
    var unicode, current := hi.value, 4;
    if 0xD800 <= unicode <= 0xDBFF {
      if |s| - current < 6 || s[current] != BACKSLASH || s[current + 1] != LOWER_U {
        return None;
      }
      var lo := DecodeHex(s[current + 2..]);
      if lo.None? {
        return None;
      }
      current := current + 6;
      unicode := 0x10000 + (unicode % 0x400) * 0x400 + lo.value % 0x400;
    }
    return Some(Point(unicode, current));
  }

  /** `decodeString`: the loop over the characters between the quotes. */
  method DecodeString(s: Bytes) returns (r: Option<Bytes>)
    ensures r == Unescape(s)
  {
    var decoded: Bytes := [];
    var current := 0;
    PrependNothing(Unescape(s));
    assert s[0..] == s;
    while current != |s|
      invariant 0 <= current <= |s|
      invariant Prepend(decoded, Unescape(s[current..])) == Unescape(s)
      decreases |s| - current
    {
      ghost var rest := s[current..];
      var c := s[current];
      current := current + 1;
      if c == QUOTE {
        assert decoded + [] == decoded;
        return Some(decoded);
      } else if c == BACKSLASH {
        if current == |s| {
          return None;
        }
        var escape := s[current];
        current := current + 1;
        assert rest[2..] == s[current..] && rest[1] == escape;
        if escape == LOWER_U {
          var p := DecodeCodePoint(s[current..]);
          if p.None? {
            return None;
          }
          current := current + p.value.used;
          assert rest[2 + p.value.used..] == s[current..];
          PrependTwice(decoded, Utf8(p.value.cp), Unescape(s[current..]));
          decoded := decoded + Utf8(p.value.cp);
        } else {
          var e := SimpleEscape(escape);
          if e.None? {
            return None;
          }
          PrependTwice(decoded, [e.value], Unescape(s[current..]));
          decoded := decoded + [e.value];
        }
      } else {
        assert rest[1..] == s[current..];
        PrependTwice(decoded, [c], Unescape(s[current..]));
        decoded := decoded + [c];
      }
    }
    assert s[current..] == [];
    assert decoded + [] == decoded;
    return Some(decoded);
  }

  /** What `readValue` reports to its caller; the text left to read is the reader's position. */
  datatype Report<+T> = Success(value: T) | Failure | Exception

  function ReportOf<T>(r: Read<T>): Report<T> {
    match r
    case Done(v, _) => Success(v)
    case SyntaxError => Failure
    case TooDeep => Exception
  }

  class Reader {
    const doc: Bytes
    var current: nat
    var depth: nat

    constructor (text: Bytes)
      ensures doc == text && current == 0 && depth == 0
    {
      doc, current, depth := text, 0, 0;
    }

    ghost predicate Valid()
      reads this
    {
      current <= |doc|
    }

    ghost function Rest(): Bytes
      reads this
      requires Valid()
    {
      doc[current..]
    }

    method SkipBlanks()
      requires Valid()
      modifies this`current
      ensures Valid() && Rest() == SkipSpaces(old(Rest()))
    {
      while current != |doc|
        invariant Valid() && SkipSpaces(Rest()) == SkipSpaces(old(Rest()))
        decreases |doc| - current
      {
        if !IsSpace(doc[current]) {
          break;
        }
        assert Rest()[1..] == doc[current + 1..];
        current := current + 1;
      }
    }

    /** `match`, entered after the first character of the literal. */
    method Match(pattern: Bytes) returns (ok: bool)
      requires Valid()
      modifies this`current
      ensures Valid()
      ensures ok <==> |pattern| <= |old(Rest())| && old(Rest())[..|pattern|] == pattern
      ensures Rest() == if ok then old(Rest())[|pattern|..] else old(Rest())
    {
      if |doc| - current < |pattern| {
        return false;
      }
      var index := |pattern|;
      while index > 0
        invariant 0 <= index <= |pattern|
        invariant forall j :: index <= j < |pattern| ==> doc[current + j] == pattern[j]
      {
        index := index - 1;
        if doc[current + index] != pattern[index] {
          assert Rest()[..|pattern|][index] != pattern[index];
          return false;
        }
      }
      assert Rest()[..|pattern|] == pattern;
      current := current + |pattern|;
      return true;
    }

    method SkipDigits(start: nat)
      requires Valid() && start <= current
      modifies this`current
      ensures Valid() && old(current) <= current
      ensures current - start == DigitsEnd(doc[start..], old(current) - start)
    {
      while current < |doc| && IsDigit(doc[current])
        invariant Valid() && old(current) <= current
        invariant DigitsEnd(doc[start..], current - start) == DigitsEnd(doc[start..], old(current) - start)
      {
        assert doc[start..][current - start] == doc[current];
        current := current + 1;
      }
    }

    method SkipFraction(start: nat)
      requires Valid() && start <= current
      modifies this`current
      ensures Valid() && old(current) <= current
      ensures current - start == FractionEnd(doc[start..], old(current) - start)
    {
      if current < |doc| && doc[current] == 0x2E {
        assert doc[start..][current - start] == doc[current];
        current := current + 1;
        SkipDigits(start);
      }
    }

    method SkipExponent(start: nat)
      requires Valid() && start <= current
      modifies this`current
      ensures Valid() && old(current) <= current
      ensures current - start == ExponentEnd(doc[start..], old(current) - start)
    {
      if current < |doc| && (doc[current] == 0x65 || doc[current] == 0x45) {
        assert doc[start..][current - start] == doc[current];
        current := current + 1;
        if current < |doc| && (doc[current] == 0x2B || doc[current] == MINUS) {
          assert doc[start..][current - start] == doc[current];
          current := current + 1;
        }
        SkipDigits(start);
      }
    }

    /** `readNumber`, entered after the first character of the number. */
    method ReadNumber()
      requires Valid() && current > 0
      modifies this`current
      ensures Valid() && current == old(current) - 1 + NumberEnd(doc[old(current) - 1..])
    {
      hide DigitsEnd, FractionEnd, ExponentEnd;
      var start := current - 1;
      SkipDigits(start);
      SkipFraction(start);
      SkipExponent(start);
    }

    /** `readString`, entered after the opening quote. */
    method ReadStringToken() returns (t: Token)
      requires Valid()
      modifies this`current
      ensures Valid() && JsonCodec.ReadString(old(Rest())) == Lexed(t, Rest())
    {
      var start := current;
      ghost var s := Rest();
      while current != |doc|
        invariant Valid() && start <= current
        invariant Scan(s, current - start) == Scan(s, 0)
        decreases |doc| - current
      {
        var c := doc[current];
        assert s[current - start] == c;
        current := current + 1;
        if c == BACKSLASH {
          if current != |doc| {
            current := current + 1;
          } else {
            return BadToken;
          }
        } else if c == QUOTE {
          assert s[..current - 1 - start] == doc[start..current - 1];
          return StringToken(doc[start..current - 1]);
        }
      }
      return BadToken;
    }

    /** `readToken`. */
    method NextToken() returns (t: Token)
      requires Valid()
      modifies this`current
      ensures Valid() && ReadToken(old(Rest())) == Lexed(t, Rest())
      ensures old(current) <= current && (!t.EndOfStream? ==> old(current) < current)
    {
      hide NumberEnd, JsonCodec.ReadString, Literal, SkipSpaces;
      SkipBlanks();
      if current == |doc| {
        return EndOfStream;
      }
      ghost var s := Rest();
      var c := doc[current];
      current := current + 1;
      assert s[0] == c && s[1..] == Rest();
      if c == LBRACE { return ObjectBegin; }
      if c == RBRACE { return ObjectEnd; }
      if c == LBRACKET { return ArrayBegin; }
      if c == RBRACKET { return ArrayEnd; }
      if c == QUOTE { t := ReadStringToken(); return; }
      if IsDigit(c) || c == MINUS {
        var start := current - 1;
        ReadNumber();
        assert s[..current - start] == doc[start..current] && s[current - start..] == Rest();
        return NumberToken(doc[start..current]);
      }
      if c == TEXT_TRUE[0] { t := Word(TEXT_TRUE, TrueToken); return; }
      if c == TEXT_FALSE[0] { t := Word(TEXT_FALSE, FalseToken); return; }
      if c == TEXT_NULL[0] { t := Word(TEXT_NULL, NullToken); return; }
      if c == COMMA { return Separator; }
      if c == COLON { return MemberSeparator; }
      if c == 0 { return EndOfStream; }
      return BadToken;
    }

    /** The rest of a literal whose first character has been consumed. */
    method Word(text: Bytes, t: Token) returns (r: Token)
      requires Valid() && current > 0 && text != [] && doc[current - 1] == text[0]
      modifies this`current
      ensures Valid() && Literal(doc[old(current) - 1..], text, t) == Lexed(r, Rest())
      ensures old(current) <= current
    {
      ghost var s := doc[current - 1..];
      var ok := Match(text[1..]);
      assert text == [text[0]] + text[1..];
      assert s == [text[0]] + s[1..] && s[1..] == old(Rest());
      if ok {
        assert s[..|text|] == text;
        assert s[|text|..] == Rest();
        return t;
      }
      assert |text| <= |s| ==> s[..|text|] == [s[0]] + s[1..][..|text| - 1];
      return BadToken;
    }

    /** `readValue`. After a failure the position no longer matters: every caller fails too. */
    method ReadValue() returns (r: Report<Value>)
      requires Valid()
      modifies this`current, this`depth
      ensures Valid() && old(current) <= current
      ensures r == ReportOf(JsonCodec.ReadValue(old(Rest()), old(depth)))
      ensures r.Success? ==> Rest() == JsonCodec.ReadValue(old(Rest()), old(depth)).rest && depth == old(depth)
      ensures r.Success? ==> old(current) < current
      decreases |doc| - current, 1
    {
      hide ReadToken, ReadMembers, ReadItems, Unescape, DecodeNumber, SkipSpaces;
      if depth >= STACK_LIMIT {
        return Exception;
      }
      depth := depth + 1;
      var t := NextToken();
      match t {
        case ObjectBegin => r := ReadObject();
        case ArrayBegin => r := ReadArray();
        case NumberToken(text) =>
          assert text != [];
          var n := JsonNumber.Decode(text);
          r := Success(if n.AsDouble? then Real(text) else Tagged(n.n));
        case StringToken(body) =>
          var d := DecodeString(body);
          if d.None? {
            return Failure;
          }
          r := Success(Str(d.value));
        case TrueToken => r := Success(Bool(true));
        case FalseToken => r := Success(Bool(false));
        case NullToken => r := Success(Null);
        case _ => return Failure;
      }
      if r.Success? {
        depth := depth - 1;
      }
    }

    /** `readArray`, entered after the opening bracket. */
    method ReadArray() returns (r: Report<Value>)
      requires Valid()
      modifies this`current, this`depth
      ensures Valid() && old(current) <= current
      ensures var s := SkipSpaces(old(Rest()));
              var e := if s != [] && s[0] == RBRACKET then Done([], s[1..]) else ReadItems(s, old(depth));
              && r == ReportArray(e)
              && (r.Success? ==> Rest() == e.rest && depth == old(depth))
      decreases |doc| - current, 2
    {
      hide ReadToken, JsonCodec.ReadValue, SkipSpaces;
      SkipBlanks();
      if current < |doc| && doc[current] == RBRACKET {
        ClosingBracket(Rest());
        var _ := NextToken();
        return Success(Arr([]));
      }
      PushNothing(ReadItems(Rest(), depth));
      ghost var e := ReadItems(Rest(), depth);
      var items: seq<Value> := [];
      ghost var d := depth;
      while true
        invariant Valid() && old(current) <= current && depth == d
        invariant Push(items, ReadItems(Rest(), d)) == e
        decreases |doc| - current
      {
        ghost var s := Rest();
        var v := ReadValue();
        if !v.Success? {
          return if v.Failure? then Failure else Exception;
        }
        var t := NextToken();
        PushTwice(items, v.value, ReadItems(Rest(), d));
        items := items + [v.value];
        if t.ArrayEnd? {
          return Success(Arr(items));
        }
        if !t.Separator? {
          return Failure;
        }
      }
    }

    /** `readObject`, entered after the opening brace. */
    method ReadObject() returns (r: Report<Value>)
      requires Valid()
      modifies this`current, this`depth
      ensures Valid() && old(current) <= current
      ensures var e := ReadMembers(old(Rest()), old(depth), [], []);
              r == ReportOf(e) && (r.Success? ==> Rest() == e.rest && depth == old(depth))
      decreases |doc| - current, 2
    {
      hide Insert, Unescape;
      ghost var e := ReadMembers(Rest(), depth, [], []);
      ghost var d := depth;
      var name: Bytes := [];
      var members: seq<Member> := [];
      while true
        invariant Valid() && old(current) <= current && depth == d
        invariant ReadMembers(Rest(), d, name, members) == e
        decreases |doc| - current
      {
        var t := NextToken();
        if t.ObjectEnd? && name == [] {
          return Success(Obj(members));
        }
        if !t.StringToken? {
          return Failure;
        }
        var key := DecodeString(t.body);
        if key.None? {
          return Failure;
        }
        name := key.value;
        var colon := NextToken();
        if !colon.MemberSeparator? {
          return Failure;
        }
        var v := ReadValue();
        if !v.Success? {
          return v;
        }
        var comma := NextToken();
        members := Insert(members, Member(name, v.value));
        if comma.ObjectEnd? {
          return Success(Obj(members));
        }
        if !comma.Separator? {
          return Failure;
        }
      }
    }

    /** `parse`: one value, then one more token that is not looked at. */
    method ParseDocument() returns (p: Parsed)
      requires current == 0
      modifies this`current, this`depth
      ensures p == Parse(doc)
    {
      depth := 0;
      assert doc[0..] == doc;
      var r := ReadValue();
      if r.Exception? {
        return Thrown;
      }
      var _ := NextToken();
      return if r.Success? then Parsed(r.value) else Rejected;
    }
  }

  function ReportArray(e: Read<seq<Value>>): Report<Value> {
    match e
    case Done(vs, _) => Success(Arr(vs))
    case SyntaxError => Failure
    case TooDeep => Exception
  }

  lemma ClosingBracket(s: Bytes)
    requires s != [] && s[0] == RBRACKET
    ensures ReadToken(s) == Lexed(ArrayEnd, s[1..])
  {
    TokenAt(s);
  }

  lemma PushNothing(r: Read<seq<Value>>)
    ensures Push([], r) == r
  {
    if r.Done? {
      assert [] + r.value == r.value;
    }
  }

  /** Items already read, in front of what is still to be read. */
  function Push(items: seq<Value>, r: Read<seq<Value>>): Read<seq<Value>> {
    if r.Done? then Done(items + r.value, r.rest) else r
  }

  lemma PushTwice(items: seq<Value>, v: Value, r: Read<seq<Value>>)
    ensures Push(items + [v], r) == Push(items, Push([v], r))
  {
    if r.Done? {
      assert (items + [v]) + r.value == items + ([v] + r.value);
    }
  }

  /** A message written by one object is read back by the other. */
  method Deliver(v: Value) returns (p: Parsed)
    requires Sendable(v)
    ensures p == if Depth(v) <= 1000 then Parsed(Retag(v)) else Thrown
  {
    var w := new FastWriter();
    var text := w.WriteRoot(v);
    var reader := new Reader(text);
    p := reader.ParseDocument();
    RoundTrip(v);
  }
}
