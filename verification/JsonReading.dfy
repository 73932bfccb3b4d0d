/**
 What the reader makes of text the writer would not have written: where it is more generous than it
 looks, and that whatever it accepts survives being written and read again.
 */
module JsonReading {
  import opened Collections
  import opened JsonText
  import opened JsonNumber
  import opened JsonString
  import opened JsonCodec
  import opened JsonRoundTrip

  // ----- numbers

  lemma {:induction false} NotAllDigits(value: nat, s: Bytes, max: nat)
    requires !AllDigits(s)
    ensures Accumulate(value, s, max) == AsDouble
    decreases |s|
  {
    if IsDigit(s[0]) {
      assert !AllDigits(s[1..]) by {
        assert forall i :: 0 < i < |s| ==> s[i] == s[1..][i - 1];
      }
      NotAllDigits(value * 10 + (s[0] - 0x30), s[1..], max);
    }
  }

  /** `decodeNumber` on any text: an integer exactly when everything after the sign is a digit and the number fits. */
  lemma DecodeNumberIff(text: Bytes)
    ensures var m := Magnitude(text);
            var n: int := if AllDigits(m) then NatOf(m) else 0;
            var limit := if text != [] && text[0] == MINUS then 9223372036854775808 else 18446744073709551615;
            DecodeNumber(text) == if AllDigits(m) && n <= limit
                                  then Exact(if text != [] && text[0] == MINUS then -n else n) else AsDouble
  {
    var m := Magnitude(text);
    if AllDigits(m) {
      AccumulateExact(0, m, Limit(text));
    } else {
      NotAllDigits(0, m, Limit(text));
    }
  }

  /** The only nonempty text without a digit that is read as an integer is a lone minus sign, and it is read as zero. */
  lemma LoneMinus(text: Bytes)
    requires text != [] && forall i :: 0 <= i < |text| ==> !IsDigit(text[i])
    ensures DecodeNumber(text) == if text == [MINUS] then Exact(0) else AsDouble
  {
    hide DecodeNumber;
    DecodeNumberIff(text);
    var m := Magnitude(text);
    if m != [] {
      assert m[0] in text;
      assert !AllDigits(m);
    } else {
      assert text == [MINUS];
    }
  }

  /** A minus sign that is not followed by the rest of a number is the value zero. */
  lemma MinusIsZero(rest: Bytes, d: nat)
    requires d < STACK_LIMIT
    requires rest == [] || !(IsDigit(rest[0]) || rest[0] in {0x2E, 0x65, 0x45})
    ensures ReadValue([MINUS] + rest, d) == Done(Int(0), rest)
  {
    hide DecodeNumber;
    var s := [MINUS] + rest;
    TokenAt(s);
    assert rest != [] ==> s[1] == rest[0];
    assert NumberEnd(s) == 1;
    assert s[..1] == [MINUS] && s[1..] == rest;
    LoneMinus([MINUS]);
  }

  lemma MinusDocument()
    ensures Parse([MINUS]) == Parsed(Int(0))
  {
    hide ReadValue;
    MinusIsZero([], 0);
    assert [MINUS] + [] == [MINUS];
  }

  // ----- objects

  /**
   After a member and a comma, a closing brace is accepted if and only if that member's name is empty,
   whatever was read before and whatever follows.
   */
  lemma BraceAfterComma(m: Member, d: nat, name: Bytes, acc: seq<Member>, tail: Bytes)
    requires Sendable(m.value) && d + Depth(m.value) <= STACK_LIMIT
    ensures ReadMembers(Quoted(m.key) + ([COLON] + (Write(m.value) + ([COMMA] + ([RBRACE] + tail)))), d, name, acc)
         == if m.key == [] then Done(Obj(Insert(acc, Member([], Retag(m.value)))), tail) else SyntaxError
  {
    hide Quoted, Write, ReadToken, Depth, Retag, Sendable, Insert;
    var closing := [RBRACE] + tail;
    ReadMember(m, d, name, acc, [COMMA] + closing);
    SymbolRead(COMMA, Separator, closing);
    SymbolRead(RBRACE, ObjectEnd, tail);
  }

  /** The document `{"":v,}` is read, and no other object with one member and a comma is. */
  lemma TrailingComma(key: Bytes, v: Value, tail: Bytes)
    requires Sendable(v) && 1 + Depth(v) <= STACK_LIMIT
    ensures Parse([LBRACE] + (Quoted(key) + ([COLON] + (Write(v) + ([COMMA] + ([RBRACE] + tail))))))
         == if key == [] then Parsed(Obj([Member([], Retag(v))])) else Rejected
  {
    hide Quoted, Write, ReadToken, Depth, Retag, Sendable, ReadMembers;
    var inner := Quoted(key) + ([COLON] + (Write(v) + ([COMMA] + ([RBRACE] + tail))));
    SymbolRead(LBRACE, ObjectBegin, inner);
    BraceAfterComma(Member(key, v), 1, [], [], tail);
  }

  // ----- after the value

  /** Whatever follows a written document, the reader gives the same answer. */
  lemma TrailingText(v: Value, junk: Bytes)
    requires Sendable(v)
    ensures Parse(WriteDocument(v) + junk) == Parse(WriteDocument(v))
  {
    hide ReadValue, Write;
    ReadWrite(v, 0, [NEWLINE]);
    ReadWrite(v, 0, [NEWLINE] + junk);
    assert WriteDocument(v) + junk == Write(v) + ([NEWLINE] + junk);
  }

  // ----- what is read can be written and read again

  /** No real and no least integer, at any depth. */
  ghost predicate Clean(v: Value)
    decreases v
  {
    match v
    case Real(_) => false
    case Int(i) => i > MIN_INT64
    case Arr(items) => forall x :: x in items ==> Clean(x)
    case Obj(ms) => forall m :: m in ms ==> Clean(m.value)
    case _ => true
  }

  /** Writable at nesting depth `d`, and already tagged as the reader tags. */
  ghost predicate Stable(v: Value, d: nat) {
    Sendable(v) && Retag(v) == v && d + Depth(v) <= STACK_LIMIT
  }

  /** What the reader has at hand while it collects items or members at depth `d`. */
  ghost predicate ItemsOk(items: seq<Value>, d: nat) {
    forall x :: x in items ==> Clean(x) ==> Stable(x, d)
  }

  ghost predicate MembersOk(ms: seq<Member>, d: nat) {
    KeysSorted(ms) && forall m :: m in ms ==> Clean(m.value) ==> Stable(m.value, d)
  }

  lemma {:induction false} ItemsStable(items: seq<Value>, d: nat)
    requires d <= STACK_LIMIT && forall x :: x in items ==> Stable(x, d)
    ensures RetagItems(items) == items && d + ItemsDepth(items) <= STACK_LIMIT
  {
    hide Retag, Sendable, Depth;
    if items != [] {
      assert Stable(items[0], d);
      ItemsStable(items[1..], d);
      assert items == [items[0]] + items[1..];
    }
  }

  lemma {:induction false} MembersStable(ms: seq<Member>, d: nat)
    requires d <= STACK_LIMIT && forall m :: m in ms ==> Stable(m.value, d)
    ensures RetagMembers(ms) == ms && d + MembersDepth(ms) <= STACK_LIMIT
  {
    hide Retag, Sendable, Depth;
    if ms != [] {
      assert Stable(ms[0].value, d);
      MembersStable(ms[1..], d);
      assert ms == [ms[0]] + ms[1..];
    }
  }

  lemma ArrayStable(items: seq<Value>, d: nat)
    requires ItemsOk(items, d + 1) && d < STACK_LIMIT && Clean(Arr(items))
    ensures Stable(Arr(items), d)
  {
    forall x | x in items
      ensures Stable(x, d + 1)
    {
      assert Clean(x);
    }
    ItemsStable(items, d + 1);
  }

  lemma ObjectStable(ms: seq<Member>, d: nat)
    requires MembersOk(ms, d + 1) && d < STACK_LIMIT && Clean(Obj(ms))
    ensures Stable(Obj(ms), d)
  {
    hide KeysSorted;
    forall m | m in ms
      ensures Stable(m.value, d + 1)
    {
      assert Clean(m.value);
    }
    MembersStable(ms, d + 1);
  }

  // ----- members stay in key order

  lemma {:induction false} LessTransitive(a: Bytes, b: Bytes, c: Bytes)
    requires Less(a, b) && Less(b, c)
    ensures Less(a, c)
  {
    if a != [] && a[0] == b[0] == c[0] {
      LessTransitive(a[1..], b[1..], c[1..]);
    }
  }

  lemma {:induction false} LessTotal(a: Bytes, b: Bytes)
    ensures Less(a, b) || a == b || Less(b, a)
  {
    if a != [] && b != [] && a[0] == b[0] {
      LessTotal(a[1..], b[1..]);
      assert a == [a[0]] + a[1..] && b == [b[0]] + b[1..];
    }
  }

  /** Every member after an insertion is the new one or was there before. */
  lemma {:induction false} InsertMembers(ms: seq<Member>, m: Member)
    ensures forall x :: x in Insert(ms, m) ==> x == m || x in ms
  {
    if ms != [] {
      InsertMembers(ms[1..], m);
    }
  }

  lemma {:induction false} InsertSorted(ms: seq<Member>, m: Member)
    requires KeysSorted(ms)
    ensures KeysSorted(Insert(ms, m))
  {
    hide Less;
    if ms != [] {
      LessTotal(m.key, ms[0].key);
      if Less(m.key, ms[0].key) {
        forall j | 0 <= j < |ms|
          ensures Less(m.key, ms[j].key)
        {
          if j > 0 {
            LessTransitive(m.key, ms[0].key, ms[j].key);
          }
        }
      } else if m.key != ms[0].key {
        InsertSorted(ms[1..], m);
        InsertMembers(ms[1..], m);
        var rest := Insert(ms[1..], m);
        forall j | 0 <= j < |rest|
          ensures Less(ms[0].key, rest[j].key)
        {
          assert rest[j] in rest;
        }
      }
    }
  }

  lemma InsertOk(ms: seq<Member>, m: Member, d: nat)
    requires MembersOk(ms, d) && (Clean(m.value) ==> Stable(m.value, d))
    ensures MembersOk(Insert(ms, m), d)
  {
    hide Clean, Stable, KeysSorted;
    InsertSorted(ms, m);
    InsertMembers(ms, m);
  }

  // ----- the reader's output

  lemma NumberStable(text: Bytes, d: nat)
    requires text != [] && d < STACK_LIMIT && Clean(NumberValue(text))
    ensures Stable(NumberValue(text), d)
  {
    hide DecodeNumber;
    DecodeNumberIff(text);
  }

  lemma {:induction false} ReadStable(s: Bytes, d: nat)
    ensures var r := ReadValue(s, d);
            r.Done? && Clean(r.value) ==> Stable(r.value, d)
    decreases |s|, 1
  {
    if d < STACK_LIMIT {
      var l := ReadToken(s);
      match l.token
      case ObjectBegin =>
        ReadMembersOk(l.rest, d + 1, [], []);
      case ArrayBegin =>
        var r := SkipSpaces(l.rest);
        if r != [] && r[0] == RBRACKET {
        } else {
          ReadItemsOk(r, d + 1);
          var items := ReadItems(r, d + 1);
          if items.Done? && Clean(Arr(items.value)) {
            ArrayStable(items.value, d);
          }
        }
      case NumberToken(text) =>
        if Clean(NumberValue(text)) {
          NumberStable(text, d);
        }
      case _ =>
    }
  }

  lemma {:induction false} ReadItemsOk(s: Bytes, d: nat)
    ensures var r := ReadItems(s, d);
            r.Done? ==> ItemsOk(r.value, d)
    decreases |s|, 2
  {
    hide Clean, Stable, ReadValue, ReadToken;
    ReadStable(s, d);
    var r := ReadValue(s, d);
    if r.Done? {
      var l := ReadToken(r.rest);
      if l.token.Separator? {
        ReadItemsOk(l.rest, d);
      }
    }
  }

  lemma {:induction false} ReadMembersOk(s: Bytes, d: nat, name: Bytes, ms: seq<Member>)
    requires MembersOk(ms, d) && 0 < d <= STACK_LIMIT
    ensures var r := ReadMembers(s, d, name, ms);
            r.Done? && Clean(r.value) ==> Stable(r.value, d - 1)
    decreases |s|, 2
  {
    hide Clean, Stable, ReadValue, ReadToken, Unescape, Insert, MembersOk;
    var l := ReadToken(s);
    if l.token.ObjectEnd? && name == [] {
      ReadObjectStable(ms, d);
    } else if l.token.StringToken? && Unescape(l.token.body).Some? {
      var c := ReadToken(l.rest);
      if c.token.MemberSeparator? {
        ReadStable(c.rest, d);
        var v := ReadValue(c.rest, d);
        if v.Done? {
          var m := Member(Unescape(l.token.body).value, v.value);
          InsertOk(ms, m, d);
          ReadObjectStable(Insert(ms, m), d);
          var e := ReadToken(v.rest);
          if e.token.Separator? {
            ReadMembersOk(e.rest, d, m.key, Insert(ms, m));
          }
        }
      }
    }
  }

  lemma ReadObjectStable(ms: seq<Member>, d: nat)
    requires MembersOk(ms, d) && 0 < d <= STACK_LIMIT
    ensures Clean(Obj(ms)) ==> Stable(Obj(ms), d - 1)
  {
    hide MembersOk, Stable;
    if Clean(Obj(ms)) {
      ObjectStable(ms, d - 1);
    }
  }

  /**
   Whatever text is accepted, if the value has no real and is not the least integer anywhere, then it can
   be written, and reading that gives the same value, tags and all.
   */
  lemma ParsedSurvives(text: Bytes)
    requires Parse(text).Parsed? && Clean(Parse(text).value)
    ensures var v := Parse(text).value;
            Sendable(v) && Parse(WriteDocument(v)) == Parsed(v)
  {
    hide ReadValue, Clean, Sendable, Retag, Depth, Write;
    ReadStable(text, 0);
    RoundTrip(Parse(text).value);
  }
}
