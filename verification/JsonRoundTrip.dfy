/** Reading what the writer wrote. */
module JsonRoundTrip {
  import opened Collections
  import opened JsonText
  import opened JsonNumber
  import opened JsonString
  import opened JsonCodec

  /** The values the wire carries: no reals, 64-bit integers other than the least, sorted object keys. */
  ghost predicate Sendable(v: Value)
    decreases v
  {
    match v
    case Null => true
    case Bool(_) => true
    case Int(i) => -0x8000_0000_0000_0000 < i <= 0x7FFF_FFFF_FFFF_FFFF
    case UInt(u) => 0 <= u <= 0xFFFF_FFFF_FFFF_FFFF
    case Real(_) => false
    case Str(_) => true
    case Arr(items) => forall x :: x in items ==> Sendable(x)
    case Obj(ms) => KeysSorted(ms) && forall m :: m in ms ==> Sendable(m.value)
  }

  /** The nesting depth; a scalar has depth one. */
  function Depth(v: Value): nat
    decreases v, 1
  {
    match v
    case Arr(items) => 1 + ItemsDepth(items)
    case Obj(ms) => 1 + MembersDepth(ms)
    case _ => 1
  }

  function Max(a: nat, b: nat): nat { if a < b then b else a }

  function ItemsDepth(items: seq<Value>): nat
    decreases items, 0
  {
    if items == [] then 0 else Max(Depth(items[0]), ItemsDepth(items[1..]))
  }

  function MembersDepth(ms: seq<Member>): nat
    decreases ms, 0
  {
    if ms == [] then 0 else Max(Depth(ms[0].value), MembersDepth(ms[1..]))
  }

  /** A value with the tags the reader gives to integers. */
  function Retag(v: Value): Value
    decreases v, 1
  {
    match v
    case Int(i) => if i <= 2147483647 then Int(i) else UInt(i)
    case UInt(u) => if u <= 2147483647 then Int(u) else UInt(u)
    case Arr(items) => Arr(RetagItems(items))
    case Obj(ms) => Obj(RetagMembers(ms))
    case _ => v
  }

  function RetagItems(items: seq<Value>): (r: seq<Value>)
    ensures |r| == |items|
    decreases items, 0
  {
    if items == [] then [] else [Retag(items[0])] + RetagItems(items[1..])
  }

  function RetagMembers(ms: seq<Member>): (r: seq<Member>)
    ensures |r| == |ms| && forall i :: 0 <= i < |ms| ==> r[i].key == ms[i].key
    decreases ms, 0
  {
    if ms == [] then [] else [Member(ms[0].key, Retag(ms[0].value))] + RetagMembers(ms[1..])
  }

  /** What may follow a value in the writer's output. */
  predicate Follows(t: Bytes) {
    t != [] && (t[0] == COMMA || t[0] == RBRACKET || t[0] == RBRACE || t[0] == NEWLINE)
  }

  // ----- tokens

  lemma TokenAt(s: Bytes)
    requires s != [] && !IsSpace(s[0])
    ensures SkipSpaces(s) == s
  {}

  lemma {:induction false} DigitsEndAt(s: Bytes, i: nat, k: nat)
    requires i <= k <= |s| && (forall j :: i <= j < k ==> IsDigit(s[j])) && (k < |s| ==> !IsDigit(s[k]))
    ensures DigitsEnd(s, i) == k
    decreases k - i
  {
    if i < k {
      DigitsEndAt(s, i + 1, k);
    }
  }

  lemma IntTextShape(i: int)
    ensures var t := IntText(i);
            t != [] && (IsDigit(t[0]) || t[0] == MINUS) && forall j :: 1 <= j < |t| ==> IsDigit(t[j])
  {
    hide Digits;
  }

  lemma NumberEndAt(s: Bytes, k: nat)
    requires 1 <= k < |s| && (forall j :: 1 <= j < k ==> IsDigit(s[j])) && Follows(s[k..])
    ensures NumberEnd(s) == k
  {
    assert s[k] == s[k..][0];
    DigitsEndAt(s, 1, k);
  }

  /** An integer's text is one number token. */
  lemma NumberTokenRead(i: int, tail: Bytes)
    requires Follows(tail)
    ensures ReadToken(IntText(i) + tail) == Lexed(NumberToken(IntText(i)), tail)
  {
    hide IntText, NumberEnd, Follows, SkipSpaces;
    var t := IntText(i);
    var s := t + tail;
    IntTextShape(i);
    FollowsSomething(tail);
    assert s[..|t|] == t && s[|t|..] == tail;
    TokenAt(s);
    NumberEndAt(s, |t|);
  }

  lemma FollowsSomething(tail: Bytes)
    requires Follows(tail)
    ensures tail != []
  {}

  lemma QuotedRest(b: Bytes, tail: Bytes)
    ensures (Quoted(b) + tail)[1..] == [] + Escape(b) + [QUOTE] + tail
  {}

  /** A quoted string is one string token, whose body unescapes to the string. */
  lemma StringTokenRead(b: Bytes, tail: Bytes)
    ensures ReadToken(Quoted(b) + tail) == Lexed(StringToken(Escape(b)), tail)
    ensures Unescape(Escape(b)) == Some(b)
  {
    hide Escape, Scan, Unescape;
    UnescapeEscape(b);
    var s := Quoted(b) + tail;
    TokenAt(s);
    QuotedRest(b, tail);
    ScanEscaped([], b, tail);
    var r := s[1..];
    assert r[..|Escape(b)|] == Escape(b) && r[|Escape(b)| + 1..] == tail;
  }

  lemma LiteralRead(text: Bytes, t: Token, tail: Bytes)
    requires text != []
    ensures Literal(text + tail, text, t) == Lexed(t, tail)
  {
    var s := text + tail;
    assert s[..|text|] == text && s[|text|..] == tail;
  }

  lemma WordRead(v: Value, tail: Bytes)
    requires v.Null? || v.Bool?
    ensures ReadToken(Write(v) + tail)
            == Lexed(if v.Null? then NullToken else if v.b then TrueToken else FalseToken, tail)
  {
    var s := Write(v) + tail;
    TokenAt(s);
    if v.Null? {
      LiteralRead(TEXT_NULL, NullToken, tail);
    } else if v.b {
      LiteralRead(TEXT_TRUE, TrueToken, tail);
    } else {
      LiteralRead(TEXT_FALSE, FalseToken, tail);
    }
  }

  /** The scalar cases of the round trip. */
  lemma ScalarRead(v: Value, d: nat, tail: Bytes)
    requires Sendable(v) && !v.Arr? && !v.Obj? && Follows(tail) && d < STACK_LIMIT
    ensures ReadValue(Write(v) + tail, d) == Done(Retag(v), tail)
  {
    hide ReadToken, DecodeNumber, IntText, Quoted, Escape, Unescape;
    match v
    case Null => WordRead(v, tail);
    case Bool(b) => WordRead(v, tail);
    case Int(i) => NumberTokenRead(i, tail); DecodeIntText(i);
    case UInt(u) => NumberTokenRead(u, tail); DecodeIntText(u);
    case Str(b) => StringTokenRead(b, tail);
  }

  lemma SymbolRead(c: Byte, t: Token, tail: Bytes)
    requires (c, t) in {(LBRACE, ObjectBegin), (RBRACE, ObjectEnd), (LBRACKET, ArrayBegin), (RBRACKET, ArrayEnd),
                        (COMMA, Separator), (COLON, MemberSeparator)}
    ensures ReadToken([c] + tail) == Lexed(t, tail)
  {
    var s := [c] + tail;
    TokenAt(s);
    assert s[1..] == tail;
  }

  /** No value starts like the end of an array, or with a space. */
  lemma WriteStarts(v: Value)
    requires Sendable(v)
    ensures Write(v) != [] && Write(v)[0] != RBRACKET && !IsSpace(Write(v)[0])
  {}

  // ----- the round trip

  /** Success with the retagged value, or the depth exception. */
  function Expect<T>(fits: bool, v: T, tail: Bytes): Read<T> { if fits then Done(v, tail) else TooDeep }

  /**
   Reading a written value consumes exactly its text and yields it with retagged integers, if and only if
   it does not nest beyond the limit.
   */
  lemma {:induction false} ReadWrite(v: Value, d: nat, tail: Bytes)
    requires Sendable(v) && Follows(tail) && d <= STACK_LIMIT
    ensures ReadValue(Write(v) + tail, d) == Expect(d + Depth(v) <= STACK_LIMIT, Retag(v), tail)
    decreases v, 1
  {
    if d < STACK_LIMIT {
      match v
      case Arr(items) => ReadWriteArray(items, d, tail);
      case Obj(ms) => ReadWriteObject(ms, d, tail);
      case _ => ScalarRead(v, d, tail);
    }
  }

  lemma {:induction false} ReadWriteArray(items: seq<Value>, d: nat, tail: Bytes)
    requires Sendable(Arr(items)) && Follows(tail) && d < STACK_LIMIT
    ensures ReadValue(Write(Arr(items)) + tail, d)
            == Expect(d + 1 + ItemsDepth(items) <= STACK_LIMIT, Arr(RetagItems(items)), tail)
    decreases items, 2
  {
    hide WriteItems, ReadToken, ReadItems, ItemsDepth, RetagItems, SkipSpaces, Follows;
    var inner := WriteItems(items) + [RBRACKET] + tail;
    assert Write(Arr(items)) + tail == [LBRACKET] + inner;
    SymbolRead(LBRACKET, ArrayBegin, inner);
    if items == [] {
      EmptyArray(tail);
    } else {
      ArrayStarts(items, tail);
      ReadWriteItems(items, d + 1, tail);
    }
  }

  lemma EmptyArray(tail: Bytes)
    ensures var inner := WriteItems([]) + [RBRACKET] + tail;
            SkipSpaces(inner) == inner && inner[0] == RBRACKET && inner[1..] == tail
    ensures ItemsDepth([]) == 0 && RetagItems([]) == []
  {
    var inner := WriteItems([]) + [RBRACKET] + tail;
    assert inner == [RBRACKET] + tail;
    TokenAt(inner);
  }

  /** A nonempty array's text starts with its first item, so not like an empty one. */
  lemma ArrayStarts(items: seq<Value>, tail: Bytes)
    requires items != [] && Sendable(items[0])
    ensures var inner := WriteItems(items) + [RBRACKET] + tail;
            SkipSpaces(inner) == inner && inner[0] != RBRACKET
  {
    hide Write, SkipSpaces, Sendable;
    var inner := WriteItems(items) + [RBRACKET] + tail;
    WriteStarts(items[0]);
    assert inner[0] == Write(items[0])[0];
    TokenAt(inner);
  }

  lemma {:induction false} ReadWriteItems(items: seq<Value>, d: nat, tail: Bytes)
    requires items != [] && (forall x :: x in items ==> Sendable(x)) && d <= STACK_LIMIT
    ensures ReadItems(WriteItems(items) + [RBRACKET] + tail, d)
            == Expect(d + ItemsDepth(items) <= STACK_LIMIT, RetagItems(items), tail)
    decreases items, 0
  {
    hide Write, ReadToken, ReadValue, Depth, Retag, Sendable;
    var v := items[0];
    var s := WriteItems(items) + [RBRACKET] + tail;
    if |items| == 1 {
      var after := [RBRACKET] + tail;
      assert s == Write(v) + after;
      ReadWrite(v, d, after);
      SymbolRead(RBRACKET, ArrayEnd, tail);
      assert RetagItems(items) == [Retag(v)];
    } else {
      var more := WriteItems(items[1..]) + [RBRACKET] + tail;
      var after := [COMMA] + more;
      assert s == Write(v) + after;
      ReadWrite(v, d, after);
      SymbolRead(COMMA, Separator, more);
      ReadWriteItems(items[1..], d, tail);
    }
  }

  lemma EmptyObject(tail: Bytes, d: nat)
    ensures ReadMembers(WriteMembers([]) + [RBRACE] + tail, d, [], []) == Done(Obj(RetagMembers([])), tail)
    ensures MembersDepth([]) == 0
  {
    assert WriteMembers([]) + [RBRACE] + tail == [RBRACE] + tail;
    SymbolRead(RBRACE, ObjectEnd, tail);
  }

  lemma {:induction false} ReadWriteObject(ms: seq<Member>, d: nat, tail: Bytes)
    requires Sendable(Obj(ms)) && Follows(tail) && d < STACK_LIMIT
    ensures ReadValue(Write(Obj(ms)) + tail, d)
            == Expect(d + 1 + MembersDepth(ms) <= STACK_LIMIT, Obj(RetagMembers(ms)), tail)
    decreases ms, 2
  {
    hide ReadToken, WriteMembers, ReadMembers, MembersDepth, RetagMembers;
    var inner := WriteMembers(ms) + [RBRACE] + tail;
    assert Write(Obj(ms)) + tail == [LBRACE] + inner;
    SymbolRead(LBRACE, ObjectBegin, inner);
    if ms == [] {
      EmptyObject(tail, d + 1);
    } else {
      ReadWriteMembers(ms, d + 1, [], [], tail);
      assert [] + RetagMembers(ms) == RetagMembers(ms);
    }
  }

  lemma Regroup(a: Bytes, b: Bytes, c: Bytes, e: Bytes, t: Bytes)
    ensures a + b + c + e + t == a + (b + (c + (e + t)))
  {}

  lemma RegroupTail(a: Bytes, b: Bytes, c: Bytes, t: Bytes)
    ensures a + b + c + t == a + (b + c + t)
  {}

  /** The text of a member list, cut after its first key and after its first value. */
  lemma MembersSplit(ms: seq<Member>, tail: Bytes, more: Bytes)
    requires ms != []
    requires more == if |ms| == 1 then tail else WriteMembers(ms[1..]) + [RBRACE] + tail
    ensures WriteMembers(ms) + [RBRACE] + tail
            == Quoted(ms[0].key) + ([COLON] + (Write(ms[0].value) + ([if |ms| == 1 then RBRACE else COMMA] + more)))
  {
    hide Quoted, Write;
    var q, w := Quoted(ms[0].key), Write(ms[0].value);
    Regroup(q, [COLON], w, [if |ms| == 1 then RBRACE else COMMA], more);
    if |ms| > 1 {
      RegroupTail(q + [COLON] + w + [COMMA], WriteMembers(ms[1..]), [RBRACE], tail);
    }
  }

  /** Reading one member and the token after it. */
  lemma {:induction false} ReadMember(m: Member, d: nat, name: Bytes, acc: seq<Member>, after: Bytes)
    requires Sendable(m.value) && d <= STACK_LIMIT && Follows(after)
    ensures ReadMembers(Quoted(m.key) + ([COLON] + (Write(m.value) + after)), d, name, acc)
            == if d + Depth(m.value) > STACK_LIMIT then TooDeep else
               var e := ReadToken(after);
               var ms := Insert(acc, Member(m.key, Retag(m.value)));
               if e.token.ObjectEnd? then Done(Obj(ms), e.rest)
               else if e.token.Separator? then ReadMembers(e.rest, d, m.key, ms)
               else SyntaxError
    decreases m, 2
  {
    hide Quoted, Write, ReadToken, ReadValue, Unescape, Escape, Depth, Retag, Sendable, Insert;
    var value := Write(m.value) + after;
    StringTokenRead(m.key, [COLON] + value);
    SymbolRead(COLON, MemberSeparator, value);
    ReadWrite(m.value, d, after);
  }

  ghost predicate Before(acc: seq<Member>, ms: seq<Member>) {
    forall i, j :: 0 <= i < |acc| && 0 <= j < |ms| ==> Less(acc[i].key, ms[j].key)
  }

  lemma KeysStep(acc: seq<Member>, ms: seq<Member>, m: Member)
    requires ms != [] && KeysSorted(ms) && Before(acc, ms) && m.key == ms[0].key
    ensures Insert(acc, m) == acc + [m]
    ensures KeysSorted(ms[1..]) && Before(acc + [m], ms[1..])
  {
    hide Less;
    InsertLast(acc, m);
  }

  lemma RetagStep(acc: seq<Member>, ms: seq<Member>)
    requires ms != []
    ensures (acc + [Member(ms[0].key, Retag(ms[0].value))]) + RetagMembers(ms[1..]) == acc + RetagMembers(ms)
  {
    hide Retag;
  }

  /** The member loop, with `acc` the members read so far: all of them sort before the ones to come. */
  lemma {:induction false} ReadWriteMembers(ms: seq<Member>, d: nat, name: Bytes, acc: seq<Member>, tail: Bytes)
    requires ms != [] && KeysSorted(ms) && (forall m :: m in ms ==> Sendable(m.value)) && d <= STACK_LIMIT
    requires Before(acc, ms)
    ensures ReadMembers(WriteMembers(ms) + [RBRACE] + tail, d, name, acc)
            == Expect(d + MembersDepth(ms) <= STACK_LIMIT, Obj(acc + RetagMembers(ms)), tail)
    decreases ms, 0
  {
    hide Quoted, Write, ReadToken, Depth, Retag, Sendable, Insert, ReadMembers, WriteMembers, KeysSorted, Before;
    var m := ms[0];
    var last := |ms| == 1;
    var more := if last then tail else WriteMembers(ms[1..]) + [RBRACE] + tail;
    MembersSplit(ms, tail, more);
    ReadMember(m, d, name, acc, [if last then RBRACE else COMMA] + more);
    var m' := Member(m.key, Retag(m.value));
    KeysStep(acc, ms, m');
    if last {
      SymbolRead(RBRACE, ObjectEnd, tail);
      assert RetagMembers(ms) == [m'];
    } else {
      SymbolRead(COMMA, Separator, more);
      ReadWriteMembers(ms[1..], d, m.key, acc + [m'], tail);
      RetagStep(acc, ms);
    }
  }

  /** Every sendable value survives the wire up to integer tags, if and only if it nests at most 1000 deep. */
  lemma RoundTrip(v: Value)
    requires Sendable(v)
    ensures Parse(WriteDocument(v)) == if Depth(v) <= 1000 then Parsed(Retag(v)) else Thrown
  {
    ReadWrite(v, 0, [NEWLINE]);
  }

  // ----- retagging loses nothing

  /** A value with every integer tagged as signed. */
  function Untagged(v: Value): Value
    decreases v, 1
  {
    match v
    case UInt(u) => Int(u)
    case Arr(items) => Arr(UntaggedItems(items))
    case Obj(ms) => Obj(UntaggedMembers(ms))
    case _ => v
  }

  function UntaggedItems(items: seq<Value>): seq<Value>
    decreases items, 0
  {
    if items == [] then [] else [Untagged(items[0])] + UntaggedItems(items[1..])
  }

  function UntaggedMembers(ms: seq<Member>): seq<Member>
    decreases ms, 0
  {
    if ms == [] then [] else [Member(ms[0].key, Untagged(ms[0].value))] + UntaggedMembers(ms[1..])
  }

  /** What comes back differs from what was sent in nothing but the tags of integers. */
  lemma {:induction false} RetagOnlyTags(v: Value)
    ensures Untagged(Retag(v)) == Untagged(v)
    decreases v, 1
  {
    match v
    case Arr(items) => RetagItemsOnlyTags(items);
    case Obj(ms) => RetagMembersOnlyTags(ms);
    case _ =>
  }

  lemma {:induction false} RetagItemsOnlyTags(items: seq<Value>)
    ensures UntaggedItems(RetagItems(items)) == UntaggedItems(items)
    decreases items, 0
  {
    if items != [] {
      RetagOnlyTags(items[0]);
      RetagItemsOnlyTags(items[1..]);
      assert RetagItems(items)[1..] == RetagItems(items[1..]);
    }
  }

  lemma {:induction false} RetagMembersOnlyTags(ms: seq<Member>)
    ensures UntaggedMembers(RetagMembers(ms)) == UntaggedMembers(ms)
    decreases ms, 0
  {
    if ms != [] {
      RetagOnlyTags(ms[0].value);
      RetagMembersOnlyTags(ms[1..]);
      assert RetagMembers(ms)[1..] == RetagMembers(ms[1..]);
    }
  }
}
