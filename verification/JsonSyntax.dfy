/**
 The language the reader accepts: the texts whose tokens spell out a syntax tree, and nothing else. The
 value of an accepted text is the value of its tree.
 */
module JsonSyntax {
  import opened Collections
  import opened JsonText
  import opened JsonNumber
  import opened JsonString
  import opened JsonCodec
  import opened JsonRoundTrip
  import opened JsonBlanks

  // ----- trees

  /** A scalar by its token, a list, or fields in the order of the text; `comma` is a comma before the closing brace. */
  datatype Tree = Leaf(token: Token) | List(items: seq<Tree>) | Fields(fields: seq<Field>, comma: bool)

  /** A field with its name as written between the quotes. */
  datatype Field = Field(name: Bytes, tree: Tree)

  /** Scalars are scalars, escapes are sound, and a comma is left dangling only after an empty name. */
  ghost predicate Sound(t: Tree)
    decreases t
  {
    match t
    case Leaf(x) =>
      || x.NullToken? || x.TrueToken? || x.FalseToken? || x.NumberToken?
      || (x.StringToken? && Unescape(x.body).Some?)
    case List(items) => forall i :: 0 <= i < |items| ==> Sound(items[i])
    case Fields(fs, comma) =>
      && (forall i :: 0 <= i < |fs| ==> Unescape(fs[i].name).Some? && Sound(fs[i].tree))
      && (comma ==> fs != [] && Unescape(fs[|fs| - 1].name) == Some([]))
  }

  function Spelled(t: Tree): seq<Token>
    decreases t, 1
  {
    match t
    case Leaf(x) => [x]
    case List(items) => [ArrayBegin] + SpelledItems(items) + [ArrayEnd]
    case Fields(fs, comma) => [ObjectBegin] + SpelledFields(fs, comma) + [ObjectEnd]
  }

  function SpelledItems(items: seq<Tree>): seq<Token>
    decreases items, 0
  {
    if items == [] then []
    else if |items| == 1 then Spelled(items[0])
    else Spelled(items[0]) + [Separator] + SpelledItems(items[1..])
  }

  function SpelledField(f: Field): seq<Token>
    decreases f, 2
  {
    [StringToken(f.name), MemberSeparator] + Spelled(f.tree)
  }

  function SpelledFields(fs: seq<Field>, comma: bool): seq<Token>
    decreases fs, 0
  {
    if fs == [] then []
    else if |fs| == 1 then SpelledField(fs[0]) + if comma then [Separator] else []
    else SpelledField(fs[0]) + [Separator] + SpelledFields(fs[1..], comma)
  }

  /** The value of a tree; of fields with one name the last counts. */
  function ValueOf(t: Tree): Value
    decreases t, 1
  {
    match t
    case Leaf(x) =>
      (match x
       case TrueToken => Bool(true)
       case FalseToken => Bool(false)
       case NumberToken(text) => NumberValue(text)
       case StringToken(body) => if Unescape(body).Some? then Str(Unescape(body).value) else Null
       case _ => Null)
    case List(items) => Arr(ValuesOf(items))
    case Fields(fs, _) => Obj(Gathered([], fs))
  }

  function ValuesOf(items: seq<Tree>): seq<Value>
    decreases items, 0
  {
    if items == [] then [] else [ValueOf(items[0])] + ValuesOf(items[1..])
  }

  function Gathered(ms: seq<Member>, fs: seq<Field>): seq<Member>
    decreases fs, 0
  {
    if fs == [] then ms
    else
      var name := if Unescape(fs[0].name).Some? then Unescape(fs[0].name).value else [];
      Gathered(Insert(ms, Member(name, ValueOf(fs[0].tree))), fs[1..])
  }

  function Height(t: Tree): nat
    decreases t, 1
  {
    match t
    case Leaf(_) => 1
    case List(items) => 1 + ItemsHeight(items)
    case Fields(fs, _) => 1 + FieldsHeight(fs)
  }

  function ItemsHeight(items: seq<Tree>): nat
    decreases items, 0
  {
    if items == [] then 0 else Max(Height(items[0]), ItemsHeight(items[1..]))
  }

  function FieldsHeight(fs: seq<Field>): nat
    decreases fs, 0
  {
    if fs == [] then 0 else Max(Height(fs[0].tree), FieldsHeight(fs[1..]))
  }

  // ----- the tokens of a text

  /** What is left of a text after `n` tokens. */
  function Past(s: Bytes, n: nat): (r: Bytes)
    decreases n
  {
    if n == 0 then s else Past(ReadToken(s).rest, n - 1)
  }

  /** The text starts with these tokens. */
  predicate Starts(s: Bytes, ts: seq<Token>)
    decreases |ts|
  {
    ts == [] || (ReadToken(s).token == ts[0] && Starts(ReadToken(s).rest, ts[1..]))
  }

  lemma {:induction false} StartsConcat(s: Bytes, a: seq<Token>, b: seq<Token>)
    ensures Starts(s, a + b) <==> Starts(s, a) && Starts(Past(s, |a|), b)
    ensures Past(s, |a + b|) == Past(Past(s, |a|), |b|)
    decreases |a|
  {
    hide ReadToken;
    if a == [] {
      assert a + b == b;
    } else {
      assert (a + b)[0] == a[0] && (a + b)[1..] == a[1..] + b;
      StartsConcat(ReadToken(s).rest, a[1..], b);
    }
  }

  lemma StartsOne(s: Bytes, t: Token)
    ensures Starts(s, [t]) <==> ReadToken(s).token == t
    ensures Past(s, 1) == ReadToken(s).rest
  {
    hide ReadToken;
    assert [t][1..] == [];
    assert Past(ReadToken(s).rest, 0) == ReadToken(s).rest;
  }

  // ----- every tree that is spelled out is read

  lemma {:induction false} TreeRead(t: Tree, s: Bytes, d: nat)
    requires Sound(t) && Starts(s, Spelled(t)) && d <= STACK_LIMIT
    ensures ReadValue(s, d) == Expect(d + Height(t) <= STACK_LIMIT, ValueOf(t), Past(s, |Spelled(t)|))
    decreases t, 1
  {
    if d < STACK_LIMIT {
      match t
      case Leaf(x) => LeafRead(x, s, d);
      case List(items) => ListRead(items, s, d);
      case Fields(fs, comma) => FieldsRead(fs, comma, s, d);
    }
  }

  lemma LeafRead(x: Token, s: Bytes, d: nat)
    requires Sound(Leaf(x)) && Starts(s, [x]) && d < STACK_LIMIT
    ensures ReadValue(s, d) == Done(ValueOf(Leaf(x)), Past(s, 1))
  {
    hide ReadToken, Unescape, NumberValue, Starts, Past, ReadItems, ReadMembers;
    StartsOne(s, x);
  }

  lemma {:induction false} ListRead(items: seq<Tree>, s: Bytes, d: nat)
    requires Sound(List(items)) && Starts(s, Spelled(List(items))) && d < STACK_LIMIT
    ensures ReadValue(s, d)
         == Expect(d + 1 + ItemsHeight(items) <= STACK_LIMIT, Arr(ValuesOf(items)), Past(s, |Spelled(List(items))|))
    decreases items, 2
  {
    hide ReadToken, SkipSpaces, ReadItems, ReadMembers, Starts, Past, SpelledItems, ItemsHeight, ValuesOf;
    var inner := SpelledItems(items) + [ArrayEnd];
    assert Spelled(List(items)) == [ArrayBegin] + inner;
    StartsConcat(s, [ArrayBegin], inner);
    StartsOne(s, ArrayBegin);
    var r := ReadToken(s).rest;
    EndsAtOnce(r);
    if items == [] {
      NoItems();
      assert inner == [ArrayEnd];
      StartsOne(r, ArrayEnd);
    } else {
      ItemsStart(items, r);
      SkipItems(r, d + 1);
      ItemsRead(items, r, d + 1);
    }
  }

  lemma NoItems()
    ensures SpelledItems([]) == [] && ItemsHeight([]) == 0 && ValuesOf([]) == []
  {}

  /** The first token of a tree is never a closing bracket. */
  lemma TreeStarts(t: Tree)
    requires Sound(t)
    ensures Spelled(t) != [] && !Spelled(t)[0].ArrayEnd?
  {
    hide SpelledItems, SpelledFields;
  }

  lemma ItemsStart(items: seq<Tree>, s: Bytes)
    requires items != [] && Sound(items[0]) && Starts(s, SpelledItems(items) + [ArrayEnd])
    ensures !ReadToken(s).token.ArrayEnd?
  {
    hide ReadToken, Spelled, Sound;
    TreeStarts(items[0]);
    assert (SpelledItems(items) + [ArrayEnd])[0] == Spelled(items[0])[0];
  }

  lemma {:induction false} ItemsRead(items: seq<Tree>, s: Bytes, d: nat)
    requires items != [] && (forall i :: 0 <= i < |items| ==> Sound(items[i])) && d <= STACK_LIMIT
    requires Starts(s, SpelledItems(items) + [ArrayEnd])
    ensures ReadItems(s, d)
         == Expect(d + ItemsHeight(items) <= STACK_LIMIT, ValuesOf(items), Past(s, |SpelledItems(items) + [ArrayEnd]|))
    decreases items, 0
  {
    hide ReadToken, ReadValue, Spelled, Starts, Past, Sound, Height, ValueOf;
    var t := items[0];
    var a := Spelled(t);
    var last := |items| == 1;
    var b := if last then [ArrayEnd] else [Separator] + (SpelledItems(items[1..]) + [ArrayEnd]);
    assert SpelledItems(items) + [ArrayEnd] == a + b;
    StartsConcat(s, a, b);
    TreeRead(t, s, d);
    var r := Past(s, |a|);
    if last {
      StartsOne(r, ArrayEnd);
      assert ValuesOf(items) == [ValueOf(t)];
    } else {
      StartsConcat(r, [Separator], SpelledItems(items[1..]) + [ArrayEnd]);
      StartsOne(r, Separator);
      ItemsRead(items[1..], ReadToken(r).rest, d);
    }
  }

  lemma {:induction false} FieldsRead(fs: seq<Field>, comma: bool, s: Bytes, d: nat)
    requires Sound(Fields(fs, comma)) && Starts(s, Spelled(Fields(fs, comma))) && d < STACK_LIMIT
    ensures ReadValue(s, d)
         == Expect(d + 1 + FieldsHeight(fs) <= STACK_LIMIT, Obj(Gathered([], fs)), Past(s, |Spelled(Fields(fs, comma))|))
    decreases fs, 2
  {
    hide ReadToken, ReadItems, ReadMembers, Starts, Past, SpelledFields, FieldsHeight, Gathered;
    var inner := SpelledFields(fs, comma) + [ObjectEnd];
    assert Spelled(Fields(fs, comma)) == [ObjectBegin] + inner;
    StartsConcat(s, [ObjectBegin], inner);
    StartsOne(s, ObjectBegin);
    var r := ReadToken(s).rest;
    if fs == [] {
      NoFields(r, d + 1, comma);
    } else {
      MembersRead(fs, comma, r, d + 1, [], []);
    }
  }

  lemma NoFields(s: Bytes, d: nat, comma: bool)
    requires Starts(s, SpelledFields([], comma) + [ObjectEnd])
    ensures ReadMembers(s, d, [], []) == Done(Obj(Gathered([], [])), Past(s, |SpelledFields([], comma) + [ObjectEnd]|))
    ensures FieldsHeight([]) == 0
  {
    hide ReadToken, Starts, Past;
    assert SpelledFields([], comma) + [ObjectEnd] == [ObjectEnd];
    StartsOne(s, ObjectEnd);
  }

  /** One field and the token after it. */
  lemma {:induction false} FieldRead(f: Field, s: Bytes, d: nat, name: Bytes, ms: seq<Member>)
    requires Unescape(f.name).Some? && Sound(f.tree) && Starts(s, SpelledField(f)) && d <= STACK_LIMIT
    ensures ReadMembers(s, d, name, ms)
         == if d + Height(f.tree) > STACK_LIMIT then TooDeep else
            var e := ReadToken(Past(s, |SpelledField(f)|));
            var key := Unescape(f.name).value;
            var ms' := Insert(ms, Member(key, ValueOf(f.tree)));
            if e.token.ObjectEnd? then Done(Obj(ms'), e.rest)
            else if e.token.Separator? then ReadMembers(e.rest, d, key, ms')
            else SyntaxError
    decreases f, 2
  {
    hide ReadToken, ReadValue, Spelled, Starts, Past, Sound, Height, ValueOf, Unescape, Insert;
    var tail := Spelled(f.tree);
    assert SpelledField(f) == [StringToken(f.name)] + ([MemberSeparator] + tail);
    StartsConcat(s, [StringToken(f.name)], [MemberSeparator] + tail);
    StartsOne(s, StringToken(f.name));
    var r := ReadToken(s).rest;
    StartsConcat(r, [MemberSeparator], tail);
    StartsOne(r, MemberSeparator);
    TreeRead(f.tree, ReadToken(r).rest, d);
  }

  lemma {:induction false} MembersRead(fs: seq<Field>, comma: bool, s: Bytes, d: nat, name: Bytes, ms: seq<Member>)
    requires fs != [] && Sound(Fields(fs, comma)) && d <= STACK_LIMIT
    requires Starts(s, SpelledFields(fs, comma) + [ObjectEnd])
    ensures ReadMembers(s, d, name, ms)
         == Expect(d + FieldsHeight(fs) <= STACK_LIMIT, Obj(Gathered(ms, fs)), Past(s, |SpelledFields(fs, comma) + [ObjectEnd]|))
    decreases fs, 0
  {
    hide ReadToken, ReadMembers, SpelledField, Starts, Past, Height, ValueOf, Unescape, Insert;
    var f := fs[0];
    var a := SpelledField(f);
    var last := |fs| == 1;
    var more := if last then [ObjectEnd] else SpelledFields(fs[1..], comma) + [ObjectEnd];
    var b := if last && !comma then [ObjectEnd] else [Separator] + more;
    assert SpelledFields(fs, comma) + [ObjectEnd] == a + b;
    StartsConcat(s, a, b);
    FieldRead(f, s, d, name, ms);
    var r := Past(s, |a|);
    var ms' := Insert(ms, Member(Unescape(f.name).value, ValueOf(f.tree)));
    if last {
      LastGathered(ms, fs);
      if comma {
        StartsConcat(r, [Separator], [ObjectEnd]);
        StartsOne(r, Separator);
        StartsOne(ReadToken(r).rest, ObjectEnd);
        ClosedAfterComma(ReadToken(r).rest, d, ms');
      } else {
        StartsOne(r, ObjectEnd);
      }
    } else {
      StartsConcat(r, [Separator], more);
      StartsOne(r, Separator);
      SoundRest(fs, comma);
      MembersRead(fs[1..], comma, ReadToken(r).rest, d, Unescape(f.name).value, ms');
    }
  }

  lemma LastGathered(ms: seq<Member>, fs: seq<Field>)
    requires |fs| == 1 && Unescape(fs[0].name).Some?
    ensures Gathered(ms, fs) == Insert(ms, Member(Unescape(fs[0].name).value, ValueOf(fs[0].tree)))
    ensures FieldsHeight(fs) == Height(fs[0].tree)
  {
    hide Unescape, Insert, ValueOf, Height;
    assert fs[1..] == [];
  }

  lemma ClosedAfterComma(s: Bytes, d: nat, ms: seq<Member>)
    requires ReadToken(s).token.ObjectEnd?
    ensures ReadMembers(s, d, [], ms) == Done(Obj(ms), ReadToken(s).rest)
  {
    hide ReadToken;
  }

  lemma SoundRest(fs: seq<Field>, comma: bool)
    requires |fs| > 1 && Sound(Fields(fs, comma))
    ensures Sound(Fields(fs[1..], comma))
  {}

  // ----- whatever is read spells out a tree

  lemma {:induction false} ReadTree(s: Bytes, d: nat) returns (t: Tree)
    requires ReadValue(s, d).Done?
    ensures Sound(t) && Starts(s, Spelled(t)) && d + Height(t) <= STACK_LIMIT
    ensures ReadValue(s, d) == Done(ValueOf(t), Past(s, |Spelled(t)|))
    decreases |s|, 1
  {
    hide ReadToken, SkipSpaces, ReadItems, ReadMembers, Starts, Past, SpelledItems, SpelledFields, Unescape, NumberValue;
    hide ItemsHeight, FieldsHeight, ValuesOf, Gathered;
    var l := ReadToken(s);
    match l.token
    case ObjectBegin =>
      var fs, comma := MembersTree(l.rest, d + 1, [], []);
      t := Fields(fs, comma);
      FieldsSpelled(s, fs, comma);
    case ArrayBegin =>
      EndsAtOnce(l.rest);
      if ReadToken(l.rest).token.ArrayEnd? {
        t := List([]);
        NoItems();
        StartsOne(l.rest, ArrayEnd);
        assert SpelledItems([]) + [ArrayEnd] == [ArrayEnd];
        ListSpelled(s, []);
      } else {
        SkipItems(l.rest, d + 1);
        var items := ItemsTree(l.rest, d + 1);
        t := List(items);
        ListSpelled(s, items);
      }
    case _ =>
      t := Leaf(l.token);
      StartsOne(s, l.token);
  }

  lemma ListSpelled(s: Bytes, items: seq<Tree>)
    requires ReadToken(s).token.ArrayBegin?
    requires Starts(ReadToken(s).rest, SpelledItems(items) + [ArrayEnd])
    ensures Starts(s, Spelled(List(items)))
    ensures Past(s, |Spelled(List(items))|) == Past(ReadToken(s).rest, |SpelledItems(items) + [ArrayEnd]|)
  {
    hide ReadToken, Starts, Past, SpelledItems;
    var inner := SpelledItems(items) + [ArrayEnd];
    assert Spelled(List(items)) == [ArrayBegin] + inner;
    StartsConcat(s, [ArrayBegin], inner);
    StartsOne(s, ArrayBegin);
  }

  lemma FieldsSpelled(s: Bytes, fs: seq<Field>, comma: bool)
    requires ReadToken(s).token.ObjectBegin?
    requires Starts(ReadToken(s).rest, SpelledFields(fs, comma) + [ObjectEnd])
    ensures Starts(s, Spelled(Fields(fs, comma)))
    ensures Past(s, |Spelled(Fields(fs, comma))|) == Past(ReadToken(s).rest, |SpelledFields(fs, comma) + [ObjectEnd]|)
  {
    hide ReadToken, Starts, Past, SpelledFields;
    var inner := SpelledFields(fs, comma) + [ObjectEnd];
    assert Spelled(Fields(fs, comma)) == [ObjectBegin] + inner;
    StartsConcat(s, [ObjectBegin], inner);
    StartsOne(s, ObjectBegin);
  }

  lemma {:induction false} ItemsTree(s: Bytes, d: nat) returns (items: seq<Tree>)
    requires ReadItems(s, d).Done?
    ensures items != [] && (forall i :: 0 <= i < |items| ==> Sound(items[i])) && d + ItemsHeight(items) <= STACK_LIMIT
    ensures Starts(s, SpelledItems(items) + [ArrayEnd])
    ensures ReadItems(s, d) == Done(ValuesOf(items), Past(s, |SpelledItems(items) + [ArrayEnd]|))
    decreases |s|, 2
  {
    hide ReadToken, ReadValue, Spelled, Starts, Past, Sound, Height, ValueOf;
    var t := ReadTree(s, d);
    var a := Spelled(t);
    var r := Past(s, |a|);
    var l := ReadToken(r);
    if l.token.ArrayEnd? {
      items := [t];
      StartsOne(r, ArrayEnd);
      StartsConcat(s, a, [ArrayEnd]);
      assert [t][1..] == [] && ValuesOf([t]) == [ValueOf(t)];
      assert SpelledItems([t]) + [ArrayEnd] == a + [ArrayEnd];
    } else {
      assert l.token.Separator?;
      var more := ItemsTree(l.rest, d);
      items := [t] + more;
      assert items[1..] == more;
      var b := SpelledItems(more) + [ArrayEnd];
      StartsOne(r, Separator);
      StartsConcat(r, [Separator], b);
      StartsConcat(s, a, [Separator] + b);
      assert SpelledItems(items) + [ArrayEnd] == a + ([Separator] + b);
      assert ValuesOf(items) == [ValueOf(t)] + ValuesOf(more);
      assert Past(s, |a + ([Separator] + b)|) == Past(l.rest, |b|);
    }
  }

  lemma {:induction false} MembersTree(s: Bytes, d: nat, name: Bytes, ms: seq<Member>) returns (fs: seq<Field>, comma: bool)
    requires ReadMembers(s, d, name, ms).Done? && d <= STACK_LIMIT
    ensures Sound(Fields(fs, comma)) && (fs == [] ==> name == []) && d + FieldsHeight(fs) <= STACK_LIMIT
    ensures Starts(s, SpelledFields(fs, comma) + [ObjectEnd])
    ensures ReadMembers(s, d, name, ms) == Done(Obj(Gathered(ms, fs)), Past(s, |SpelledFields(fs, comma) + [ObjectEnd]|))
    decreases |s|, 2
  {
    hide ReadToken, ReadValue, Spelled, Starts, Past, Height, ValueOf, Unescape, Insert, SpelledFields, FieldsHeight, Gathered;
    var l := ReadToken(s);
    if l.token.ObjectEnd? && name == [] {
      fs, comma := [], false;
      NoneSpelled(s, ms);
    } else {
      var c := ReadToken(l.rest);
      var t := ReadTree(c.rest, d);
      var f := Field(l.token.body, t);
      FieldSpelled(s, f);
      var key := Unescape(f.name).value;
      var after := Past(s, |SpelledField(f)|);
      var e := ReadToken(after);
      if e.token.ObjectEnd? {
        fs, comma := [f], false;
        OneSpelled(s, f, ms);
      } else {
        var more, dangling := MembersTree(e.rest, d, key, Insert(ms, Member(key, ValueOf(t))));
        fs, comma := [f] + more, if more == [] then true else dangling;
        MoreSpelled(s, f, more, dangling, ms);
        SoundFields(f, more, dangling);
      }
    }
  }

  lemma NoneSpelled(s: Bytes, ms: seq<Member>)
    requires ReadToken(s).token.ObjectEnd?
    ensures Starts(s, SpelledFields([], false) + [ObjectEnd]) && Past(s, |SpelledFields([], false) + [ObjectEnd]|) == ReadToken(s).rest
    ensures Gathered(ms, []) == ms && FieldsHeight([]) == 0
  {
    hide ReadToken, Starts, Past;
    assert SpelledFields([], false) + [ObjectEnd] == [ObjectEnd];
    StartsOne(s, ObjectEnd);
  }

  lemma FieldSpelled(s: Bytes, f: Field)
    requires ReadToken(s).token == StringToken(f.name)
    requires var c := ReadToken(ReadToken(s).rest); c.token.MemberSeparator? && Starts(c.rest, Spelled(f.tree))
    ensures Starts(s, SpelledField(f))
    ensures Past(s, |SpelledField(f)|) == Past(ReadToken(ReadToken(s).rest).rest, |Spelled(f.tree)|)
  {
    hide ReadToken, Starts, Past, Spelled;
    var tail := Spelled(f.tree);
    var r := ReadToken(s).rest;
    StartsOne(s, StringToken(f.name));
    StartsOne(r, MemberSeparator);
    StartsConcat(r, [MemberSeparator], tail);
    StartsConcat(s, [StringToken(f.name)], [MemberSeparator] + tail);
    assert SpelledField(f) == [StringToken(f.name)] + ([MemberSeparator] + tail);
  }

  lemma OneSpelled(s: Bytes, f: Field, ms: seq<Member>)
    requires Starts(s, SpelledField(f)) && Unescape(f.name).Some?
    requires ReadToken(Past(s, |SpelledField(f)|)).token.ObjectEnd?
    ensures var all := SpelledFields([f], false) + [ObjectEnd];
            Starts(s, all) && Past(s, |all|) == ReadToken(Past(s, |SpelledField(f)|)).rest
    ensures Gathered(ms, [f]) == Insert(ms, Member(Unescape(f.name).value, ValueOf(f.tree)))
    ensures FieldsHeight([f]) == Height(f.tree)
  {
    hide ReadToken, Starts, Past, SpelledField, Unescape, Insert, ValueOf, Height;
    LastGathered(ms, [f]);
    StartsConcat(s, SpelledField(f), [ObjectEnd]);
    StartsOne(Past(s, |SpelledField(f)|), ObjectEnd);
    assert SpelledFields([f], false) + [ObjectEnd] == SpelledField(f) + [ObjectEnd];
  }

  lemma MoreSpelled(s: Bytes, f: Field, more: seq<Field>, dangling: bool, ms: seq<Member>)
    requires Starts(s, SpelledField(f)) && Unescape(f.name).Some?
    requires var e := ReadToken(Past(s, |SpelledField(f)|));
             e.token.Separator? && Starts(e.rest, SpelledFields(more, dangling) + [ObjectEnd])
    ensures var all := SpelledFields([f] + more, if more == [] then true else dangling) + [ObjectEnd];
            var e := ReadToken(Past(s, |SpelledField(f)|));
            Starts(s, all) && Past(s, |all|) == Past(e.rest, |SpelledFields(more, dangling) + [ObjectEnd]|)
    ensures Gathered(ms, [f] + more) == Gathered(Insert(ms, Member(Unescape(f.name).value, ValueOf(f.tree))), more)
    ensures FieldsHeight([f] + more) == Max(Height(f.tree), FieldsHeight(more))
  {
    hide ReadToken, Starts, Past, SpelledField, Unescape, Insert, ValueOf, Height;
    var a := SpelledField(f);
    var r := Past(s, |a|);
    var b := SpelledFields(more, dangling) + [ObjectEnd];
    StartsOne(r, Separator);
    StartsConcat(r, [Separator], b);
    StartsConcat(s, a, [Separator] + b);
    assert ([f] + more)[1..] == more;
    assert SpelledFields([f] + more, if more == [] then true else dangling) + [ObjectEnd] == a + ([Separator] + b);
  }

  lemma SoundFields(f: Field, more: seq<Field>, dangling: bool)
    requires Sound(Fields(more, dangling)) && Sound(f.tree) && Unescape(f.name).Some?
    requires more == [] ==> Unescape(f.name) == Some([])
    ensures Sound(Fields([f] + more, if more == [] then true else dangling))
  {
    hide Unescape;
  }

  /**
   A text is accepted with a value if and only if its first tokens spell out a sound tree of that value,
   at most 1000 high.
   */
  lemma AcceptedIff(s: Bytes, v: Value)
    ensures Parse(s) == Parsed(v) <==> exists t :: Sound(t) && Height(t) <= 1000 && Starts(s, Spelled(t)) && ValueOf(t) == v
  {
    hide ReadValue, Sound, Spelled, Starts, ValueOf, Height;
    if Parse(s) == Parsed(v) {
      var t := ReadTree(s, 0);
    }
    if t :| Sound(t) && Height(t) <= 1000 && Starts(s, Spelled(t)) && ValueOf(t) == v {
      TreeRead(t, s, 0);
    }
  }
}
