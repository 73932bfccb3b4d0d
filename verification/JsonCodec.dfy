/** The message codec as functions: what the writer emits and what the reader makes of any text. */
module JsonCodec {
  import opened Collections
  import opened JsonText
  import opened JsonNumber
  import opened JsonString

  // ----- writing

  function Write(v: Value): Bytes
    decreases v, 1
  {
    match v
    case Null => TEXT_NULL
    case Bool(b) => if b then TEXT_TRUE else TEXT_FALSE
    case Int(i) => IntText(i)
    case UInt(u) => IntText(u)
    case Real(t) => t
    case Str(s) => Quoted(s)
    case Arr(items) => [LBRACKET] + WriteItems(items) + [RBRACKET]
    case Obj(members) => [LBRACE] + WriteMembers(members) + [RBRACE]
  }

  function WriteItems(items: seq<Value>): Bytes
    decreases items, 0
  {
    if items == [] then []
    else if |items| == 1 then Write(items[0])
    else Write(items[0]) + [COMMA] + WriteItems(items[1..])
  }

  function WriteMember(m: Member): Bytes
    decreases m, 2
  {
    Quoted(m.key) + [COLON] + Write(m.value)
  }

  function WriteMembers(ms: seq<Member>): Bytes
    decreases ms, 0
  {
    if ms == [] then []
    else if |ms| == 1 then WriteMember(ms[0])
    else WriteMember(ms[0]) + [COMMA] + WriteMembers(ms[1..])
  }

  /** `FastWriter::write` ends the document with a line feed. */
  function WriteDocument(v: Value): Bytes { Write(v) + [NEWLINE] }

  // ----- tokens

  datatype Token =
    | ObjectBegin | ObjectEnd | ArrayBegin | ArrayEnd
    | StringToken(body: Bytes)
    | NumberToken(text: Bytes)
    | TrueToken | FalseToken | NullToken
    | Separator | MemberSeparator | EndOfStream | BadToken

  /** A token and the text after it. */
  datatype Lexed = Lexed(token: Token, rest: Bytes)

  function SkipSpaces(s: Bytes): (r: Bytes)
    ensures |r| <= |s| && (r != [] ==> !IsSpace(r[0]))
    decreases |s|
  {
    if s != [] && IsSpace(s[0]) then SkipSpaces(s[1..]) else s
  }

  function DigitsEnd(s: Bytes, i: nat): (k: nat)
    requires i <= |s|
    ensures i <= k <= |s| && (forall j :: i <= j < k ==> IsDigit(s[j])) && (k < |s| ==> !IsDigit(s[k]))
    decreases |s| - i
  {
    if i < |s| && IsDigit(s[i]) then DigitsEnd(s, i + 1) else i
  }

  /** The end of a fraction that may start at `a`. */
  function FractionEnd(s: Bytes, a: nat): (k: nat)
    requires a <= |s|
    ensures a <= k <= |s|
  {
    if a < |s| && s[a] == 0x2E then DigitsEnd(s, a + 1) else a
  }

  /** The end of an exponent that may start at `b`. */
  function ExponentEnd(s: Bytes, b: nat): (k: nat)
    requires b <= |s|
    ensures b <= k <= |s|
  {
    if b < |s| && (s[b] == 0x65 || s[b] == 0x45) then
      DigitsEnd(s, if b + 1 < |s| && (s[b + 1] == 0x2B || s[b + 1] == MINUS) then b + 2 else b + 1)
    else b
  }

  /** `readNumber`: the end of a number whose first character has been consumed. */
  function NumberEnd(s: Bytes): (k: nat)
    requires s != []
    ensures 1 <= k <= |s|
  {
    ExponentEnd(s, FractionEnd(s, DigitsEnd(s, 1)))
  }

  /** `match`: the literal must follow in full; nothing is consumed otherwise. */
  function Literal(s: Bytes, text: Bytes, t: Token): (l: Lexed)
    requires s != [] && text != [] && s[0] == text[0]
    ensures |l.rest| < |s|
  {
    if |text| <= |s| && s[..|text|] == text then Lexed(t, s[|text|..]) else Lexed(BadToken, s[1..])
  }

  /** `readToken`, with a comment read as a bad token. */
  function ReadToken(s0: Bytes): (l: Lexed)
    ensures |l.rest| <= |s0|
    ensures l.token.EndOfStream? || |l.rest| < |s0|
    ensures l.token.NumberToken? ==> l.token.text != []
  {
    var s := SkipSpaces(s0);
    if s == [] then Lexed(EndOfStream, [])
    else
      var c, r := s[0], s[1..];
      if c == LBRACE then Lexed(ObjectBegin, r)
      else if c == RBRACE then Lexed(ObjectEnd, r)
      else if c == LBRACKET then Lexed(ArrayBegin, r)
      else if c == RBRACKET then Lexed(ArrayEnd, r)
      else if c == QUOTE then ReadString(r)
      else if IsDigit(c) || c == MINUS then Lexed(NumberToken(s[..NumberEnd(s)]), s[NumberEnd(s)..])
      else if c == TEXT_TRUE[0] then Literal(s, TEXT_TRUE, TrueToken)
      else if c == TEXT_FALSE[0] then Literal(s, TEXT_FALSE, FalseToken)
      else if c == TEXT_NULL[0] then Literal(s, TEXT_NULL, NullToken)
      else if c == COMMA then Lexed(Separator, r)
      else if c == COLON then Lexed(MemberSeparator, r)
      else if c == 0 then Lexed(EndOfStream, r)
      else Lexed(BadToken, r)
  }

  /** A string token after its opening quote; an unterminated one consumes everything. */
  function ReadString(r: Bytes): (l: Lexed)
    ensures |l.rest| <= |r|
  {
    match Scan(r, 0)
    case None => Lexed(BadToken, [])
    case Some(k) => Lexed(StringToken(r[..k]), r[k + 1..])
  }

  // ----- reading

  const STACK_LIMIT: nat := 1000

  /** `false` from the reader, or the exception it throws when values nest too deeply. */
  datatype Read<+T> = Done(value: T, rest: Bytes) | SyntaxError | TooDeep

  /** The tag an integer gets: signed up to the 32-bit maximum, unsigned above. */
  function NumberValue(text: Bytes): Value {
    match DecodeNumber(text)
    case AsDouble => Real(text)
    case Exact(n) => Tagged(n)
  }

  function Tagged(n: int): Value { if n <= MAX_INT32 then Int(n) else UInt(n) }

  /** `readValue` at nesting depth `d`. */
  function ReadValue(s: Bytes, d: nat): (r: Read<Value>)
    ensures r.Done? ==> |r.rest| < |s|
    decreases |s|, 1
  {
    if d >= STACK_LIMIT then TooDeep
    else
      var l := ReadToken(s);
      match l.token
      case ObjectBegin => ReadMembers(l.rest, d + 1, [], [])
      case ArrayBegin =>
        var r := SkipSpaces(l.rest);
        if r != [] && r[0] == RBRACKET then Done(Arr([]), r[1..])
        else
          (match ReadItems(r, d + 1)
           case Done(items, rest) => Done(Arr(items), rest)
           case SyntaxError => SyntaxError
           case TooDeep => TooDeep)
      case NumberToken(text) => Done(NumberValue(text), l.rest)
      case StringToken(body) =>
        (match Unescape(body)
         case None => SyntaxError
         case Some(t) => Done(Str(t), l.rest))
      case TrueToken => Done(Bool(true), l.rest)
      case FalseToken => Done(Bool(false), l.rest)
      case NullToken => Done(Null, l.rest)
      case _ => SyntaxError
  }

  /** The element loop of `readArray`. */
  function ReadItems(s: Bytes, d: nat): (r: Read<seq<Value>>)
    ensures r.Done? ==> |r.rest| < |s|
    decreases |s|, 2
  {
    match ReadValue(s, d)
    case SyntaxError => SyntaxError
    case TooDeep => TooDeep
    case Done(v, r1) =>
      var l := ReadToken(r1);
      if l.token.ArrayEnd? then Done([v], l.rest)
      else if !l.token.Separator? then SyntaxError
      else match ReadItems(l.rest, d)
        case SyntaxError => SyntaxError
        case TooDeep => TooDeep
        case Done(vs, r2) => Done([v] + vs, r2)
  }

  /**
   The member loop of `readObject`: `name` is the previous member's name, empty at first. A closing brace
   is accepted only while it is empty.
   */
  function ReadMembers(s: Bytes, d: nat, name: Bytes, ms: seq<Member>): (r: Read<Value>)
    ensures r.Done? ==> |r.rest| < |s|
    decreases |s|, 2
  {
    var l := ReadToken(s);
    if l.token.ObjectEnd? && name == [] then Done(Obj(ms), l.rest)
    else if !l.token.StringToken? then SyntaxError
    else match Unescape(l.token.body)
      case None => SyntaxError
      case Some(key) =>
        var c := ReadToken(l.rest);
        if !c.token.MemberSeparator? then SyntaxError
        else match ReadValue(c.rest, d)
          case SyntaxError => SyntaxError
          case TooDeep => TooDeep
          case Done(v, r1) =>
            var e := ReadToken(r1);
            var ms' := Insert(ms, Member(key, v));
            if e.token.ObjectEnd? then Done(Obj(ms'), e.rest)
            else if e.token.Separator? then ReadMembers(e.rest, d, key, ms')
            else SyntaxError
  }

  /** `Reader::parse`: what follows the first value is not looked at. */
  datatype Parsed = Parsed(value: Value) | Rejected | Thrown

  function Parse(s: Bytes): Parsed {
    match ReadValue(s, 0)
    case Done(v, _) => Parsed(v)
    case SyntaxError => Rejected
    case TooDeep => Thrown
  }
}
