/** Bytes, the JSON value type, and the byte order in which object members are kept. */
module JsonText {

  type Byte = b: int | 0 <= b < 256
  type Bytes = seq<Byte>

  const QUOTE: Byte := 0x22
  const BACKSLASH: Byte := 0x5C
  const COMMA: Byte := 0x2C
  const COLON: Byte := 0x3A
  const LBRACE: Byte := 0x7B
  const RBRACE: Byte := 0x7D
  const LBRACKET: Byte := 0x5B
  const RBRACKET: Byte := 0x5D
  const MINUS: Byte := 0x2D
  const NEWLINE: Byte := 0x0A
  const LOWER_U: Byte := 0x75

  const TEXT_TRUE: Bytes := [0x74, 0x72, 0x75, 0x65]
  const TEXT_FALSE: Bytes := [0x66, 0x61, 0x6C, 0x73, 0x65]
  const TEXT_NULL: Bytes := [0x6E, 0x75, 0x6C, 0x6C]

  predicate IsDigit(b: Byte) { 0x30 <= b <= 0x39 }

  predicate IsSpace(b: Byte) { b == 0x20 || b == 0x09 || b == 0x0D || b == 0x0A }

  /** A value; the members of an object are kept in key order. A real is kept as the text it was read from. */
  datatype Value =
    | Null
    | Bool(b: bool)
    | Int(i: int)
    | UInt(u: int)
    | Real(text: Bytes)
    | Str(s: Bytes)
    | Arr(items: seq<Value>)
    | Obj(members: seq<Member>)

  datatype Member = Member(key: Bytes, value: Value)

  /** The order of object keys: first differing byte, then length. */
  predicate Less(a: Bytes, b: Bytes) {
    b != [] && (a == [] || a[0] < b[0] || (a[0] == b[0] && Less(a[1..], b[1..])))
  }

  lemma {:induction false} LessAsymmetric(a: Bytes, b: Bytes)
    requires Less(a, b)
    ensures !Less(b, a) && a != b
  {
    if a != [] && a[0] == b[0] {
      LessAsymmetric(a[1..], b[1..]);
    }
  }

  predicate KeysSorted(ms: seq<Member>) {
    forall i, j :: 0 <= i < j < |ms| ==> Less(ms[i].key, ms[j].key)
  }

  /** `object[key] = value`: replaces the member of that key or inserts one in key order. */
  function Insert(ms: seq<Member>, m: Member): seq<Member> {
    if ms == [] then [m]
    else if Less(m.key, ms[0].key) then [m] + ms
    else if m.key == ms[0].key then [m] + ms[1..]
    else [ms[0]] + Insert(ms[1..], m)
  }

  /** A key above all others goes to the end. */
  lemma {:induction false} InsertLast(ms: seq<Member>, m: Member)
    requires forall i :: 0 <= i < |ms| ==> Less(ms[i].key, m.key)
    ensures Insert(ms, m) == ms + [m]
  {
    if ms != [] {
      LessAsymmetric(ms[0].key, m.key);
      InsertLast(ms[1..], m);
      assert ms == [ms[0]] + ms[1..];
    }
  }
}
