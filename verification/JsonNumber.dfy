/** Integers as decimal text: the writer's digit loop and the reader's bounded accumulator. */
module JsonNumber {
  import opened JsonText

  const MAX_INT32: int := 0x7FFF_FFFF
  const MAX_UINT64: int := 0xFFFF_FFFF_FFFF_FFFF
  const MIN_INT64: int := -0x8000_0000_0000_0000
  const MAX_INT64: int := 0x7FFF_FFFF_FFFF_FFFF

  predicate AllDigits(s: Bytes) { forall i :: 0 <= i < |s| ==> IsDigit(s[i]) }

  // ----- writing

  /** The decimal digits of a number, most significant first. */
  function Digits(n: nat): (s: Bytes)
    ensures s != [] && AllDigits(s)
  {
    if n < 10 then [0x30 + n] else Digits(n / 10) + [0x30 + n % 10]
  }

  function IntText(i: int): Bytes { if i < 0 then [MINUS] + Digits(-i) else Digits(i) }

  /** At most `k` digits are needed below ten to the `k`. */
  lemma {:induction false} DigitsLength(n: nat, k: nat, bound: nat)
    requires k >= 1 && n < bound && bound <= Pow10(k)
    ensures |Digits(n)| <= k
    decreases k
  {
    if n >= 10 {
      assert k > 1;
      assert n / 10 < Pow10(k - 1);
      DigitsLength(n / 10, k - 1, Pow10(k - 1));
    }
  }

  function Pow10(k: nat): nat { if k == 0 then 1 else 10 * Pow10(k - 1) }

  lemma TwentyDigits()
    ensures MAX_UINT64 < Pow10(20)
  {
    assert Pow10(5) == 100000;
    assert Pow10(10) == 100000 * 100000 by { assert Pow10(7) == 10000000; assert Pow10(9) == 1000000000; }
    assert Pow10(15) == 1000000000000000 by { assert Pow10(12) == 1000000000000; assert Pow10(14) == 100000000000000; }
    assert Pow10(20) == 100000000000000000000 by { assert Pow10(17) == 100000000000000000; assert Pow10(19) == 10000000000000000000; }
  }

  lemma DigitsUnfold(n: nat)
    ensures Digits(n) == if n < 10 then [0x30 + n % 10] else Digits(n / 10) + [0x30 + n % 10]
    ensures n < 10 <==> n / 10 == 0
  {}

  /** `uintToStringBufferSize`. */
  const BUFFER_SIZE: nat := 25

  /** `*--current = digit`: the text between `at` and `end` grows by one byte in front. */
  method PutBefore(buffer: array<Byte>, at: nat, end: nat, d: Byte)
    requires 0 < at <= end < buffer.Length
    modifies buffer
    ensures buffer[at - 1..end] == [d] + old(buffer[at..end])
    ensures forall i :: 0 <= i < buffer.Length && i != at - 1 ==> buffer[i] == old(buffer[i])
  {
    buffer[at - 1] := d;
    assert buffer[at..end] == old(buffer[at..end]);
  }

  /** `uintToString`: fills the buffer backwards from `end`, a terminator first; never leaves the buffer. */
  method UintToString(value: nat, buffer: array<Byte>, end: nat) returns (current: nat)
    requires value <= MAX_UINT64 && 21 <= end <= buffer.Length
    modifies buffer
    ensures current <= end - 2 && end - 21 <= current
    ensures buffer[end - 1] == 0 && buffer[current..end - 1] == Digits(value)
    ensures forall i :: 0 <= i < buffer.Length && !(current <= i < end) ==> buffer[i] == old(buffer[i])
  {
    hide Digits, Front, AllDigits, IsDigit;
    DigitsFit(value);
    current := end - 1;
    buffer[current] := 0;
    PutBefore(buffer, current, end - 1, 0x30 + value % 10);
    current := current - 1;
    var v := value / 10;
    ghost var text := [0x30 + value % 10];
    FrontMoves(value, []);
    FrontEmpty();
    assert text + [] == text;
    while v != 0
      invariant 0 <= current < end - 1 && v >= 0
      invariant buffer[current..end - 1] == text && |text| == end - 1 - current
      invariant Digits(value) == Front(v) + text
      invariant buffer[end - 1] == 0
      invariant forall i :: 0 <= i < buffer.Length && !(current <= i < end) ==> buffer[i] == old(buffer[i])
      decreases v
    {
      FrontMoves(v, text);
      PutBefore(buffer, current, end - 1, 0x30 + v % 10);
      text := [0x30 + v % 10] + text;
      current := current - 1;
      v := v / 10;
    }
    assert [] + text == text;
  }

  /** The digits still to be written in front: none once the value has run out. */
  ghost function Front(v: nat): Bytes { if v == 0 then [] else Digits(v) }

  lemma DigitsFit(value: nat)
    requires value <= MAX_UINT64
    ensures |Digits(value)| <= 20
  {
    TwentyDigits();
    DigitsLength(value, 20, value + 1);
  }

  lemma FrontEmpty()
    ensures Front(0) == []
  {}

  /** One turn of the loop moves the last digit; the first turn is taken even for zero. */
  lemma FrontMoves(v: nat, done: Bytes)
    ensures Digits(v) + done == Front(v / 10) + ([0x30 + v % 10] + done)
    ensures v != 0 ==> Front(v) == Digits(v) && v / 10 < v && Front(v) != []
  {
    hide Digits, AllDigits, IsDigit;
    DigitsUnfold(v);
    var d: Bytes := [0x30 + v % 10];
    if v < 10 {
      Regroup([], d, done);
      assert [] + d == d;
    } else {
      Regroup(Digits(v / 10), d, done);
    }
  }

  lemma Regroup(a: Bytes, b: Bytes, c: Bytes)
    ensures (a + b) + c == a + (b + c)
  {}

  /** Both integer `valueToString` overloads: a sign goes in front of the digits, inside the same buffer. */
  method ValueToString(value: int) returns (text: Bytes)
    requires MIN_INT64 < value <= MAX_UINT64
    ensures text == IntText(value)
  {
    var buffer := new Byte[BUFFER_SIZE](_ => 0);
    var negative := value < 0;
    var current := UintToString(if negative then -value else value, buffer, BUFFER_SIZE);
    if negative {
      assert current >= 1;
      current := current - 1;
      buffer[current] := MINUS;
      assert buffer[current + 1..BUFFER_SIZE - 1] == Digits(-value);
      assert buffer[current..BUFFER_SIZE - 1] == [MINUS] + Digits(-value);
    }
    text := buffer[current..BUFFER_SIZE - 1];
  }

  // ----- reading

  /** The number a digit string denotes, continuing from `value`. */
  function NatFrom(value: nat, s: Bytes): (n: nat)
    requires AllDigits(s)
    ensures n >= value
    decreases |s|
  {
    if s == [] then value else NatFrom(value * 10 + (s[0] - 0x30), s[1..])
  }

  function NatOf(s: Bytes): nat
    requires AllDigits(s)
  {
    NatFrom(0, s)
  }

  /** The outcome of `decodeNumber`: an exact integer, or the fall back to a double. */
  datatype Number = Exact(n: int) | AsDouble

  /** The accumulator loop, from `value` on the characters still to come. */
  function Accumulate(value: nat, s: Bytes, max: nat): Number
    decreases |s|
  {
    if s == [] then Exact(value)
    else if !IsDigit(s[0]) then AsDouble
    else
      var digit := s[0] - 0x30;
      if value >= max / 10 && (value > max / 10 || |s| > 1 || digit > max % 10) then AsDouble
      else Accumulate(value * 10 + digit, s[1..], max)
  }

  /** The largest magnitude the sign allows. */
  function Limit(text: Bytes): nat { if text != [] && text[0] == MINUS then 0x8000_0000_0000_0000 else MAX_UINT64 }

  function Magnitude(text: Bytes): Bytes { if text != [] && text[0] == MINUS then text[1..] else text }

  function DecodeNumber(text: Bytes): Number {
    match Accumulate(0, Magnitude(text), Limit(text))
    case AsDouble => AsDouble
    case Exact(n) => Exact(if text != [] && text[0] == MINUS then -n else n)
  }

  lemma {:induction false} NatFromAppend(value: nat, s: Bytes, d: Byte)
    requires AllDigits(s) && IsDigit(d)
    ensures NatFrom(value, s + [d]) == NatFrom(value, s) * 10 + (d - 0x30)
    decreases |s|
  {
    if s == [] {
      assert s + [d] == [d];
      assert [d][1..] == [];
    } else {
      assert (s + [d])[1..] == s[1..] + [d];
      NatFromAppend(value * 10 + (s[0] - 0x30), s[1..], d);
    }
  }

  /** Reading the digits of a number gives the number. */
  lemma {:induction false} NatOfDigits(n: nat)
    ensures NatOf(Digits(n)) == n
  {
    if n < 10 {
      assert NatFrom(0, Digits(n)) == NatFrom(0 * 10 + n, Digits(n)[1..]);
    } else {
      NatOfDigits(n / 10);
      NatFromAppend(0, Digits(n / 10), 0x30 + n % 10);
    }
  }

  lemma {:induction false} NatFromGrows(value: nat, s: Bytes)
    requires AllDigits(s)
    ensures NatFrom(value, s) >= value
    ensures s != [] ==> NatFrom(value, s) >= value * 10
    ensures |s| > 1 ==> NatFrom(value, s) >= value * 100
  {
    if s != [] {
      var next := value * 10 + (s[0] - 0x30);
      assert NatFrom(value, s) == NatFrom(next, s[1..]) >= next;
      if |s| > 1 {
        assert NatFrom(next, s[1..]) == NatFrom(next * 10 + (s[1..][0] - 0x30), s[1..][1..]);
      }
    }
  }

  /**
   The accumulator never exceeds the limit, yields the exact number when it fits, and gives up exactly
   when it does not.
   */
  lemma {:induction false} AccumulateExact(value: nat, s: Bytes, max: nat)
    requires AllDigits(s) && value <= max && max >= 10
    ensures Accumulate(value, s, max) == if NatFrom(value, s) <= max then Exact(NatFrom(value, s)) else AsDouble
    decreases |s|
  {
    if s != [] {
      NatFromGrows(value, s);
      var digit := s[0] - 0x30;
      assert max == max / 10 * 10 + max % 10;
      if value >= max / 10 && (value > max / 10 || |s| > 1 || digit > max % 10) {
        assert NatFrom(value, s) > max by {
          if value == max / 10 && |s| == 1 {
            assert s[1..] == [];
          }
        }
      } else {
        assert value * 10 + digit <= max;
        AccumulateExact(value * 10 + digit, s[1..], max);
      }
    }
  }

  /** `decodeNumber` is exact on a nonempty digit string if and only if the number fits its sign. */
  lemma DecodeNumberExact(digits: Bytes, negative: bool)
    requires digits != [] && AllDigits(digits)
    ensures var text := if negative then [MINUS] + digits else digits;
            var n: int := NatOf(digits);
            var limit := if negative then 9223372036854775808 else 18446744073709551615;
            DecodeNumber(text) == if n <= limit then Exact(if negative then -n else n) else AsDouble
  {
    var text := if negative then [MINUS] + digits else digits;
    assert Magnitude(text) == digits;
    AccumulateExact(0, digits, Limit(text));
  }

  /** Decoding inverts encoding on every 64-bit integer. */
  lemma DecodeIntText(i: int)
    requires MIN_INT64 < i <= MAX_UINT64
    ensures DecodeNumber(IntText(i)) == Exact(i)
  {
    var n := if i < 0 then -i else i;
    NatOfDigits(n);
    DecodeNumberExact(Digits(n), i < 0);
  }

  /** The loop of `decodeNumber`; the assertion is that the 64-bit accumulator cannot overflow. */
  method Decode(text: Bytes) returns (r: Number)
    requires text != []
    ensures r == DecodeNumber(text)
  {
    var current := 0;
    var negative := text[0] == MINUS;
    if negative {
      current := 1;
    }
    var max := Limit(text);
    var threshold := max / 10;
    var value := 0;
    while current < |text|
      invariant (if negative then 1 else 0) <= current <= |text|
      invariant 0 <= value <= max
      invariant Accumulate(value, text[current..], max) == Accumulate(0, Magnitude(text), max)
    {
      var c := text[current];
      assert text[current..][0] == c && text[current..][1..] == text[current + 1..];
      current := current + 1;
      if !IsDigit(c) {
        return AsDouble;
      }
      var digit := c - 0x30;
      if value >= threshold {
        if value > threshold || current != |text| || digit > max % 10 {
          return AsDouble;
        }
      }
      assert value * 10 + digit <= max <= MAX_UINT64;
      value := value * 10 + digit;
    }
    return Exact(if negative then -value else value);
  }
}
