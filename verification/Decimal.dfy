/** Natural numbers as decimal text of any length, as the cache script computes with them. */
module Decimal {
  import opened Wrappers

  predicate IsDigit(c: char) {
    '0' <= c <= '9'
  }

  function Digit(c: char): nat
    requires IsDigit(c)
  {
    c as int - '0' as int
  }

  function DigitChar(d: nat): (c: char)
    requires d < 10
    ensures IsDigit(c) && Digit(c) == d
  {
    ('0' as int + d) as char
  }

  predicate AllDigits(s: string) {
    forall i :: 0 <= i < |s| ==> IsDigit(s[i])
  }

  /** The pattern `^%d+$`. */
  predicate IsNumber(s: string) {
    s != "" && AllDigits(s)
  }

  /** No leading zero, except in "0" itself. */
  predicate Normal(s: string) {
    IsNumber(s) && (|s| > 1 ==> s[0] != '0')
  }

  /** `v` with `n` zeros written after it. */
  function Shift(v: nat, n: nat): nat {
    if n == 0 then v else 10 * Shift(v, n - 1)
  }

  lemma {:induction false} ShiftAdd(v: nat, w: nat, n: nat)
    ensures Shift(v + w, n) == Shift(v, n) + Shift(w, n)
  {
    if n > 0 { ShiftAdd(v, w, n - 1); }
  }

  lemma {:induction false} ShiftTen(v: nat, n: nat)
    ensures Shift(10 * v, n) == Shift(v, n + 1)
  {
    if n > 0 { ShiftTen(v, n - 1); }
  }

  lemma {:induction false} ShiftZero(n: nat)
    ensures Shift(0, n) == 0
  {
    if n > 0 { ShiftZero(n - 1); }
  }

  lemma ShiftMonotone(v: nat, w: nat, n: nat)
    requires v <= w
    ensures Shift(v, n) <= Shift(w, n)
  {
    ShiftAdd(v, w - v, n);
  }

  lemma {:induction false} ShiftLonger(m: nat, n: nat)
    requires m <= n
    ensures Shift(1, m) <= Shift(1, n)
  {
    if m < n { ShiftLonger(m, n - 1); }
  }

  /** The number a text denotes. */
  function Value(s: string): nat
    requires AllDigits(s)
  {
    if s == "" then 0 else 10 * Value(s[..|s| - 1]) + Digit(s[|s| - 1])
  }

  /** The text of a number, as `u64::to_string` writes it. */
  function ToText(n: nat): (s: string)
    ensures Normal(s)
    ensures n > 0 ==> s[0] != '0'
  {
    if n < 10 then [DigitChar(n)] else ToText(n / 10) + [DigitChar(n % 10)]
  }

  // ----- value -----

  lemma {:induction false} ValueConcat(a: string, b: string)
    requires AllDigits(a) && AllDigits(b)
    ensures AllDigits(a + b) && Value(a + b) == Shift(Value(a), |b|) + Value(b)
  {
    if b == "" {
      assert a + b == a;
    } else {
      var n := |b| - 1;
      assert (a + b)[..|a + b| - 1] == a + b[..n];
      ValueConcat(a, b[..n]);
    }
  }

  lemma ValueCons(c: char, s: string)
    requires IsDigit(c) && AllDigits(s)
    ensures AllDigits([c] + s) && Value([c] + s) == Shift(Digit(c), |s|) + Value(s)
  {
    ValueConcat([c], s);
    assert [c][..0] == "";
    assert Value([c]) == Digit(c);
  }

  lemma {:induction false} ValueBound(s: string)
    requires AllDigits(s)
    ensures Value(s) < Shift(1, |s|)
  {
    if s != "" {
      ValueBound(s[..|s| - 1]);
    }
  }

  /** A text that does not start with zero is at least a power of ten. */
  lemma NormalAtLeast(s: string)
    requires Normal(s) && s[0] != '0'
    ensures Value(s) >= Shift(1, |s| - 1)
  {
    assert s == [s[0]] + s[1..];
    ValueCons(s[0], s[1..]);
    ShiftMonotone(1, Digit(s[0]), |s| - 1);
  }

  lemma {:induction false} ShiftPositive(n: nat)
    ensures Shift(1, n) >= 1
  {
    if n > 0 { ShiftPositive(n - 1); }
  }

  // ----- text and number are in bijection -----

  lemma {:induction false} TextValue(n: nat)
    ensures Value(ToText(n)) == n
  {
    if n >= 10 {
      TextValue(n / 10);
      var s := ToText(n);
      assert s[..|s| - 1] == ToText(n / 10);
    } else {
      assert ToText(n)[..0] == "";
    }
  }

  lemma {:induction false} ValueText(s: string)
    requires Normal(s)
    ensures ToText(Value(s)) == s
  {
    var n := |s| - 1;
    if n > 0 {
      var front := s[..n];
      ValueText(front);
      NormalAtLeast(front);
      ShiftPositive(n - 1);
      assert Value(s) / 10 == Value(front) && Value(s) % 10 == Digit(s[n]);
      assert s == front + [s[n]];
    } else {
      assert s[..0] == "" && s == [s[0]];
    }
  }

  lemma NormalUnique(s: string, t: string)
    requires Normal(s) && Normal(t)
    ensures s == t <==> Value(s) == Value(t)
  {
    ValueText(s);
    ValueText(t);
  }

  // ----- normalize_decimal -----

  function StripZeros(s: string): string {
    if s != "" && s[0] == '0' then StripZeros(s[1..]) else s
  }

  function Normalize(s: string): Option<string> {
    if !IsNumber(s) then None
    else if StripZeros(s) == "" then Some("0")
    else Some(StripZeros(s))
  }

  lemma {:induction false} StripValue(s: string)
    requires AllDigits(s)
    ensures AllDigits(StripZeros(s)) && Value(StripZeros(s)) == Value(s)
    ensures StripZeros(s) != "" ==> StripZeros(s)[0] != '0'
  {
    if s != "" && s[0] == '0' {
      assert s == [s[0]] + s[1..];
      ValueCons(s[0], s[1..]);
      ShiftZero(|s| - 1);
      StripValue(s[1..]);
    }
  }

  /** Normalizing refuses exactly what is not a number, and otherwise gives the text of its value. */
  lemma NormalizeIsText(s: string)
    ensures Normalize(s) == if IsNumber(s) then Some(ToText(Value(s))) else None
  {
    if IsNumber(s) {
      StripValue(s);
      if StripZeros(s) == "" {
        assert Value(s) == 0;
      } else {
        ValueText(StripZeros(s));
      }
    }
  }

  // ----- compare_decimal -----

  /** Byte order of texts. */
  predicate LexLess(s: string, t: string) {
    if t == "" then false
    else if s == "" then true
    else s[0] < t[0] || (s[0] == t[0] && LexLess(s[1..], t[1..]))
  }

  function CompareDecimal(left: string, right: string): int {
    if |left| < |right| then -1
    else if |left| > |right| then 1
    else if LexLess(left, right) then -1
    else if LexLess(right, left) then 1
    else 0
  }

  lemma HighDigit(d: nat, e: nat, n: nat, x: nat, y: nat)
    requires x < Shift(1, n) && y < Shift(1, n)
    ensures Shift(d, n) + x < Shift(e, n) + y <==> d < e || (d == e && x < y)
  {
    if d < e {
      ShiftAdd(d, 1, n);
      ShiftMonotone(d + 1, e, n);
    } else if e < d {
      ShiftAdd(e, 1, n);
      ShiftMonotone(e + 1, d, n);
    }
  }

  /** On texts of one length, byte order is numeric order. */
  lemma {:induction false} LexIsNumeric(s: string, t: string)
    requires AllDigits(s) && AllDigits(t) && |s| == |t|
    ensures LexLess(s, t) <==> Value(s) < Value(t)
  {
    if s != "" {
      assert s == [s[0]] + s[1..] && t == [t[0]] + t[1..];
      ValueCons(s[0], s[1..]);
      ValueCons(t[0], t[1..]);
      ValueBound(s[1..]);
      ValueBound(t[1..]);
      LexIsNumeric(s[1..], t[1..]);
      HighDigit(Digit(s[0]), Digit(t[0]), |s| - 1, Value(s[1..]), Value(t[1..]));
    }
  }

  lemma LengthIsNumeric(s: string, t: string)
    requires Normal(s) && Normal(t) && |s| < |t|
    ensures Value(s) < Value(t)
  {
    ValueBound(s);
    ShiftLonger(|s|, |t| - 1);
    NormalAtLeast(t);
  }

  /** Comparing normal texts compares their numbers, whatever their length. */
  lemma CompareIsNumeric(left: string, right: string)
    requires Normal(left) && Normal(right)
    ensures CompareDecimal(left, right) ==
            if Value(left) < Value(right) then -1 else if Value(left) > Value(right) then 1 else 0
  {
    if |left| < |right| {
      LengthIsNumeric(left, right);
    } else if |left| > |right| {
      LengthIsNumeric(right, left);
    } else {
      LexIsNumeric(left, right);
      LexIsNumeric(right, left);
    }
  }

  // ----- increment_decimal -----

  /** One digit further to the left, the digits so far and the carry still make the suffix plus one. */
  lemma AddDigit(c: char, carry: nat, d: nat, out: nat, result: string, suffix: string)
    requires IsDigit(c) && d < 10 && AllDigits(result) && AllDigits(suffix) && |result| == |suffix|
    requires Digit(c) + carry == d + 10 * out
    requires Value(result) + Shift(carry, |result|) == Value(suffix) + 1
    ensures AllDigits([c] + suffix) && AllDigits([DigitChar(d)] + result)
    ensures Value([DigitChar(d)] + result) + Shift(out, |result| + 1) == Value([c] + suffix) + 1
  {
    var n := |result|;
    ValueCons(c, suffix);
    ValueCons(DigitChar(d), result);
    ShiftAdd(Digit(c), carry, n);
    ShiftAdd(d, 10 * out, n);
    ShiftTen(out, n);
  }

  /** The digits and carry so far are the value of a suffix plus one. */
  ghost predicate Summed(suffix: string, result: string, carry: nat) {
    && AllDigits(suffix) && AllDigits(result) && |result| == |suffix| && carry <= 1
    && Value(result) + Shift(carry, |result|) == Value(suffix) + 1
    && (suffix != "" && carry == 0 && result[0] == '0' ==> suffix[0] == '0')
  }

  lemma SummedText(value: string, result: string, carry: nat)
    requires Normal(value) && Summed(value, result, carry)
    ensures (if carry == 1 then "1" + result else result) == ToText(Value(value) + 1)
  {
    ValueCons('1', result);
    ShiftZero(|result|);
    ValueText(if carry == 1 then "1" + result else result);
  }

  /** Adds one to a number's text, digit by digit from the right. */
  method IncrementDecimal(value: string) returns (result: string)
    requires Normal(value)
    ensures result == ToText(Value(value) + 1)
  {
    result := "";
    var carry := 1;
    var index := |value|;
    while index > 0
      invariant 0 <= index <= |value| && 0 <= carry
      invariant Summed(value[index..], result, carry)
    {
      ghost var c, taken, suffix := value[index - 1], carry, value[index..];
      var digit := Digit(value[index - 1]) + carry;
      if digit >= 10 {
        digit := digit - 10;
      } else {
        carry := 0;
      }
      AddDigit(c, taken, digit, carry, result, suffix);
      assert value[index - 1..] == [c] + suffix;
      result := [DigitChar(digit)] + result;
      index := index - 1;
    }
    assert value[0..] == value;
    SummedText(value, result, carry);
    if carry == 1 {
      result := "1" + result;
    }
  }

  // ----- fixed-width keys -----

  const WIDTH: nat := 38

  function Zeros(n: nat): string {
    if n == 0 then "" else "0" + Zeros(n - 1)
  }

  lemma {:induction false} ZerosValue(n: nat, s: string)
    requires AllDigits(s)
    ensures |Zeros(n)| == n && AllDigits(Zeros(n) + s) && Value(Zeros(n) + s) == Value(s)
  {
    if n == 0 {
      assert Zeros(0) + s == s;
    } else {
      var rest := Zeros(n - 1) + s;
      assert Zeros(n) + s == ['0'] + rest;
      ZerosValue(n - 1, s);
      ValueCons('0', rest);
      ShiftZero(|rest|);
    }
  }

  /** A price as an index member: left-padded with zeros to 38 digits. */
  function Pad(s: string): string
    requires |s| <= WIDTH
  {
    Zeros(WIDTH - |s|) + s
  }

  /** Padding keeps the number, so members are equal exactly when prices are, and byte order is price order. */
  lemma PadOrders(s: string, t: string)
    requires Normal(s) && Normal(t) && |s| <= WIDTH && |t| <= WIDTH
    ensures |Pad(s)| == WIDTH && AllDigits(Pad(s)) && Value(Pad(s)) == Value(s)
    ensures Pad(s) == Pad(t) <==> s == t
    ensures LexLess(Pad(s), Pad(t)) <==> Value(s) < Value(t)
  {
    ZerosValue(WIDTH - |s|, s);
    ZerosValue(WIDTH - |t|, t);
    LexIsNumeric(Pad(s), Pad(t));
    NormalUnique(s, t);
  }
}
