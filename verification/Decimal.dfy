/** Decimal integers as Rust prints and parses them. */
module Decimal {
  import opened Wrappers
  import opened Octets
  import opened Utf8

  const PLUS: u8 := 43
  const ZERO: u8 := 48

  predicate IsDigit(b: u8) {
    ZERO <= b <= ZERO + 9
  }

  predicate AllDigits(s: Bytes) {
    forall i :: 0 <= i < |s| ==> IsDigit(s[i])
  }

  /** `to_string` of an unsigned integer. */
  function ToDecimal(n: nat): Bytes {
    if n < 10 then [ZERO + n] else ToDecimal(n / 10) + [ZERO + n % 10]
  }

  /** The accumulating loop of `parse`: every step is checked against the type's maximum. */
  function ParseDigits(s: Bytes, value: nat, max: nat): Option<nat>
    decreases |s|
  {
    if s == [] then Some(value)
    else if !IsDigit(s[0]) || value * 10 + (s[0] - ZERO) > max then None
    else ParseDigits(s[1..], value * 10 + (s[0] - ZERO), max)
  }

  /** `parse` for an unsigned type: one optional '+', then at least one digit. */
  function ParseUnsigned(s: Bytes, max: nat): Option<nat> {
    var body := WithoutPlus(s);
    if body == [] then None else ParseDigits(body, 0, max)
  }

  function WithoutPlus(s: Bytes): Bytes {
    if s != [] && s[0] == PLUS then s[1..] else s
  }

  // ----- The meaning of digits -----

  function Value(s: Bytes): nat
    requires AllDigits(s)
  {
    if s == [] then 0 else Value(s[..|s| - 1]) * 10 + (s[|s| - 1] - ZERO)
  }

  lemma {:induction false} ValueFront(s: Bytes, t: Bytes)
    requires AllDigits(s) && AllDigits(t)
    ensures Value(s + t) >= Value(s)
    ensures t != [] ==> s + t == (s + [t[0]]) + t[1..]
    decreases |t|
  {
    if t == [] {
      assert s + t == s;
    } else {
      var last := |t| - 1;
      ValueFront(s, t[..last]);
      assert (s + t)[..|s + t| - 1] == s + t[..last];
    }
  }

  lemma ValueSnoc(s: Bytes, d: u8)
    requires AllDigits(s) && IsDigit(d)
    ensures AllDigits(s + [d]) && Value(s + [d]) == Value(s) * 10 + (d - ZERO)
  {
    assert (s + [d])[..|s|] == s;
  }

  lemma AllDigitsTail(s: Bytes)
    requires s != [] && IsDigit(s[0])
    ensures AllDigits(s) <==> AllDigits(s[1..])
  {
    if AllDigits(s[1..]) {
      assert forall i :: 1 <= i < |s| ==> s[i] == s[1..][i - 1];
    }
  }

  lemma {:induction false} ParseDigitsMeaning(done: Bytes, s: Bytes, max: nat)
    requires AllDigits(done) && Value(done) <= max
    ensures ParseDigits(s, Value(done), max)
            == if AllDigits(s) && Value(done + s) <= max then Some(Value(done + s)) else None
    decreases |s|
  {
    if s == [] {
      assert done + s == done;
    } else if IsDigit(s[0]) {
      ValueSnoc(done, s[0]);
      assert done + s == (done + [s[0]]) + s[1..];
      AllDigitsTail(s);
      if AllDigits(s[1..]) {
        ValueFront(done + [s[0]], s[1..]);
      }
      if Value(done + [s[0]]) <= max {
        ParseDigitsMeaning(done + [s[0]], s[1..], max);
      }
    }
  }

  /** `parse` accepts exactly an optional '+' and one or more digits whose value fits, and returns that value. */
  lemma ParseMeaning(s: Bytes, max: nat)
    ensures var body := WithoutPlus(s);
            ParseUnsigned(s, max)
            == if body != [] && AllDigits(body) && Value(body) <= max then Some(Value(body)) else None
  {
    var body := WithoutPlus(s);
    ParseDigitsMeaning([], body, max);
    assert [] + body == body;
  }

  /** One plus sign in front is allowed, and only one. */
  lemma SignMeaning(s: Bytes, max: nat)
    requires s != []
    ensures ParseUnsigned(s, max)
            == var body := if s[0] == '+' as int then s[1..] else s;
               if body != [] && AllDigits(body) && Value(body) <= max then Some(Value(body)) else None
  {
    ParseMeaning(s, max);
  }

  /** Written without a needless leading zero. */
  predicate IsCanonical(s: Bytes) {
    s != [] && AllDigits(s) && (s[0] == ZERO ==> |s| == 1)
  }

  lemma {:induction false} DecimalOfValue(s: Bytes)
    requires IsCanonical(s)
    ensures ToDecimal(Value(s)) == s
    ensures s[0] != ZERO ==> Value(s) > 0
    decreases |s|
  {
    var init, d := s[..|s| - 1], s[|s| - 1] - ZERO;
    assert s == init + [s[|s| - 1]];
    if |s| > 1 {
      DecimalOfValue(init);
      assert (Value(init) * 10 + d) / 10 == Value(init);
    } else {
      assert init == [];
    }
  }

  lemma {:induction false} ToDecimalShape(n: nat)
    ensures IsCanonical(ToDecimal(n)) && Value(ToDecimal(n)) == n
    ensures n > 0 ==> ToDecimal(n)[0] != ZERO
  {
    if n >= 10 {
      ToDecimalShape(n / 10);
      ValueSnoc(ToDecimal(n / 10), ZERO + n % 10);
    } else {
      assert ToDecimal(n)[..0] == [];
    }
  }

  function Pow10(k: nat): (p: nat)
    ensures p > 0
  {
    if k == 0 then 1 else 10 * Pow10(k - 1)
  }

  /** The digit of weight 10 to the power `k` stands `k` places before the last, as an ASCII numeral. */
  lemma {:induction false} DecimalDigit(n: nat, k: nat)
    requires k < |ToDecimal(n)|
    ensures ToDecimal(n)[|ToDecimal(n)| - 1 - k] == '0' as int + n / Pow10(k) % 10
  {
    if k > 0 {
      DecimalDigit(n / 10, k - 1);
      DivideTwice(n, 10, Pow10(k - 1));
    }
  }

  /** Printing then parsing is the identity on the type's range; parsing then printing is it on canonical text. */
  lemma DecimalRoundTrip(n: nat, max: nat)
    requires n <= max
    ensures ParseUnsigned(ToDecimal(n), max) == Some(n)
    ensures IsAscii(ToDecimal(n)) && 32 !in ToDecimal(n)
  {
    ToDecimalShape(n);
    ParseMeaning(ToDecimal(n), max);
  }

  lemma PrintParsedIff(s: Bytes, max: nat)
    requires ParseUnsigned(s, max).Some?
    ensures ToDecimal(ParseUnsigned(s, max).value) == s <==> IsCanonical(s)
  {
    ParseMeaning(s, max);
    ToDecimalShape(ParseUnsigned(s, max).value);
    if IsCanonical(s) {
      DecimalOfValue(s);
    }
  }
}
