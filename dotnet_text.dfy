/**
 * The two .NET string operations the delivery-status fallback relies on:
 * `s.Replace(".", string.Empty)` and `int.TryParse(s, out n)` with the default
 * number style (NumberStyles.Integer) and an invariant culture.
 */
module DotNetText {
  import opened Wrappers

  const MinInt32: int := -0x8000_0000
  const MaxInt32: int := 0x7FFF_FFFF

  /** `s.Replace(".", string.Empty)`: every '.' deleted, every other character kept, in order. */
  function RemoveDots(s: string): (r: string)
    ensures |r| <= |s|
    ensures forall i :: 0 <= i < |r| ==> r[i] != '.'
    ensures forall c :: c in r <==> c in s && c != '.'
  {
    if s == [] then []
    else (if s[0] == '.' then [] else [s[0]]) + RemoveDots(s[1..])
  }

  /** Deleting dots distributes over concatenation. */
  lemma {:induction false} RemoveDotsConcat(a: string, b: string)
    ensures RemoveDots(a + b) == RemoveDots(a) + RemoveDots(b)
  {
    if a == [] {
      assert a + b == b;
    } else {
      assert (a + b)[1..] == a[1..] + b;
      RemoveDotsConcat(a[1..], b);
    }
  }

  /** A string without dots is left as it is. */
  lemma {:induction false} RemoveDotsNoDots(s: string)
    requires '.' !in s
    ensures RemoveDots(s) == s
  {
    if s != [] {
      RemoveDotsNoDots(s[1..]);
    }
  }

  predicate IsDigit(c: char) { '0' <= c <= '9' }

  predicate AllDigits(s: string) { forall i :: 0 <= i < |s| ==> IsDigit(s[i]) }

  /** The white space NumberStyles.AllowLeadingWhite and AllowTrailingWhite skip: U+0009 to U+000D and U+0020. */
  predicate IsWhite(c: char) { c == ' ' || '\t' <= c <= '\r' }

  function DigitValue(c: char): (d: nat)
    requires IsDigit(c)
    ensures d <= 9
  {
    (c as int) - ('0' as int)
  }

  function Pow10(n: nat): (p: nat)
    ensures p >= 1
  {
    if n == 0 then 1 else 10 * Pow10(n - 1)
  }

  /** The decimal value of a string of digits, most significant first. */
  function DigitsValue(s: string): (v: nat)
    requires AllDigits(s)
    ensures v < Pow10(|s|)
  {
    if s == [] then 0
    else
      var prefix := DigitsValue(s[..|s| - 1]);
      assert prefix * 10 <= (Pow10(|s| - 1) - 1) * 10;
      prefix * 10 + DigitValue(s[|s| - 1])
  }

  /** A digit string of length n whose first digit is not '0' is worth at least 10^(n-1). */
  lemma {:induction false} LeadingDigitBound(s: string)
    requires |s| > 0 && AllDigits(s) && s[0] != '0'
    ensures DigitsValue(s) >= Pow10(|s| - 1)
  {
    if |s| > 1 {
      var p := s[..|s| - 1];
      assert p[0] == s[0];
      LeadingDigitBound(p);
    }
  }

  /** How many white-space characters open `s`. */
  function LeadingWhite(s: string): (k: nat)
    ensures k <= |s|
  {
    if s == [] || !IsWhite(s[0]) then 0 else 1 + LeadingWhite(s[1..])
  }

  /** LeadingWhite counts exactly the white-space run that opens `s`. */
  lemma {:induction false} LeadingWhiteSpan(s: string)
    ensures forall i :: 0 <= i < LeadingWhite(s) ==> IsWhite(s[i])
    ensures LeadingWhite(s) < |s| ==> !IsWhite(s[LeadingWhite(s)])
  {
    if s != [] && IsWhite(s[0]) {
      LeadingWhiteSpan(s[1..]);
    }
  }

  /** How many white-space characters close `s`. */
  function TrailingWhite(s: string): (k: nat)
    ensures k <= |s|
  {
    if s == [] || !IsWhite(s[|s| - 1]) then 0 else 1 + TrailingWhite(s[..|s| - 1])
  }

  /** TrailingWhite counts exactly the white-space run that closes `s`. */
  lemma {:induction false} TrailingWhiteSpan(s: string)
    ensures forall i :: |s| - TrailingWhite(s) <= i < |s| ==> IsWhite(s[i])
    ensures TrailingWhite(s) < |s| ==> !IsWhite(s[|s| - 1 - TrailingWhite(s)])
  {
    if s != [] && IsWhite(s[|s| - 1]) {
      TrailingWhiteSpan(s[..|s| - 1]);
    }
  }

  /** `s` without its leading and trailing white space. */
  function Trimmed(s: string): (r: string)
    ensures |r| <= |s|
  {
    var rest := s[LeadingWhite(s)..];
    rest[..|rest| - TrailingWhite(rest)]
  }

  /** The digits after an optional sign, within the range of a 32-bit int. */
  function Int32Digits(negative: bool, digits: string): (r: Option<int>)
    ensures r.Some? ==> MinInt32 <= r.value <= MaxInt32
  {
    if digits == [] || !AllDigits(digits) then None
    else
      var magnitude: int := DigitsValue(digits);
      var v := if negative then 0 - magnitude else magnitude;
      if MinInt32 <= v <= MaxInt32 then Some(v) else None
  }

  /**
   * `int.TryParse(s, out n)`: Some(n) when it returns true. Accepted: optional
   * white space, an optional '+' or '-', one or more ASCII digits, optional white
   * space, and a value that fits in 32 bits.
   */
  function TryParseInt32(s: string): (r: Option<int>)
    ensures r.Some? ==> MinInt32 <= r.value <= MaxInt32
  {
    var t := Trimmed(s);
    if t != [] && (t[0] == '-' || t[0] == '+') then Int32Digits(t[0] == '-', t[1..])
    else Int32Digits(false, t)
  }

  /** A plain digit string parses to its value, or fails when that value overflows. */
  lemma TryParseDigits(s: string)
    requires s != [] && AllDigits(s)
    ensures TryParseInt32(s) == if DigitsValue(s) <= MaxInt32 then Some(DigitsValue(s)) else None
  {
    TrimmedDigits(s);
  }

  /** A digit string carries no white space to trim. */
  lemma TrimmedDigits(s: string)
    requires s != [] && AllDigits(s)
    ensures Trimmed(s) == s
  {
    assert !IsWhite(s[0]);
    assert LeadingWhite(s) == 0;
    assert s[0..] == s;
    assert !IsWhite(s[|s| - 1]);
    assert TrailingWhite(s) == 0;
  }

  /** A three-digit string, the shape a dotted `c.s.d` leaves behind, has the value 100c + 10s + d. */
  lemma ThreeDigitsValue(a: char, b: char, c: char)
    requires IsDigit(a) && IsDigit(b) && IsDigit(c)
    ensures DigitsValue([a, b, c]) == 100 * DigitValue(a) + 10 * DigitValue(b) + DigitValue(c)
  {
    assert [a, b, c][..2] == [a, b];
    assert [a, b][..1] == [a];
    assert [a][..0] == [];
    assert DigitsValue([a]) == DigitValue(a);
    assert DigitsValue([a, b]) == 10 * DigitValue(a) + DigitValue(b);
  }
}
