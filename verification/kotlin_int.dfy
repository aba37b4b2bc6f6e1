/** Kotlin's decimal `String.toIntOrNull()` and `String.toInt()` on 32-bit `Int`.

    A numeral is an optional leading `+` or `-` followed by at least one
    decimal digit; nothing is trimmed, and a value outside the 32-bit range
    is rejected rather than wrapped. `ParseIntOrNull` follows the standard
    library's own loop (accumulating a negative total with overflow guards),
    and is proved to agree with the declarative `ToIntOrNull`.
 */
module KotlinInt {
  import opened Wrappers
  import KotlinText

  const IntMin: int := -0x8000_0000
  const IntMax: int := 0x7fff_ffff

  predicate InInt32(n: int) {
    IntMin <= n <= IntMax
  }

  predicate IsDigit(c: char) {
    '0' <= c <= '9'
  }

  function DigitValue(c: char): (d: nat)
    requires IsDigit(c)
    ensures d < 10
  {
    (c as int) - ('0' as int)
  }

  function DigitChar(d: nat): (c: char)
    requires d < 10
    ensures IsDigit(c) && DigitValue(c) == d
  {
    ('0' as int + d) as char
  }

  predicate AllDigits(s: string) {
    forall i :: 0 <= i < |s| ==> IsDigit(s[i])
  }

  /** The value of a digit string read most significant digit first. */
  function DigitsValue(s: string): nat
    requires AllDigits(s)
    decreases |s|
  {
    if |s| == 0 then 0 else DigitsValue(s[..|s| - 1]) * 10 + DigitValue(s[|s| - 1])
  }

  predicate HasSign(s: string) {
    |s| > 0 && (s[0] == '+' || s[0] == '-')
  }

  /** The digit part of a candidate numeral: everything after a leading sign. */
  function Magnitude(s: string): string {
    if HasSign(s) then s[1..] else s
  }

  predicate IsNumeral(s: string) {
    |Magnitude(s)| > 0 && AllDigits(Magnitude(s))
  }

  /** The mathematical value a numeral denotes, before any range check. */
  function NumeralValue(s: string): int
    requires IsNumeral(s)
  {
    if s[0] == '-' then -(DigitsValue(Magnitude(s)) as int) else DigitsValue(Magnitude(s))
  }

  /** `s.toIntOrNull()`: the numeral's value when it fits in 32 bits, else null. */
  function ToIntOrNull(s: string): (r: Option<int>)
    ensures r.Some? ==> InInt32(r.value)
    ensures r.Some? ==> 1 <= |s| && AllDigits(s[1..]) && (IsDigit(s[0]) || s[0] == '+' || s[0] == '-')
    ensures r.Some? && !HasSign(s) ==> r.value >= 0
  {
    if IsNumeral(s) && InInt32(NumeralValue(s)) then Some(NumeralValue(s)) else None
  }

  /** `s.toInt()`: like `toIntOrNull`, but a bad input throws
      `NumberFormatException`, recorded here by the offending input. */
  function ToInt(s: string): (r: Result<int, string>)
    ensures r.Ok? <==> ToIntOrNull(s).Some?
    ensures r.Ok? ==> InInt32(r.value) && ToIntOrNull(s) == Some(r.value)
    ensures r.Err? ==> r.error == s
  {
    match ToIntOrNull(s)
    case Some(n) => Ok(n)
    case None => Err(s)
  }

  /** Kotlin's `Int / Int`, which truncates toward zero. */
  function TruncDiv(a: int, b: int): int
    requires b > 0
  {
    if a >= 0 then a / b else -((-a) / b)
  }

  /** Extending a digit string never lowers its value. */
  lemma {:induction false} DigitsValuePrefix(s: string, k: nat)
    requires AllDigits(s) && k <= |s|
    ensures AllDigits(s[..k])
    ensures DigitsValue(s[..k]) <= DigitsValue(s)
    decreases |s|
  {
    if k < |s| {
      var init := s[..|s| - 1];
      assert init[..k] == s[..k];
      DigitsValuePrefix(init, k);
    } else {
      assert s[..k] == s;
    }
  }

  /** The value of `s[..i+1]` extends the value of `s[..i]` by one digit. */
  lemma DigitsValueStep(s: string, i: nat)
    requires i < |s| && AllDigits(s)
    ensures AllDigits(s[..i]) && AllDigits(s[..i + 1])
    ensures DigitsValue(s[..i + 1]) == DigitsValue(s[..i]) * 10 + DigitValue(s[i])
  {
    assert s[..i + 1][..i] == s[..i];
  }

  /** The standard library's `String.toIntOrNull(radix = 10)`: after the sign
      check, the digits are accumulated by `AccumulateDigits`. */
  method ParseIntOrNull(s: string) returns (r: Option<int>)
    ensures r == ToIntOrNull(s)
  {
    if |s| == 0 {
      return None;
    }
    var start: nat;
    var isNegative: bool;
    var limit: int;
    var firstChar := s[0];
    if firstChar < '0' {
      if |s| == 1 {
        return None;
      }
      start := 1;
      if firstChar == '-' {
        isNegative := true;
        limit := IntMin;
      } else if firstChar == '+' {
        isNegative := false;
        limit := -IntMax;
      } else {
        assert !IsDigit(Magnitude(s)[0]);
        return None;
      }
    } else {
      start := 0;
      isNegative := false;
      limit := -IntMax;
    }
    assert s[start..] == Magnitude(s);
    var total := AccumulateDigits(s[start..], limit);
    match total {
      case None => return None;
      case Some(result) => return if isNegative then Some(result) else Some(-result);
    }
  }

  /** The digit loop of `toIntOrNull`: the total is kept negative so that
      `Int.MIN_VALUE` is reachable, and each step compares it first against a
      multiplication threshold, then against `limit`. The result is minus the
      value of `digits`, or null when `digits` is not all digits or its value
      exceeds `-limit`. */
  method AccumulateDigits(digits: string, limit: int) returns (total: Option<int>)
    requires limit == IntMin || limit == -IntMax
    ensures total.Some? <==> AllDigits(digits) && DigitsValue(digits) <= -limit
    ensures total.Some? ==> total.value == -(DigitsValue(digits) as int)
  {
    var limitForMaxRadix := TruncDiv(-IntMax, 36);
    var limitBeforeMul := limitForMaxRadix;
    var result := 0;
    var i := 0;
    while i < |digits|
      invariant i <= |digits|
      invariant limitBeforeMul == limitForMaxRadix || limitBeforeMul == -TruncDiv(-limit, 10)
      invariant AllDigits(digits[..i])
      invariant result == -(DigitsValue(digits[..i]) as int)
      invariant limit <= result <= 0
    {
      if !IsDigit(digits[i]) {
        return None;
      }
      var digit := DigitValue(digits[i]);
      assert AllDigits(digits[..i + 1]) by {
        assert digits[..i + 1] == digits[..i] + [digits[i]];
      }
      DigitsValueStep(digits[..i + 1], i);
      assert digits[..i + 1][..i] == digits[..i];
      if result < limitBeforeMul {
        if limitBeforeMul == limitForMaxRadix {
          limitBeforeMul := -TruncDiv(-limit, 10);
          if result < limitBeforeMul {
            PrefixTooLarge(digits, i + 1, -limit);
            return None;
          }
        } else {
          PrefixTooLarge(digits, i + 1, -limit);
          return None;
        }
      }
      result := result * 10;
      if result < limit + digit {
        PrefixTooLarge(digits, i + 1, -limit);
        return None;
      }
      result := result - digit;
      i := i + 1;
    }
    assert digits[..i] == digits;
    return Some(result);
  }

  /** Once a prefix of a digit string exceeds a bound, so does the whole. */
  lemma PrefixTooLarge(digits: string, j: nat, bound: int)
    requires j <= |digits| && AllDigits(digits[..j]) && DigitsValue(digits[..j]) > bound
    ensures !(AllDigits(digits) && DigitsValue(digits) <= bound)
  {
    if AllDigits(digits) {
      DigitsValuePrefix(digits, j);
    }
  }

  /** Canonical decimal digits of a natural number (no leading zeros). */
  function NatDigits(n: nat): (s: string)
    ensures |s| >= 1 && AllDigits(s)
    decreases n
  {
    if n < 10 then [DigitChar(n)] else NatDigits(n / 10) + [DigitChar(n % 10)]
  }

  /** Kotlin's `Int.toString()`: a minus sign for negatives, then the digits. */
  function Show(n: int): (s: string)
    ensures IsNumeral(s) && (n >= 0 <==> !HasSign(s))
  {
    if n < 0 then "-" + NatDigits(-n) else NatDigits(n)
  }

  lemma {:induction false} NatDigitsValue(n: nat)
    ensures DigitsValue(NatDigits(n)) == n
    decreases n
  {
    if n >= 10 {
      NatDigitsValue(n / 10);
      var s := NatDigits(n);
      assert s[..|s| - 1] == NatDigits(n / 10);
    }
  }

  /** Rendering an `Int` and parsing it back gives the same `Int`. */
  lemma ShowRoundTrip(n: int)
    requires InInt32(n)
    ensures ToIntOrNull(Show(n)) == Some(n)
    ensures ToInt(Show(n)) == Ok(n)
  {
    if n < 0 {
      NatDigitsValue(-n);
      assert Magnitude(Show(n)) == NatDigits(-n);
    } else {
      NatDigitsValue(n);
    }
  }

  /** Leading zeros do not change the parsed value. */
  lemma {:induction false} LeadingZerosIgnored(z: nat, s: string)
    requires AllDigits(s)
    ensures AllDigits(KotlinText.Repeat('0', z) + s)
    ensures DigitsValue(KotlinText.Repeat('0', z) + s) == DigitsValue(s)
    decreases |s|
  {
    var zeros := KotlinText.Repeat('0', z);
    var t := zeros + s;
    if |s| == 0 {
      assert t == zeros;
      AllZerosValue(zeros);
    } else {
      assert t[..|t| - 1] == zeros + s[..|s| - 1];
      LeadingZerosIgnored(z, s[..|s| - 1]);
    }
  }

  /** A string of zeros denotes 0. */
  lemma {:induction false} AllZerosValue(s: string)
    requires forall i :: 0 <= i < |s| ==> s[i] == '0'
    ensures AllDigits(s) && DigitsValue(s) == 0
    decreases |s|
  {
    if |s| > 0 {
      AllZerosValue(s[..|s| - 1]);
    }
  }
}
