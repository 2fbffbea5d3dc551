/** Decimal text of JavaScript bigints: `BigInt(text)` and `n.toString()`.
    The statistics code keeps every amount as text and converts with these two,
    so the model needs both, and the facts about gluing two decimal texts together. */
module BigIntText {
  import opened Results

  /** The exceptions `BigInt(...)` raises: a SyntaxError for text that is not an
      integer literal, a TypeError for `undefined`. */
  datatype JsError = SyntaxError(text: string) | TypeError

  predicate IsDigit(c: char) {
    '0' <= c <= '9'
  }

  predicate IsDigits(s: string) {
    forall i :: 0 <= i < |s| ==> IsDigit(s[i])
  }

  function DigitValue(c: char): (d: nat)
    requires IsDigit(c)
    ensures d < 10
  {
    c as int - '0' as int
  }

  function DigitChar(d: nat): (c: char)
    requires d < 10
    ensures IsDigit(c) && DigitValue(c) == d
  {
    ('0' as int + d) as char
  }

  function Pow10(k: nat): (r: nat)
    ensures r >= 1
  {
    if k == 0 then 1 else 10 * Pow10(k - 1)
  }

  /** Number of decimal digits of `n`; zero is written with one digit. */
  function DigitCount(n: nat): (k: nat)
    ensures k >= 1
  {
    if n < 10 then 1 else 1 + DigitCount(n / 10)
  }

  /** Value of a run of decimal digits, most significant first. */
  function DigitsValue(s: string): nat
    requires IsDigits(s)
    decreases |s|
  {
    if |s| == 0 then 0 else DigitsValue(s[..|s| - 1]) * 10 + DigitValue(s[|s| - 1])
  }

  /** `BigInt(text)` on a string: the empty string is 0, otherwise an optional sign
      followed by at least one decimal digit; anything else throws a SyntaxError. */
  function ParseBigInt(s: string): (r: Result<int, JsError>)
    ensures r.Ok? <==> IsDigits(s) || (|s| > 1 && (s[0] == '-' || s[0] == '+') && IsDigits(s[1..]))
    ensures r.Err? ==> r.error == SyntaxError(s)
    ensures r.Ok? && (s == [] || s[0] != '-') ==> r.value >= 0
    ensures r.Ok? && s != [] && s[0] == '-' ==> r.value <= 0
    ensures r.Ok? && IsDigits(s) ==> r.value == DigitsValue(s)
    ensures r.Ok? && |s| > 1 && (s[0] == '-' || s[0] == '+') ==>
      r.value == (if s[0] == '-' then 0 - DigitsValue(s[1..]) as int else DigitsValue(s[1..]) as int)
  {
    if |s| == 0 then Ok(0)
    else if (s[0] == '-' || s[0] == '+') && |s| > 1 && IsDigits(s[1..]) then
      var magnitude: int := DigitsValue(s[1..]);
      Ok(if s[0] == '-' then -magnitude else magnitude)
    else if IsDigits(s) then Ok(DigitsValue(s))
    else Err(SyntaxError(s))
  }

  /** The text every field starts from reads as zero. */
  lemma ParseZero()
    ensures ParseBigInt("0") == Ok(0)
  {
    assert DigitsValue("0") == 0 by {
      assert "0"[..0] == [];
    }
  }

  /** Canonical decimal text: digits only, and no leading zero except for "0" itself. */
  predicate IsCanonicalNat(s: string) {
    |s| > 0 && IsDigits(s) && (s[0] == '0' ==> |s| == 1)
  }

  /** The canonical digits of a non-negative integer. */
  function NatText(n: nat): (s: string)
    ensures IsCanonicalNat(s)
    ensures DigitsValue(s) == n
    ensures |s| == DigitCount(n)
    decreases n
  {
    if n < 10 then [DigitChar(n)]
    else
      var prefix := NatText(n / 10);
      var s := prefix + [DigitChar(n % 10)];
      assert s[..|s| - 1] == prefix;
      s
  }

  /** `n.toString()` for a bigint: a minus sign before the digits of a negative value. */
  function ToDecimal(n: int): (s: string)
    ensures ParseBigInt(s) == Ok(n)
    ensures n >= 0 ==> IsCanonicalNat(s) && |s| == DigitCount(n)
    ensures n < 0 ==> |s| >= 2 && s[0] == '-' && IsCanonicalNat(s[1..])
  {
    if n < 0 then
      var s := "-" + NatText(-n);
      assert s[1..] == NatText(-n);
      s
    else NatText(n)
  }

  /** A canonical run of digits with a non-zero leading digit is at least 10^(length-1). */
  lemma {:induction false} LeadingDigitBound(s: string)
    requires IsDigits(s) && |s| > 0 && s[0] != '0'
    ensures DigitsValue(s) >= Pow10(|s| - 1)
    decreases |s|
  {
    if |s| > 1 {
      var prefix := s[..|s| - 1];
      assert prefix[0] == s[0];
      LeadingDigitBound(prefix);
    }
  }

  /** The other half of the round trip: canonical digits are exactly what `NatText` prints. */
  lemma {:induction false} NatTextOfDigits(s: string)
    requires IsCanonicalNat(s)
    ensures NatText(DigitsValue(s)) == s
    decreases |s|
  {
    if |s| > 1 {
      var prefix := s[..|s| - 1];
      assert prefix[0] == s[0];
      NatTextOfDigits(prefix);
      NatTextOfLongerDigits(s);
    } else {
      assert DigitChar(DigitValue(s[0])) == s[0];
    }
  }

  /** The step of `NatTextOfDigits`: a canonical run printed back digit by digit. */
  lemma NatTextOfLongerDigits(s: string)
    requires IsCanonicalNat(s) && |s| > 1
    requires NatText(DigitsValue(s[..|s| - 1])) == s[..|s| - 1]
    ensures NatText(DigitsValue(s)) == s
  {
    var prefix := s[..|s| - 1];
    assert prefix[0] == s[0];
    LeadingDigitBound(prefix);
    var p, d := DigitsValue(prefix), DigitValue(s[|s| - 1]);
    calc {
      NatText(DigitsValue(s));
      NatText(p * 10 + d);
      { NatTextSnoc(p, d); }
      NatText(p) + [DigitChar(d)];
      prefix + [s[|s| - 1]];
      { LastSplit(s); }
      s;
    }
  }

  lemma LastSplit<T>(s: seq<T>)
    requires |s| > 0
    ensures s[..|s| - 1] + [s[|s| - 1]] == s
  {
  }

  /** Printing a value with a further last digit `d`: the value's text, then `d`. */
  lemma NatTextSnoc(p: nat, d: nat)
    requires 0 < p && d < 10
    ensures NatText(p * 10 + d) == NatText(p) + [DigitChar(d)]
  {
    SplitLastDigit(p, d);
  }

  /** Dividing by ten splits off the last digit again. */
  lemma SplitLastDigit(p: nat, d: nat)
    requires d < 10
    ensures (p * 10 + d) / 10 == p && (p * 10 + d) % 10 == d
  {
  }

  /** `toString` is the inverse of `BigInt` on canonical text: a text that parses to
      `n` and carries no redundant zero or plus sign is exactly `n.toString()`. */
  lemma CanonicalTextIsToDecimal(s: string)
    requires IsCanonicalNat(s) || (|s| >= 2 && s[0] == '-' && IsCanonicalNat(s[1..]) && s[1..] != "0")
    ensures ParseBigInt(s).Ok? && ToDecimal(ParseBigInt(s).value) == s
  {
    if s[0] == '-' {
      var digits := s[1..];
      NatTextOfDigits(digits);
      LeadingDigitBound(digits);
      assert s == "-" + digits;
    } else {
      NatTextOfDigits(s);
    }
  }

  /** Gluing two digit runs multiplies the first by 10^(length of the second). */
  lemma {:induction false} DigitsValueAppend(a: string, b: string)
    requires IsDigits(a) && IsDigits(b)
    ensures IsDigits(a + b)
    ensures DigitsValue(a + b) == DigitsValue(a) * Pow10(|b|) + DigitsValue(b)
    decreases |b|
  {
    if |b| == 0 {
      assert a + b == a;
    } else {
      var b' := b[..|b| - 1];
      var ab := a + b;
      assert ab[..|ab| - 1] == a + b';
      assert ab[|ab| - 1] == b[|b| - 1];
      DigitsValueAppend(a, b');
      ShiftDigit(DigitsValue(a), DigitsValue(b'), Pow10(|b'|), DigitValue(b[|b| - 1]));
    }
  }

  /** The arithmetic step of `DigitsValueAppend`: shifting a glued run by one more digit. */
  lemma ShiftDigit(x: int, y: int, p: int, d: int)
    ensures (x * p + y) * 10 + d == x * (p * 10) + (y * 10 + d)
  {
  }

  /** `BigInt(p) + x.toString()` read back as a bigint, for non-negative `p` and `x`:
      the digits of `x` are appended to those of `p`. */
  lemma ConcatNonNegative(p: nat, x: nat)
    ensures ParseBigInt(ToDecimal(p) + ToDecimal(x)) == Ok(p * Pow10(DigitCount(x)) + x)
  {
    var a, b := ToDecimal(p), ToDecimal(x);
    DigitsValueAppend(a, b);
    assert (a + b)[0] == a[0];
  }

  /** Appending the text of a negative value puts a minus sign inside the digits,
      so the result no longer parses. */
  lemma ConcatNegative(p: int, x: int)
    requires x < 0
    ensures ParseBigInt(ToDecimal(p) + ToDecimal(x)).Err?
  {
    var a, b := ToDecimal(p), ToDecimal(x);
    var s := a + b;
    assert s[|a|] == '-';
    assert !IsDigits(s);
    if s[0] == '-' || s[0] == '+' {
      assert s[1..][|a| - 1] == '-';
    }
  }
}
