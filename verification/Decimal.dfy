/**
 Unsigned decimal text: the printer behind `u64::to_string`, the checked parser behind
 `str::parse::<u64>`, and the canonical cursor tokens built on both.
 */
module Decimal {
  import opened Results
  import opened Numbers

  const MAX_CURSOR_BYTES: nat := 20

  predicate IsDigit(c: char) {
    '0' <= c <= '9'
  }

  predicate AllDigits(s: string) {
    forall i :: 0 <= i < |s| ==> IsDigit(s[i])
  }

  function DigitValue(c: char): (d: nat)
    requires IsDigit(c)
    ensures d < 10
  {
    c as int - '0' as int
  }

  function DigitChar(d: nat): (c: char)
    requires d < 10
    ensures IsDigit(c) && DigitValue(c) == d
  {
    ('0' as int + d) as char
  }

  /** The shortest decimal text of n. */
  function Print(n: nat): (s: string)
    ensures |s| > 0
  {
    if n < 10 then [DigitChar(n)] else Print(n / 10) + [DigitChar(n % 10)]
  }

  function ValueOf(s: string): nat
    requires AllDigits(s)
  {
    if s == "" then 0 else 10 * ValueOf(s[..|s| - 1]) + DigitValue(s[|s| - 1])
  }

  /** Decimal text without redundant zeros. */
  predicate Canonical(s: string) {
    s != "" && AllDigits(s) && (|s| > 1 ==> s[0] != '0')
  }

  lemma {:induction false} PrintIsCanonical(n: nat)
    ensures Canonical(Print(n)) && ValueOf(Print(n)) == n
    ensures n > 0 ==> Print(n)[0] != '0'
  {
    if n >= 10 {
      PrintIsCanonical(n / 10);
      assert Print(n)[..|Print(n)| - 1] == Print(n / 10);
    }
  }

  lemma {:induction false} CanonicalIsPrinted(s: string)
    requires Canonical(s)
    ensures Print(ValueOf(s)) == s
    ensures s[0] != '0' ==> ValueOf(s) > 0
  {
    var init, last := s[..|s| - 1], s[|s| - 1];
    assert s == init + [last];
    if |s| == 1 {
      assert ValueOf(init) == 0;
    } else {
      CanonicalIsPrinted(init);
      assert ValueOf(s) / 10 == ValueOf(init) && ValueOf(s) % 10 == DigitValue(last);
    }
  }

  lemma {:induction false} PrintInjective(m: nat, n: nat)
    requires Print(m) == Print(n)
    ensures m == n
  {
    PrintIsCanonical(m);
    PrintIsCanonical(n);
  }

  function Pow10(k: nat): (p: nat)
    ensures p > 0
  {
    if k == 0 then 1 else 10 * Pow10(k - 1)
  }

  /** A canonical text of k + 1 digits is worth at least 10^k, unless it is the single zero. */
  lemma {:induction false} LongTextIsLarge(s: string)
    requires Canonical(s) && s[0] != '0'
    ensures ValueOf(s) >= Pow10(|s| - 1)
  {
    if |s| > 1 {
      LongTextIsLarge(s[..|s| - 1]);
    }
  }

  lemma {:induction false} Pow10Grows(a: nat, b: nat)
    ensures a <= b ==> Pow10(a) <= Pow10(b)
  {
    if a < b {
      Pow10Grows(a, b - 1);
    }
  }

  lemma {:induction false} TextIsBelowPower(s: string)
    requires AllDigits(s)
    ensures ValueOf(s) < Pow10(|s|)
  {
    if s != "" {
      TextIsBelowPower(s[..|s| - 1]);
    }
  }

  lemma TwentyDigitPowers()
    ensures Pow10(19) < U64_LIMIT - 1 && U64_LIMIT < Pow10(20)
  {
    assert Pow10(5) == 100_000;
    assert Pow10(10) == 100_000 * Pow10(5);
    assert Pow10(15) == 100_000 * Pow10(10);
    assert Pow10(20) == 100_000 * Pow10(15);
  }

  lemma U64FitsInTwentyDigits(s: string)
    requires Canonical(s) && ValueOf(s) < U64_LIMIT
    ensures |s| <= MAX_CURSOR_BYTES
  {
    TwentyDigitPowers();
    Pow10Grows(20, |s| - 1);
    if s[0] != '0' {
      LongTextIsLarge(s);
    }
  }

  /** Dropping digits from the right never increases the value. */
  lemma {:induction false} PrefixIsSmaller(s: string, i: nat)
    requires AllDigits(s) && i <= |s|
    ensures ValueOf(s[..i]) <= ValueOf(s)
    decreases |s| - i
  {
    if i < |s| {
      assert s[..i + 1][..i] == s[..i];
      PrefixIsSmaller(s, i + 1);
    } else {
      assert s[..i] == s;
    }
  }

  /** What `str::parse::<u64>` accepts: an optional plus sign, then digits worth less than 2^64. */
  function U64Of(s: string): Option<nat> {
    var digits := if s != "" && s[0] == '+' then s[1..] else s;
    if digits != "" && AllDigits(digits) && ValueOf(digits) < U64_LIMIT
    then Some(ValueOf(digits)) else None
  }

  /** The checked accumulator loop of the integer parser. */
  method ParseU64(s: string) returns (r: Option<nat>)
    ensures r == U64Of(s)
  {
    var digits := if s != "" && s[0] == '+' then s[1..] else s;
    if digits == "" {
      return None;
    }
    var total := 0;
    for i := 0 to |digits|
      invariant AllDigits(digits[..i]) && total == ValueOf(digits[..i]) < U64_LIMIT
    {
      if !IsDigit(digits[i]) {
        return None;
      }
      assert digits[..i + 1][..i] == digits[..i];
      if total * 10 >= U64_LIMIT || total * 10 + DigitValue(digits[i]) >= U64_LIMIT {
        if AllDigits(digits) {
          PrefixIsSmaller(digits, i + 1);
        }
        return None;
      }
      total := total * 10 + DigitValue(digits[i]);
    }
    assert digits[..|digits|] == digits;
    return Some(total);
  }

  /** `CursorToken::parse`: four shape guards, then the integer parser. */
  method ParseCursor(value: string) returns (token: Option<nat>)
    ensures token.Some? <==> Canonical(value) && ValueOf(value) < U64_LIMIT
    ensures token.Some? ==> token.value == ValueOf(value)
  {
    if value == "" || |value| > MAX_CURSOR_BYTES || (|value| > 1 && value[0] == '0') {
      if Canonical(value) && ValueOf(value) < U64_LIMIT {
        U64FitsInTwentyDigits(value);
      }
      return None;
    }
    for i := 0 to |value|
      invariant AllDigits(value[..i])
    {
      if !IsDigit(value[i]) {
        return None;
      }
    }
    assert value == value[..|value|];
    token := ParseU64(value);
  }

  /** The texts ParseCursor accepts are exactly the printed forms of the values below 2^64. */
  lemma CursorTextsArePrintedValues(value: string)
    ensures (Canonical(value) && ValueOf(value) < U64_LIMIT) <==> (exists n: nat :: n < U64_LIMIT && Print(n) == value)
    ensures forall n: nat :: Print(n) == value ==> Canonical(value) && ValueOf(value) == n
  {
    if Canonical(value) {
      CanonicalIsPrinted(value);
    }
    forall n: nat | Print(n) == value
      ensures Canonical(value) && ValueOf(value) == n
    {
      PrintIsCanonical(n);
    }
  }

  /** Round trip in both directions, up to the last value the 20-digit guard admits. */
  method CursorRoundTrip(n: nat, text: string) returns (printed: Option<nat>, reprinted: Option<string>)
    requires n < U64_LIMIT
    ensures printed == Some(n)
    ensures reprinted == if Canonical(text) && ValueOf(text) < U64_LIMIT then Some(text) else None
  {
    PrintIsCanonical(n);
    printed := ParseCursor(Print(n));
    var token := ParseCursor(text);
    if token.Some? {
      CanonicalIsPrinted(text);
      reprinted := Some(Print(token.value));
    } else {
      reprinted := None;
    }
  }

  /** Both neighbours of 2^64 have twenty digits, so the length guard cannot tell them apart; the parser does. */
  lemma TwentyDigitBoundary()
    ensures |Print(U64_LIMIT - 1)| == |Print(U64_LIMIT)| == MAX_CURSOR_BYTES
    ensures U64Of(Print(U64_LIMIT - 1)) == Some(U64_LIMIT - 1)
    ensures U64Of(Print(U64_LIMIT)) == None
  {
    TwentyDigitPowers();
    HasTwentyDigits(U64_LIMIT - 1);
    HasTwentyDigits(U64_LIMIT);
    PrintIsCanonical(U64_LIMIT - 1);
    PrintIsCanonical(U64_LIMIT);
  }

  lemma HasTwentyDigits(n: nat)
    requires Pow10(19) <= n < Pow10(20)
    ensures |Print(n)| == 20
  {
    PrintIsCanonical(n);
    var s := Print(n);
    Pow10Grows(20, |s| - 1);
    Pow10Grows(|s|, 19);
    LongTextIsLarge(s);
    TextIsBelowPower(s);
  }
}
