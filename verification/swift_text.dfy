/** The parts of Swift's standard library the core leans on: 64-bit integers,
    `Int64(_: String)`, string interpolation of an `Int`, `String <` and
    ASCII `lowercased()`. Strings are sequences of characters; the scanner
    feeds them ISO Latin-1 text, one character per byte. */
module SwiftText {
  import opened Outcomes
  import opened Orders

  const Int64Min: int := -0x8000_0000_0000_0000
  const Int64Max: int := 0x7FFF_FFFF_FFFF_FFFF

  predicate InInt64(n: int) {
    Int64Min <= n <= Int64Max
  }

  predicate IsDigit(c: char) {
    '0' <= c <= '9'
  }

  predicate AllDigits(s: string) {
    |s| == 0 || (AllDigits(s[..|s| - 1]) && IsDigit(s[|s| - 1]))
  }

  /** Every character of an all-digit string is a digit. */
  lemma {:induction false} AllDigitsAt(s: string, i: nat)
    requires AllDigits(s) && i < |s|
    ensures IsDigit(s[i])
    decreases |s|
  {
    if i < |s| - 1 {
      AllDigitsAt(s[..|s| - 1], i);
    }
  }

  function DigitValue(c: char): nat
    requires IsDigit(c)
  {
    (c as int) - ('0' as int)
  }

  function DigitChar(d: nat): (c: char)
    requires d < 10
    ensures IsDigit(c) && DigitValue(c) == d
  {
    (('0' as int) + d) as char
  }

  /** The value of a run of decimal digits, most significant first. */
  function DigitsValue(s: string): nat
    requires AllDigits(s)
  {
    if |s| == 0 then 0 else DigitsValue(s[..|s| - 1]) * 10 + DigitValue(s[|s| - 1])
  }

  /** Swift's `Int64(_ text: String)` (and `Int(_:)` on a 64-bit platform):
      an optional `+` or `-`, then one or more ASCII digits, and a value that
      fits in 64 bits; anything else is `nil`. */
  function ParseInt64(s: string): (r: Option<int>)
    ensures r.Some? ==> InInt64(r.value)
    ensures |s| == 0 ==> r == None
  {
    if |s| == 0 then None
    else
      var digits := if s[0] == '-' || s[0] == '+' then s[1..] else s;
      if |digits| == 0 || !AllDigits(digits) then None
      else
        var n: int := if s[0] == '-' then -(DigitsValue(digits) as int) else DigitsValue(digits);
        if InInt64(n) then Some(n) else None
  }

  /** String interpolation `"\(n)"` of a non-negative integer: no leading
      zero, so `0` alone is the text of zero. */
  function DecimalString(n: nat): (s: string)
    ensures 0 < |s| && AllDigits(s)
    ensures DigitsValue(s) == n
    ensures n == 0 ==> s == "0"
    ensures n > 0 ==> s[0] != '0'
  {
    if n < 10 then [DigitChar(n)]
    else
      var s := DecimalString(n / 10) + [DigitChar(n % 10)];
      assert s[..|s| - 1] == DecimalString(n / 10);
      s
  }

  /** String interpolation of any integer: a minus sign, then the digits. */
  function SignedDecimal(n: int): string {
    if n < 0 then "-" + DecimalString(-n) else DecimalString(n)
  }

  /** Printing a 64-bit integer and parsing the text back gives the integer. */
  lemma ParseSignedDecimal(n: int)
    requires InInt64(n)
    ensures ParseInt64(SignedDecimal(n)) == Some(n)
  {
    var s := SignedDecimal(n);
    if n < 0 {
      assert s[1..] == DecimalString(-n);
    } else {
      AllDigitsAt(s, 0);
    }
  }

  /** Only texts of the form sign-then-digits are accepted. */
  lemma ParseInt64Accepts(s: string)
    ensures ParseInt64(s).Some? ==>
      |s| > 0 && forall i :: 0 <= i < |s| ==> IsDigit(s[i]) || (i == 0 && (s[i] == '-' || s[i] == '+'))
  {
    if ParseInt64(s).Some? {
      var digits := if s[0] == '-' || s[0] == '+' then s[1..] else s;
      forall i | 0 <= i < |s| && !(i == 0 && (s[i] == '-' || s[i] == '+'))
        ensures IsDigit(s[i])
      {
        if s[0] == '-' || s[0] == '+' {
          AllDigitsAt(digits, i - 1);
        } else {
          AllDigitsAt(digits, i);
        }
      }
    }
  }

  /** The text of an integer is a leading minus at most, and digits. */
  lemma SignedDecimalChars(n: int)
    ensures |SignedDecimal(n)| > 0
    ensures forall i :: 0 <= i < |SignedDecimal(n)| ==>
      IsDigit(SignedDecimal(n)[i]) || (i == 0 && SignedDecimal(n)[i] == '-')
  {
    var s := SignedDecimal(n);
    forall i | 0 <= i < |s| && !(i == 0 && s[i] == '-')
      ensures IsDigit(s[i])
    {
      if n < 0 {
        AllDigitsAt(DecimalString(-n), i - 1);
      } else {
        AllDigitsAt(DecimalString(n), i);
      }
    }
  }

  /** Swift's `String <`, modelled as lexicographic order on characters. */
  function StrLess(a: string, b: string): bool {
    if |b| == 0 then false
    else if |a| == 0 then true
    else if a[0] != b[0] then a[0] < b[0]
    else StrLess(a[1..], b[1..])
  }

  lemma {:induction false} StrLessIrreflexive(a: string)
    ensures !StrLess(a, a)
  {
    if |a| > 0 {
      StrLessIrreflexive(a[1..]);
    }
  }

  lemma {:induction false} StrLessTransitive(a: string, b: string, c: string)
    requires StrLess(a, b) && StrLess(b, c)
    ensures StrLess(a, c)
  {
    if |a| > 0 && a[0] == b[0] && b[0] == c[0] {
      StrLessTransitive(a[1..], b[1..], c[1..]);
    }
  }

  lemma {:induction false} StrLessConnected(a: string, b: string)
    requires a != b
    ensures StrLess(a, b) || StrLess(b, a)
  {
    if |a| > 0 && |b| > 0 && a[0] == b[0] {
      assert a == [a[0]] + a[1..] && b == [b[0]] + b[1..];
      StrLessConnected(a[1..], b[1..]);
    }
  }

  /** `String <` is a strict total order, as `Comparable` requires. */
  lemma StrLessIsStrictTotalOrder()
    ensures StrictTotalOrder(StrLess)
  {
    forall a { StrLessIrreflexive(a); }
    forall a, b, c | StrLess(a, b) && StrLess(b, c) ensures StrLess(a, c) {
      StrLessTransitive(a, b, c);
    }
    forall a, b | a != b ensures StrLess(a, b) || StrLess(b, a) {
      StrLessConnected(a, b);
    }
  }

  function IntLess(x: int, y: int): bool {
    x < y
  }

  lemma IntLessIsStrictTotalOrder()
    ensures StrictTotalOrder(IntLess)
  {
  }

  /** `lowercased()` on ASCII letters; every other character is kept. */
  function Lowercased(s: string): (r: string)
    ensures |r| == |s|
    ensures forall i :: 0 <= i < |s| ==> if 'A' <= s[i] <= 'Z' then r[i] as int == s[i] as int + 32 else r[i] == s[i]
  {
    if |s| == 0 then []
    else [if 'A' <= s[0] <= 'Z' then (s[0] as int + 32) as char else s[0]] + Lowercased(s[1..])
  }
}
