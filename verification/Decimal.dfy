/** Decimal text as C's printf and atol write and read it: the number format of
    every pointer, length and offset field of the database files. */
module Decimal {

  predicate IsDigit(c: char) {
    '0' <= c <= '9'
  }

  predicate AllDigits(s: string) {
    forall i | 0 <= i < |s| :: IsDigit(s[i])
  }

  /** isspace() in the C locale */
  predicate IsSpace(c: char) {
    c == ' ' || 9 <= c as int <= 13
  }

  function DigitChar(d: nat): (c: char)
    requires d < 10
  {
    (48 + d) as char
  }

  function DigitValue(c: char): (d: nat)
    requires IsDigit(c)
  {
    c as int - 48
  }

  function Spaces(n: nat): (s: string)
    ensures |s| == n && forall i | 0 <= i < n :: s[i] == ' '
  {
    seq(n, _ => ' ')
  }

  /** "%lld" */
  function Digits(n: int): string
    decreases n < 0, if n < 0 then -n else n
  {
    if n < 0 then ['-'] + Digits(-n)
    else if n < 10 then [DigitChar(n)] else Digits(n / 10) + [DigitChar(n % 10)]
  }

  /** "%*d": right-justified in a field of w characters, never truncated */
  function Padded(w: nat, n: int): string {
    var d := Digits(n);
    if |d| >= w then d else Spaces(w - |d|) + d
  }

  function Value(s: string): nat
    requires AllDigits(s)
  {
    if |s| == 0 then 0 else 10 * Value(s[..|s| - 1]) + DigitValue(s[|s| - 1])
  }

  function SkipSpace(s: string): string {
    if |s| > 0 && IsSpace(s[0]) then SkipSpace(s[1..]) else s
  }

  function DigitPrefix(s: string): (t: string)
    ensures AllDigits(t)
  {
    if |s| > 0 && IsDigit(s[0]) then [s[0]] + DigitPrefix(s[1..]) else []
  }

  /** atol(): leading white space, an optional sign, then the longest run of digits */
  function Atol(s: string): int {
    var t := SkipSpace(s);
    if |t| > 0 && t[0] == '-' then 0 - Value(DigitPrefix(t[1..]))
    else if |t| > 0 && t[0] == '+' then Value(DigitPrefix(t[1..]))
    else Value(DigitPrefix(t))
  }

  function Pow10(k: nat): nat {
    if k == 0 then 1 else 10 * Pow10(k - 1)
  }

  // ---------- what the text is, character by character ----------

  lemma DigitsIs(n: int)
    ensures 0 <= n < 10 ==> Digits(n) == ["0123456789"[n]]
    ensures n >= 10 ==> Digits(n) == Digits(n / 10) + ["0123456789"[n % 10]]
    ensures n < 0 ==> Digits(n) == "-" + Digits(-n)
  {
  }

  /** Blanks, as many as are needed to fill the field, and then the number */
  lemma PaddedIs(w: nat, n: int)
    ensures |Digits(n)| > w ==> Padded(w, n) == Digits(n)
    ensures |Digits(n)| <= w ==>
              var k := w - |Digits(n)|;
              && |Padded(w, n)| == w && Padded(w, n)[k..] == Digits(n)
              && forall i | 0 <= i < k :: Padded(w, n)[i] == ' '
  {
  }

  /** The number that a text of digits stands for */
  lemma {:induction false} AtolDigit(s: string, c: char)
    requires forall i | 0 <= i < |s| :: '0' <= s[i] <= '9'
    requires '0' <= c <= '9'
    ensures Atol("") == 0 && Atol(s + [c]) == 10 * Atol(s) + (c as int - '0' as int)
  {
    DigitPrefixOfDigits(s);
    DigitPrefixOfDigits(s + [c]);
    NoSkip(s);
    NoSkip(s + [c]);
    NoDigits("");
    hide SkipSpace, DigitPrefix;
    assert (s + [c])[..|s + [c]| - 1] == s;
    assert |s| > 0 ==> (s + [c])[0] == s[0];
  }

  /** White space in front makes no difference. */
  lemma {:induction false} BlanksInFront(blanks: string, s: string)
    requires forall i | 0 <= i < |blanks| :: blanks[i] == ' ' || 9 <= blanks[i] as int <= 13
    ensures Atol(blanks + s) == Atol(s)
  {
    hide Atol;
    if |blanks| > 0 {
      BlanksInFront(blanks[1..], s);
      SkipOne(blanks[0], blanks[1..] + s);
      assert blanks + s == [blanks[0]] + (blanks[1..] + s);
    } else {
      assert blanks + s == s;
    }
  }

  lemma SkipOne(b: char, s: string)
    requires b == ' ' || 9 <= b as int <= 13
    ensures Atol([b] + s) == Atol(s)
  {
    assert ([b] + s)[1..] == s;
  }

  /** A sign in front of the digits, and anything that is no digit behind them */
  lemma AtolIs(digits: string, rest: string)
    requires forall i | 0 <= i < |digits| :: '0' <= digits[i] <= '9'
    requires rest == "" || !('0' <= rest[0] <= '9')
    ensures |digits| > 0 ==> Atol(digits + rest) == Atol(digits)
    ensures Atol(['-'] + (digits + rest)) == -Atol(digits) && Atol(['+'] + (digits + rest)) == Atol(digits)
    ensures rest == "" || !(rest[0] in "+- " || 9 <= rest[0] as int <= 13) ==> Atol(rest) == 0
  {
    hide Atol;
    NoDigits(rest);
    if |digits| > 0 {
      SomeDigits(digits, rest);
    }
    Signed(digits, rest);
  }

  lemma SomeDigits(digits: string, rest: string)
    requires |digits| > 0 && forall i | 0 <= i < |digits| :: '0' <= digits[i] <= '9'
    requires rest == "" || !('0' <= rest[0] <= '9')
    ensures Atol(digits + rest) == Atol(digits) == Value(digits)
  {
    PrefixOnly(digits, rest);
    DigitPrefixOfDigits(digits);
    NoSkip(digits);
    NoSkip(digits + rest);
    hide SkipSpace, DigitPrefix, Value;
    assert (digits + rest)[0] == digits[0];
  }

  lemma NoDigits(rest: string)
    requires rest == "" || !('0' <= rest[0] <= '9')
    ensures rest == "" || !(rest[0] in "+- " || 9 <= rest[0] as int <= 13) ==> Atol(rest) == 0
  {
    NoSkip(rest);
    NoValue();
  }

  lemma NoSkip(s: string)
    ensures s == "" || !IsSpace(s[0]) ==> SkipSpace(s) == s
  {
  }

  lemma NoValue()
    ensures Value("") == 0
  {
  }

  lemma Signed(digits: string, rest: string)
    requires forall i | 0 <= i < |digits| :: '0' <= digits[i] <= '9'
    requires rest == "" || !('0' <= rest[0] <= '9')
    ensures Atol(['-'] + (digits + rest)) == -Atol(digits) && Atol(['+'] + (digits + rest)) == Atol(digits)
  {
    NoDigits("");
    if |digits| > 0 {
      SomeDigits(digits, rest);
    } else {
      NoValue();
    }
    PrefixOnly(digits, rest);
    DigitPrefixOfDigits(digits);
    assert (['-'] + (digits + rest))[1..] == digits + rest && (['+'] + (digits + rest))[1..] == digits + rest;
  }

  lemma {:induction false} PrefixOnly(digits: string, rest: string)
    requires forall i | 0 <= i < |digits| :: '0' <= digits[i] <= '9'
    requires rest == "" || !('0' <= rest[0] <= '9')
    ensures DigitPrefix(digits + rest) == digits
  {
    if |digits| > 0 {
      PrefixOnly(digits[1..], rest);
      assert (digits + rest)[1..] == digits[1..] + rest;
    } else {
      assert digits + rest == rest;
    }
  }

  // ---------- reading back ----------

  lemma {:induction false} DigitsAreDigits(n: nat)
    ensures |Digits(n)| >= 1 && AllDigits(Digits(n))
  {
    if n >= 10 {
      DigitsAreDigits(n / 10);
    }
  }

  /** Digits is the positional representation: Value undoes it. */
  lemma {:induction false} ValueOfDigits(n: nat)
    ensures AllDigits(Digits(n)) && Value(Digits(n)) == n
  {
    DigitsAreDigits(n);
    var s := Digits(n);
    if n < 10 {
      assert s[..0] == [];
    } else {
      ValueOfDigits(n / 10);
      assert s[..|s| - 1] == Digits(n / 10);
    }
  }

  lemma {:induction false} DigitPrefixOfDigits(s: string)
    requires AllDigits(s)
    ensures DigitPrefix(s) == s
  {
    if |s| > 0 {
      DigitPrefixOfDigits(s[1..]);
    }
  }

  lemma {:induction false} SkipSpaces(k: nat, s: string)
    requires |s| > 0 ==> !IsSpace(s[0])
    ensures SkipSpace(Spaces(k) + s) == s
  {
    if k == 0 {
      assert Spaces(0) + s == s;
    } else {
      assert (Spaces(k) + s)[1..] == Spaces(k - 1) + s;
      SkipSpaces(k - 1, s);
    }
  }

  lemma AtolOfDigits(n: int)
    ensures Atol(Digits(n)) == n
    ensures |Digits(n)| > 0 && !IsSpace(Digits(n)[0])
  {
    var m := if n < 0 then -n else n;
    ValueOfDigits(m);
    DigitsAreDigits(m);
    DigitPrefixOfDigits(Digits(m));
    assert IsDigit(Digits(m)[0]);
    if n < 0 {
      assert Digits(n)[1..] == Digits(m);
    }
  }

  /** Reading a field just printed gives the number back, whatever the field width. */
  lemma AtolOfPadded(w: nat, n: int)
    ensures Atol(Padded(w, n)) == n
  {
    var d := Digits(n);
    AtolOfDigits(n);
    if |d| < w {
      SkipSpaces(w - |d|, d);
      SkipSpaces(0, d);
      assert Spaces(0) + d == d;
    }
  }

  /** A number fills at most k digits exactly when it is below 10^k. */
  lemma {:induction false} DigitsWidth(n: nat, k: nat)
    requires k >= 1
    ensures |Digits(n)| <= k <==> n < Pow10(k)
  {
    DigitsAreDigits(n);
    if n >= 10 {
      DigitsAreDigits(n / 10);
      if k == 1 {
        assert Pow10(1) == 10 by { assert Pow10(0) == 1; }
      } else {
        DigitsWidth(n / 10, k - 1);
      }
    } else {
      Pow10AtLeast(k);
    }
  }

  lemma {:induction false} Pow10AtLeast(k: nat)
    requires k >= 1
    ensures Pow10(k) >= 10
  {
    if k > 1 {
      Pow10AtLeast(k - 1);
    } else {
      assert Pow10(0) == 1;
    }
  }

  /** A field keeps its width exactly when the number fits in it. */
  lemma PaddedWidth(w: nat, n: nat)
    requires w >= 1
    ensures |Padded(w, n)| == w <==> n < Pow10(w)
  {
    DigitsWidth(n, w);
  }
}
