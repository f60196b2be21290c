/**
  Decimal text: what `%ld` prints and what `atoi` reads back
  (sections 7.21.6.1 and 7.22.1.2 of ISO C11).
 */
module Numbers {

  predicate IsDigit(c: char) {
    '0' <= c <= '9'
  }

  predicate AllDigits(s: string) {
    forall i | 0 <= i < |s| :: IsDigit(s[i])
  }

  function DigitOf(c: char): nat
    requires IsDigit(c)
  {
    c as int - '0' as int
  }

  function Digit(n: nat): (c: char)
    requires n < 10
    ensures IsDigit(c) && DigitOf(c) == n
  {
    ('0' as int + n) as char
  }

  function Decimal(n: nat): (s: string)
    ensures s != "" && AllDigits(s)
  {
    (if n < 10 then "" else Decimal(n / 10)) + [Digit(n % 10)]
  }

  /** `%ld`. */
  function Signed(n: int): (s: string)
    ensures s != "" && (if n < 0 then s[0] == '-' && AllDigits(s[1..]) else AllDigits(s))
  {
    if n < 0 then "-" + Decimal(-n) else Decimal(n)
  }

  /** The number a run of digits denotes. */
  function NumberOf(s: string): nat
    requires AllDigits(s)
  {
    if s == "" then 0 else 10 * NumberOf(s[..|s| - 1]) + DigitOf(s[|s| - 1])
  }

  lemma {:induction false} NumberOfDecimal(n: nat)
    ensures NumberOf(Decimal(n)) == n
    decreases n
  {
    var s := Decimal(n);
    if n < 10 {
      assert s[..0] == "";
    } else {
      assert s[..|s| - 1] == Decimal(n / 10);
      NumberOfDecimal(n / 10);
    }
  }

  lemma SignedInjective(m: int, n: int)
    requires Signed(m) == Signed(n)
    ensures m == n
  {
    assert (m < 0) == (n < 0) by {
      assert !IsDigit('-');
    }
    if m < 0 {
      assert Signed(m)[1..] == Decimal(-m) && Signed(n)[1..] == Decimal(-n);
      NumberOfDecimal(-m);
      NumberOfDecimal(-n);
    } else {
      NumberOfDecimal(m);
      NumberOfDecimal(n);
    }
  }

  predicate IsSpace(c: char) {
    c in {' ', '\t', '\n', '\r', 11 as char, 12 as char}
  }

  function LeadingDigits(s: string): (n: nat)
    ensures n <= |s| && AllDigits(s[..n])
    ensures n < |s| ==> !IsDigit(s[n])
  {
    if s == "" || !IsDigit(s[0]) then 0 else
      var n := LeadingDigits(s[1..]);
      assert forall i | 0 < i <= n :: s[i] == s[1..][..n][i - 1];
      n + 1
  }

  /** `atoi`: leading white space, an optional sign, then digits; anything else ends the number. */
  function Atoi(s: string): int {
    if s == "" then 0
    else if IsSpace(s[0]) then Atoi(s[1..])
    else if s[0] == '-' then -(NumberOf(s[1..][..LeadingDigits(s[1..])]) as int)
    else if s[0] == '+' then NumberOf(s[1..][..LeadingDigits(s[1..])])
    else NumberOf(s[..LeadingDigits(s)])
  }

  lemma {:induction false} LeadingDigitsAll(s: string)
    requires AllDigits(s)
    ensures LeadingDigits(s) == |s|
  {
  }

  lemma {:induction false} AtoiDigits(s: string)
    requires AllDigits(s) && s != ""
    ensures Atoi(s) == NumberOf(s) && Atoi("-" + s) == -(NumberOf(s) as int)
  {
    hide NumberOf;
    assert IsDigit(s[0]) && !IsSpace('-') && ("-" + s)[1..] == s;
    LeadingDigitsAll(s);
    assert s[..|s|] == s;
  }

  lemma AtoiOfSigned(n: int)
    ensures Atoi(Signed(n)) == n
  {
    hide Atoi, Decimal, NumberOf;
    var m := if n < 0 then -n else n;
    AtoiDigits(Decimal(m));
    NumberOfDecimal(m);
  }

  lemma {:induction false} LeadingDigitsAre(digits: string, rest: string)
    requires AllDigits(digits) && (rest != "" ==> !IsDigit(rest[0]))
    ensures LeadingDigits(digits + rest) == |digits|
    decreases |digits|
  {
    var s := digits + rest;
    if digits != "" {
      assert s[1..] == digits[1..] + rest;
      LeadingDigitsAre(digits[1..], rest);
    }
  }

  /** White space in front, one sign, and the digits behind it count; what follows does not. */
  lemma {:induction false} AtoiReads(spaces: string, digits: string, rest: string)
    requires (forall i | 0 <= i < |spaces| :: IsSpace(spaces[i])) && AllDigits(digits) && (rest != "" ==> !IsDigit(rest[0]))
    ensures Atoi(spaces + ("-" + (digits + rest))) == -(NumberOf(digits) as int)
    ensures Atoi(spaces + ("+" + (digits + rest))) == NumberOf(digits)
    ensures digits != "" ==> Atoi(spaces + (digits + rest)) == NumberOf(digits)
    decreases |spaces|
  {
    hide NumberOf;
    if spaces == "" {
      SignedDigits(digits, rest);
      assert "" + ("-" + (digits + rest)) == "-" + (digits + rest) && "" + ("+" + (digits + rest)) == "+" + (digits + rest);
      assert "" + (digits + rest) == digits + rest;
    } else {
      AtoiReads(spaces[1..], digits, rest);
      SpaceFirst(spaces, "-" + (digits + rest));
      SpaceFirst(spaces, "+" + (digits + rest));
      SpaceFirst(spaces, digits + rest);
    }
  }

  lemma {:induction false} SpaceFirst(spaces: string, s: string)
    requires spaces != "" && IsSpace(spaces[0])
    ensures Atoi(spaces + s) == Atoi(spaces[1..] + s)
  {
    assert (spaces + s)[1..] == spaces[1..] + s;
  }

  lemma {:induction false} SignedDigits(digits: string, rest: string)
    requires AllDigits(digits) && (rest != "" ==> !IsDigit(rest[0]))
    ensures Atoi("-" + (digits + rest)) == -(NumberOf(digits) as int) && Atoi("+" + (digits + rest)) == NumberOf(digits)
    ensures digits != "" ==> Atoi(digits + rest) == NumberOf(digits)
  {
    hide NumberOf;
    var s := digits + rest;
    LeadingDigitsAre(digits, rest);
    assert s[..|digits|] == digits && ("-" + s)[1..] == s && ("+" + s)[1..] == s;
    assert digits != "" ==> IsDigit(s[0]);
  }

  // -- How long decimal text can be

  lemma {:induction false} DecimalShort(n: nat, limit: nat, digits: nat)
    requires n < limit && limit == Power(digits) && digits > 0
    ensures |Decimal(n)| <= digits
    decreases digits
  {
    if n >= 10 {
      DecimalShort(n / 10, Power(digits - 1), digits - 1);
    }
  }

  function Power(k: nat): nat {
    if k == 0 then 1 else 10 * Power(k - 1)
  }

  /** A 32-bit `int`. */
  predicate InInt(n: int) {
    -0x8000_0000 <= n < 0x8000_0000
  }

  lemma SignedShort(n: int)
    requires InInt(n)
    ensures |Signed(n)| <= 11
  {
    assert Power(5) == 100_000 && Power(10) == 10_000_000_000;
    DecimalShort(if n < 0 then -n else n, Power(10), 10);
  }
}
