/** Decimal digit strings: reading, printing, and the paddings JavaScript applies to them. */
module Numerals {
  predicate IsDigit(c: char) {
    '0' <= c <= '9'
  }

  predicate AllDigits(s: string) {
    forall i | 0 <= i < |s| :: IsDigit(s[i])
  }

  function DigitOf(n: nat): char
    requires n < 10
  {
    '0' + n as char
  }

  function Val(s: string): nat
    requires AllDigits(s)
  {
    if s == [] then 0 else 10 * Val(s[..|s| - 1]) + (s[|s| - 1] as int - '0' as int)
  }

  /** Number.prototype.toString for a natural number. */
  function Show(n: nat): (s: string)
    ensures AllDigits(s) && |s| >= 1
  {
    if n < 10 then [DigitOf(n)] else Show(n / 10) + [DigitOf(n % 10)]
  }

  function Zeros(n: nat): (s: string)
    ensures |s| == n && forall i | 0 <= i < n :: s[i] == '0'
  {
    seq(n, _ => '0')
  }

  function PadStart(s: string, width: nat): string {
    if |s| >= width then s else Zeros(width - |s|) + s
  }

  function PadEnd(s: string, width: nat): string {
    if |s| >= width then s else s + Zeros(width - |s|)
  }

  /** Drops leading zeros but keeps the last digit. */
  function StripLeading(s: string): string {
    if |s| > 1 && s[0] == '0' then StripLeading(s[1..]) else s
  }

  /** Drops every trailing zero. */
  function StripTrailing(s: string): string {
    if s != [] && s[|s| - 1] == '0' then StripTrailing(s[..|s| - 1]) else s
  }

  /** A numeral as toString prints it. */
  predicate Plain(s: string) {
    AllDigits(s) && |s| >= 1 && (|s| == 1 || s[0] != '0')
  }

  lemma {:induction false} ValOfShow(n: nat)
    ensures Val(Show(n)) == n
    ensures Plain(Show(n)) && (Show(n)[0] == '0' <==> n == 0)
  {
    if n >= 10 {
      ValOfShow(n / 10);
      assert Show(n)[..|Show(n)| - 1] == Show(n / 10);
    }
  }

  lemma {:induction false} LeadingDigitCounts(s: string)
    requires AllDigits(s) && |s| >= 1 && s[0] != '0'
    ensures Val(s) >= 1
  {
    if |s| > 1 {
      LeadingDigitCounts(s[..|s| - 1]);
    }
  }

  lemma {:induction false} ShowOfVal(s: string)
    requires Plain(s)
    ensures Show(Val(s)) == s
  {
    var front := s[..|s| - 1];
    if |s| > 1 {
      LeadingDigitCounts(front);
      ShowOfVal(front);
      assert Val(s) / 10 == Val(front);
      assert s == front + [s[|s| - 1]];
    }
  }

  lemma {:induction false} LeadingZeroIsSilent(s: string)
    requires AllDigits(s) && |s| >= 1 && s[0] == '0'
    ensures Val(s) == Val(s[1..])
  {
    if |s| > 1 {
      var front := s[..|s| - 1];
      LeadingZeroIsSilent(front);
      assert s[1..][..|s| - 2] == front[1..];
    }
  }

  lemma {:induction false} StripLeadingIsPlain(s: string)
    requires AllDigits(s) && |s| >= 1
    ensures Plain(StripLeading(s)) && Val(StripLeading(s)) == Val(s) && |StripLeading(s)| <= |s|
    ensures PadStart(StripLeading(s), |s|) == s
  {
    if |s| > 1 && s[0] == '0' {
      LeadingZeroIsSilent(s);
      StripLeadingIsPlain(s[1..]);
      var stripped := StripLeading(s[1..]);
      assert s == ['0'] + s[1..];
      assert Zeros(|s| - |stripped|) == ['0'] + Zeros(|s| - 1 - |stripped|);
    }
  }

  /** Fixed-width numerals survive reading and printing. */
  lemma PadShowVal(s: string)
    requires AllDigits(s) && |s| >= 1
    ensures PadStart(Show(Val(s)), |s|) == s
  {
    StripLeadingIsPlain(s);
    ShowOfVal(StripLeading(s));
  }

  lemma {:induction false} ValOfZeros(k: nat, s: string)
    requires AllDigits(s)
    ensures AllDigits(Zeros(k) + s) && Val(Zeros(k) + s) == Val(s)
  {
    var padded := Zeros(k) + s;
    if k > 0 {
      LeadingZeroIsSilent(padded);
      assert padded[1..] == Zeros(k - 1) + s;
      ValOfZeros(k - 1, s);
    } else {
      assert padded == s;
    }
  }

  lemma ValOfPadded(s: string, width: nat)
    requires AllDigits(s)
    ensures AllDigits(PadStart(s, width)) && Val(PadStart(s, width)) == Val(s)
  {
    if |s| < width { ValOfZeros(width - |s|, s); }
  }

  lemma {:induction false} ShowWidth(n: nat, width: nat)
    requires width >= 1 && n < Bound(width)
    ensures |Show(n)| <= width
  {
    if n >= 10 {
      assert width > 1 by { assert Bound(1) == 10; }
      ShowWidth(n / 10, width - 1);
    }
  }

  /** A number printed at a fixed width is read back. */
  lemma PaddedNumeral(n: nat, width: nat)
    requires width >= 1 && n < Bound(width)
    ensures |PadStart(Show(n), width)| == width
    ensures AllDigits(PadStart(Show(n), width)) && Val(PadStart(Show(n), width)) == n
  {
    ShowWidth(n, width);
    ValOfShow(n);
    ValOfPadded(Show(n), width);
  }

  function Bound(width: nat): nat {
    if width == 0 then 1 else 10 * Bound(width - 1)
  }

  lemma {:induction false} ValBelow(s: string)
    requires AllDigits(s)
    ensures Val(s) < Bound(|s|)
  {
    if s != [] { ValBelow(s[..|s| - 1]); }
  }
}
