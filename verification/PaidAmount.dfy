/**
 The paid amount of a draft: the entry a person types, its normal form, the cents
 stored in a DECIMAL(11,2) column, and the text the saved image shows.
 */
module PaidAmount {
  import opened Foundations
  import opened Numerals
  import opened Texts

  datatype Entry = Blank | Amount(text: string) | Refused

  function PointAt(s: string): (k: nat)
    ensures k <= |s| && (k < |s| ==> s[k] == '.') && (forall i | 0 <= i < k :: s[i] != '.')
  {
    if s == [] || s[0] == '.' then 0 else 1 + PointAt(s[1..])
  }

  /** The part before the first point, and the part after it. */
  function Integer(s: string): string {
    s[..PointAt(s)]
  }

  function Fraction(s: string): string {
    if PointAt(s) == |s| then "" else s[PointAt(s) + 1..]
  }

  predicate HasPoint(s: string) {
    PointAt(s) < |s|
  }

  /** The pattern of an entry: one to nine digits, and perhaps a point and one or two digits. */
  predicate EntryShape(s: string) {
    && 1 <= |Integer(s)| <= 9 && AllDigits(Integer(s))
    && AllDigits(Fraction(s)) && (HasPoint(s) ==> 1 <= |Fraction(s)| <= 2)
  }

  function ParseEntry(value: string): (e: Entry)
    ensures e.Amount? ==> EntryShape(value) && Normal(e.text)
  {
    if IsBlank(value) then Blank
    else if !EntryShape(value) then Refused
    else
      StripLeadingIsPlain(Integer(value));
      SplitJoined(StripLeading(Integer(value)), PadEnd2(Fraction(value)));
      Amount(StripLeading(Integer(value)) + "." + PadEnd(Fraction(value), 2))
  }

  /** The value of an entry or of a normal form, in cents. */
  function CentsOf(s: string): nat
    requires EntryShape(s)
  {
    100 * Val(Integer(s)) + Val(PadEnd2(Fraction(s)))
  }

  function PadEnd2(s: string): (r: string)
    ensures AllDigits(s) ==> AllDigits(r)
  {
    PadEnd(s, 2)
  }

  /** The form the schema hands on: no redundant leading zero, exactly two decimals. */
  predicate Normal(s: string) {
    EntryShape(s) && Plain(Integer(s)) && |Fraction(s)| == 2
  }

  lemma SplitJoined(i: string, f: string)
    requires AllDigits(i)
    ensures Integer(i + "." + f) == i && Fraction(i + "." + f) == f && HasPoint(i + "." + f)
  {
    var s := i + "." + f;
    assert s[|i|] == '.';
    assert PointAt(s) == |i|;
  }

  lemma DigitIsNotSpace(s: string)
    requires |s| >= 1 && IsDigit(s[0])
    ensures !IsBlank(s)
  {
    assert !IsSpace(s[0]);
  }

  /** Normalizing an accepted entry keeps its value. */
  lemma NormalizationKeepsValue(s: string)
    requires ParseEntry(s).Amount?
    ensures CentsOf(ParseEntry(s).text) == CentsOf(s)
  {
    StripLeadingIsPlain(Integer(s));
    SplitJoined(StripLeading(Integer(s)), PadEnd2(Fraction(s)));
  }

  lemma NormalFormIsFixed(s: string)
    requires Normal(s)
    ensures ParseEntry(s) == Amount(s)
  {
    assert s[0] == Integer(s)[0];
    DigitIsNotSpace(s);
    assert s == Integer(s) + "." + Fraction(s);
  }

  // --- Which entries are accepted, and what they are worth ---

  /** The pattern of the schema, split at k: one to nine digits, and perhaps a point and one or two digits. */
  predicate Decimal(s: string, k: nat) {
    && 1 <= k <= 9 && k <= |s| && AllDigits(s[..k])
    && (k < |s| ==> s[k] == '.' && k + 2 <= |s| <= k + 3 && AllDigits(s[k + 1..]))
  }

  lemma DecimalSplits(s: string, k: nat)
    requires Decimal(s, k)
    ensures PointAt(s) == k && EntryShape(s)
  {
    assert forall i | 0 <= i < k :: s[i] == s[..k][i];
  }

  /** An entry is blank, or accepted exactly by the pattern, or refused. */
  lemma EntryAcceptedExactly(s: string)
    ensures ParseEntry(s).Blank? <==> IsBlank(s)
    ensures ParseEntry(s).Amount? <==> exists k: nat :: Decimal(s, k)
  {
    if ParseEntry(s).Amount? {
      assert Decimal(s, PointAt(s));
    } else if k: nat :| Decimal(s, k) {
      DecimalSplits(s, k);
      assert s[0] == s[..k][0];
      DigitIsNotSpace(s);
    }
  }

  /** An accepted entry is worth its whole units and its hundredths, a single decimal counting tenths. */
  lemma EntryIsWorth(s: string, k: nat)
    requires Decimal(s, k)
    ensures ParseEntry(s).Amount?
    ensures CentsOf(ParseEntry(s).text) == 100 * Val(s[..k])
      + if k == |s| then 0 else if |s| == k + 2 then 10 * Val(s[k + 1..]) else Val(s[k + 1..])
  {
    DecimalSplits(s, k);
    EntryAcceptedExactly(s);
    NormalizationKeepsValue(s);
    var f := Fraction(s);
    if k == |s| {
      assert PadEnd2(f) == "00" && "00"[..1] == "0" && "0"[..0] == "";
    } else if |s| == k + 2 {
      assert PadEnd2(f)[..1] == f && PadEnd2(f)[1] == '0';
    }
  }

  // --- Reading the stored decimal back ---

  /** The pattern of a decimal text: no redundant leading zero, and a fraction only after a point. */
  predicate DecimalShape(s: string) {
    Plain(Integer(s)) && AllDigits(Fraction(s)) && (HasPoint(s) ==> Fraction(s) != "")
  }

  /**
   The texts a driver may hand for a stored number of cents: its whole units, and its
   two decimals with trailing zeros dropped or added.
   */
  predicate Prints(raw: string, cents: nat) {
    && Integer(raw) == Show(cents / 100)
    && AllDigits(Fraction(raw)) && (HasPoint(raw) ==> Fraction(raw) != "")
    && StripTrailing(Fraction(raw)) == StripTrailing(TwoDigits(cents % 100))
  }

  /** The text decimal.js prints: trailing zeros dropped. */
  function DriverText(cents: nat): string {
    Joined(Show(cents / 100), StripTrailing(TwoDigits(cents % 100)))
  }

  lemma {:induction false} StrippedTwice(f: string)
    ensures StripTrailing(StripTrailing(f)) == StripTrailing(f)
  {
    if f != "" && f[|f| - 1] == '0' { StrippedTwice(f[..|f| - 1]); }
  }

  lemma DriverTextPrints(cents: nat)
    ensures Prints(DriverText(cents), cents)
  {
    var two := TwoDigits(cents % 100);
    SplitOfJoined(Show(cents / 100), StripTrailing(two));
    StrippedTwice(two);
    StrippedDigits(two);
  }

  function TwoDigits(n: nat): (s: string)
    requires n < 100
    ensures AllDigits(s) && |s| == 2 && Val(s) == n
  {
    assert [DigitOf(n / 10), DigitOf(n % 10)][..1] == [DigitOf(n / 10)];
    assert Val([DigitOf(n / 10)]) == n / 10;
    [DigitOf(n / 10), DigitOf(n % 10)]
  }

  function Joined(i: string, f: string): string {
    if f == "" then i else i + "." + f
  }

  /** canonicalDecimal, with its sign branch. */
  function CanonicalDecimal(raw: string): Option<string> {
    var negative := |raw| > 0 && raw[0] == '-';
    var unsigned := if negative then raw[1..] else raw;
    if !DecimalShape(unsigned) then None
    else
      var fraction := StripTrailing(Fraction(unsigned));
      var zero := StripTrailing(Integer(unsigned)) == "" && fraction == "";
      Some(if negative && !zero then "-" + Joined(Integer(unsigned), fraction) else Joined(Integer(unsigned), fraction))
  }

  /** mapPaidCapture; None stands for the internal error. */
  function MapPaidCapture(raw: string): Option<string> {
    match CanonicalDecimal(raw)
    case None => None
    case Some(text) =>
      if !(DecimalShape(text) && |Fraction(text)| <= 2) then None
      else Some(Integer(text) + "." + PadEnd2(Fraction(text)))
  }

  lemma TrailingTwo(f: string)
    requires AllDigits(f) && |f| == 2
    ensures PadEnd2(StripTrailing(f)) == f && AllDigits(StripTrailing(f)) && |StripTrailing(f)| <= 2
  {
    assert f[..1][..0] == "";
    if f[1] == '0' {
      assert StripTrailing(f) == StripTrailing(f[..1]);
      if f[0] == '0' {
        assert StripTrailing(f[..1]) == StripTrailing(f[..1][..0]) == "";
        assert f == Zeros(2);
      } else {
        assert StripTrailing(f[..1]) == f[..1];
        assert f == f[..1] + Zeros(1);
      }
    }
  }

  lemma SplitWhole(i: string)
    requires AllDigits(i)
    ensures Integer(i) == i && Fraction(i) == "" && !HasPoint(i)
  {
    var k := PointAt(i);
    assert k == |i|;
  }

  lemma SplitOfJoined(i: string, f: string)
    requires AllDigits(i)
    ensures Integer(Joined(i, f)) == i && Fraction(Joined(i, f)) == f && (HasPoint(Joined(i, f)) <==> f != "")
  {
    if f == "" { SplitWhole(i); } else { SplitJoined(i, f); }
  }

  lemma {:induction false} StrippedDigits(f: string)
    requires AllDigits(f)
    ensures AllDigits(StripTrailing(f))
  {
    if f != "" && f[|f| - 1] == '0' { StrippedDigits(f[..|f| - 1]); }
  }

  lemma CanonicalText(raw: string)
    requires DecimalShape(raw)
    ensures CanonicalDecimal(raw) == Some(Joined(Integer(raw), StripTrailing(Fraction(raw))))
  {
    assert raw[0] == Integer(raw)[0] && IsDigit(raw[0]);
  }

  lemma MapOfDecimal(raw: string)
    requires DecimalShape(raw) && |StripTrailing(Fraction(raw))| <= 2
    ensures MapPaidCapture(raw) == Some(Integer(raw) + "." + PadEnd2(StripTrailing(Fraction(raw))))
  {
    CanonicalText(raw);
    StrippedDigits(Fraction(raw));
    SplitOfJoined(Integer(raw), StripTrailing(Fraction(raw)));
  }

  lemma {:induction false} StrippedToTwo(f: string)
    ensures |StripTrailing(f)| <= 2 <==> forall i | 2 <= i < |f| :: f[i] == '0'
  {
    if |f| > 2 {
      var front := f[..|f| - 1];
      StrippedToTwo(front);
      if f[|f| - 1] == '0' {
        assert forall i | 2 <= i < |f| - 1 :: front[i] == f[i];
      }
    } else {
      StripsNoMore(f);
    }
  }

  lemma {:induction false} StripsNoMore(f: string)
    ensures |StripTrailing(f)| <= |f|
  {
    if f != "" && f[|f| - 1] == '0' { StripsNoMore(f[..|f| - 1]); }
  }

  /** A plain decimal text, split at k, whose decimals from the third on are zeros. */
  predicate ToTheCent(s: string, k: nat) {
    && 1 <= k <= |s| && AllDigits(s[..k]) && (k == 1 || s[0] != '0')
    && (k < |s| ==> s[k] == '.' && k + 2 <= |s| && AllDigits(s[k + 1..]) && forall i | k + 3 <= i < |s| :: s[i] == '0')
  }

  /** An unsigned stored text is shown exactly when it is a plain decimal to the cent. */
  lemma ShownExactly(raw: string)
    requires raw != "" ==> raw[0] != '-'
    ensures MapPaidCapture(raw).Some? <==> exists k: nat :: ToTheCent(raw, k)
  {
    var f := Fraction(raw);
    StrippedToTwo(f);
    if MapPaidCapture(raw).Some? {
      CanonicalText(raw);
      StrippedDigits(f);
      SplitOfJoined(Integer(raw), StripTrailing(f));
      var k := PointAt(raw);
      assert forall i | k + 3 <= i < |raw| :: raw[i] == f[i - k - 1];
      assert ToTheCent(raw, k);
    } else if k: nat :| ToTheCent(raw, k) {
      assert forall i | 0 <= i < k :: raw[i] == raw[..k][i];
      assert PointAt(raw) == k;
      MapOfDecimal(raw);
    }
  }

  /** A negative amount is never shown, except that negative zero is zero. */
  lemma NegativeIsRefused(raw: string)
    requires DecimalShape(raw)
    ensures MapPaidCapture("-" + raw) ==
      if StripTrailing(Integer(raw)) == "" && StripTrailing(Fraction(raw)) == "" then MapPaidCapture(raw) else None
  {
    var signed := "-" + raw;
    assert signed[0] == '-' && signed[1..] == raw;
    CanonicalText(raw);
    var shown := Joined(Integer(raw), StripTrailing(Fraction(raw)));
    assert ("-" + shown)[0] == '-';
    if ("-" + shown) != "" { assert Integer("-" + shown) == "" || Integer("-" + shown)[0] == '-'; }
  }

  /** Whatever text the driver hands for the stored cents, the image shows the two-decimal normal form. */
  lemma StoredCentsShowNormalForm(raw: string, cents: nat)
    requires Prints(raw, cents)
    ensures MapPaidCapture(raw) == Some(Show(cents / 100) + "." + TwoDigits(cents % 100))
  {
    ValOfShow(cents / 100);
    TrailingTwo(TwoDigits(cents % 100));
    MapOfDecimal(raw);
  }

  lemma TwoDigitsAreTheirValue(f: string)
    requires AllDigits(f) && |f| == 2
    ensures Val(f) < 100 && TwoDigits(Val(f)) == f
  {
    assert f[..1] == [f[0]] && f[..1][..0] == "";
    assert Val(f[..1]) == f[0] as int - '0' as int;
    assert Val(f) == 10 * Val(f[..1]) + (f[1] as int - '0' as int);
  }

  lemma HundredsSplit(a: nat, b: nat)
    requires b < 100
    ensures (100 * a + b) / 100 == a && (100 * a + b) % 100 == b
  {
  }

  lemma NormalFormIsItsCents(s: string)
    requires Normal(s)
    ensures s == Show(CentsOf(s) / 100) + "." + TwoDigits(CentsOf(s) % 100)
  {
    ShowOfVal(Integer(s));
    TwoDigitsAreTheirValue(Fraction(s));
    HundredsSplit(Val(Integer(s)), Val(Fraction(s)));
    assert s == Integer(s) + "." + Fraction(s);
  }

  /** Save then read back: an accepted entry is shown as its normal form, to the cent. */
  lemma PaidEntryReadsBack(entry: string, raw: string)
    requires ParseEntry(entry).Amount? && Prints(raw, CentsOf(ParseEntry(entry).text))
    ensures MapPaidCapture(raw) == Some(ParseEntry(entry).text)
    ensures ParseEntry(ParseEntry(entry).text) == ParseEntry(entry)
  {
    NormalFormIsFixed(ParseEntry(entry).text);
    NormalFormIsItsCents(ParseEntry(entry).text);
    StoredCentsShowNormalForm(raw, CentsOf(ParseEntry(entry).text));
  }
}
