/** Saudi customer phones: the spellings that are accepted, their one canonical form, and the fragments a search uses. */
module CustomerPhone {
  import opened Foundations
  import opened Numerals
  import opened Texts

  /** Arabic-Indic and extended Arabic-Indic digits become ASCII digits. */
  function AsciiDigit(c: char): char {
    if '\U{0660}' <= c <= '\U{0669}' then DigitOf(c as nat - 0x0660)
    else if '\U{06F0}' <= c <= '\U{06F9}' then DigitOf(c as nat - 0x06F0)
    else c
  }

  predicate IsNoise(c: char) {
    IsSpace(c) || c == '(' || c == ')' || c == '-'
  }

  function Cleaned(value: string): string {
    if value == [] then []
    else
      var c := AsciiDigit(value[|value| - 1]);
      Cleaned(value[..|value| - 1]) + if IsNoise(c) then [] else [c]
  }

  lemma {:induction false} CleanedJoins(a: string, b: string)
    ensures Cleaned(a + b) == Cleaned(a) + Cleaned(b)
  {
    if b == [] {
      assert a + b == a;
    } else {
      assert (a + b)[..|a + b| - 1] == a + b[..|b| - 1];
      CleanedJoins(a, b[..|b| - 1]);
    }
  }

  /** One typed character: white space, brackets and dashes go, and the digits of three scripts become one. */
  lemma CharactersTell(c: char, k: nat)
    requires k < 10
    ensures Cleaned([c]) == if IsSpace(c) || c == '(' || c == ')' || c == '-' then [] else [AsciiDigit(c)]
    ensures c == '0' + k as char || c == '\U{0660}' + k as char || c == '\U{06F0}' + k as char ==>
      Cleaned([c]) == ['0' + k as char]
    ensures c < '\U{0660}' || '\U{0669}' < c < '\U{06F0}' || '\U{06F9}' < c ==> AsciiDigit(c) == c
  {
    assert [c][..0] == [];
    assert Cleaned([c][..0]) == [];
    assert !IsSpace(AsciiDigit(c)) || AsciiDigit(c) == c;
  }

  predicate StartsWith(s: string, prefix: string) {
    |prefix| <= |s| && forall i | 0 <= i < |prefix| :: s[i] == prefix[i]
  }

  function National(cleaned: string): string {
    if StartsWith(cleaned, "+966") then cleaned[4..]
    else if StartsWith(cleaned, "00966") then cleaned[5..]
    else if StartsWith(cleaned, "0") then cleaned[1..]
    else ""
  }

  /** A mobile number 5[013-9] or a fixed number 1[123467], followed by seven digits. */
  predicate NationalShape(n: string) {
    && |n| == 9 && AllDigits(n)
    && ((n[0] == '5' && n[1] != '2') || (n[0] == '1' && n[1] in "123467"))
  }

  /** The numbers of the plan, by their first two digits: nine mobile prefixes and six of fixed lines. */
  lemma NumbersByPrefix(n: string)
    ensures NationalShape(n) <==>
      |n| == 9 && AllDigits(n)
      && n[..2] in ["50", "51", "53", "54", "55", "56", "57", "58", "59", "11", "12", "13", "14", "16", "17"]
  {
    if |n| == 9 { assert n[..2] == [n[0], n[1]]; }
  }

  function Normalize(value: string): Option<string> {
    if |value| > 64 then None
    else
      var n := National(Cleaned(value));
      if NationalShape(n) then Some("+966" + n) else None
  }

  /** The canonical form, as answers demand it. */
  predicate Canonical(s: string) {
    StartsWith(s, "+966") && NationalShape(s[4..])
  }

  predicate Plainly(s: string) {
    forall i | 0 <= i < |s| :: IsDigit(s[i]) || s[i] == '+'
  }

  lemma {:induction false} PlainIsClean(s: string)
    requires Plainly(s)
    ensures Cleaned(s) == s
  {
    if s != [] {
      PlainIsClean(s[..|s| - 1]);
      assert s == s[..|s| - 1] + [s[|s| - 1]];
    }
  }

  predicate Spells(s: string, n: string) {
    s == "+966" + n || s == "00966" + n || s == "0" + n
  }

  /** A text is accepted exactly when, without noise and in ASCII digits, it is one of the three spellings of a number. */
  lemma AcceptedExactlyWhenSpelled(value: string, n: string)
    requires NationalShape(n)
    ensures Normalize(value) == Some("+966" + n) <==> |value| <= 64 && Spells(Cleaned(value), n)
  {
    var c := Cleaned(value);
    if Spells(c, n) {
      NationalOfSpelling(c, n);
    } else if Normalize(value) == Some("+966" + n) {
      assert ("+966" + National(c))[4..] == National(c) && ("+966" + n)[4..] == n;
      SpellingOfNational(c);
    }
  }

  lemma NationalOfSpelling(c: string, n: string)
    requires NationalShape(n) && Spells(c, n)
    ensures National(c) == n
  {
    if c == "0" + n {
      assert c[1] == n[0];
      assert c[1..] == n;
    } else if c == "00966" + n {
      assert c[0] == '0';
      assert c[5..] == n;
    } else {
      assert c[4..] == n;
    }
  }

  lemma SpellingOfNational(c: string)
    requires NationalShape(National(c))
    ensures Spells(c, National(c))
  {
    if StartsWith(c, "+966") {
      assert c == c[..4] + c[4..];
    } else if StartsWith(c, "00966") {
      assert c == c[..5] + c[5..];
    } else {
      assert c == c[..1] + c[1..];
    }
  }

  /** The three spellings of one number normalize alike, and the canonical form normalizes to itself. */
  lemma SpellingsAgree(n: string)
    requires NationalShape(n)
    ensures Normalize("0" + n) == Normalize("+966" + n) == Normalize("00966" + n) == Some("+966" + n)
  {
    PlainIsClean("0" + n);
    PlainIsClean("+966" + n);
    PlainIsClean("00966" + n);
    AcceptedExactlyWhenSpelled("0" + n, n);
    AcceptedExactlyWhenSpelled("+966" + n, n);
    AcceptedExactlyWhenSpelled("00966" + n, n);
  }

  lemma NormalizeIsIdempotent(value: string)
    requires Normalize(value).Some?
    ensures Normalize(Normalize(value).value) == Normalize(value)
  {
    SpellingsAgree(National(Cleaned(value)));
  }

  /** What a request makes of a phone is canonical, and the canonical phones are exactly those it leaves alone. */
  lemma NormalizedIsCanonical(value: string)
    ensures Normalize(value).Some? ==> Canonical(Normalize(value).value)
    ensures Canonical(value) <==> Normalize(value) == Some(value)
  {
    var n := National(Cleaned(value));
    if Normalize(value).Some? { assert ("+966" + n)[4..] == n; }
    if Canonical(value) {
      assert value == "+966" + value[4..];
      SpellingsAgree(value[4..]);
    }
  }

  // --- Searching by a part of a phone ---

  predicate FragmentShape(s: string) {
    var digits := if StartsWith(s, "+") then s[1..] else s;
    |digits| >= 1 && AllDigits(digits)
  }

  function PhoneFragment(value: string): Option<string> {
    if Normalize(value).Some? then Normalize(value)
    else
      var c := Cleaned(value);
      if !FragmentShape(c) then None
      else if StartsWith(c, "00966") then Some("+966" + c[5..])
      else if StartsWith(c, "+966") then Some(c)
      else if StartsWith(c, "0") && |c| > 1 then Some(c[1..])
      else Some(c)
  }

  /** A search looks for a phone exactly when, without noise, there are only digits, perhaps after a plus. */
  lemma SearchesExactlyWhen(value: string)
    requires Normalize(value) == None
    ensures
      var c := Cleaned(value);
      PhoneFragment(value).Some? <==> (c != [] && AllDigits(c)) || (|c| > 1 && c[0] == '+' && AllDigits(c[1..]))
  {
    var c := Cleaned(value);
    if c != [] && c[0] == '+' { assert StartsWith(c, "+") && !AllDigits(c); }
  }

  /** The stored phone contains the fragment, at position `at`. */
  predicate FoundAt(stored: string, fragment: string, at: nat) {
    at + |fragment| <= |stored| && stored[at..at + |fragment|] == fragment
  }

  lemma ShortOfANumber(s: string)
    requires Cleaned(s) == s && |National(s)| < 9
    ensures Normalize(s) == None
  {
  }

  lemma LocalParts(f: string)
    requires 1 <= |f| < 9 && AllDigits(f) && f[0] != '0'
    ensures PhoneFragment("0" + f) == Some(f)
  {
    var s := "0" + f;
    PlainIsClean(s);
    assert s[0] == '0' && s[1] == f[0];
    assert s[1..] == f;
    assert !StartsWith(s, "00966") && !StartsWith(s, "+966") by { assert "00966"[1] == '0' && "+966"[0] == '+'; }
    ShortOfANumber(s);
  }

  lemma InternationalShape(s: string, f: string)
    requires s == "+966" + f && AllDigits(f)
    ensures StartsWith(s, "+966") && StartsWith(s, "+") && FragmentShape(s)
  {
    var digits := s[1..];
    assert digits == "966" + f;
    assert AllDigits("966");
  }

  lemma InternationalParts(f: string)
    requires |f| < 9 && AllDigits(f)
    ensures PhoneFragment("+966" + f) == Some("+966" + f)
  {
    var s := "+966" + f;
    PlainIsClean(s);
    assert s[0] == '+' && s[4..] == f;
    InternationalShape(s, f);
    assert !StartsWith(s, "00966") by { assert "00966"[0] == '0'; }
    ShortOfANumber(s);
  }

  lemma DialledParts(f: string)
    requires |f| < 9 && AllDigits(f)
    ensures PhoneFragment("00966" + f) == Some("+966" + f)
  {
    var s := "00966" + f;
    PlainIsClean(s);
    assert s[5..] == f;
    assert StartsWith(s, "00966") && !StartsWith(s, "+966") && !StartsWith(s, "+") by {
      assert s[0] == '0' && "+966"[0] == '+' && "+"[0] == '+';
    }
    ShortOfANumber(s);
  }

  /**
   While a person types a stored phone in any of the three spellings, the search finds it from the first
   national digit on (and after +966 or 00966, even before it).
   */
  lemma TypingFindsThePhone(n: string, m: nat)
    requires NationalShape(n) && m <= 9
    ensures PhoneFragment("+966" + n[..m]) == PhoneFragment("00966" + n[..m]) == Some("+966" + n[..m])
    ensures FoundAt("+966" + n, "+966" + n[..m], 0)
    ensures m >= 1 ==> PhoneFragment("0" + n[..m]) == Some(if m == 9 then "+966" + n else n[..m])
    ensures FoundAt("+966" + n, n[..m], 4)
  {
    assert ("+966" + n)[..4 + m] == "+966" + n[..m];
    if m == 9 {
      assert n[..m] == n;
      SpellingsAgree(n);
    } else {
      InternationalParts(n[..m]);
      DialledParts(n[..m]);
      if m >= 1 { LocalParts(n[..m]); }
    }
  }

  // --- Exactly which beginnings of a spelling find the phone ---

  predicate Finds(n: string, typed: string) {
    var f := PhoneFragment(typed);
    f.Some? && exists at | 0 <= at <= |n| + 4 :: FoundAt("+966" + n, f.value, at)
  }

  lemma NoZeroNoMatch(stored: string, fragment: string, at: nat)
    requires |fragment| >= 1 && fragment[0] !in stored
    ensures !FoundAt(stored, fragment, at)
  {
    if at + |fragment| <= |stored| {
      assert stored[at..at + |fragment|][0] == stored[at] != fragment[0];
    }
  }

  /** A number without the digit zero: no search for a part that begins with zero can find it. */
  const NO_ZERO: string := "511111111"

  lemma ZeroMisses(typed: string)
    requires PhoneFragment(typed).Some? && PhoneFragment(typed).value != [] && PhoneFragment(typed).value[0] == '0'
    ensures NationalShape(NO_ZERO) && !Finds(NO_ZERO, typed)
  {
    var f := PhoneFragment(typed).value;
    forall at: nat ensures !FoundAt("+966" + NO_ZERO, f, at) {
      NoZeroNoMatch("+966" + NO_ZERO, f, at);
    }
  }

  lemma LoneZero()
    ensures PhoneFragment("0") == Some("0")
  {
    PlainIsClean("0");
    ShortOfANumber("0");
  }

  /** A zero and up to three more digits: too short for the dialling code, so the zero is dropped. */
  lemma ZeroAndFew(f: string)
    requires 1 <= |f| < 4 && AllDigits(f)
    ensures PhoneFragment("0" + f) == Some(f)
  {
    var s := "0" + f;
    PlainIsClean(s);
    assert s[1..] == f && s[0] == '0';
    assert !StartsWith(s, "+966") && !StartsWith(s, "+") by { assert "+966"[0] == '+' && "+"[0] == '+'; }
    ShortOfANumber(s);
  }

  lemma ShortDialledMisses(k: nat)
    requires 1 <= k < 5
    ensures NationalShape(NO_ZERO) && !Finds(NO_ZERO, "00966"[..k])
  {
    if k == 1 {
      LoneZero();
      assert "00966"[..1] == "0";
    } else {
      ZeroAndFew("0966"[..k - 1]);
      assert "00966"[..k] == "0" + "0966"[..k - 1];
    }
    ZeroMisses("00966"[..k]);
  }

  lemma LocalBeginningFinds(n: string, m: nat)
    requires NationalShape(n) && 1 <= m <= 9
    ensures Finds(n, "0" + n[..m])
  {
    TypingFindsThePhone(n, m);
    var f := PhoneFragment("0" + n[..m]).value;
    if m == 9 {
      assert n[..9] == n;
      assert FoundAt("+966" + n, f, 0);
    } else {
      assert FoundAt("+966" + n, f, 4);
    }
  }

  lemma CodeBeginningFinds(n: string, m: nat)
    requires NationalShape(n) && m <= 9
    ensures Finds(n, "00966" + n[..m]) && Finds(n, "+966" + n[..m])
  {
    TypingFindsThePhone(n, m);
    assert FoundAt("+966" + n, "+966" + n[..m], 0);
  }

  ghost predicate AlwaysFound(prefix: string, k: nat)
    requires k <= |prefix| + 9
  {
    forall n | NationalShape(n) :: Finds(n, (prefix + n)[..k])
  }

  /** In the 00966 spelling every phone is found exactly from the fifth character on. */
  lemma DialledFoundExactlyFrom5(k: nat)
    requires 1 <= k <= 14
    ensures AlwaysFound("00966", k) <==> k >= 5
  {
    if k >= 5 {
      forall n | NationalShape(n) ensures Finds(n, ("00966" + n)[..k]) {
        assert ("00966" + n)[..k] == "00966" + n[..k - 5];
        CodeBeginningFinds(n, k - 5);
      }
    } else {
      assert ("00966" + NO_ZERO)[..k] == "00966"[..k];
      ShortDialledMisses(k);
    }
  }

  /** In the local spelling every phone is found exactly from the second character on. */
  lemma LocalFoundExactlyFrom2(k: nat)
    requires 1 <= k <= 10
    ensures AlwaysFound("0", k) <==> k >= 2
  {
    if k >= 2 {
      forall n | NationalShape(n) ensures Finds(n, ("0" + n)[..k]) {
        assert ("0" + n)[..k] == "0" + n[..k - 1];
        LocalBeginningFinds(n, k - 1);
      }
    } else {
      assert ("0" + NO_ZERO)[..1] == "00966"[..1];
      ShortDialledMisses(1);
    }
  }

  lemma PlusAndFew(f: string)
    requires |f| < 3 && AllDigits(f)
    ensures PhoneFragment("+" + f) == if f == "" then None else Some("+" + f)
  {
    var s := "+" + f;
    PlainIsClean(s);
    assert s[0] == '+' && s[1..] == f;
    assert !StartsWith(s, "00966") && !StartsWith(s, "0") && StartsWith(s, "+") by { assert "0"[0] == '0' && "00966"[0] == '0'; }
    ShortOfANumber(s);
  }

  lemma ShortCodeBeginning(n: string, k: nat)
    requires 1 <= k < 4
    ensures ("+966" + n)[..k] == "+" + "966"[..k - 1]
    ensures k >= 2 ==> FoundAt("+966" + n, "+" + "966"[..k - 1], 0)
  {
  }

  lemma ShortCodeFindsExactlyFrom2(n: string, k: nat)
    requires 1 <= k < 4
    ensures Finds(n, ("+966" + n)[..k]) <==> k >= 2
  {
    ShortCodeBeginning(n, k);
    PlusAndFew("966"[..k - 1]);
  }

  /** In the +966 spelling every phone is found exactly from the second character on; a lone plus searches no phone. */
  lemma InternationalFoundExactlyFrom2(k: nat)
    requires 1 <= k <= 13
    ensures AlwaysFound("+966", k) <==> k >= 2
  {
    if k >= 4 {
      forall n | NationalShape(n) ensures Finds(n, ("+966" + n)[..k]) {
        assert ("+966" + n)[..k] == "+966" + n[..k - 4];
        CodeBeginningFinds(n, k - 4);
      }
    } else {
      assert NationalShape(NO_ZERO);
      forall n ensures Finds(n, ("+966" + n)[..k]) <==> k >= 2 {
        ShortCodeFindsExactlyFrom2(n, k);
      }
    }
  }
}
