/**
 The checks on texts that requests and answers share. A char stands for one unit of a
 JavaScript string, so lengths are counted as the schemas count them.
 */
module Texts {
  import opened Foundations

  /** The characters String.prototype.trim removes (white space and line ends, section 12 of ECMA-262). */
  predicate IsSpace(c: char) {
    || c == ' ' || '\t' <= c <= '\r' || c == '\U{00A0}' || c == '\U{1680}' || '\U{2000}' <= c <= '\U{200A}'
    || '\U{2028}' <= c <= '\U{2029}' || c == '\U{202F}' || c == '\U{205F}' || c == '\U{3000}' || c == '\U{FEFF}'
  }

  predicate IsBlank(s: string) {
    forall i | 0 <= i < |s| :: IsSpace(s[i])
  }

  predicate HasNull(s: string) {
    '\0' in s
  }

  function TrimStart(s: string): (t: string)
    ensures |t| <= |s| && t == s[|s| - |t|..] && (t == [] || !IsSpace(t[0]))
  {
    if s == [] || !IsSpace(s[0]) then s else TrimStart(s[1..])
  }

  function TrimEnd(s: string): (t: string)
    ensures t <= s && (t == [] || !IsSpace(t[|t| - 1]))
  {
    if s == [] || !IsSpace(s[|s| - 1]) then s else TrimEnd(s[..|s| - 1])
  }

  /** String.prototype.trim. */
  function Trim(s: string): string {
    TrimEnd(TrimStart(s))
  }

  predicate NoSpaceAtEnds(s: string) {
    s == [] || (!IsSpace(s[0]) && !IsSpace(s[|s| - 1]))
  }

  /** Trimming leaves no white space at either end, and leaves such a text alone. */
  lemma TrimmedIsFixed(s: string)
    ensures NoSpaceAtEnds(Trim(s))
    ensures Trim(s) == s <==> NoSpaceAtEnds(s)
    ensures Trim(Trim(s)) == Trim(s)
  {
  }

  lemma BlankTail(s: string)
    requires s != [] && IsSpace(s[0])
    ensures IsBlank(s) <==> IsBlank(s[1..])
  {
    if IsBlank(s) {
      forall i | 0 <= i < |s| - 1 ensures IsSpace(s[1..][i]) { assert s[1..][i] == s[i + 1]; }
    } else if IsBlank(s[1..]) {
      forall i | 0 <= i < |s| ensures IsSpace(s[i]) {
        if i > 0 { assert s[i] == s[1..][i - 1]; }
      }
    }
  }

  lemma {:induction false} BlankHasNoStart(s: string)
    ensures TrimStart(s) == [] <==> IsBlank(s)
  {
    if s != [] && IsSpace(s[0]) {
      BlankHasNoStart(s[1..]);
      BlankTail(s);
    }
  }

  lemma {:induction false} StartsWithLetter(s: string)
    requires s != [] && !IsSpace(s[0])
    ensures TrimEnd(s) != []
  {
    if IsSpace(s[|s| - 1]) { StartsWithLetter(s[..|s| - 1]); }
  }

  /** A text is trimmed to nothing exactly when it is blank. */
  lemma BlankIsTrimmedAway(s: string)
    ensures Trim(s) == [] <==> IsBlank(s)
  {
    BlankHasNoStart(s);
    if TrimStart(s) != [] { StartsWithLetter(TrimStart(s)); }
  }

  // --- The schemas ---

  /** nonEmptyBoundedString. */
  predicate NonEmptyBounded(s: string, maximum: nat) {
    1 <= |s| <= maximum && !IsBlank(s) && !HasNull(s)
  }

  /** The name of a customer: trimmed, then bounded. */
  function ParseName(s: string): Option<string> {
    if NonEmptyBounded(Trim(s), 150) then Some(Trim(s)) else None
  }

  /** An optional text of a customer: trimmed and bounded; an empty one is stored as null. */
  function ParseNote(s: string, maximum: nat): Option<Option<string>> {
    if |Trim(s)| > maximum || HasNull(Trim(s)) then None
    else Some(if Trim(s) == [] then None else Some(Trim(s)))
  }

  function NullIfBlank(s: string): Option<string> {
    if IsBlank(s) then None else Some(s)
  }

  /** A captured text of a draft: bounded, never trimmed; a blank one is stored as null. */
  function ParseCapture(s: string, maximum: nat): Option<Option<string>> {
    if |s| > maximum || HasNull(s) then None
    else Some(NullIfBlank(s))
  }

  // --- What the schemas accept ---

  lemma {:induction false} LeadingSpaceIsDropped(a: string, t: string)
    requires IsBlank(a) && (t == [] || !IsSpace(t[0]))
    ensures TrimStart(a + t) == t
  {
    if a == [] {
      assert a + t == t;
    } else {
      assert (a + t)[1..] == a[1..] + t;
      BlankTail(a);
      LeadingSpaceIsDropped(a[1..], t);
    }
  }

  lemma {:induction false} TrailingSpaceIsDropped(t: string, b: string)
    requires IsBlank(b) && (t == [] || !IsSpace(t[|t| - 1]))
    ensures TrimEnd(t + b) == t
  {
    if b == [] {
      assert t + b == t;
    } else {
      assert (t + b)[..|t + b| - 1] == t + b[..|b| - 1];
      TrailingSpaceIsDropped(t, b[..|b| - 1]);
    }
  }

  /** White space around a text is dropped, and nothing else. */
  lemma TrimKeepsTheCore(a: string, t: string, b: string)
    requires IsBlank(a) && IsBlank(b) && t != [] && NoSpaceAtEnds(t)
    ensures Trim(a + t + b) == t
  {
    assert a + t + b == a + (t + b);
    LeadingSpaceIsDropped(a, t + b);
    TrailingSpaceIsDropped(t, b);
  }

  lemma CoreIsNotBlank(t: string)
    requires t != [] && NoSpaceAtEnds(t)
    ensures !IsBlank(t)
  {
    assert !IsSpace(t[0]);
  }

  /** A name is accepted exactly when, without the white space around it, it has at most 150 units and no null. */
  lemma NameTells(s: string, a: string, t: string, b: string)
    requires s == a + t + b && IsBlank(a) && IsBlank(b) && t != [] && NoSpaceAtEnds(t)
    ensures ParseName(s) == if |t| <= 150 && '\0' !in t then Some(t) else None
  {
    TrimKeepsTheCore(a, t, b);
    CoreIsNotBlank(t);
    assert Trim(s) == t;
  }

  /** So is an optional text, up to its own maximum. */
  lemma NoteTells(s: string, a: string, t: string, b: string, maximum: nat)
    requires s == a + t + b && IsBlank(a) && IsBlank(b) && t != [] && NoSpaceAtEnds(t)
    ensures ParseNote(s, maximum) == if |t| <= maximum && '\0' !in t then Some(Some(t)) else None
  {
    TrimKeepsTheCore(a, t, b);
    assert Trim(s) == t;
  }

  /** A blank text is no name, and as an optional text it is null. */
  lemma BlankTells(s: string, maximum: nat)
    requires IsBlank(s)
    ensures ParseName(s) == None && ParseNote(s, maximum) == Some(None)
  {
    BlankIsTrimmedAway(s);
  }

  /** A captured text keeps its white space, which counts towards its length. */
  lemma CaptureTells(a: string, t: string, b: string, maximum: nat)
    requires IsBlank(a) && IsBlank(b) && t != [] && NoSpaceAtEnds(t)
    ensures
      var whole := a + t + b;
      ParseCapture(whole, maximum) == if |a| + |t| + |b| <= maximum && '\0' !in whole then Some(Some(whole)) else None
    ensures ParseCapture(a, maximum) == if |a| <= maximum && '\0' !in a then Some(None) else None
  {
    var whole := a + t + b;
    assert whole[|a|] == t[0] && !IsSpace(t[0]);
  }

  /** What a request schema hands over, the same schema of an answer accepts and hands over again. */
  lemma NameIsFixed(s: string)
    requires ParseName(s).Some?
    ensures ParseName(ParseName(s).value) == ParseName(s)
  {
    TrimmedIsFixed(s);
  }

  lemma NoteIsFixed(s: string, maximum: nat)
    requires ParseNote(s, maximum).Some? && ParseNote(s, maximum).value.Some?
    ensures ParseNote(ParseNote(s, maximum).value.value, maximum) == ParseNote(s, maximum)
  {
    TrimmedIsFixed(s);
  }

  lemma CaptureIsFixed(s: string, maximum: nat)
    requires ParseCapture(s, maximum).Some? && ParseCapture(s, maximum).value.Some?
    ensures ParseCapture(ParseCapture(s, maximum).value.value, maximum) == ParseCapture(s, maximum)
  {
  }
}
