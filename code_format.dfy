/**
 * The player-code rule that the operator console and the lobby share, and the
 * normalisation both apply to what the user typed before checking it.
 *
 * JavaScript's `trim` and `toUpperCase` are Unicode-aware; this model covers
 * their ASCII behaviour only (the six ASCII white-space characters, and `a`-`z`).
 */
module CodeFormat {

  /** Shortest and longest code the rule admits. */
  const MinCodeLength: nat := 3
  const MaxCodeLength: nat := 16

  /** The characters `trim` strips: ASCII space, tab, line feed, vertical tab, form feed, carriage return. */
  predicate IsSpace(c: char) {
    c == ' ' || c == '\t' || c == '\n' || c == '\U{0B}' || c == '\U{0C}' || c == '\r'
  }

  /** The character class `[A-Z0-9]`. */
  predicate IsCodeChar(c: char) {
    ('A' <= c <= 'Z') || ('0' <= c <= '9')
  }

  predicate IsLower(c: char) {
    'a' <= c <= 'z'
  }

  /** The code rule stated directly: 3 to 16 characters, each an upper-case ASCII letter or a digit. */
  predicate IsValidCode(s: string) {
    MinCodeLength <= |s| <= MaxCodeLength && forall i :: 0 <= i < |s| ==> IsCodeChar(s[i])
  }

  /** No white space at either end. */
  predicate IsTrimmed(s: string) {
    s == [] || (!IsSpace(s[0]) && !IsSpace(s[|s| - 1]))
  }

  // ---------------------------------------------------------------- trim

  /** The index of the first non-space at or after `i`, or `|s|` when there is none. */
  function SkipSpaces(s: string, i: nat): (j: nat)
    requires i <= |s|
    ensures i <= j <= |s|
    ensures j == |s| || !IsSpace(s[j])
    decreases |s| - i
  {
    if i < |s| && IsSpace(s[i]) then SkipSpaces(s, i + 1) else i
  }

  /** Everything `SkipSpaces` skips is white space. */
  lemma {:induction false} SkipSpacesSkipsSpace(s: string, i: nat)
    requires i <= |s|
    ensures forall k :: i <= k < SkipSpaces(s, i) ==> IsSpace(s[k])
    decreases |s| - i
  {
    if i < |s| && IsSpace(s[i]) {
      SkipSpacesSkipsSpace(s, i + 1);
    }
  }

  /** The index just past the last non-space before `j` and not before `lo`, or `lo` when there is none. */
  function SkipSpacesBack(s: string, lo: nat, j: nat): (k: nat)
    requires lo <= j <= |s|
    ensures lo <= k <= j
    ensures k == lo || !IsSpace(s[k - 1])
    decreases j
  {
    if lo < j && IsSpace(s[j - 1]) then SkipSpacesBack(s, lo, j - 1) else j
  }

  /** Everything `SkipSpacesBack` skips is white space. */
  lemma {:induction false} SkipSpacesBackSkipsSpace(s: string, lo: nat, j: nat)
    requires lo <= j <= |s|
    ensures forall m :: SkipSpacesBack(s, lo, j) <= m < j ==> IsSpace(s[m])
    decreases j
  {
    if lo < j && IsSpace(s[j - 1]) {
      SkipSpacesBackSkipsSpace(s, lo, j - 1);
    }
  }

  /** `String.prototype.trim`: the slice of `s` between its leading and its trailing white space. */
  function Trim(s: string): (r: string)
    ensures IsTrimmed(r)
    ensures |r| <= |s|
  {
    var lead := SkipSpaces(s, 0);
    s[lead..SkipSpacesBack(s, lead, |s|)]
  }

  /** `r` sits in `s` at offset `lead`, and every character of `s` outside it is white space. */
  ghost predicate TrimmedAt(s: string, r: string, lead: nat) {
    && lead + |r| <= |s|
    && r == s[lead..lead + |r|]
    && (forall i :: 0 <= i < lead ==> IsSpace(s[i]))
    && (forall i :: lead + |r| <= i < |s| ==> IsSpace(s[i]))
  }

  /** Trimming removes white space only, and only from the two ends. */
  lemma TrimRemovesOnlyOuterSpace(s: string)
    ensures exists lead :: TrimmedAt(s, Trim(s), lead)
  {
    var lead := SkipSpaces(s, 0);
    SkipSpacesSkipsSpace(s, 0);
    SkipSpacesBackSkipsSpace(s, lead, |s|);
    assert TrimmedAt(s, Trim(s), lead);
  }

  /** A string with no white space at either end is its own trim. */
  lemma TrimOfTrimmed(s: string)
    requires IsTrimmed(s)
    ensures Trim(s) == s
  {
  }

  // ---------------------------------------------------------------- upper-case

  /** `toUpperCase` on one ASCII character: `a`-`z` become `A`-`Z`, everything else stays. */
  function UpperChar(c: char): char {
    if IsLower(c) then (c as int - 'a' as int + 'A' as int) as char else c
  }

  /** `String.prototype.toUpperCase`, character by character, on ASCII. */
  function Upper(s: string): (r: string)
    ensures |r| == |s|
  {
    if s == [] then [] else [UpperChar(s[0])] + Upper(s[1..])
  }

  /** Each character of the upper-cased string is the upper-cased character, so none is lower-case. */
  lemma {:induction false} UpperPointwise(s: string)
    ensures forall i :: 0 <= i < |s| ==> Upper(s)[i] == UpperChar(s[i])
    ensures forall i :: 0 <= i < |s| ==> !IsLower(Upper(s)[i])
  {
    if s != [] {
      UpperPointwise(s[1..]);
      assert forall i :: 1 <= i < |s| ==> Upper(s)[i] == Upper(s[1..])[i - 1];
    }
  }

  /** Upper-casing twice is upper-casing once. */
  lemma UpperIdempotent(s: string)
    ensures Upper(Upper(s)) == Upper(s)
  {
    UpperPointwise(s);
    UpperPointwise(Upper(s));
    assert forall i :: 0 <= i < |s| ==> Upper(Upper(s))[i] == Upper(s)[i];
  }

  /** Upper-casing changes no white space and creates none, so it keeps a trimmed string trimmed. */
  lemma UpperKeepsTrimmed(s: string)
    requires IsTrimmed(s)
    ensures IsTrimmed(Upper(s))
  {
    UpperPointwise(s);
  }

  // ---------------------------------------------------------------- normalisation

  /**
   * What both pages do to a typed code before checking it: trim, then upper-case.
   * The result has no white space at either end and no lower-case ASCII letter.
   */
  function NormalizeCode(raw: string): (code: string)
    ensures IsTrimmed(code)
    ensures |code| <= |raw|
    ensures forall i :: 0 <= i < |code| ==> !IsLower(code[i])
  {
    UpperKeepsTrimmed(Trim(raw));
    UpperPointwise(Trim(raw));
    Upper(Trim(raw))
  }

  /** Normalising an already normalised code changes nothing. */
  lemma {:induction false} NormalizeCodeIdempotent(raw: string)
    ensures NormalizeCode(NormalizeCode(raw)) == NormalizeCode(raw)
  {
    var code := NormalizeCode(raw);
    TrimOfTrimmed(code);
    UpperIdempotent(Trim(raw));
  }

  /** A code that already obeys the rule is left as it is by normalisation. */
  lemma ValidCodeIsNormal(code: string)
    requires IsValidCode(code)
    ensures Upper(code) == code
    ensures NormalizeCode(code) == code
  {
    assert IsCodeChar(code[0]) && IsCodeChar(code[|code| - 1]);
    TrimOfTrimmed(code);
    UpperPointwise(code);
    var u := Upper(code);
    forall i | 0 <= i < |code| ensures u[i] == code[i] {
      assert IsCodeChar(code[i]);
    }
  }

  // ---------------------------------------------------------------- the regular expression

  /**
   * The pattern `[A-Z0-9]{lo,hi}$` matched from the current position: the one
   * character class is taken once per step while at most `hi` more may be
   * taken, and the end of input is accepted once at least `lo` have been.
   */
  function RepeatMatches(s: string, lo: nat, hi: nat): bool
    decreases |s|
  {
    if s == [] then lo == 0
    else hi > 0 && IsCodeChar(s[0]) && RepeatMatches(s[1..], if lo == 0 then 0 else lo - 1, hi - 1)
  }

  /** What the repetition accepts: between `lo` and `hi` characters, all from the class. */
  lemma {:induction false} RepeatMatchesIff(s: string, lo: nat, hi: nat)
    ensures RepeatMatches(s, lo, hi) <==> lo <= |s| <= hi && forall i :: 0 <= i < |s| ==> IsCodeChar(s[i])
    decreases |s|
  {
    if s != [] {
      var lo' := if lo == 0 then 0 else lo - 1;
      if hi > 0 {
        RepeatMatchesIff(s[1..], lo', hi - 1);
        assert forall i :: 1 <= i < |s| ==> s[i] == s[1..][i - 1];
      }
    }
  }

  /** `CODE_REGEX.test(code)` for `CODE_REGEX = /^[A-Z0-9]{3,16}$/`: it accepts exactly the codes the rule allows. */
  function CodeRegexTest(code: string): (ok: bool)
    ensures ok <==> IsValidCode(code)
  {
    RepeatMatchesIff(code, MinCodeLength, MaxCodeLength);
    RepeatMatches(code, MinCodeLength, MaxCodeLength)
  }
}
