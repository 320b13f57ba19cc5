/** The string helpers of `UntilityFunctions.ts`: the client-side email check,
    `capitalize`, and the character-class tests. Each regular expression is
    written out as the set of strings it accepts. */
module Utilities {
  import opened Types
  import opened Strings
  import MockApi

  // ---------------------------------------------------------------------------
  // validateEmail

  /** `\w`: an ASCII letter, a digit or `_`. */
  predicate IsWordChar(c: char) {
    IsAsciiUpper(c) || IsAsciiLower(c) || IsDigit(c) || c == '_'
  }

  /** `[\.+-]`. */
  predicate IsJoiner(c: char) {
    c == '.' || c == '+' || c == '-'
  }

  /** `\w+([\.+-]?\w+)*` matches s[lo..hi]: word characters with single
      joiners between them and a word character at each end. */
  predicate JoinedWordsIn(s: string, lo: int, hi: int)
    requires 0 <= lo <= hi <= |s|
  {
    lo < hi && IsWordChar(s[lo]) && IsWordChar(s[hi - 1]) &&
    (forall k :: lo <= k < hi ==> IsWordChar(s[k]) || IsJoiner(s[k])) &&
    (forall k :: lo <= k < hi - 1 ==> !(IsJoiner(s[k]) && IsJoiner(s[k + 1])))
  }

  predicate WordCharsIn(s: string, lo: int, hi: int)
    requires 0 <= lo <= hi <= |s|
  {
    forall k :: lo <= k < hi ==> IsWordChar(s[k])
  }

  /** `(\.\w{2,3})+` matches s[lo..]: one or more dot-suffixes of two or three
      word characters. */
  predicate SuffixesFrom(s: string, lo: int)
    requires 0 <= lo <= |s|
    decreases |s| - lo
  {
    |s| - lo >= 3 && s[lo] == '.' &&
    ((WordCharsIn(s, lo + 1, lo + 3) && (lo + 3 == |s| || SuffixesFrom(s, lo + 3))) ||
     (|s| - lo >= 4 && WordCharsIn(s, lo + 1, lo + 4) && (lo + 4 == |s| || SuffixesFrom(s, lo + 4))))
  }

  /** `/^\w+([\.+-]?\w+)*@\w+([\.+-]?\w+)*(\.\w{2,3})+$/.test(s)`: a local part
      before the `@`, then joined words and the dot-suffixes from position dot. */
  predicate MatchesEmailPattern(s: string) {
    exists at, dot | 0 < at < dot < |s| :: PatternSplit(s, at, dot)
  }

  /** The pattern matches s with the `@` at position at and the first
      dot-suffix starting at position dot. */
  predicate PatternSplit(s: string, at: int, dot: int) {
    0 < at < dot < |s| &&
    s[at] == '@' && JoinedWordsIn(s, 0, at) && JoinedWordsIn(s, at + 1, dot) && SuffixesFrom(s, dot)
  }

  /** `validateEmail(email)`: false when blank, otherwise the pattern applied to
      the trimmed string. */
  predicate ValidateEmail(email: string) {
    var t := Trim(email);
    |t| > 0 && MatchesEmailPattern(t)
  }

  /** Blank input is never a valid email. */
  lemma BlankEmailInvalid(email: string)
    requires forall k :: 0 <= k < |email| ==> IsJsWhitespace(email[k])
    ensures !ValidateEmail(email)
  {
    TrimEmptyIffBlank(email);
  }

  /** The dot-suffixes hold only word characters and dots and end in a word character. */
  lemma {:induction false} SuffixesChars(s: string, lo: int)
    requires 0 <= lo <= |s| && SuffixesFrom(s, lo)
    ensures forall k :: lo <= k < |s| ==> IsWordChar(s[k]) || s[k] == '.'
    ensures IsWordChar(s[|s| - 1])
    decreases |s| - lo
  {
    if WordCharsIn(s, lo + 1, lo + 3) && (lo + 3 == |s| || SuffixesFrom(s, lo + 3)) {
      if lo + 3 < |s| {
        SuffixesChars(s, lo + 3);
      }
    } else {
      if lo + 4 < |s| {
        SuffixesChars(s, lo + 4);
      }
    }
  }

  lemma WordAndJoinerAreEmailChars(c: char)
    requires IsWordChar(c) || IsJoiner(c)
    ensures MockApi.EmailChar(c)
  {
  }

  /** Every string the form's pattern accepts also passes the checkout
      endpoint's looser pattern `^[^\s@]+@[^\s@]+\.[^\s@]+$`. */
  lemma EmailPatternPassesCheckout(t: string)
    requires MatchesEmailPattern(t)
    ensures MockApi.MatchesCheckoutEmail(t)
  {
    var at, dot :| 0 < at < dot < |t| && PatternSplit(t, at, dot);
    assert SuffixesFrom(t, dot) && JoinedWordsIn(t, 0, at) && JoinedWordsIn(t, at + 1, dot);
    SuffixesChars(t, dot);
    forall k | 0 <= k < |t| && k != at ensures MockApi.EmailChar(t[k]) {
      WordAndJoinerAreEmailChars(t[k]);
    }
    assert MockApi.EmailSplit(t, at, dot);
  }

  /** Every address the form accepts also passes the checkout endpoint's check,
      once trimmed. */
  lemma ValidEmailPassesCheckout(email: string)
    requires ValidateEmail(email)
    ensures MockApi.MatchesCheckoutEmail(Trim(email))
  {
    EmailPatternPassesCheckout(Trim(email));
  }

  // ---------------------------------------------------------------------------
  // capitalize

  /** `capitalize(word)`: '' for undefined or null, otherwise the word with its
      first character upper-cased. */
  function Capitalize(word: Option<string>): (r: string)
    ensures word.None? ==> r == ""
    ensures word.Some? ==> |r| == |word.value|
    ensures word.Some? && word.value != [] ==> r[0] == UpperChar(word.value[0]) && r[1..] == word.value[1..]
  {
    match word
    case None => ""
    case Some(w) => if w == [] then "" else [UpperChar(w[0])] + w[1..]
  }

  /** Capitalizing twice changes nothing more. */
  lemma CapitalizeIdempotent(w: string)
    ensures Capitalize(Some(Capitalize(Some(w)))) == Capitalize(Some(w))
  {
    if w != [] {
      var r := Capitalize(Some(w));
      assert UpperChar(UpperChar(w[0])) == UpperChar(w[0]);
      assert [r[0]] + r[1..] == r;
    }
  }

  // ---------------------------------------------------------------------------
  // Character-class tests

  /** The character classes the helpers look for. */
  datatype CharClass = DigitClass | SpecialClass | UpperClass | LowerClass

  /** The characters of `[!@#$%^&*()_+\-=\[\]{};':"\\|,.<>\/?~]`. */
  const SpecialCharacters: set<char> := {
    '!', '@', '#', '$', '%', '^', '&', '*', '(', ')', '_', '+', '-', '=', '[', ']',
    '{', '}', ';', '\'', ':', '"', '\\', '|', ',', '.', '<', '>', '/', '?', '~'}

  predicate InClass(c: char, cls: CharClass) {
    match cls
    case DigitClass => IsDigit(c)
    case SpecialClass => c in SpecialCharacters
    case UpperClass => IsAsciiUpper(c)
    case LowerClass => IsAsciiLower(c)
  }

  /** `/[...]/.test(s)`: some character of s is in the class. */
  function ContainsClass(s: string, cls: CharClass): (b: bool)
    ensures b <==> exists i :: 0 <= i < |s| && InClass(s[i], cls)
    decreases |s|
  {
    if s == [] then false
    else if InClass(s[0], cls) then true
    else
      var b := ContainsClass(s[1..], cls);
      assert b ==> exists i :: 0 <= i < |s| && InClass(s[i], cls) by {
        if b {
          var i :| 0 <= i < |s[1..]| && InClass(s[1..][i], cls);
          assert s[i + 1] == s[1..][i];
        }
      }
      assert (exists i :: 0 <= i < |s| && InClass(s[i], cls)) ==> b by {
        if exists i :: 0 <= i < |s| && InClass(s[i], cls) {
          var i :| 0 <= i < |s| && InClass(s[i], cls);
          assert i > 0 && s[1..][i - 1] == s[i];
        }
      }
      b
  }

  /** `containsNumbers(s)`: `/\d/`. */
  function ContainsNumbers(s: string): (b: bool)
    ensures b <==> exists i :: 0 <= i < |s| && '0' <= s[i] <= '9'
  {
    ContainsClass(s, DigitClass)
  }

  /** `containsSpecialCharacter(s)`. */
  function ContainsSpecialCharacter(s: string): (b: bool)
    ensures b <==> exists i :: 0 <= i < |s| && s[i] in SpecialCharacters
  {
    ContainsClass(s, SpecialClass)
  }

  /** `isUppercaseIncluded(s)`: `/[A-Z]/`. */
  function IsUppercaseIncluded(s: string): (b: bool)
    ensures b <==> exists i :: 0 <= i < |s| && 'A' <= s[i] <= 'Z'
  {
    ContainsClass(s, UpperClass)
  }

  /** `isLowercaseIncluded(s)`: `/[a-z]/`. */
  function IsLowercaseIncluded(s: string): (b: bool)
    ensures b <==> exists i :: 0 <= i < |s| && 'a' <= s[i] <= 'z'
  {
    ContainsClass(s, LowerClass)
  }

  /** A class occurs in a concatenation exactly when it occurs in one part. */
  lemma {:induction false} ContainsClassAppend(a: string, b: string, cls: CharClass)
    ensures ContainsClass(a + b, cls) <==> ContainsClass(a, cls) || ContainsClass(b, cls)
    decreases |a|
  {
    if a == [] {
      assert a + b == b;
    } else {
      assert (a + b)[0] == a[0] && (a + b)[1..] == a[1..] + b;
      ContainsClassAppend(a[1..], b, cls);
    }
  }

  /** Lower-casing one character leaves no upper-case letter and keeps
      digits and special characters as they are. */
  lemma LowerCharClasses(c: char)
    ensures !InClass(LowerChar(c), UpperClass)
    ensures InClass(LowerChar(c), DigitClass) == InClass(c, DigitClass)
    ensures InClass(LowerChar(c), SpecialClass) == InClass(c, SpecialClass)
  {
    if IsAsciiUpper(c) {
      assert IsAsciiLower(LowerChar(c));
    }
  }

  /** Lower-casing a string removes every upper-case letter and keeps the
      digits and special characters. */
  lemma LowerRemovesUppercase(s: string)
    ensures !IsUppercaseIncluded(Lower(s))
    ensures ContainsNumbers(Lower(s)) == ContainsNumbers(s)
    ensures ContainsSpecialCharacter(Lower(s)) == ContainsSpecialCharacter(s)
  {
    var l := Lower(s);
    forall i | 0 <= i < |s|
      ensures !InClass(l[i], UpperClass)
      ensures InClass(l[i], DigitClass) == InClass(s[i], DigitClass)
      ensures InClass(l[i], SpecialClass) == InClass(s[i], SpecialClass)
    {
      LowerCharClasses(s[i]);
    }
    assert !ContainsClass(l, UpperClass);
    assert ContainsClass(l, DigitClass) == ContainsClass(s, DigitClass);
    assert ContainsClass(l, SpecialClass) == ContainsClass(s, SpecialClass);
  }

  // ---------------------------------------------------------------------------
  // validateNumbers

  /** A JavaScript number as `Number(value)` produces it. */
  datatype JsNumber = NaN | Finite(value: real) | PositiveInfinity | NegativeInfinity

  /** `validateNumbers(value)`, given `Number(value)`: anything but NaN. */
  predicate ValidateNumbers(coerced: JsNumber) {
    !coerced.NaN?
  }
}
