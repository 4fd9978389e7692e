/** Strings up to the case of ASCII letters, character by character. */
module Letters {

  /** A capital letter and its small form. */
  predicate CapitalOf(a: char, b: char) {
    'A' <= a <= 'Z' && a as int + 32 == b as int
  }

  predicate SameLetter(a: char, b: char) {
    a == b || CapitalOf(a, b) || CapitalOf(b, a)
  }

  predicate SameUpToCase(s: string, t: string) {
    |s| == |t| && forall i | 0 <= i < |s| :: SameLetter(s[i], t[i])
  }

  predicate NoCapitals(s: string) {
    forall i | 0 <= i < |s| :: !('A' <= s[i] <= 'Z')
  }

  predicate NoSmallLetters(s: string) {
    forall i | 0 <= i < |s| :: !('a' <= s[i] <= 'z')
  }
}
