/** The character classes of the cleaning pattern `[^\d\.\w\s]` and of
    `str.strip()`, for Python 3 `str` patterns. */
module CharClasses {

  /** `\d`: a decimal digit (ASCII digits only; see README). */
  predicate IsDigit(c: char) {
    '0' <= c <= '9'
  }

  /** `\w`: a letter, a digit or the underscore (ASCII only; see README). */
  predicate IsWord(c: char) {
    ('a' <= c <= 'z') || ('A' <= c <= 'Z') || IsDigit(c) || c == '_'
  }

  /** `\s` and the characters removed by `str.strip()`: both use the same
      whitespace table, listed here in full. */
  predicate IsSpace(c: char) {
    ('\t' <= c <= '\r')                  // tab, line feed, vertical tab, form feed, carriage return
    || ('\U{1C}' <= c <= '\U{1F}')       // file, group, record and unit separators
    || c == ' '
    || c == '\U{85}' || c == '\U{A0}' || c == '\U{1680}'
    || ('\U{2000}' <= c <= '\U{200A}')
    || c == '\U{2028}' || c == '\U{2029}' || c == '\U{202F}' || c == '\U{205F}'
    || c == '\U{3000}'
  }

  /** A character the pattern `[^\d\.\w\s]` does NOT match, i.e. one that
      the substitution keeps. */
  predicate IsAllowed(c: char) {
    IsDigit(c) || c == '.' || IsWord(c) || IsSpace(c)
  }

  /** A character that survives both the substitution and `replace('B', '')`. */
  predicate IsKept(c: char) {
    IsAllowed(c) && c != 'B'
  }

  /** `\d` adds nothing to `\w`, so the allowed set is word, period and space. */
  lemma AllowedIsWordPeriodOrSpace(c: char)
    ensures IsAllowed(c) <==> IsWord(c) || c == '.' || IsSpace(c)
  {
  }
}
