/**
 * The two regular expressions that the backend's registration check and the
 * frontend's form checks share, as the languages they denote:
 * `/^[^\s@]+@[^\s@]+\.[^\s@]+$/` for e-mail addresses and
 * `/^(?=.*[a-z])(?=.*[A-Z])(?=.*\d)(?=.*[@$!%*?&#])[A-Za-z\d@$!%*?&#]{8,}$/`
 * for passwords.
 */
module Patterns {
  import opened Text

  /** `[^\s@]` */
  predicate EmailChar(c: char) {
    !IsSpace(c) && c != '@'
  }

  predicate EmailChars(s: string) {
    forall k :: 0 <= k < |s| ==> EmailChar(s[k])
  }

  /**
   * `^[^\s@]+@[^\s@]+\.[^\s@]+$`: a non-empty local part, one `@`, and a
   * domain with a `.` that is neither its first nor its last character. The
   * `.` at `j` is any one the regex engine can backtrack to.
   */
  predicate EmailPattern(s: string) {
    exists i, j | 0 < i && i + 1 < j && j + 1 < |s| ::
      && s[i] == '@' && s[j] == '.'
      && EmailChars(s[..i]) && EmailChars(s[i + 1..j]) && EmailChars(s[j + 1..])
  }

  /** An address the pattern accepts has no white space, so `trim` leaves it alone. */
  lemma EmailHasNoSpace(s: string)
    requires EmailPattern(s)
    ensures NoSpace(s)
  {
    var i, j :| 0 < i && i + 1 < j && j + 1 < |s| && s[i] == '@' && s[j] == '.'
      && EmailChars(s[..i]) && EmailChars(s[i + 1..j]) && EmailChars(s[j + 1..]);
    forall k | 0 <= k < |s| ensures !IsSpace(s[k]) {
      if k < i {
        assert s[..i][k] == s[k];
      } else if i < k < j {
        assert s[i + 1..j][k - i - 1] == s[k];
      } else if j < k {
        assert s[j + 1..][k - j - 1] == s[k];
      }
    }
  }

  /** `[A-Za-z\d@$!%*?&#]` */
  predicate PasswordChar(c: char) {
    ('a' <= c <= 'z') || ('A' <= c <= 'Z') || IsDigit(c) || c in "@$!%*?&#"
  }

  /**
   * The password pattern. Each lookahead `(?=.*X)` asks for one character of
   * class X somewhere; `.` cannot cross a line terminator, but the final class
   * admits none, so the lookaheads range over the whole string.
   */
  predicate PasswordPattern(s: string) {
    && |s| >= 8
    && (forall k :: 0 <= k < |s| ==> PasswordChar(s[k]))
    && (exists k :: 0 <= k < |s| && 'a' <= s[k] <= 'z')
    && (exists k :: 0 <= k < |s| && 'A' <= s[k] <= 'Z')
    && (exists k :: 0 <= k < |s| && IsDigit(s[k]))
    && (exists k :: 0 <= k < |s| && s[k] in "@$!%*?&#")
  }
}
