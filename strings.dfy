/**
 * The two string operations make_move applies to a raw guess: Python's
 * `str.isalpha` and `str.lower`, restricted to ASCII letters.
 */
module Strings {

  predicate IsLetter(c: char) {
    'a' <= c <= 'z' || 'A' <= c <= 'Z'
  }

  /** `s.isalpha()`: true when `s` is non-empty and every character is a letter. */
  predicate IsAlpha(s: string) {
    |s| > 0 && forall i :: 0 <= i < |s| ==> IsLetter(s[i])
  }

  function LowerChar(c: char): char {
    if 'A' <= c <= 'Z' then (c as int - 'A' as int + 'a' as int) as char else c
  }

  /** `s.lower()`. */
  function Lower(s: string): string {
    seq(|s|, i requires 0 <= i < |s| => LowerChar(s[i]))
  }

  /** The placeholder that hides an unrevealed letter. */
  const Hidden: char := '_'

  /** `"_" * n`: the fully masked word of length `n`. */
  function Masked(n: nat): string {
    seq(n, _ => Hidden)
  }
}
