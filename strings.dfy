/**
 * The string tests the catalog queries use: String.IsNullOrEmpty,
 * String.IsNullOrWhiteSpace, and the match a case-insensitive regular
 * expression made of an escaped (literal) pattern performs.
 */
module Strings {
  import opened Wrappers

  /** String.IsNullOrEmpty; `None` is C#'s null. */
  predicate IsNullOrEmpty(s: Option<string>) {
    s.None? || s.value == ""
  }

  /** Char.IsWhiteSpace: the Unicode space, line and paragraph separators, and U+0009-U+000D, U+0085. */
  predicate IsWhiteSpace(c: char) {
    c == ' ' || ('\t' <= c <= '\r') || c == '\U{0085}' || c == '\U{00A0}' || c == '\U{1680}'
    || ('\U{2000}' <= c <= '\U{200A}') || c == '\U{2028}' || c == '\U{2029}'
    || c == '\U{202F}' || c == '\U{205F}' || c == '\U{3000}'
  }

  /** String.IsNullOrWhiteSpace. */
  predicate IsNullOrWhiteSpace(s: Option<string>) {
    s.None? || forall i :: 0 <= i < |s.value| ==> IsWhiteSpace(s.value[i])
  }

  /** Maps every character through the case folding `fold`. */
  function FoldCase(s: string, fold: char -> char): (r: string)
    ensures |r| == |s|
  {
    seq(|s|, i requires 0 <= i < |s| => fold(s[i]))
  }

  /** `needle` occurs in `hay` starting at position `i`. */
  predicate OccursAt(needle: string, hay: string, i: int) {
    0 <= i && i + |needle| <= |hay| && hay[i..i + |needle|] == needle
  }

  /** `needle` occurs somewhere in `hay`. */
  predicate Contains(hay: string, needle: string) {
    exists i :: 0 <= i <= |hay| - |needle| && OccursAt(needle, hay, i)
  }

  /**
   * What `new BsonRegularExpression(Regex.Escape(pattern), "i")` matches: the
   * pattern is taken literally, and characters are compared after case folding.
   */
  predicate MatchesIgnoreCase(hay: string, pattern: string, fold: char -> char) {
    Contains(FoldCase(hay, fold), FoldCase(pattern, fold))
  }

  /** The empty and null strings count as white space, so IsNullOrWhiteSpace rejects more than IsNullOrEmpty. */
  lemma NullOrEmptyIsNullOrWhiteSpace(s: Option<string>)
    ensures IsNullOrEmpty(s) ==> IsNullOrWhiteSpace(s)
    ensures IsNullOrWhiteSpace(Some(" ")) && !IsNullOrEmpty(Some(" "))
  {
    assert " "[0] == ' ';
  }
}
