/** Blank text, as trimming whitespace at both ends sees it. */
module Text {
  predicate IsSpace(c: char) {
    || '\t' <= c <= '\r' || '\U{1C}' <= c <= ' ' || c == '\U{85}' || c == '\U{A0}' || c == '\U{1680}'
    || '\U{2000}' <= c <= '\U{200A}' || c == '\U{2028}' || c == '\U{2029}' || c == '\U{202F}'
    || c == '\U{205F}' || c == '\U{3000}'
  }

  predicate IsBlank(s: string) {
    forall c :: c in s ==> IsSpace(c)
  }

  /** Text with a visible character is not blank; text of spaces and line breaks alone is. */
  lemma BlankMeans(s: string)
    ensures (exists c :: c in s && '!' <= c <= '~') ==> !IsBlank(s)
    ensures (forall c :: c in s ==> c in {' ', '\t', '\n', '\r'}) ==> IsBlank(s)
  {
  }
}
