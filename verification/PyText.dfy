/** Python string operations used by the screenshot text helpers. */
module PyText {

  /** Python's `str.isalpha`, `str.isdigit` and `str.isspace` on one character.
      The tables are those of Unicode; only the facts in `Valid` are used. */
  datatype CharClasses = CharClasses(isAlpha: char -> bool, isDigit: char -> bool, isSpace: char -> bool) {

    ghost predicate Valid() {
      && (forall c: char | 'a' <= c <= 'z' :: isAlpha(c) && !isSpace(c))
      && (forall c: char | '0' <= c <= '9' :: isDigit(c) && !isAlpha(c) && !isSpace(c))
      && (forall c: char | c in "{}\\*-& \n" :: !isAlpha(c) && !isDigit(c))
      && (forall c: char | c in "{}\\&" :: !isSpace(c))
      && (forall c: char | c in " \n\r" :: isSpace(c))
    }
  }

  function TrimLeft(cc: CharClasses, s: string): string {
    if s != "" && cc.isSpace(s[0]) then TrimLeft(cc, s[1..]) else s
  }

  function TrimRight(cc: CharClasses, s: string): string {
    if s != "" && cc.isSpace(s[|s| - 1]) then TrimRight(cc, s[..|s| - 1]) else s
  }

  /** `str.strip()`. */
  function Trim(cc: CharClasses, s: string): string {
    TrimRight(cc, TrimLeft(cc, s))
  }
}
