/** Character classes and case mapping: ASCII's, and those of the script a text is written in. */
module Characters {

  /** Tab, newline, vertical tab, form feed, carriage return, space. */
  predicate IsSpace(c: char) { c == ' ' || '\t' <= c <= '\r' }

  predicate IsUpper(c: char) { 'A' <= c <= 'Z' }

  /** Lower case; characters outside `A`-`Z` are unchanged. */
  function Lower(c: char): char { if IsUpper(c) then c + 32 as char else c }

  /** Unicode's lower-casing and white space, whatever they are outside ASCII. */
  datatype Script = Script(lower: char -> char, space: char -> bool)

  /** Inside ASCII they are ASCII's. */
  ghost predicate ExtendsAscii(u: Script) {
    && (forall c {:trigger u.space(c)} :: c <= '\U{7f}' ==> u.space(c) == IsSpace(c))
    && (forall c {:trigger u.lower(c)} :: c <= '\U{7f}' ==> u.lower(c) == Lower(c))
  }
}
