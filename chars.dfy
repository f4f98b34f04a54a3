/** Character classes used by the regular expressions of the archive manager. */
module Chars {

  /** Python's `\s` on a `str` pattern, which is also what `str.isspace()` and the
      argument-less `str.strip()` use: the 29 Unicode whitespace code points. */
  predicate IsSpace(c: char) {
    ('\t' <= c <= '\r')                      // \t \n \v \f \r
    || ('\U{1C}' <= c <= ' ')                // file/group/record/unit separators and space
    || c == '\U{85}' || c == '\U{A0}' || c == '\U{1680}'
    || ('\U{2000}' <= c <= '\U{200A}')
    || c == '\U{2028}' || c == '\U{2029}' || c == '\U{202F}' || c == '\U{205F}'
    || c == '\U{3000}'
  }

  /** The class `[\\/:*?"<>|]` of characters Windows forbids in a file name. */
  predicate IsInvalidWinChar(c: char) {
    c == '\\' || c == '/' || c == ':' || c == '*' || c == '?' || c == '"' || c == '<' || c == '>' || c == '|'
  }

  predicate IsAsciiAlnum(c: char) {
    ('0' <= c <= '9') || ('A' <= c <= 'Z') || ('a' <= c <= 'z')
  }

  /** The class `[0-9A-Za-z_-]` a snapshot id is made of. */
  predicate IsSnapshotChar(c: char) {
    IsAsciiAlnum(c) || c == '_' || c == '-'
  }

  /** Python's `\w`, restricted to ASCII letters, digits and the underscore. */
  predicate IsWordChar(c: char) {
    IsAsciiAlnum(c) || c == '_'
  }

  /** The CJK Unified Ideographs block `一-鿿`. */
  predicate IsCjk(c: char) {
    '\U{4E00}' <= c <= '\U{9FFF}'
  }

  /** The class `[\w一-鿿+\-]` kept by file-name pieces. */
  predicate IsPieceChar(c: char) {
    IsWordChar(c) || IsCjk(c) || c == '+' || c == '-'
  }

  predicate IsUnderscore(c: char) {
    c == '_'
  }

  predicate IsDotOrUnderscore(c: char) {
    c == '.' || c == '_'
  }

  /** The class `[+,，、/;；\s]` that separates role names. */
  predicate IsRoleSeparator(c: char) {
    c == '+' || c == ',' || c == '\U{FF0C}' || c == '\U{3001}' || c == '/' || c == ';' || c == '\U{FF1B}'
    || IsSpace(c)
  }

  lemma InvalidWinCharsAreNotPieceChars(c: char)
    ensures IsInvalidWinChar(c) ==> !IsPieceChar(c)
  {
  }
}
