/**
 * Tokens of the legacy front end and the character and keyword tests its
 * tokeniser uses (src/parser/tokens.rs).
 */
module LegacyTokens {

  /** A legacy token. A number keeps its lexeme; the f64 parsed from it is not part of this model. */
  datatype Token =
    | String(s: string)
    | Identifier(name: string)
    | Keyword(kw: string)
    | Number(lexeme: string)

  /** The legacy language has two keywords only. */
  const Keywords: set<string> := {"let", "const"}

  predicate IsDigit(c: char) { '0' <= c <= '9' }
  predicate IsLetter(c: char) { 'a' <= c <= 'z' || 'A' <= c <= 'Z' }

  /** Space, tab, newline and `;`. */
  function IsWhitespace(c: char): (r: bool)
    ensures r ==> !IsNumber(c) && !IsIdentifier(c) && c != '"'
  {
    c == ' ' || c == '\t' || c == '\n' || c == ';'
  }

  /** The digits and `.`. */
  function IsNumber(c: char): (r: bool)
    ensures r ==> !IsIdentifierStart(c) && c != '"'
  {
    IsDigit(c) || c == '.'
  }

  function IsKeyword(s: string): (r: bool)
    ensures r ==> 3 <= |s| <= 5 && IsIdentifierStart(s[0]) && forall i :: 0 <= i < |s| ==> IsIdentifier(s[i])
  {
    s in Keywords
  }

  /** Letters, digits, `$` and `_`. */
  predicate IsIdentifier(c: char)
  {
    IsLetter(c) || IsDigit(c) || c == '$' || c == '_'
  }

  /** Letters, `$` and `_`: the identifier characters except the digits. */
  function IsIdentifierStart(c: char): (r: bool)
    ensures r <==> IsIdentifier(c) && !IsDigit(c)
  {
    IsLetter(c) || c == '$' || c == '_'
  }
}
