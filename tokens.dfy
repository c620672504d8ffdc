/**
 * Tokens of the current front end and the character and string classes the
 * tokeniser and parser test them with (src/parsing/tokens.rs).
 */
module Tokens {

  /**
   * A token. A number keeps its lexeme (digits and dots); the f64 the source
   * parses from it is not part of this model. `Boolean` and `Null` exist but
   * the tokeniser never produces them.
   */
  datatype Token =
    | String(s: string)
    | Identifier(name: string)
    | Keyword(kw: string)
    | Number(lexeme: string)
    | Boolean(b: bool)
    | Null
    | Operator(op: string)
    | Punctuation(c: char)

  const Keywords: set<string> := {"let", "const", "fn", "if", "else", "return", "while", "break", "continue", "for"}
  const Operators: set<string> := {"=", "==", "+", "-", "*", "/", "!=", "**", "%", "&&", "||",
                                   ">", "<", ">=", "<=", "+=", "*=", "-=", "/=", "%=", "**="}
  const AssignmentOperators: set<string> := {"=", "*=", "+=", "-=", "/=", "%=", "**="}

  predicate IsLetter(c: char) { 'a' <= c <= 'z' || 'A' <= c <= 'Z' }
  predicate IsDigit(c: char) { '0' <= c <= '9' }

  /** Space, tab, newline and `;` separate tokens. */
  function IsWhitespace(c: char): (r: bool)
    ensures r ==> !IsIdentifier(c) && !IsNumber(c) && c != '"'
  {
    c == ' ' || c == '\t' || c == '\n' || c == ';'
  }

  /** The characters of a number: the digits and `.`. */
  function IsNumber(c: char): (r: bool)
    ensures r ==> !IsIdentifierStart(c) && c != '"'
  {
    IsDigit(c) || c == '.'
  }

  function IsKeyword(s: string): (r: bool)
    ensures r ==> 2 <= |s| <= 8 && IsIdentifierStart(s[0]) && forall i :: 0 <= i < |s| ==> IsIdentifier(s[i])
  {
    s in Keywords
  }

  function IsOperator(s: string): (r: bool)
    ensures r ==> 1 <= |s| <= 3 && forall i :: 0 <= i < |s| ==> IsOperatorChar(s[i])
  {
    s in Operators
  }

  /** The assignment operators: operators ending in `=`. */
  function IsAssignmentOperator(s: string): (r: bool)
    ensures r ==> IsOperator(s) && s[|s| - 1] == '='
  {
    s in AssignmentOperators
  }

  /** An operator that is not an assignment operator. */
  function IsBinaryOperator(s: string): (r: bool)
    ensures r <==> s in {"==", "!=", "+", "-", "*", "/", "%", "**", "&&", "||", ">", "<", ">=", "<="}
  {
    IsOperator(s) && !(s in AssignmentOperators)
  }

  /**
   * `get_operator_precedence`: exactly the binary operators have a positive
   * precedence, from `||` (5, the lowest) to `**` (16, the highest).
   */
  function Precedence(s: string): (p: int)
    ensures 0 <= p <= 16
    ensures p > 0 <==> IsBinaryOperator(s)
    ensures p > 0 ==> 5 <= p
    ensures p == 16 <==> s == "**"
    ensures p == 5 <==> s == "||"
  {
    if s == "||" then 5
    else if s == "&&" then 6
    else if s == "==" || s == "!=" then 11
    else if s == ">" || s == ">=" || s == "<" || s == "<=" then 12
    else if s == "+" || s == "-" then 14
    else if s == "*" || s == "/" || s == "%" then 15
    else if s == "**" then 16
    else 0
  }

  /** Characters that may be part of an operator. None of them is punctuation. */
  function IsOperatorChar(c: char): (r: bool)
    ensures r ==> !IsPunctuation(c) && !IsWhitespace(c) && !IsNumber(c) && !IsIdentifier(c) && c != '"'
  {
    c == '=' || c == '!' || c == '+' || c == '-' || c == '/' || c == '*' ||
    c == '%' || c == '&' || c == '|' || c == '<' || c == '>'
  }

  /** Single-character tokens. `.` is punctuation as well as a number character. */
  function IsPunctuation(c: char): (r: bool)
    ensures r ==> !IsWhitespace(c) && !IsIdentifier(c) && c != '"'
    ensures r && IsNumber(c) <==> c == '.'
  {
    c == ':' || c == ',' || c == '.' || c == '(' || c == ')' || c == '[' || c == ']' || c == '{' || c == '}'
  }

  /** Letters, digits, `$` and `_`. */
  predicate IsIdentifier(c: char)
  {
    IsLetter(c) || IsDigit(c) || c == '$' || c == '_'
  }

  /** The characters an identifier may start with: those of an identifier except the digits. */
  function IsIdentifierStart(c: char): (r: bool)
    ensures r <==> IsIdentifier(c) && !IsDigit(c)
  {
    IsLetter(c) || c == '$' || c == '_'
  }

  /** A compound assignment operator without its final `=` is a binary operator. */
  lemma CompoundAssignmentIsBinary(s: string)
    requires IsAssignmentOperator(s) && s != "="
    ensures IsBinaryOperator(s[..|s| - 1])
  {
    if s == "**=" {
      assert s[..|s| - 1] == "**";
    } else {
      assert |s| == 2;
      assert s[..|s| - 1] == [s[0]];
    }
  }
}
