/**
 * The token-level helpers of the parser (src/parsing/parser_helpers.rs) and
 * the errors the parser reports where the source panics.
 *
 * The parser reads a sequence of tokens through a cursor `p`: `p` tokens
 * have been read, and `p >= |ts|` is the tokeniser's `eof`. At the end,
 * `peek` and `read` keep showing the last token and `read` does not move.
 */
module ParserHelpers {
  import opened Wrappers
  import opened Tokens
  import opened Lexing

  datatype SyntaxError =
    /** "Expected punctution" */
    | ExpectedPunctuation(c: char)
    /** "Used a statement where they are not allowed" */
    | StatementNotAllowed
    /** "Unsupported syntax" */
    | UnsupportedSyntax
    /** "Declaration (let, const) wasn't followed by an assignment" */
    | DeclarationWithoutAssignment
    /** "Object keys should be identifiers" */
    | InvalidObjectKey
    /** "Invalid token after value in object literal." */
    | InvalidTokenAfterObjectValue
    /**
     * The source recurses without bound: a `(` left as the last token at the
     * end of input starts a bracketed expression again and again.
     */
    | UnboundedRecursion

  /** `expect_punctuation`: reads one token, which must be the punctuation `c`. */
  function Expect(ts: seq<Token>, p: nat, c: char): (r: Result<nat, SyntaxError>)
    requires p <= |ts|
    ensures r.Success? <==> PeekAt(ts, p) == Punctuation(c)
    ensures r.Success? ==> r.value == Advance(ts, p) && r.value <= |ts|
    ensures r.Failure? ==> r.error == ExpectedPunctuation(c)
  {
    match PeekAt(ts, p)
    case Punctuation(pnc) => if pnc == c then Success(Advance(ts, p)) else Failure(ExpectedPunctuation(c))
    case _ => Failure(ExpectedPunctuation(c))
  }

  /** `is_next_punctuation`: the token `peek` shows is the punctuation `c`. */
  function NextIsPunctuation(ts: seq<Token>, p: nat, c: char): (r: bool)
    ensures r <==> PeekAt(ts, p) == Punctuation(c)
  {
    match PeekAt(ts, p)
    case Punctuation(pnc) => pnc == c
    case _ => false
  }

  /** `is_next_keyword`: the token `peek` shows is the keyword `s`. */
  function NextIsKeyword(ts: seq<Token>, p: nat, s: string): (r: bool)
    ensures r <==> PeekAt(ts, p) == Keyword(s)
  {
    match PeekAt(ts, p)
    case Keyword(st) => st == s
    case _ => false
  }

  /** When the next token is the punctuation `c`, expecting it succeeds and reads exactly that token. */
  lemma ExpectAfterNextIsPunctuation(ts: seq<Token>, p: nat, c: char)
    requires p <= |ts|
    requires NextIsPunctuation(ts, p, c)
    ensures Expect(ts, p, c) == Success(Advance(ts, p))
    ensures p < |ts| ==> Advance(ts, p) == p + 1
  {
  }
}
