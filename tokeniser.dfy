/**
 * The streaming tokeniser of the current front end (src/parsing/tokeniser.rs).
 *
 * The character stream it reads from (src/parsing/char_stream.rs) is not part
 * of this model; it is represented by the source text and an index into it,
 * with end of input meaning `index >= |code|`.
 *
 * `NextToken` and `Lex` state what the tokeniser reads; the class
 * `Tokeniser` does it step by step and is proved to agree with them. The
 * panics of the source become `LexError`s.
 */
module Lexing {
  import opened Wrappers
  import opened Tokens

  datatype LexError =
    /** "Invalid syntax - unexpected character" */
    | UnexpectedCharacter(c: char)
    /** A run of operator characters that is not an operator. */
    | InvalidOperator(op: string)
    /** The input ends before the closing quote of a string. */
    | UnterminatedString
    /** A run of number characters that `str::parse::<f64>` rejects. */
    | InvalidNumber(lexeme: string)

  /** The classes of characters the tokeniser reads runs of. */
  datatype CharClass = WhitespaceChars | IdentifierChars | OperatorChars | NumberChars | StringChars

  predicate InClass(k: CharClass, c: char)
  {
    match k
    case WhitespaceChars => IsWhitespace(c)
    case IdentifierChars => IsIdentifier(c)
    case OperatorChars => IsOperatorChar(c)
    case NumberChars => IsNumber(c)
    case StringChars => c != '"'
  }

  /** The end of the longest run of characters of class `k` starting at `i`. */
  function RunEnd(code: string, i: nat, k: CharClass): (j: nat)
    requires i <= |code|
    ensures i <= j <= |code|
    ensures forall m :: i <= m < j ==> InClass(k, code[m])
    ensures j == |code| || !InClass(k, code[j])
    decreases |code| - i
  {
    if i < |code| && InClass(k, code[i]) then RunEnd(code, i + 1, k) else i
  }

  /** A run that is all of class `k` and is followed by the end or by a character outside it is the longest one. */
  lemma {:induction false} RunEndExact(code: string, i: nat, j: nat, k: CharClass)
    requires i <= j <= |code|
    requires forall m :: i <= m < j ==> InClass(k, code[m])
    requires j == |code| || !InClass(k, code[j])
    ensures RunEnd(code, i, k) == j
    decreases j - i
  {
    if i < j {
      RunEndExact(code, i + 1, j, k);
    }
  }

  function DotCount(s: string): nat
  {
    if |s| == 0 then 0 else DotCount(s[..|s| - 1]) + (if s[|s| - 1] == '.' then 1 else 0)
  }

  /**
   * Whether Rust's `f64` parser accepts a run of digits and dots: it needs a
   * digit and at most one dot.
   */
  predicate ParsesAsFloat(s: string)
  {
    (exists k :: 0 <= k < |s| && IsDigit(s[k])) && DotCount(s) <= 1
  }

  /** A token the tokeniser can produce. */
  predicate WellFormedToken(t: Token)
  {
    match t
    case String(s) => forall k :: 0 <= k < |s| ==> s[k] != '"'
    case Identifier(n) =>
      |n| > 0 && IsIdentifierStart(n[0]) && (forall k :: 0 <= k < |n| ==> IsIdentifier(n[k])) && !IsKeyword(n)
    case Keyword(kw) => IsKeyword(kw)
    case Number(l) =>
      |l| > 0 && IsDigit(l[0]) && (forall k :: 0 <= k < |l| ==> IsNumber(l[k])) && ParsesAsFloat(l)
    case Operator(op) => IsOperator(op)
    case Punctuation(c) => IsPunctuation(c)
    case Boolean(_) => false
    case Null => false
  }

  /** What one `read_next` finds from position `i`. */
  datatype Scan =
    | AtEnd(next: nat)
    | Scanned(token: Token, next: nat)
    | ScanError(error: LexError)

  /**
   * `read_next` as a function: skip whitespace, then try a string, an
   * identifier or keyword, an operator, a punctuation character and a number,
   * in that order.
   */
  function NextToken(code: string, i: nat): (s: Scan)
    requires i <= |code|
    ensures s.AtEnd? <==> forall m :: i <= m < |code| ==> IsWhitespace(code[m])
    ensures s.AtEnd? ==> s.next == |code|
    ensures s.Scanned? ==> i < s.next <= |code| && WellFormedToken(s.token)
  {
    var j := RunEnd(code, i, WhitespaceChars);
    if j == |code| then AtEnd(j)
    else
      var c := code[j];
      if c == '"' then
        var e := RunEnd(code, j + 1, StringChars);
        if e == |code| then ScanError(UnterminatedString)
        else Scanned(String(code[j + 1..e]), e + 1)
      else if IsIdentifierStart(c) then
        var e := RunEnd(code, j, IdentifierChars);
        var st := code[j..e];
        Scanned(if IsKeyword(st) then Keyword(st) else Identifier(st), e)
      else if IsOperatorChar(c) then
        var e := RunEnd(code, j, OperatorChars);
        var st := code[j..e];
        if IsOperator(st) then Scanned(Operator(st), e) else ScanError(InvalidOperator(st))
      else if IsPunctuation(c) then
        Scanned(Punctuation(c), j + 1)
      else if IsNumber(c) then
        var e := RunEnd(code, j, NumberChars);
        var st := code[j..e];
        if ParsesAsFloat(st) then Scanned(Number(st), e) else ScanError(InvalidNumber(st))
      else
        ScanError(UnexpectedCharacter(c))
  }

  /**
   * Every token from position `i` to the end, or the first error. Each token
   * takes at least one character, and the first is the one `read_next` reads.
   */
  function Lex(code: string, i: nat): (r: Result<seq<Token>, LexError>)
    requires i <= |code|
    ensures r.Success? ==> |r.value| <= |code| - i
    ensures r == Success([]) <==> NextToken(code, i).AtEnd?
    ensures r.Success? && |r.value| > 0 ==> NextToken(code, i).Scanned? && NextToken(code, i).token == r.value[0]
    decreases |code| - i
  {
    match NextToken(code, i)
    case AtEnd(_) => Success([])
    case ScanError(e) => Failure(e)
    case Scanned(t, j) =>
      match Lex(code, j)
      case Success(rest) => Success([t] + rest)
      case Failure(e) => Failure(e)
  }

  /** Every token `Lex` produces is well formed. */
  lemma {:induction false} LexTokensWellFormed(code: string, i: nat)
    requires i <= |code|
    ensures Lex(code, i).Success? ==> forall t :: t in Lex(code, i).value ==> WellFormedToken(t)
    decreases |code| - i
  {
    match NextToken(code, i)
    case AtEnd(_) =>
    case ScanError(_) =>
    case Scanned(t, j) =>
      LexTokensWellFormed(code, j);
  }

  /** A `.` after whitespace is punctuation, never the start of a number. */
  lemma LeadingDotIsPunctuation(code: string, i: nat)
    requires i <= |code|
    requires RunEnd(code, i, WhitespaceChars) < |code| && code[RunEnd(code, i, WhitespaceChars)] == '.'
    ensures NextToken(code, i) == Scanned(Punctuation('.'), RunEnd(code, i, WhitespaceChars) + 1)
  {
  }

  /** A character of no class is rejected, whatever follows it. */
  lemma UnclassifiedCharacterRejected(code: string, i: nat)
    requires i <= |code|
    requires RunEnd(code, i, WhitespaceChars) < |code|
    requires var c := code[RunEnd(code, i, WhitespaceChars)];
      c != '"' && !IsIdentifierStart(c) && !IsOperatorChar(c) && !IsPunctuation(c) && !IsNumber(c)
    ensures NextToken(code, i) == ScanError(UnexpectedCharacter(code[RunEnd(code, i, WhitespaceChars)]))
  {
  }

  /** The source text of a token, as it is written in a program. */
  function Text(t: Token): string
  {
    match t
    case String(s) => ['"'] + s + ['"']
    case Identifier(n) => n
    case Keyword(kw) => kw
    case Number(l) => l
    case Operator(op) => op
    case Punctuation(c) => [c]
    case Boolean(_) => ""
    case Null => ""
  }

  /** A program that writes each token after a space. */
  function Render(ts: seq<Token>): string
  {
    if |ts| == 0 then "" else " " + Text(ts[0]) + Render(ts[1..])
  }

  lemma RenderStartsWithSpace(ts: seq<Token>)
    requires |ts| > 0
    ensures |Render(ts)| > 0 && Render(ts)[0] == ' '
  {
  }

  /** Where a space, a text and the rest after it sit in a program whose suffix they form. */
  lemma SpacedLayout(code: string, i: nat, s: string, r: string)
    requires i <= |code|
    requires code[i..] == " " + s + r
    ensures i + 1 + |s| <= |code| && code[i] == ' '
    ensures code[i + 1..i + 1 + |s|] == s
    ensures code[i + 1 + |s|..] == r
  {
    assert code[i..][1..1 + |s|] == s;
    assert code[i..][1 + |s|..] == r;
  }

  /** Where the text of a rendered token and the tokens after it sit in the program. */
  lemma RenderedLayout(code: string, i: nat, t: Token, rest: seq<Token>)
    requires i <= |code|
    requires code[i..] == " " + Text(t) + Render(rest)
    ensures i + 1 + |Text(t)| <= |code| && code[i] == ' '
    ensures code[i + 1..i + 1 + |Text(t)|] == Text(t)
    ensures code[i + 1 + |Text(t)|..] == Render(rest)
    ensures i + 1 + |Text(t)| == |code| || code[i + 1 + |Text(t)|] == ' '
  {
    var s, r := Text(t), Render(rest);
    SpacedLayout(code, i, s, r);
    var e := i + 1 + |s|;
    if |rest| > 0 {
      RenderStartsWithSpace(rest);
      assert code[e] == code[e..][0];
    }
  }

  /** A run of class `k` written after a space and followed by a space or the end is the longest run there. */
  lemma SpacedRun(code: string, i: nat, s: string, k: CharClass)
    requires i < |code| && code[i] == ' ' && !InClass(k, ' ') && |s| > 0
    requires forall m :: 0 <= m < |s| ==> InClass(k, s[m])
    requires i + 1 + |s| <= |code| && code[i + 1..i + 1 + |s|] == s
    requires i + 1 + |s| == |code| || code[i + 1 + |s|] == ' '
    ensures RunEnd(code, i, WhitespaceChars) == i + 1
    ensures code[i + 1] == s[0]
    ensures RunEnd(code, i + 1, k) == i + 1 + |s|
  {
    var a, e := i + 1, i + 1 + |s|;
    assert forall m :: a <= m < e ==> code[m] == s[m - a];
    assert code[a] == s[0];
    RunEndExact(code, i, a, WhitespaceChars);
    RunEndExact(code, a, e, k);
  }

  /** A word-like token (identifier, keyword, number, operator) followed by a space or the end is read as itself. */
  lemma NextTokenWord(code: string, i: nat, t: Token, k: CharClass)
    requires i < |code| && code[i] == ' '
    requires WellFormedToken(t) && (t.Identifier? || t.Keyword? || t.Number? || t.Operator?)
    requires k == (if t.Number? then NumberChars else if t.Operator? then OperatorChars else IdentifierChars)
    requires i + 1 + |Text(t)| <= |code| && code[i + 1..i + 1 + |Text(t)|] == Text(t)
    requires i + 1 + |Text(t)| == |code| || code[i + 1 + |Text(t)|] == ' '
    ensures NextToken(code, i) == Scanned(t, i + 1 + |Text(t)|)
  {
    var s := Text(t);
    assert forall m :: 0 <= m < |s| ==> InClass(k, s[m]);
    SpacedRun(code, i, s, k);
  }

  /** A string followed by a space or the end is read as itself, without its quotes. */
  lemma NextTokenString(code: string, i: nat, s: string)
    requires i < |code| && code[i] == ' '
    requires WellFormedToken(String(s))
    requires i + 3 + |s| <= |code| && code[i + 1..i + 3 + |s|] == ['"'] + s + ['"']
    ensures NextToken(code, i) == Scanned(String(s), i + 3 + |s|)
  {
    var a := i + 1;
    assert code[a] == '"';
    assert code[a + 1 + |s|] == '"';
    assert forall m :: a + 1 <= m < a + 1 + |s| ==> code[m] == s[m - a - 1];
    assert code[a + 1..a + 1 + |s|] == s;
    RunEndExact(code, i, a, WhitespaceChars);
    RunEndExact(code, a + 1, a + 1 + |s|, StringChars);
  }

  /** One rendered token is read back as itself. */
  lemma NextTokenRendered(code: string, i: nat, t: Token, rest: seq<Token>)
    requires i <= |code|
    requires WellFormedToken(t)
    requires code[i..] == " " + Text(t) + Render(rest)
    ensures NextToken(code, i) == Scanned(t, i + 1 + |Text(t)|)
  {
    RenderedLayout(code, i, t, rest);
    match t
    case String(s) =>
      NextTokenString(code, i, s);
    case Punctuation(c) =>
      assert code[i + 1] == c;
      RunEndExact(code, i, i + 1, WhitespaceChars);
    case Number(_) =>
      NextTokenWord(code, i, t, NumberChars);
    case Operator(_) =>
      NextTokenWord(code, i, t, OperatorChars);
    case Identifier(_) =>
      NextTokenWord(code, i, t, IdentifierChars);
    case Keyword(_) =>
      NextTokenWord(code, i, t, IdentifierChars);
  }

  /** Reading a rendered sequence of well-formed tokens from `i` gives the tokens back. */
  lemma {:induction false} LexRenderedAt(code: string, i: nat, ts: seq<Token>)
    requires i <= |code|
    requires forall t :: t in ts ==> WellFormedToken(t)
    requires code[i..] == Render(ts)
    ensures Lex(code, i) == Success(ts)
    decreases |ts|
  {
    if |ts| == 0 {
      LexAtEnd(code, i);
    } else {
      var j := RenderedFirstToken(code, i, ts);
      LexRenderedAt(code, j, ts[1..]);
      LexStep(code, i, j, ts);
    }
  }

  /** The first rendered token is read back, and the rest of the program renders the remaining tokens. */
  lemma RenderedFirstToken(code: string, i: nat, ts: seq<Token>) returns (j: nat)
    requires i <= |code| && |ts| > 0
    requires forall t :: t in ts ==> WellFormedToken(t)
    requires code[i..] == Render(ts)
    ensures i < j <= |code|
    ensures NextToken(code, i) == Scanned(ts[0], j)
    ensures code[j..] == Render(ts[1..])
    ensures forall t :: t in ts[1..] ==> WellFormedToken(t)
  {
    var t := ts[0];
    assert t in ts;
    assert Render(ts) == " " + Text(t) + Render(ts[1..]);
    NextTokenRendered(code, i, t, ts[1..]);
    RenderedLayout(code, i, t, ts[1..]);
    j := i + 1 + |Text(t)|;
    assert forall u :: u in ts[1..] ==> u in ts;
  }

  lemma LexAtEnd(code: string, i: nat)
    requires i == |code|
    ensures Lex(code, i) == Success([])
  {
    assert NextToken(code, i).AtEnd?;
  }

  lemma LexStep(code: string, i: nat, j: nat, ts: seq<Token>)
    requires i <= j <= |code| && |ts| > 0
    requires NextToken(code, i) == Scanned(ts[0], j)
    requires Lex(code, j) == Success(ts[1..])
    ensures Lex(code, i) == Success(ts)
  {
    assert [ts[0]] + ts[1..] == ts;
  }

  /** Rendering and then tokenising gives back any sequence of tokens the tokeniser can produce. */
  lemma LexRender(ts: seq<Token>)
    requires forall t :: t in ts ==> WellFormedToken(t)
    ensures Lex(Render(ts), 0) == Success(ts)
  {
    LexRenderedAt(Render(ts), 0, ts);
  }

  /** What `current` holds once the input is exhausted: the last token read, or the initial `Number(0.)`. */
  function Stale(ts: seq<Token>): Token
  {
    if |ts| == 0 then Number("0") else ts[|ts| - 1]
  }

  /** The token `peek` shows after `p` tokens have been read. */
  function PeekAt(ts: seq<Token>, p: nat): Token
  {
    if p < |ts| then ts[p] else Stale(ts)
  }

  /** The number of tokens read after one more `read`: at the end it stays put. */
  function Advance(ts: seq<Token>, p: nat): nat
  {
    if p < |ts| then p + 1 else p
  }

  /** A tokeniser over a program held as its characters. */
  class Tokeniser {
    const code: string
    var index: nat
    var current: Token
    var eof: bool
    /** The tokens of the whole program, when it tokenises. */
    ghost var tokens: seq<Token>
    /** How many of them `read` has returned. */
    ghost var cursor: nat

    /**
     * The state after `cursor` reads: `current` is the next token and the
     * rest of the input holds the ones after it; once they are all read,
     * `eof` is set and `current` keeps the last token.
     */
    ghost predicate Tracking()
      reads this
    {
      index <= |code| && Lex(code, 0) == Success(tokens) && cursor <= |tokens| &&
      (cursor < |tokens| ==> !eof && current == tokens[cursor] && Lex(code, index) == Success(tokens[cursor + 1..])) &&
      (cursor == |tokens| ==> eof && current == Stale(tokens) && index == |code|)
    }

    /** The stream before the first `read_next`. */
    constructor Init(source: string)
      ensures code == source && index == 0 && current == Number("0") && !eof
      ensures tokens == (if Lex(source, 0).Success? then Lex(source, 0).value else []) && cursor == 0
    {
      code := source;
      index := 0;
      current := Number("0");
      eof := false;
      tokens := if Lex(source, 0).Success? then Lex(source, 0).value else [];
      cursor := 0;
    }

    /** Skips the run of whitespace at the cursor. */
    method EatWhitespace()
      requires index <= |code|
      modifies this
      ensures index == RunEnd(code, old(index), WhitespaceChars)
      ensures index == |code| || !IsWhitespace(code[index])
      ensures current == old(current) && eof == old(eof) && tokens == old(tokens) && cursor == old(cursor)
    {
      while index < |code| && IsWhitespace(code[index])
        invariant old(index) <= index <= |code|
        invariant RunEnd(code, index, WhitespaceChars) == RunEnd(code, old(index), WhitespaceChars)
        invariant current == old(current) && eof == old(eof) && tokens == old(tokens) && cursor == old(cursor)
        decreases |code| - index
      {
        index := index + 1;
      }
    }

    /** Reads the longest run of operator characters; it must be an operator. */
    method ReadOperator() returns (r: Result<Token, LexError>)
      requires index <= |code|
      modifies this
      ensures index == RunEnd(code, old(index), OperatorChars)
      ensures r == if IsOperator(code[old(index)..index]) then Success(Operator(code[old(index)..index]))
                   else Failure(InvalidOperator(code[old(index)..index]))
      ensures current == old(current) && eof == old(eof) && tokens == old(tokens) && cursor == old(cursor)
    {
      var op: seq<char> := [];
      while index < |code| && IsOperatorChar(code[index])
        invariant old(index) <= index <= |code|
        invariant RunEnd(code, index, OperatorChars) == RunEnd(code, old(index), OperatorChars)
        invariant op == code[old(index)..index]
        invariant current == old(current) && eof == old(eof) && tokens == old(tokens) && cursor == old(cursor)
        decreases |code| - index
      {
        op := op + [code[index]];
        index := index + 1;
      }
      if !IsOperator(op) {
        return Failure(InvalidOperator(op));
      }
      return Success(Operator(op));
    }

    /** Reads the longest run of identifier characters: a keyword exactly when the run is one. */
    method ReadIdentifier() returns (t: Token)
      requires index <= |code|
      modifies this
      ensures index == RunEnd(code, old(index), IdentifierChars)
      ensures t == if IsKeyword(code[old(index)..index]) then Keyword(code[old(index)..index])
                   else Identifier(code[old(index)..index])
      ensures current == old(current) && eof == old(eof) && tokens == old(tokens) && cursor == old(cursor)
    {
      var ident: seq<char> := [];
      while index < |code| && IsIdentifier(code[index])
        invariant old(index) <= index <= |code|
        invariant RunEnd(code, index, IdentifierChars) == RunEnd(code, old(index), IdentifierChars)
        invariant ident == code[old(index)..index]
        invariant current == old(current) && eof == old(eof) && tokens == old(tokens) && cursor == old(cursor)
        decreases |code| - index
      {
        ident := ident + [code[index]];
        index := index + 1;
      }
      if IsKeyword(ident) {
        t := Keyword(ident);
      } else {
        t := Identifier(ident);
      }
    }

    /** Reads a string from its opening quote to its closing one; the quotes are not part of the token. */
    method ReadString() returns (r: Result<Token, LexError>)
      requires index < |code|
      modifies this
      ensures var e := RunEnd(code, old(index) + 1, StringChars);
        if e == |code| then r == Failure(UnterminatedString)
        else r == Success(String(code[old(index) + 1..e])) && index == e + 1
      ensures old(index) < index <= |code|
      ensures current == old(current) && eof == old(eof) && tokens == old(tokens) && cursor == old(cursor)
    {
      index := index + 1;
      var chars: seq<char> := [];
      while index < |code| && code[index] != '"'
        invariant old(index) + 1 <= index <= |code|
        invariant RunEnd(code, index, StringChars) == RunEnd(code, old(index) + 1, StringChars)
        invariant chars == code[old(index) + 1..index]
        invariant current == old(current) && eof == old(eof) && tokens == old(tokens) && cursor == old(cursor)
        decreases |code| - index
      {
        chars := chars + [code[index]];
        index := index + 1;
      }
      if index >= |code| {
        return Failure(UnterminatedString);
      }
      index := index + 1;
      return Success(String(chars));
    }

    /** Reads the longest run of number characters; `f64` parsing must accept it. */
    method ReadNumber() returns (r: Result<Token, LexError>)
      requires index <= |code|
      modifies this
      ensures index == RunEnd(code, old(index), NumberChars)
      ensures r == if ParsesAsFloat(code[old(index)..index]) then Success(Number(code[old(index)..index]))
                   else Failure(InvalidNumber(code[old(index)..index]))
      ensures current == old(current) && eof == old(eof) && tokens == old(tokens) && cursor == old(cursor)
    {
      var vc: seq<char> := [];
      while index < |code| && IsNumber(code[index])
        invariant old(index) <= index <= |code|
        invariant RunEnd(code, index, NumberChars) == RunEnd(code, old(index), NumberChars)
        invariant vc == code[old(index)..index]
        invariant current == old(current) && eof == old(eof) && tokens == old(tokens) && cursor == old(cursor)
        decreases |code| - index
      {
        vc := vc + [code[index]];
        index := index + 1;
      }
      if !ParsesAsFloat(vc) {
        return Failure(InvalidNumber(vc));
      }
      return Success(Number(vc));
    }

    /**
     * `read_next`: at the end of input it sets `eof` and keeps `current`;
     * otherwise `current` becomes the next token. The cursor never moves back.
     */
    method ReadNext() returns (err: Option<LexError>)
      requires index <= |code|
      modifies this
      ensures old(index) <= index <= |code|
      ensures NextToken(code, old(index)).AtEnd? ==>
                err == None && eof && current == old(current) && index == NextToken(code, old(index)).next
      ensures NextToken(code, old(index)).Scanned? ==>
                err == None && eof == old(eof) && current == NextToken(code, old(index)).token &&
                index == NextToken(code, old(index)).next
      ensures NextToken(code, old(index)).ScanError? ==> err == Some(NextToken(code, old(index)).error)
      ensures tokens == old(tokens) && cursor == old(cursor)
    {
      EatWhitespace();
      if index >= |code| {
        eof := true;
        return None;
      }
      var c := code[index];
      if c == '"' {
        var r := ReadString();
        if r.Failure? {
          return Some(r.error);
        }
        current := r.value;
      } else if IsIdentifierStart(c) {
        current := ReadIdentifier();
      } else if IsOperatorChar(c) {
        var r := ReadOperator();
        if r.Failure? {
          return Some(r.error);
        }
        current := r.value;
      } else if IsPunctuation(c) {
        current := Punctuation(c);
        index := index + 1;
      } else if IsNumber(c) {
        var r := ReadNumber();
        if r.Failure? {
          return Some(r.error);
        }
        current := r.value;
      } else {
        return Some(UnexpectedCharacter(c));
      }
      return None;
    }

    /** The current token; the state is not changed. */
    function Peek(): (t: Token)
      reads this
      ensures Tracking() ==> t == PeekAt(tokens, cursor)
    {
      current
    }

    /** Returns the current token and reads the next one. */
    method Read() returns (t: Token, err: Option<LexError>)
      requires index <= |code|
      modifies this
      ensures t == old(current)
      ensures old(index) <= index <= |code|
      ensures NextToken(code, old(index)).AtEnd? ==>
                err == None && eof && current == old(current) && index == NextToken(code, old(index)).next
      ensures NextToken(code, old(index)).Scanned? ==>
                err == None && eof == old(eof) && current == NextToken(code, old(index)).token &&
                index == NextToken(code, old(index)).next
      ensures NextToken(code, old(index)).ScanError? ==> err == Some(NextToken(code, old(index)).error)
      ensures old(Tracking()) ==>
                err == None && Tracking() && tokens == old(tokens) &&
                cursor == Advance(tokens, old(cursor)) && t == PeekAt(tokens, old(cursor))
    {
      ghost var wasTracking := Tracking();
      t := current;
      ghost var i0 := index;
      err := ReadNext();
      if wasTracking {
        if cursor < |tokens| {
          var rest := tokens[cursor + 1..];
          assert Lex(code, i0) == Success(rest);
          if |rest| == 0 {
            assert NextToken(code, i0).AtEnd?;
          } else {
            assert NextToken(code, i0).Scanned?;
            assert rest[0] == NextToken(code, i0).token;
            assert Lex(code, index) == Success(rest[1..]);
            assert rest[1..] == tokens[cursor + 2..];
          }
          cursor := cursor + 1;
        } else {
          assert NextToken(code, i0).AtEnd?;
        }
      }
    }
  }

  /**
   * `tokeniser::new`: a stream whose `current` is the first token. When the
   * whole program tokenises, the stream tracks its tokens from the first.
   */
  method New(source: string) returns (tk: Tokeniser, err: Option<LexError>)
    ensures fresh(tk) && tk.code == source
    ensures err == (if NextToken(source, 0).ScanError? then Some(NextToken(source, 0).error) else None)
    ensures NextToken(source, 0).Scanned? ==>
              !tk.eof && tk.current == NextToken(source, 0).token && tk.index == NextToken(source, 0).next
    ensures NextToken(source, 0).AtEnd? ==> tk.eof && tk.current == Number("0") && tk.index == |source|
    ensures Lex(source, 0).Success? ==> tk.Tracking() && tk.tokens == Lex(source, 0).value && tk.cursor == 0
  {
    tk := new Tokeniser.Init(source);
    err := tk.ReadNext();
    if Lex(source, 0).Success? {
      if |tk.tokens| > 0 {
        assert NextToken(source, 0).Scanned?;
        assert Lex(source, tk.index) == Success(tk.tokens[1..]);
      } else {
        assert NextToken(source, 0).AtEnd?;
      }
    }
  }
}
