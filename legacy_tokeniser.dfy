/**
 * The legacy tokeniser (src/parser/tokeniser.rs). It keeps one token of
 * lookahead in `current` and reads characters through a `CharStream`.
 *
 * None of its loops checks for the end of input: skipping whitespace, reading
 * a number, an identifier or a string each stops only at a character outside
 * its class, and indexing past the end panics. `Readable` states what a call
 * of `read_next` needs, and `NextState` what it does. A lexeme that
 * `str::parse::<f64>` rejects panics in the source; here it is an error.
 */
module LegacyTokeniser {
  import opened Wrappers
  import opened LegacyTokens
  import opened LegacyCharStream
  import Lexing

  datatype LegacyError =
    /** A run of digits and dots that `str::parse::<f64>` rejects. */
    | InvalidNumber(lexeme: string)

  /** The classes of characters the loops read runs of. */
  datatype LegacyClass = Spaces | Digits | Word | Unquoted

  predicate InLegacyClass(k: LegacyClass, c: char)
  {
    match k
    case Spaces => IsWhitespace(c)
    case Digits => IsNumber(c)
    case Word => IsIdentifier(c)
    case Unquoted => c != '"'
  }

  /** Some character at or after `i` is outside class `k`: a loop over `k` from `i` stops inside the input. */
  predicate Terminated(code: string, i: nat, k: LegacyClass)
  {
    exists j :: i <= j < |code| && !InLegacyClass(k, code[j])
  }

  /** Where a loop over class `k` from `i` stops: the first character at or after `i` outside the class. */
  function Run(code: string, i: nat, k: LegacyClass): (j: nat)
    requires Terminated(code, i, k)
    ensures i <= j < |code| && !InLegacyClass(k, code[j])
    ensures forall m :: i <= m < j ==> InLegacyClass(k, code[m])
    decreases |code| - i
  {
    if !InLegacyClass(k, code[i]) then i
    else
      assert Terminated(code, i + 1, k) by {
        var j :| i <= j < |code| && !InLegacyClass(k, code[j]);
        assert j != i;
      }
      Run(code, i + 1, k)
  }

  /** A run of class `k` from `i` to a character outside it ends exactly there. */
  lemma {:induction false} RunExact(code: string, i: nat, j: nat, k: LegacyClass)
    requires i <= j < |code| && !InLegacyClass(k, code[j])
    requires forall m :: i <= m < j ==> InLegacyClass(k, code[m])
    ensures Terminated(code, i, k) && Run(code, i, k) == j
    decreases j - i
  {
    if i < j {
      RunExact(code, i + 1, j, k);
    }
  }

  /** The token `read_identifier` makes of a run of identifier characters. */
  function WordToken(st: string): (t: Token)
    ensures t.Keyword? <==> st == "let" || st == "const"
  {
    if IsKeyword(st) then Keyword(st) else Identifier(st)
  }

  /**
   * What `read_next` needs not to read past the end: a non-whitespace
   * character, and after a number, a string's opening quote or an
   * identifier's first character, a character that ends it.
   */
  predicate Readable(code: string, i: nat)
  {
    Terminated(code, i, Spaces) &&
    var j := Run(code, i, Spaces);
    (IsNumber(code[j]) ==> Terminated(code, j, Digits)) &&
    (code[j] == '"' ==> Terminated(code, j + 1, Unquoted)) &&
    (IsIdentifierStart(code[j]) ==> Terminated(code, j, Word))
  }

  /**
   * `read_next` as a function of the input, the index and the current token:
   * the new current token and index. A number, a string and an identifier are
   * tried in that order; a character that starts none of them leaves the
   * current token as it was, with only the whitespace read.
   */
  function NextState(code: string, i: nat, current: Token): (r: Result<(Token, nat), LegacyError>)
    requires Readable(code, i)
    ensures r.Success? ==> i <= r.value.1 <= |code|
    ensures var c := code[Run(code, i, Spaces)];
            (IsNumber(c) || c == '"' || IsIdentifierStart(c)) && r.Success? ==> Run(code, i, Spaces) < r.value.1
    ensures var c := code[Run(code, i, Spaces)];
            !IsNumber(c) && c != '"' && !IsIdentifierStart(c) ==> r == Success((current, Run(code, i, Spaces)))
    ensures code[Run(code, i, Spaces)] == '"' ==>
              r.Success? && r.value.0.String? && forall m :: 0 <= m < |r.value.0.s| ==> r.value.0.s[m] != '"'
    ensures IsIdentifierStart(code[Run(code, i, Spaces)]) ==>
              r.Success? && (r.value.0.Keyword? || (r.value.0.Identifier? && !IsKeyword(r.value.0.name)))
    ensures IsNumber(code[Run(code, i, Spaces)]) && r.Success? ==> r.value.0.Number?
  {
    var j := Run(code, i, Spaces);
    var c := code[j];
    if IsNumber(c) then
      var e := Run(code, j, Digits);
      var st := code[j..e];
      if Lexing.ParsesAsFloat(st) then Success((Number(st), e)) else Failure(InvalidNumber(st))
    else if c == '"' then
      var e := Run(code, j + 1, Unquoted);
      Success((String(code[j + 1..e]), e + 1))
    else if IsIdentifierStart(c) then
      var e := Run(code, j, Word);
      Success((WordToken(code[j..e]), e))
    else Success((current, j))
  }

  /** A character that starts no token leaves the current token in place; only the whitespace before it is read. */
  lemma UnclassifiedKeepsCurrent(code: string, i: nat, current: Token)
    requires Readable(code, i)
    requires var c := code[Run(code, i, Spaces)]; !IsNumber(c) && c != '"' && !IsIdentifierStart(c)
    ensures NextState(code, i, current).Success?
    ensures NextState(code, i, current).value.0 == current
    ensures forall m :: i <= m < NextState(code, i, current).value.1 ==> IsWhitespace(code[m])
  {
  }

  /** An identifier is the longest run of identifier characters, and it is a keyword exactly when it is `let` or `const`. */
  lemma IdentifierIsLongestRun(code: string, i: nat, current: Token)
    requires Readable(code, i) && IsIdentifierStart(code[Run(code, i, Spaces)])
    ensures var j := Run(code, i, Spaces);
            var r := NextState(code, i, current);
            r.Success? && r.value.1 < |code| && !IsIdentifier(code[r.value.1]) &&
            (r.value.0.Keyword? <==> code[j..r.value.1] == "let" || code[j..r.value.1] == "const") &&
            (r.value.0.Keyword? || r.value.0 == Identifier(code[j..r.value.1]))
  {
  }

  class Tokeniser {
    const code: CharStream
    var current: Token

    /** The tokeniser over a stream, before its first `read_next`: the current token is the number 0. */
    constructor (stream: CharStream)
      ensures code == stream && current == Number("0")
    {
      code := stream;
      current := Number("0");
    }

    /** `eat_whitespace`: skips to the first character that is not whitespace. */
    method EatWhitespace()
      requires Terminated(code.code, code.index, Spaces)
      modifies code
      ensures code.index == Run(code.code, old(code.index), Spaces)
    {
      var start := code.index;
      var c := code.Peek();
      while IsWhitespace(c)
        invariant start <= code.index < |code.code| && c == code.code[code.index]
        invariant forall m :: start <= m < code.index ==> IsWhitespace(code.code[m])
        invariant Terminated(code.code, code.index, Spaces)
        invariant Run(code.code, start, Spaces) == Run(code.code, code.index, Spaces)
        decreases |code.code| - code.index
      {
        var _ := code.Read();
        assert Terminated(code.code, code.index, Spaces) by {
          var j :| code.index - 1 <= j < |code.code| && !IsWhitespace(code.code[j]);
          assert j != code.index - 1;
        }
        c := code.Peek();
      }
    }

    /** `read_identifier`: the longest run of identifier characters, as a keyword or an identifier. */
    method ReadIdentifier() returns (t: Token)
      requires Terminated(code.code, code.index, Word)
      modifies code
      ensures code.index == Run(code.code, old(code.index), Word)
      ensures t == WordToken(code.code[old(code.index)..code.index])
    {
      var start := code.index;
      var ident: seq<char> := [];
      var c := code.Peek();
      while IsIdentifier(c)
        invariant start <= code.index < |code.code| && c == code.code[code.index]
        invariant ident == code.code[start..code.index]
        invariant Terminated(code.code, code.index, Word)
        invariant Run(code.code, start, Word) == Run(code.code, code.index, Word)
        decreases |code.code| - code.index
      {
        var r := code.Read();
        ident := ident + [r];
        assert Terminated(code.code, code.index, Word) by {
          var j :| code.index - 1 <= j < |code.code| && !IsIdentifier(code.code[j]);
          assert j != code.index - 1;
        }
        c := code.Peek();
      }
      t := WordToken(ident);
    }

    /** `read_string`: the opening quote, the characters up to the closing quote, and the closing quote. */
    method ReadString() returns (t: Token)
      requires code.index < |code.code| && Terminated(code.code, code.index + 1, Unquoted)
      modifies code
      ensures code.index == Run(code.code, old(code.index) + 1, Unquoted) + 1
      ensures t == String(code.code[old(code.index) + 1..code.index - 1])
    {
      var _ := code.Read();
      var start := code.index;
      var chars: seq<char> := [];
      var c := code.Peek();
      while c != '"'
        invariant start <= code.index < |code.code| && c == code.code[code.index]
        invariant chars == code.code[start..code.index]
        invariant Terminated(code.code, code.index, Unquoted)
        invariant Run(code.code, start, Unquoted) == Run(code.code, code.index, Unquoted)
        decreases |code.code| - code.index
      {
        var r := code.Read();
        chars := chars + [r];
        assert Terminated(code.code, code.index, Unquoted) by {
          var j :| code.index - 1 <= j < |code.code| && code.code[j] == '"';
          assert j != code.index - 1;
        }
        c := code.Peek();
      }
      var _ := code.Read();
      t := String(chars);
    }

    /** `read_number`: the longest run of digits and dots, which must parse as a float. */
    method ReadNumber() returns (t: Token, err: Option<LegacyError>)
      requires Terminated(code.code, code.index, Digits)
      modifies code
      ensures code.index == Run(code.code, old(code.index), Digits)
      ensures var st := code.code[old(code.index)..code.index];
              if Lexing.ParsesAsFloat(st) then err == None && t == Number(st) else err == Some(InvalidNumber(st))
    {
      var start := code.index;
      var vc: seq<char> := [];
      var c := code.Peek();
      while IsNumber(c)
        invariant start <= code.index < |code.code| && c == code.code[code.index]
        invariant vc == code.code[start..code.index]
        invariant Terminated(code.code, code.index, Digits)
        invariant Run(code.code, start, Digits) == Run(code.code, code.index, Digits)
        decreases |code.code| - code.index
      {
        var r := code.Read();
        vc := vc + [r];
        assert Terminated(code.code, code.index, Digits) by {
          var j :| code.index - 1 <= j < |code.code| && !IsNumber(code.code[j]);
          assert j != code.index - 1;
        }
        c := code.Peek();
      }
      if Lexing.ParsesAsFloat(vc) {
        return Number(vc), None;
      }
      return Number("0"), Some(InvalidNumber(vc));
    }

    /** `read_next`: the next token becomes the current one, as `NextState` says. */
    method ReadNext() returns (err: Option<LegacyError>)
      requires Readable(code.code, code.index)
      modifies this, code
      ensures NextState(code.code, old(code.index), old(current)).Success? ==>
                err == None && (current, code.index) == NextState(code.code, old(code.index), old(current)).value
      ensures NextState(code.code, old(code.index), old(current)).Failure? ==>
                err == Some(NextState(code.code, old(code.index), old(current)).error)
    {
      EatWhitespace();
      var c := code.Peek();
      err := None;
      if IsNumber(c) {
        var t;
        t, err := ReadNumber();
        if err == None {
          current := t;
        }
      } else if c == '"' {
        current := ReadString();
      } else if IsIdentifierStart(c) {
        current := ReadIdentifier();
      }
    }

    /** `peek`: the current token; nothing changes. */
    method Peek() returns (t: Token)
      ensures t == current
    {
      t := current;
    }

    /** `read`: the current token, after which the next token becomes current. */
    method Read() returns (t: Token, err: Option<LegacyError>)
      requires Readable(code.code, code.index)
      modifies this, code
      ensures t == old(current)
      ensures NextState(code.code, old(code.index), old(current)).Success? ==>
                err == None && (current, code.index) == NextState(code.code, old(code.index), old(current)).value
      ensures NextState(code.code, old(code.index), old(current)).Failure? ==>
                err == Some(NextState(code.code, old(code.index), old(current)).error)
    {
      t := current;
      err := ReadNext();
    }
  }

  /** `new`: a tokeniser over `source` that has already read its first token. */
  method New(source: string) returns (r: Result<Tokeniser, LegacyError>)
    requires Readable(source, 0)
    ensures r.Success? ==> fresh(r.value) && fresh(r.value.code) && r.value.code.code == source
    ensures r.Success? <==> NextState(source, 0, Number("0")).Success?
    ensures r.Success? ==> (r.value.current, r.value.code.index) == NextState(source, 0, Number("0")).value
    ensures r.Failure? ==> r.error == NextState(source, 0, Number("0")).error
  {
    var cs := new CharStream(source);
    var tk := new Tokeniser(cs);
    var err := tk.ReadNext();
    if err.Some? {
      return Failure(err.value);
    }
    return Success(tk);
  }

  /** The program of the legacy demo driver. */
  const DemoSource: string := " 3.14 \"Hello, world!\" 71 hello let "

  /** `3.14` and `71` are runs of digits and dots that parse as floats. */
  lemma DemoNumbersParse()
    ensures Lexing.ParsesAsFloat("3.14") && Lexing.ParsesAsFloat("71")
  {
    assert Lexing.DotCount("3.14") == 1 by {
      assert "3.14"[..3] == "3.1" && "3.1"[..2] == "3." && "3."[..1] == "3" && "3"[..0] == "";
    }
    assert "3.14"[0] == '3';
    assert Lexing.DotCount("71") == 0 by {
      assert "71"[..1] == "7" && "7"[..0] == "";
    }
    assert "71"[0] == '7';
  }

  /** The first token of the demo program is the number `3.14`. */
  lemma DemoFirst(cur: Token)
    ensures Readable(DemoSource, 0) && NextState(DemoSource, 0, cur) == Success((Number("3.14"), 5))
  {
    var d := DemoSource;
    assert |d| == 35 && d[0] == ' ';
    assert d[1] == '3';
    assert d[2] == '.';
    assert d[3] == '1';
    assert d[4] == '4';
    assert d[5] == ' ';
    RunExact(d, 0, 1, Spaces);
    RunExact(d, 1, 5, Digits);
    assert d[1..5] == "3.14";
    DemoNumbersParse();
  }

  /** No quote between the demo program's quotes at 6 and 20. */
  lemma DemoUnquoted()
    ensures DemoSource[6] == '"' && DemoSource[20] == '"'
    ensures forall m :: 7 <= m < 20 ==> DemoSource[m] != '"'
  {
    assert DemoSource[7] == 'H';
    assert DemoSource[8] == 'e';
    assert DemoSource[9] == 'l';
    assert DemoSource[10] == 'l';
    assert DemoSource[11] == 'o';
    assert DemoSource[12] == ',';
    assert DemoSource[13] == ' ';
    assert DemoSource[14] == 'w';
    assert DemoSource[15] == 'o';
    assert DemoSource[16] == 'r';
    assert DemoSource[17] == 'l';
    assert DemoSource[18] == 'd';
    assert DemoSource[19] == '!';
  }

  /** The characters between the demo program's quotes. */
  lemma DemoText()
    ensures DemoSource[7..20] == "Hello, world!"
  {
    assert DemoSource[7] == 'H';
    assert DemoSource[8] == 'e';
    assert DemoSource[9] == 'l';
    assert DemoSource[10] == 'l';
    assert DemoSource[11] == 'o';
    assert DemoSource[12] == ',';
    assert DemoSource[13] == ' ';
    assert DemoSource[14] == 'w';
    assert DemoSource[15] == 'o';
    assert DemoSource[16] == 'r';
    assert DemoSource[17] == 'l';
    assert DemoSource[18] == 'd';
    assert DemoSource[19] == '!';
  }

  /** Then the string `Hello, world!`, without its quotes. */
  lemma DemoSecond(cur: Token)
    ensures Readable(DemoSource, 5) && NextState(DemoSource, 5, cur) == Success((String("Hello, world!"), 21))
  {
    var d := DemoSource;
    RunExact(d, 5, 6, Spaces);
    DemoUnquoted();
    DemoText();
    RunExact(d, 7, 20, Unquoted);
  }

  /** Then the number `71`. */
  lemma DemoThird(cur: Token)
    ensures Readable(DemoSource, 21) && NextState(DemoSource, 21, cur) == Success((Number("71"), 24))
  {
    var d := DemoSource;
    assert |d| == 35 && d[21] == ' ';
    assert d[22] == '7';
    assert d[23] == '1';
    assert d[24] == ' ';
    RunExact(d, 21, 22, Spaces);
    RunExact(d, 22, 24, Digits);
    assert d[22..24] == "71";
    DemoNumbersParse();
  }

  /** Then the identifier `hello`. */
  lemma DemoFourth(cur: Token)
    ensures Readable(DemoSource, 24) && NextState(DemoSource, 24, cur) == Success((Identifier("hello"), 30))
  {
    var d := DemoSource;
    assert |d| == 35 && d[24] == ' ';
    assert d[25] == 'h';
    assert d[26] == 'e';
    assert d[27] == 'l';
    assert d[28] == 'l';
    assert d[29] == 'o';
    assert d[30] == ' ';
    RunExact(d, 24, 25, Spaces);
    RunExact(d, 25, 30, Word);
    assert d[25..30] == "hello";
  }

  /** Then the keyword `let`, after which only a space is left: a further `read_next` would run past the end. */
  lemma DemoFifth(cur: Token)
    ensures Readable(DemoSource, 30) && NextState(DemoSource, 30, cur) == Success((Keyword("let"), 34))
    ensures !Readable(DemoSource, 34)
  {
    var d := DemoSource;
    assert |d| == 35 && d[30] == ' ';
    assert d[31] == 'l';
    assert d[32] == 'e';
    assert d[33] == 't';
    RunExact(d, 30, 31, Spaces);
    RunExact(d, 31, 34, Word);
    assert d[31..34] == "let";
    assert |d| == 35 && d[34] == ' ';
  }

  /**
   * The legacy demo driver: a new tokeniser over the demo program, four
   * `read`s and a `peek`.
   */
  method Demo() returns (tokens: seq<Token>)
    ensures tokens == [Number("3.14"), String("Hello, world!"), Number("71"), Identifier("hello"), Keyword("let")]
  {
    DemoFirst(Number("0"));
    var r := New(DemoSource);
    var tk := r.value;
    DemoSecond(tk.current);
    var t1, _ := tk.Read();
    DemoThird(tk.current);
    var t2, _ := tk.Read();
    DemoFourth(tk.current);
    var t3, _ := tk.Read();
    DemoFifth(tk.current);
    var t4, _ := tk.Read();
    var t5 := tk.Peek();
    tokens := [t1, t2, t3, t4, t5];
  }
}
