/**
 * What the grammar of src/parsing/parser.rs means for whole inputs:
 * associativity and precedence of binary operators, right-associative
 * assignment, brackets, declarations, object literals, calls and property
 * accesses, and where statements and expressions are rejected.
 */
module ParserProperties {
  import opened Wrappers
  import opened Tokens
  import opened Lexing
  import opened Ast
  import opened ParserHelpers
  import opened Parsing

  /** Tokens that form an operand on their own: a string, a number or an identifier. */
  predicate IsOperandToken(t: Token)
  {
    t.String? || t.Number? || t.Identifier?
  }

  /** The leaf `parse_atom` builds for an operand token. */
  function OperandNode(t: Token): (n: ASTNode)
    requires IsOperandToken(t)
    ensures WellFormedNode(n)
  {
    if t.String? then ASTNode.String(t.s)
    else if t.Number? then ASTNode.Number(t.lexeme)
    else ASTNode.Identifier(t.name)
  }

  /** A token that starts neither a property access nor a call. */
  predicate EndsPostfix(t: Token)
  {
    t != Punctuation('.') && t != Punctuation('(')
  }

  /** A token after which a component is complete: no access, call, assignment or binary operator follows. */
  predicate EndsComponent(t: Token)
  {
    EndsPostfix(t) && !t.Operator?
  }

  /** Before a token that starts no access or call, the postfix loop builds nothing and reads nothing. */
  lemma {:induction false} NoPostfix(ts: seq<Token>, p: nat, n: ASTNode)
    requires p <= |ts| && WellFormedNode(n) && EndsPostfix(PeekAt(ts, p))
    ensures Postfix(ts, p, n) == Parsed(n, p)
  {
    assert AccessTail(ts, p, n) == Parsed((false, n), p);
    assert CallTail(ts, p, n) == Parsed((false, n), p);
  }

  /** Before a token that continues nothing, every tail of `parse_component` returns its node and reads nothing. */
  lemma {:induction false} Settled(ts: seq<Token>, p: nat, n: ASTNode, prec: int)
    requires p <= |ts| && WellFormedNode(n) && EndsComponent(PeekAt(ts, p))
    ensures Postfix(ts, p, n) == Parsed(n, p)
    ensures AssignmentTail(ts, p, n) == Parsed(n, p)
    ensures BinaryTail(ts, p, n, prec) == Parsed(n, p)
  {
    NoPostfix(ts, p, n);
  }

  /**
   * An operand that no access, call or assignment follows: the component is
   * its leaf followed by the binary operators that bind tighter than `prec`.
   */
  lemma {:induction false} Operand(ts: seq<Token>, p: nat, acceptStatements: bool, prec: int)
    requires p < |ts| && IsOperandToken(ts[p])
    requires EndsPostfix(PeekAt(ts, p + 1))
    requires !(PeekAt(ts, p + 1).Operator? && IsAssignmentOperator(PeekAt(ts, p + 1).op))
    ensures Component(ts, p, acceptStatements, prec) == BinaryTail(ts, p + 1, OperandNode(ts[p]), prec)
  {
    var n := OperandNode(ts[p]);
    assert Atom(ts, p, acceptStatements) == Parsed(n, p + 1);
    NoPostfix(ts, p + 1, n);
    assert AssignmentTail(ts, p + 1, n) == Parsed(n, p + 1);
  }

  /** The last operand of the input: the component is its leaf and the input is read to the end. */
  lemma {:induction false} LastOperand(ts: seq<Token>, acceptStatements: bool, prec: int)
    requires |ts| > 0 && IsOperandToken(ts[|ts| - 1])
    ensures Component(ts, |ts| - 1, acceptStatements, prec) == Parsed(OperandNode(ts[|ts| - 1]), |ts|)
  {
    Operand(ts, |ts| - 1, acceptStatements, prec);
    Settled(ts, |ts|, OperandNode(ts[|ts| - 1]), prec);
  }

  /** A statement that reads the whole input leaves nothing for the statement loop. */
  lemma {:induction false} OneStatementLoop(ts: seq<Token>, n: ASTNode)
    requires |ts| > 0 && Component(ts, 0, true, 0) == Parsed(n, |ts|)
    ensures BlockLoop(ts, 0, []) == Parsed([n], |ts|)
  {
    var empty: seq<ASTNode> := [];
    assert BlockLoop(ts, 0, empty) == BlockLoop(ts, |ts|, empty + [n]);
    assert empty + [n] == [n];
  }

  /** An expression statement that reads the whole input is the program's one statement. */
  lemma {:induction false} SingleStatement(ts: seq<Token>, n: ASTNode)
    requires |ts| > 0 && Component(ts, 0, true, 0) == Parsed(n, |ts|)
    ensures Program(ts) == Success([n])
  {
    OneStatementLoop(ts, n);
    assert Block(ts, 0, false, false) == Parsed(BlockStatement([n]), |ts|);
  }

  /** A binary operator is never an assignment operator. */
  lemma BinaryIsNotAssignment(s: string)
    requires IsBinaryOperator(s)
    ensures !IsAssignmentOperator(s)
  {
  }

  /** A binary operator that binds tighter than `myPrecedence` takes the component after it as its right operand. */
  lemma {:induction false} BinaryStep(ts: seq<Token>, p: nat, me: ASTNode, myPrecedence: int, them: ASTNode, q: nat)
    requires p < |ts| && WellFormedNode(me) && WellFormedNode(them) && q <= |ts|
    requires ts[p].Operator? && IsBinaryOperator(ts[p].op) && Precedence(ts[p].op) > myPrecedence
    requires Component(ts, p + 1, false, Precedence(ts[p].op)) == Parsed(them, q)
    ensures BinaryTail(ts, p, me, myPrecedence) == BinaryTail(ts, q, BinaryNode(BinaryProperties(me, ts[p].op, them)), myPrecedence)
  {
  }

  /** A binary operator that binds no tighter than `myPrecedence` ends the binary tail. */
  lemma {:induction false} BinaryStop(ts: seq<Token>, p: nat, me: ASTNode, myPrecedence: int)
    requires p < |ts| && WellFormedNode(me)
    requires ts[p].Operator? && Precedence(ts[p].op) <= myPrecedence
    ensures BinaryTail(ts, p, me, myPrecedence) == Parsed(me, p)
  {
  }

  /** After `x`, the tail `o1 y o2 z` with `o2` binding no tighter than `o1` folds to the left. */
  lemma {:induction false} LeftLeaningTail(ts: seq<Token>, X: ASTNode, o1: string, y: Token, o2: string, z: Token)
    requires |ts| == 5 && ts[1] == Operator(o1) && ts[2] == y && ts[3] == Operator(o2) && ts[4] == z
    requires WellFormedNode(X) && IsOperandToken(y) && IsOperandToken(z)
    requires IsBinaryOperator(o1) && IsBinaryOperator(o2) && Precedence(o2) <= Precedence(o1)
    ensures BinaryTail(ts, 1, X, 0) ==
            Parsed(BinaryNode(BinaryProperties(BinaryNode(BinaryProperties(X, o1, OperandNode(y))), o2, OperandNode(z))), 5)
  {
    BinaryIsNotAssignment(o2);
    var Y, Z := OperandNode(y), OperandNode(z);
    var p1 := Precedence(o1);
    var left := BinaryNode(BinaryProperties(X, o1, Y));
    Operand(ts, 2, false, p1);
    BinaryStop(ts, 3, Y, p1);
    BinaryStep(ts, 1, X, 0, Y, 3);
    LastOperand(ts, false, Precedence(o2));
    BinaryStep(ts, 3, left, 0, Z, 5);
    Settled(ts, 5, BinaryNode(BinaryProperties(left, o2, Z)), 0);
  }

  /**
   * `x o1 y o2 z` when `o2` binds no tighter than `o1`: the tree leans left,
   * so operators of equal precedence associate to the left.
   */
  lemma {:induction false} ThreeOperandsLeft(ts: seq<Token>, x: Token, o1: string, y: Token, o2: string, z: Token, acceptStatements: bool)
    requires ts == [x, Operator(o1), y, Operator(o2), z]
    requires IsOperandToken(x) && IsOperandToken(y) && IsOperandToken(z)
    requires IsBinaryOperator(o1) && IsBinaryOperator(o2) && Precedence(o2) <= Precedence(o1)
    ensures Component(ts, 0, acceptStatements, 0) ==
            Parsed(BinaryNode(BinaryProperties(
                     BinaryNode(BinaryProperties(OperandNode(x), o1, OperandNode(y))), o2, OperandNode(z))), 5)
  {
    assert |ts| == 5 && ts[0] == x && ts[1] == Operator(o1) && ts[2] == y && ts[3] == Operator(o2) && ts[4] == z;
    BinaryIsNotAssignment(o1);
    Operand(ts, 0, acceptStatements, 0);
    LeftLeaningTail(ts, OperandNode(x), o1, y, o2, z);
  }

  /** After `x`, the tail `o1 y o2 z` with `o2` binding tighter than `o1` nests to the right. */
  lemma {:induction false} RightLeaningTail(ts: seq<Token>, X: ASTNode, o1: string, y: Token, o2: string, z: Token)
    requires |ts| == 5 && ts[1] == Operator(o1) && ts[2] == y && ts[3] == Operator(o2) && ts[4] == z
    requires WellFormedNode(X) && IsOperandToken(y) && IsOperandToken(z)
    requires IsBinaryOperator(o1) && IsBinaryOperator(o2) && Precedence(o2) > Precedence(o1)
    ensures BinaryTail(ts, 1, X, 0) ==
            Parsed(BinaryNode(BinaryProperties(X, o1, BinaryNode(BinaryProperties(OperandNode(y), o2, OperandNode(z))))), 5)
  {
    var right := BinaryNode(BinaryProperties(OperandNode(y), o2, OperandNode(z)));
    var whole := BinaryNode(BinaryProperties(X, o1, right));
    TighterRightOperand(ts, Precedence(o1), y, o2, z);
    BinaryStep(ts, 1, X, 0, right, 5);
    assert BinaryTail(ts, 1, X, 0) == BinaryTail(ts, 5, whole, 0);
    Settled(ts, 5, whole, 0);
  }

  /** The right operand `y o2 z` of an operator of precedence `p1` that `o2` binds tighter than. */
  lemma {:induction false} TighterRightOperand(ts: seq<Token>, p1: int, y: Token, o2: string, z: Token)
    requires |ts| == 5 && ts[2] == y && ts[3] == Operator(o2) && ts[4] == z
    requires IsOperandToken(y) && IsOperandToken(z)
    requires IsBinaryOperator(o2) && Precedence(o2) > p1
    ensures Component(ts, 2, false, p1) == Parsed(BinaryNode(BinaryProperties(OperandNode(y), o2, OperandNode(z))), 5)
  {
    BinaryIsNotAssignment(o2);
    var Y, Z := OperandNode(y), OperandNode(z);
    Operand(ts, 2, false, p1);
    LastOperand(ts, false, Precedence(o2));
    BinaryStep(ts, 3, Y, p1, Z, 5);
    Settled(ts, 5, BinaryNode(BinaryProperties(Y, o2, Z)), p1);
  }

  /** `x o1 y o2 z` when `o2` binds tighter than `o1`: `y o2 z` is the right operand of `o1`. */
  lemma {:induction false} ThreeOperandsRight(ts: seq<Token>, x: Token, o1: string, y: Token, o2: string, z: Token, acceptStatements: bool)
    requires ts == [x, Operator(o1), y, Operator(o2), z]
    requires IsOperandToken(x) && IsOperandToken(y) && IsOperandToken(z)
    requires IsBinaryOperator(o1) && IsBinaryOperator(o2) && Precedence(o2) > Precedence(o1)
    ensures Component(ts, 0, acceptStatements, 0) ==
            Parsed(BinaryNode(BinaryProperties(
                     OperandNode(x), o1, BinaryNode(BinaryProperties(OperandNode(y), o2, OperandNode(z))))), 5)
  {
    assert |ts| == 5 && ts[0] == x && ts[1] == Operator(o1) && ts[2] == y && ts[3] == Operator(o2) && ts[4] == z;
    BinaryIsNotAssignment(o1);
    Operand(ts, 0, acceptStatements, 0);
    assert Component(ts, 0, acceptStatements, 0) == BinaryTail(ts, 1, OperandNode(x), 0);
    RightLeaningTail(ts, OperandNode(x), o1, y, o2, z);
  }

  /** `1 - 2 - 3` is `(1 - 2) - 3`. */
  lemma {:induction false} SubtractionAssociatesLeft(ts: seq<Token>)
    requires ts == [Token.Number("1"), Operator("-"), Token.Number("2"), Operator("-"), Token.Number("3")]
    ensures Program(ts) ==
            Success([BinaryNode(BinaryProperties(
                       BinaryNode(BinaryProperties(ASTNode.Number("1"), "-", ASTNode.Number("2"))), "-", ASTNode.Number("3")))])
  {
    ThreeOperandsLeft(ts, Token.Number("1"), "-", Token.Number("2"), "-", Token.Number("3"), true);
    SingleStatement(ts, BinaryNode(BinaryProperties(
                          BinaryNode(BinaryProperties(ASTNode.Number("1"), "-", ASTNode.Number("2"))), "-", ASTNode.Number("3"))));
  }

  /** `3 + 4 * 2` is `3 + (4 * 2)`. */
  lemma {:induction false} ProductBindsTighter(ts: seq<Token>)
    requires ts == [Token.Number("3"), Operator("+"), Token.Number("4"), Operator("*"), Token.Number("2")]
    ensures Program(ts) ==
            Success([BinaryNode(BinaryProperties(
                       ASTNode.Number("3"), "+", BinaryNode(BinaryProperties(ASTNode.Number("4"), "*", ASTNode.Number("2")))))])
  {
    ThreeOperandsRight(ts, Token.Number("3"), "+", Token.Number("4"), "*", Token.Number("2"), true);
    SingleStatement(ts, BinaryNode(BinaryProperties(
                          ASTNode.Number("3"), "+", BinaryNode(BinaryProperties(ASTNode.Number("4"), "*", ASTNode.Number("2"))))));
  }

  /** A first statement that fails makes the whole program fail with its error. */
  lemma {:induction false} FailedStatement(ts: seq<Token>, e: SyntaxError)
    requires |ts| > 0 && Component(ts, 0, true, 0) == Failed(e)
    ensures Program(ts) == Failure(e)
  {
    assert BlockLoop(ts, 0, []) == Failed(e);
  }

  /**
   * An operand followed by an assignment operator: the component is an
   * assignment whose right side is the whole component after the operator,
   * read at precedence 0.
   */
  lemma {:induction false} AssignmentOperand(ts: seq<Token>, p: nat, acceptStatements: bool, prec: int, rhs: ASTNode, q: nat)
    requires p + 1 < |ts| && IsOperandToken(ts[p])
    requires ts[p + 1].Operator? && IsAssignmentOperator(ts[p + 1].op)
    requires Component(ts, p + 2, false, 0) == Parsed(rhs, q) && q <= |ts|
    requires EndsComponent(PeekAt(ts, q))
    ensures Component(ts, p, acceptStatements, prec) ==
            Parsed(Assignment(BinaryProperties(OperandNode(ts[p]), ts[p + 1].op, rhs)), q)
  {
    var n := OperandNode(ts[p]);
    assert Atom(ts, p, acceptStatements) == Parsed(n, p + 1);
    NoPostfix(ts, p + 1, n);
    var a := Assignment(BinaryProperties(n, ts[p + 1].op, rhs));
    assert AssignmentTail(ts, p + 1, n) == Parsed(a, q);
    Settled(ts, q, a, prec);
  }

  /** `x = y = z` is `x = (y = z)`: assignment associates to the right. */
  lemma {:induction false} AssignmentAssociatesRight(ts: seq<Token>, x: Token, a1: string, y: Token, a2: string, z: Token)
    requires ts == [x, Operator(a1), y, Operator(a2), z]
    requires IsOperandToken(x) && IsOperandToken(y) && IsOperandToken(z)
    requires IsAssignmentOperator(a1) && IsAssignmentOperator(a2)
    ensures Program(ts) ==
            Success([Assignment(BinaryProperties(
                       OperandNode(x), a1, Assignment(BinaryProperties(OperandNode(y), a2, OperandNode(z)))))])
  {
    LastOperand(ts, false, 0);
    AssignmentOperand(ts, 2, false, 0, OperandNode(z), 5);
    var inner := Assignment(BinaryProperties(OperandNode(y), a2, OperandNode(z)));
    AssignmentOperand(ts, 0, true, 0, inner, 5);
    SingleStatement(ts, Assignment(BinaryProperties(OperandNode(x), a1, inner)));
  }

  /** `x = y o z`: the right side of an assignment is the whole binary expression after it. */
  lemma {:induction false} AssignmentTakesWholeExpression(ts: seq<Token>, x: Token, a: string, y: Token, o: string, z: Token)
    requires ts == [x, Operator(a), y, Operator(o), z]
    requires IsOperandToken(x) && IsOperandToken(y) && IsOperandToken(z)
    requires IsAssignmentOperator(a) && IsBinaryOperator(o)
    ensures Program(ts) ==
            Success([Assignment(BinaryProperties(
                       OperandNode(x), a, BinaryNode(BinaryProperties(OperandNode(y), o, OperandNode(z)))))])
  {
    var Y, Z := OperandNode(y), OperandNode(z);
    LastOperand(ts, false, Precedence(o));
    Operand(ts, 2, false, 0);
    var rhs := BinaryNode(BinaryProperties(Y, o, Z));
    Settled(ts, 5, rhs, 0);
    assert Component(ts, 2, false, 0) == Parsed(rhs, 5);
    AssignmentOperand(ts, 0, true, 0, rhs, 5);
    SingleStatement(ts, Assignment(BinaryProperties(OperandNode(x), a, rhs)));
  }

  /** `(x o1 y)` at the start of `(x o1 y) o2 z` is one atom: the bracketed expression with both brackets read. */
  lemma {:induction false} BracketedAtom(ts: seq<Token>, x: Token, o1: string, y: Token)
    requires |ts| == 7 && ts[0] == Punctuation('(') && ts[1] == x && ts[2] == Operator(o1) && ts[3] == y
    requires ts[4] == Punctuation(')') && ts[5].Operator?
    requires IsOperandToken(x) && IsOperandToken(y) && IsBinaryOperator(o1)
    ensures Atom(ts, 0, true) == Parsed(BinaryNode(BinaryProperties(OperandNode(x), o1, OperandNode(y))), 5)
  {
    BinaryIsNotAssignment(o1);
    var X, Y := OperandNode(x), OperandNode(y);
    var p1 := Precedence(o1);
    Operand(ts, 3, false, p1);
    Settled(ts, 4, Y, p1);
    Operand(ts, 1, true, 0);
    var inner := BinaryNode(BinaryProperties(X, o1, Y));
    BinaryStep(ts, 2, X, 0, Y, 4);
    Settled(ts, 4, inner, 0);
    assert Component(ts, 1, true, 0) == Parsed(inner, 4);
  }

  /** `(x o1 y) o2 z`: brackets group their contents first, whatever the precedences. */
  lemma {:induction false} BracketsGroupFirst(ts: seq<Token>, x: Token, o1: string, y: Token, o2: string, z: Token)
    requires ts == [Punctuation('('), x, Operator(o1), y, Punctuation(')'), Operator(o2), z]
    requires IsOperandToken(x) && IsOperandToken(y) && IsOperandToken(z)
    requires IsBinaryOperator(o1) && IsBinaryOperator(o2)
    ensures Program(ts) ==
            Success([BinaryNode(BinaryProperties(
                       BinaryNode(BinaryProperties(OperandNode(x), o1, OperandNode(y))), o2, OperandNode(z)))])
  {
    BinaryIsNotAssignment(o2);
    var inner := BinaryNode(BinaryProperties(OperandNode(x), o1, OperandNode(y)));
    BracketedAtom(ts, x, o1, y);
    NoPostfix(ts, 5, inner);
    assert AssignmentTail(ts, 5, inner) == Parsed(inner, 5);
    LastOperand(ts, false, Precedence(o2));
    var whole := BinaryNode(BinaryProperties(inner, o2, OperandNode(z)));
    BinaryStep(ts, 5, inner, 0, OperandNode(z), 7);
    Settled(ts, 7, whole, 0);
    SingleStatement(ts, whole);
  }

  /**
   * After `let` or `const`, an assignment becomes a declaration of the same
   * target, operator and value, constant exactly after `const`.
   */
  lemma {:induction false} DeclarationStatement(ts: seq<Token>, kw: string, b: BinaryProperties, q: nat)
    requires |ts| > 1 && ts[0] == Keyword(kw) && (kw == "let" || kw == "const")
    requires Component(ts, 1, false, 0) == Parsed(Assignment(b), q) && q <= |ts|
    requires EndsComponent(PeekAt(ts, q))
    ensures Component(ts, 0, true, 0) == Parsed(Declaration(kw == "const", b), q)
  {
    var d := Declaration(kw == "const", b);
    assert VarDecl(ts, 1, kw == "const") == Parsed(d, q);
    assert Atom(ts, 0, true) == Parsed(d, q);
    Settled(ts, q, d, 0);
  }

  /** `let x = z` and `const x = z`: one declaration, constant exactly for `const`. */
  lemma {:induction false} DeclarationProgram(ts: seq<Token>, kw: string, x: Token, a: string, z: Token)
    requires ts == [Keyword(kw), x, Operator(a), z] && (kw == "let" || kw == "const")
    requires IsOperandToken(x) && IsOperandToken(z) && IsAssignmentOperator(a)
    ensures Program(ts) == Success([Declaration(kw == "const", BinaryProperties(OperandNode(x), a, OperandNode(z)))])
  {
    LastOperand(ts, false, 0);
    AssignmentOperand(ts, 1, false, 0, OperandNode(z), 4);
    var b := BinaryProperties(OperandNode(x), a, OperandNode(z));
    DeclarationStatement(ts, kw, b, 4);
    SingleStatement(ts, Declaration(kw == "const", b));
  }

  /** `let` or `const` followed by anything but an assignment is rejected. */
  lemma {:induction false} DeclarationNeedsAssignment(ts: seq<Token>, kw: string, n: ASTNode, q: nat)
    requires |ts| > 1 && ts[0] == Keyword(kw) && (kw == "let" || kw == "const")
    requires Component(ts, 1, false, 0) == Parsed(n, q) && !n.Assignment?
    ensures Program(ts) == Failure(DeclarationWithoutAssignment)
  {
    assert VarDecl(ts, 1, kw == "const") == Failed(DeclarationWithoutAssignment);
    assert Statement(ts, 1, ts[0]) == Failed(DeclarationWithoutAssignment);
    assert Atom(ts, 0, true) == Failed(DeclarationWithoutAssignment);
    FailedStatement(ts, DeclarationWithoutAssignment);
  }

  /**
   * In statement position only an operand, a bracket or `let`/`const` may
   * start a statement; anything else, `{` and the other keywords included,
   * is unsupported syntax.
   */
  lemma {:induction false} StatementPositionRejects(ts: seq<Token>)
    requires |ts| > 0 && !IsOperandToken(ts[0]) && ts[0] != Punctuation('(')
    requires ts[0] != Keyword("let") && ts[0] != Keyword("const")
    ensures Program(ts) == Failure(UnsupportedSyntax)
  {
    assert Atom(ts, 0, true) == Failed(UnsupportedSyntax);
    FailedStatement(ts, UnsupportedSyntax);
  }

  /**
   * In expression position `{` starts an object literal, and any token that is
   * not an operand, a bracket or `{` is a statement where none is allowed.
   */
  lemma {:induction false} ExpressionPosition(ts: seq<Token>, p: nat)
    requires p < |ts| && !IsOperandToken(ts[p]) && ts[p] != Punctuation('(')
    ensures ts[p] == Punctuation('{') ==> Atom(ts, p, false) == ObjectLoop(ts, p + 1, [], [])
    ensures ts[p] != Punctuation('{') ==> Atom(ts, p, false) == Failed(StatementNotAllowed)
  {
  }

  /** `x = let`: a keyword on the right of an assignment is a statement where none is allowed. */
  lemma {:induction false} StatementInExpressionRejected(ts: seq<Token>, x: Token, a: string, t: Token)
    requires ts == [x, Operator(a), t] && IsOperandToken(x) && IsAssignmentOperator(a)
    requires !IsOperandToken(t) && t != Punctuation('(') && t != Punctuation('{')
    ensures Program(ts) == Failure(StatementNotAllowed)
  {
    ExpressionPosition(ts, 2);
    assert Component(ts, 2, false, 0) == Failed(StatementNotAllowed);
    var n := OperandNode(x);
    assert Atom(ts, 0, true) == Parsed(n, 1);
    NoPostfix(ts, 1, n);
    assert AssignmentTail(ts, 1, n) == Failed(StatementNotAllowed);
    FailedStatement(ts, StatementNotAllowed);
  }

  /** The object literal `{ a, b: v }` read after `x =`. */
  lemma {:induction false} ObjectLiteralBody(ts: seq<Token>, a: string, b: string, v: Token)
    requires |ts| == 9 && IsOperandToken(v)
    requires ts[2..] == [Punctuation('{'), Token.Identifier(a), Punctuation(','), Token.Identifier(b), Punctuation(':'), v, Punctuation('}')]
    ensures Component(ts, 2, false, 0) ==
            Parsed(ObjectLiteral([a, b], [ASTNode.Identifier(a), OperandNode(v)]), 9)
  {
    assert ts[2] == Punctuation('{') && ts[3] == Token.Identifier(a) && ts[4] == Punctuation(',');
    assert ts[5] == Token.Identifier(b) && ts[6] == Punctuation(':') && ts[7] == v && ts[8] == Punctuation('}');
    var V := OperandNode(v);
    Operand(ts, 7, false, 0);
    Settled(ts, 8, V, 0);
    var keys: seq<string> := [];
    var values: seq<ASTNode> := [];
    assert ObjectLoop(ts, 5, keys + [a], values + [ASTNode.Identifier(a)]) ==
           Parsed(ObjectLiteral([a, b], [ASTNode.Identifier(a), V]), 9) by {
      assert keys + [a] + [b] == [a, b];
      assert values + [ASTNode.Identifier(a)] + [V] == [ASTNode.Identifier(a), V];
    }
    assert ObjectLoop(ts, 3, keys, values) == ObjectLoop(ts, 5, keys + [a], values + [ASTNode.Identifier(a)]);
    var obj := ObjectLiteral([a, b], [ASTNode.Identifier(a), V]);
    assert Atom(ts, 2, false) == Parsed(obj, 9);
    Settled(ts, 9, obj, 0);
  }

  /**
   * `x = { a, b: v }`: the shorthand key `a` is bound to the identifier `a`,
   * the key `b` to the value after its colon, in the order written.
   */
  lemma {:induction false} ObjectLiteralProgram(ts: seq<Token>, x: Token, a: string, b: string, v: Token)
    requires ts == [x, Operator("="), Punctuation('{'), Token.Identifier(a), Punctuation(','),
                    Token.Identifier(b), Punctuation(':'), v, Punctuation('}')]
    requires IsOperandToken(x) && IsOperandToken(v)
    ensures Program(ts) ==
            Success([Assignment(BinaryProperties(
                       OperandNode(x), "=", ObjectLiteral([a, b], [ASTNode.Identifier(a), OperandNode(v)])))])
  {
    ObjectLiteralBody(ts, a, b, v);
    var obj := ObjectLiteral([a, b], [ASTNode.Identifier(a), OperandNode(v)]);
    AssignmentOperand(ts, 0, true, 0, obj, 9);
    SingleStatement(ts, Assignment(BinaryProperties(OperandNode(x), "=", obj)));
  }

  /** The argument list `(x, y)` of a call starting at token 1. */
  lemma {:induction false} TwoArguments(ts: seq<Token>, x: Token, y: Token)
    requires |ts| == 6 && ts[1..] == [Punctuation('('), x, Punctuation(','), y, Punctuation(')')]
    requires IsOperandToken(x) && IsOperandToken(y)
    ensures Delimited(ts, 1, '(', ',', ')') == Parsed([OperandNode(x), OperandNode(y)], 6)
  {
    assert ts[1] == Punctuation('(') && ts[2] == x && ts[3] == Punctuation(',') && ts[4] == y && ts[5] == Punctuation(')');
    var X, Y := OperandNode(x), OperandNode(y);
    Operand(ts, 2, false, 0);
    Settled(ts, 3, X, 0);
    Operand(ts, 4, false, 0);
    Settled(ts, 5, Y, 0);
    var none: seq<ASTNode> := [];
    assert DelimitedLoop(ts, 4, ',', ')', none + [X]) == Parsed([X, Y], 6) by {
      assert none + [X] + [Y] == [X, Y];
    }
    assert DelimitedLoop(ts, 2, ',', ')', none) == Parsed([X, Y], 6);
  }

  /** `f(x, y)`: a call of `f` with the arguments in the order written. */
  lemma {:induction false} CallProgram(ts: seq<Token>, f: Token, x: Token, y: Token)
    requires ts == [f, Punctuation('('), x, Punctuation(','), y, Punctuation(')')]
    requires IsOperandToken(f) && IsOperandToken(x) && IsOperandToken(y)
    ensures Program(ts) == Success([FunctionCall(OperandNode(f), [OperandNode(x), OperandNode(y)])])
  {
    var F := OperandNode(f);
    TwoArguments(ts, x, y);
    var call := FunctionCall(F, [OperandNode(x), OperandNode(y)]);
    assert CallTail(ts, 1, F) == Parsed((true, call), 6);
    assert AccessTail(ts, 1, F) == Parsed((false, F), 1);
    NoPostfix(ts, 6, call);
    assert Postfix(ts, 1, F) == Parsed(call, 6);
    assert Atom(ts, 0, true) == Parsed(F, 1);
    Settled(ts, 6, call, 0);
    SingleStatement(ts, call);
  }

  /** `a.b(x)`: the property access is the callee; access and call chain left to right. */
  lemma {:induction false} MethodCallProgram(ts: seq<Token>, a: string, b: string, x: Token)
    requires ts == [Token.Identifier(a), Punctuation('.'), Token.Identifier(b), Punctuation('('), x, Punctuation(')')]
    requires IsOperandToken(x)
    ensures Program(ts) ==
            Success([FunctionCall(PropertyAccess(ASTNode.Identifier(a), ASTNode.Identifier(b)), [OperandNode(x)])])
  {
    var A, B, X := ASTNode.Identifier(a), ASTNode.Identifier(b), OperandNode(x);
    var access := PropertyAccess(A, B);
    assert Atom(ts, 2, false) == Parsed(B, 3);
    assert AccessTail(ts, 1, A) == Parsed((true, access), 3);
    Operand(ts, 4, false, 0);
    Settled(ts, 5, X, 0);
    var none: seq<ASTNode> := [];
    assert DelimitedLoop(ts, 4, ',', ')', none) == Parsed([X], 6) by {
      assert none + [X] == [X];
    }
    assert Delimited(ts, 3, '(', ',', ')') == Parsed([X], 6);
    var call := FunctionCall(access, [X]);
    assert CallTail(ts, 3, access) == Parsed((true, call), 6);
    NoPostfix(ts, 6, call);
    assert Postfix(ts, 1, A) == Parsed(call, 6);
    assert Atom(ts, 0, true) == Parsed(A, 1);
    Settled(ts, 6, call, 0);
    SingleStatement(ts, call);
  }

  /**
   * A lone `(`: at the end of input the tokeniser keeps returning it, so the
   * source starts a bracketed expression forever; the model reports it.
   */
  lemma {:induction false} LoneBracketRecursesForever(ts: seq<Token>)
    requires ts == [Punctuation('(')]
    ensures Atom(ts, 1, true) == Failed(UnboundedRecursion)
    ensures Program(ts) == Failure(UnboundedRecursion)
  {
    assert Component(ts, 1, true, 0) == Failed(UnboundedRecursion);
    assert Atom(ts, 0, true) == Failed(UnboundedRecursion);
    FailedStatement(ts, UnboundedRecursion);
  }
}
