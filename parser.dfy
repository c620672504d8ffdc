/**
 * The recursive-descent, precedence-climbing parser (src/parsing/parser.rs).
 *
 * The functions below state what each parse method returns and how far it
 * reads, over the token sequence `ts` and the cursor `p` (see
 * `ParserHelpers`). The class `Parser` runs the same steps on its own cursor
 * and each of its methods is proved to agree with the function of the same
 * name.
 *
 * Termination: every call either reads a token, or stays where it is with a
 * smaller rank. A call can stay put only at the end of input, where the
 * tokeniser keeps returning its last token; whether that token is a value
 * (`IsValueToken`) decides the rank (`Stuck`).
 */
module Parsing {
  import opened Wrappers
  import opened Tokens
  import opened Lexing
  import opened Ast
  import opened ParserHelpers

  /** The result of a parse step: what it built and where the cursor is after it. */
  datatype PResult<T> = Parsed(node: T, next: nat) | Failed(error: SyntaxError)

  /** Tokens that `parse_atom` turns into a node without reading further. */
  predicate IsValueToken(t: Token)
  {
    t.String? || t.Number? || t.Identifier? || t == Punctuation('{')
  }

  /** At the end of input with a last token that is not a value: no parse can succeed from here. */
  predicate Stuck(ts: seq<Token>, p: nat)
  {
    p >= |ts| && !IsValueToken(Stale(ts))
  }

  /**
   * A successful step reads forwards and stays within the tokens, and it reads
   * at least one token unless it is at the end of input and the last token
   * is a value.
   */
  predicate Progress<T>(ts: seq<Token>, p: nat, r: PResult<T>)
  {
    r.Parsed? ==> p <= r.next <= |ts| && (r.next > p || (p >= |ts| && IsValueToken(Stale(ts))))
  }

  /** A successful step builds a well-formed node. */
  predicate Builds(r: PResult<ASTNode>)
  {
    r.Parsed? ==> WellFormedNode(r.node)
  }

  /**
   * `parse_atom`: a bracketed expression, a string, number or identifier, an
   * object literal where statements are not accepted, or else a statement.
   */
  function Atom(ts: seq<Token>, p: nat, acceptStatements: bool): (r: PResult<ASTNode>)
    requires p <= |ts|
    ensures Progress(ts, p, r) && Builds(r)
    decreases |ts| - p, if acceptStatements then 18 else if Stuck(ts, p) then 8 else 13
  {
    var t := PeekAt(ts, p);
    var q := Advance(ts, p);
    if t == Punctuation('(') then
      if p >= |ts| then Failed(UnboundedRecursion)
      else match Component(ts, q, true, 0)
        case Failed(e) => Failed(e)
        case Parsed(exp, q2) =>
          match Expect(ts, q2, ')')
          case Failure(e) => Failed(e)
          case Success(q3) => Parsed(exp, q3)
    else if t.String? then Parsed(ASTNode.String(t.s), q)
    else if t.Number? then Parsed(ASTNode.Number(t.lexeme), q)
    else if t.Identifier? then Parsed(ASTNode.Identifier(t.name), q)
    else if !acceptStatements then
      if t == Punctuation('{') then ObjectLoop(ts, q, [], []) else Failed(StatementNotAllowed)
    else Statement(ts, q, t)
  }

  /** `parse_statement`: after `let` or `const`, a declaration; any other token is unsupported. */
  function Statement(ts: seq<Token>, p: nat, t: Token): (r: PResult<ASTNode>)
    requires p <= |ts|
    ensures Progress(ts, p, r) && Builds(r)
    decreases |ts| - p, 17
  {
    if t == Keyword("let") then VarDecl(ts, p, false)
    else if t == Keyword("const") then VarDecl(ts, p, true)
    else Failed(UnsupportedSyntax)
  }

  /** `parse_variable_declaration`: the component that follows must be an assignment. */
  function VarDecl(ts: seq<Token>, p: nat, constant: bool): (r: PResult<ASTNode>)
    requires p <= |ts|
    ensures Progress(ts, p, r) && Builds(r)
    decreases |ts| - p, 16
  {
    match Component(ts, p, false, 0)
    case Failed(e) => Failed(e)
    case Parsed(n, q) =>
      if n.Assignment? then Parsed(Declaration(constant, n.assignment), q)
      else Failed(DeclarationWithoutAssignment)
  }

  /**
   * The loop of `parse_object_literal`, with the keys and values read so far:
   * `{ a, b }` binds each key to the identifier of the same name, `{ a: e }`
   * to the component `e`.
   */
  function ObjectLoop(ts: seq<Token>, p: nat, keys: seq<string>, values: seq<ASTNode>): (r: PResult<ASTNode>)
    requires p <= |ts| && |keys| == |values|
    requires forall i :: 0 <= i < |values| ==> WellFormedNode(values[i])
    ensures Builds(r)
    ensures r.Parsed? ==> p <= r.next <= |ts| && (r.next > p || p >= |ts|)
    ensures r.Parsed? ==> r.node.ObjectLiteral? && |r.node.keys| >= |keys| &&
                          r.node.keys[..|keys|] == keys && r.node.values[..|values|] == values
    decreases |ts| - p, 1
  {
    if p >= |ts| then Parsed(ObjectLiteral(keys, values), p)
    else
      var q := p + 1;
      match ts[p]
      case Identifier(id) =>
        if NextIsPunctuation(ts, q, ',') || NextIsPunctuation(ts, q, '}') then
          if NextIsPunctuation(ts, q, '}') then
            Parsed(ObjectLiteral(keys + [id], values + [ASTNode.Identifier(id)]), Advance(ts, q))
          else
            ObjectLoop(ts, Advance(ts, q), keys + [id], values + [ASTNode.Identifier(id)])
        else
          (match Expect(ts, q, ':')
           case Failure(e) => Failed(e)
           case Success(q2) =>
             match Component(ts, q2, false, 0)
             case Failed(e) => Failed(e)
             case Parsed(v, q3) =>
               var nt := PeekAt(ts, q3);
               if nt == Punctuation('}') then Parsed(ObjectLiteral(keys + [id], values + [v]), Advance(ts, q3))
               else if nt == Punctuation(',') then ObjectLoop(ts, Advance(ts, q3), keys + [id], values + [v])
               else Failed(InvalidTokenAfterObjectValue))
      case _ => Failed(InvalidObjectKey)
  }

  /**
   * `parse_delimited`: the start punctuation, components separated by the
   * delimiter, the end punctuation. Its only caller passes `(`, `,` and `)`;
   * with `{` as start or delimiter the source can loop without reading.
   */
  function Delimited(ts: seq<Token>, p: nat, start: char, delim: char, end: char): (r: PResult<seq<ASTNode>>)
    requires p <= |ts| && start != '{' && delim != '{'
    ensures r.Parsed? ==> p < r.next <= |ts| && |r.node| >= 1
    ensures r.Parsed? ==> forall i :: 0 <= i < |r.node| ==> WellFormedNode(r.node[i])
    decreases |ts| - p, if Stuck(ts, p) then 12 else 10
  {
    match Expect(ts, p, start)
    case Failure(e) => Failed(e)
    case Success(q) => DelimitedLoop(ts, q, delim, end, [])
  }

  /** The loop of `parse_delimited`, with the components read so far. */
  function DelimitedLoop(ts: seq<Token>, p: nat, delim: char, end: char, args: seq<ASTNode>): (r: PResult<seq<ASTNode>>)
    requires p <= |ts| && delim != '{'
    requires forall i :: 0 <= i < |args| ==> WellFormedNode(args[i])
    ensures Progress(ts, p, r)
    ensures r.Parsed? ==> |r.node| > |args| && r.node[..|args|] == args
    ensures r.Parsed? ==> forall i :: 0 <= i < |r.node| ==> WellFormedNode(r.node[i])
    decreases |ts| - p, if Stuck(ts, p) then 10 else 15
  {
    match Component(ts, p, false, 0)
    case Failed(e) => Failed(e)
    case Parsed(n, q) =>
      if NextIsPunctuation(ts, q, delim) then DelimitedLoop(ts, Advance(ts, q), delim, end, args + [n])
      else match Expect(ts, q, end)
        case Failure(e) => Failed(e)
        case Success(q2) => Parsed(args + [n], q2)
  }

  /** `might_be_assignment`: an assignment operator makes `me` the left side of an assignment. */
  function AssignmentTail(ts: seq<Token>, p: nat, me: ASTNode): (r: PResult<ASTNode>)
    requires p <= |ts| && WellFormedNode(me)
    ensures Builds(r)
    ensures r.Parsed? ==> p <= r.next <= |ts|
    ensures r.Parsed? && r.next == p ==> r.node == me
    decreases |ts| - p, if Stuck(ts, p) then 10 else 12
  {
    var t := PeekAt(ts, p);
    if t.Operator? && IsAssignmentOperator(t.op) then
      match Component(ts, Advance(ts, p), false, 0)
      case Failed(e) => Failed(e)
      case Parsed(rhs, q) => Parsed(Assignment(BinaryProperties(me, t.op, rhs)), q)
    else Parsed(me, p)
  }

  /**
   * `might_be_binary`: while the next operator is binary and binds tighter than
   * `myPrecedence`, read it and its right operand, and fold to the left.
   */
  function BinaryTail(ts: seq<Token>, p: nat, me: ASTNode, myPrecedence: int): (r: PResult<ASTNode>)
    requires p <= |ts| && WellFormedNode(me)
    ensures Builds(r)
    ensures r.Parsed? ==> p <= r.next <= |ts|
    ensures r.Parsed? && r.next == p ==> r.node == me
    decreases |ts| - p, if Stuck(ts, p) then 10 else 12
  {
    var t := PeekAt(ts, p);
    if t.Operator? && IsBinaryOperator(t.op) && Precedence(t.op) > myPrecedence then
      match Component(ts, Advance(ts, p), false, Precedence(t.op))
      case Failed(e) => Failed(e)
      case Parsed(them, q) => BinaryTail(ts, q, BinaryNode(BinaryProperties(me, t.op, them)), myPrecedence)
    else Parsed(me, p)
  }

  /** `might_be_call`: an opening bracket makes `node` the callee of a call. */
  function CallTail(ts: seq<Token>, p: nat, node: ASTNode): (r: PResult<(bool, ASTNode)>)
    requires p <= |ts| && WellFormedNode(node)
    ensures r.Parsed? ==> p <= r.next <= |ts| && WellFormedNode(r.node.1)
    ensures r.Parsed? ==> (r.node.0 <==> r.next > p)
    ensures r.Parsed? && !r.node.0 ==> r.node.1 == node
    decreases |ts| - p, if Stuck(ts, p) then 13 else 11
  {
    if NextIsPunctuation(ts, p, '(') then
      match Delimited(ts, p, '(', ',', ')')
      case Failed(e) => Failed(e)
      case Parsed(args, q) => Parsed((true, FunctionCall(node, args)), q)
    else Parsed((false, node), p)
  }

  /** `might_be_property_access`: a `.` makes `node` the object of an access to the atom after it. */
  function AccessTail(ts: seq<Token>, p: nat, node: ASTNode): (r: PResult<(bool, ASTNode)>)
    requires p <= |ts| && WellFormedNode(node)
    ensures r.Parsed? ==> p <= r.next <= |ts| && WellFormedNode(r.node.1)
    ensures r.Parsed? ==> (r.node.0 <==> r.next > p)
    ensures r.Parsed? && !r.node.0 ==> r.node.1 == node
    decreases |ts| - p, if Stuck(ts, p) then 13 else 11
  {
    if NextIsPunctuation(ts, p, '.') then
      match Atom(ts, Advance(ts, p), false)
      case Failed(e) => Failed(e)
      case Parsed(prop, q) => Parsed((true, PropertyAccess(node, prop)), q)
    else Parsed((false, node), p)
  }

  /** The loop of `parse_component`: property accesses and calls, until neither applies. */
  function Postfix(ts: seq<Token>, p: nat, node: ASTNode): (r: PResult<ASTNode>)
    requires p <= |ts| && WellFormedNode(node)
    ensures Builds(r)
    ensures r.Parsed? ==> p <= r.next <= |ts|
    ensures r.Parsed? && r.next == p ==> r.node == node
    decreases |ts| - p, if Stuck(ts, p) then 14 else 12
  {
    match AccessTail(ts, p, node)
    case Failed(e) => Failed(e)
    case Parsed((wasAcc, accNode), q) =>
      match CallTail(ts, q, accNode)
      case Failed(e) => Failed(e)
      case Parsed((wasCall, callNode), q2) =>
        if !(wasAcc || wasCall) then Parsed(node, p)
        else Postfix(ts, q2, callNode)
  }

  /**
   * `parse_component`: an atom, its accesses and calls, an optional assignment,
   * then the binary operators that bind tighter than `prec`.
   */
  function Component(ts: seq<Token>, p: nat, acceptStatements: bool, prec: int): (r: PResult<ASTNode>)
    requires p <= |ts|
    ensures Progress(ts, p, r) && Builds(r)
    decreases |ts| - p, if acceptStatements then 19 else if Stuck(ts, p) then 9 else 14
  {
    match Atom(ts, p, acceptStatements)
    case Failed(e) => Failed(e)
    case Parsed(n, q) =>
      match Postfix(ts, q, n)
      case Failed(e) => Failed(e)
      case Parsed(n2, q2) =>
        match AssignmentTail(ts, q2, n2)
        case Failed(e) => Failed(e)
        case Parsed(n3, q3) => BinaryTail(ts, q3, n3, prec)
  }

  /** The loop of `parse_block_statement`: statements until the end of input. */
  function BlockLoop(ts: seq<Token>, p: nat, statements: seq<ASTNode>): (r: PResult<seq<ASTNode>>)
    requires p <= |ts|
    requires forall i :: 0 <= i < |statements| ==> WellFormedNode(statements[i])
    ensures r.Parsed? ==> r.next == |ts| && |r.node| >= |statements| && r.node[..|statements|] == statements
    ensures r.Parsed? ==> forall i :: 0 <= i < |r.node| ==> WellFormedNode(r.node[i])
    decreases |ts| - p, 20
  {
    if p >= |ts| then Parsed(statements, p)
    else match Component(ts, p, true, 0)
      case Failed(e) => Failed(e)
      case Parsed(s, q) => BlockLoop(ts, q, statements + [s])
  }

  /** `parse_block_statement`: optional braces around statements read to the end of input. */
  function Block(ts: seq<Token>, p: nat, expectFirstBrace: bool, expectLastBrace: bool): (r: PResult<ASTNode>)
    requires p <= |ts|
    ensures Builds(r)
    ensures r.Parsed? ==> r.node.BlockStatement? && r.next == |ts|
    decreases |ts| - p, 21
  {
    var start := if expectFirstBrace then Expect(ts, p, '{') else Success(p);
    match start
    case Failure(e) => Failed(e)
    case Success(q) =>
      match BlockLoop(ts, q, [])
      case Failed(e) => Failed(e)
      case Parsed(statements, q2) =>
        var end := if expectLastBrace then Expect(ts, q2, '}') else Success(q2);
        match end
        case Failure(e) => Failed(e)
        case Success(q3) => Parsed(BlockStatement(statements), q3)
  }

  /** `generate_ast`: the statements of the whole program; every token is read. */
  function Program(ts: seq<Token>): (r: Result<seq<ASTNode>, SyntaxError>)
    ensures r.Success? ==> forall i :: 0 <= i < |r.value| ==> WellFormedNode(r.value[i])
  {
    match Block(ts, 0, false, false)
    case Failed(e) => Failure(e)
    case Parsed(n, _) => Success(n.statements)
  }

  /** A method's result and final cursor agree with the step its function describes. */
  predicate Agrees<T(==)>(spec: PResult<T>, r: Result<T, SyntaxError>, pos: nat)
  {
    match spec
    case Parsed(n, q) => r == Success(n) && pos == q
    case Failed(e) => r == Failure(e)
  }

  /** A parser over the tokens of one program, read through a cursor. */
  class Parser {
    const tokens: seq<Token>
    var pos: nat

    constructor (ts: seq<Token>)
      ensures tokens == ts && pos == 0
    {
      tokens := ts;
      pos := 0;
    }

    /** The tokeniser's `read`: the current token, then one step on unless at the end. */
    method Read() returns (t: Token)
      requires pos <= |tokens|
      modifies this
      ensures t == PeekAt(tokens, old(pos)) && pos == Advance(tokens, old(pos)) && pos <= |tokens|
    {
      t := PeekAt(tokens, pos);
      if pos < |tokens| {
        pos := pos + 1;
      }
    }

    /** `expect_punctuation` */
    method ExpectPunctuation(c: char) returns (r: Outcome<SyntaxError>)
      requires pos <= |tokens|
      modifies this
      ensures pos <= |tokens|
      ensures Expect(tokens, old(pos), c).Success? ==> r == Pass && pos == Expect(tokens, old(pos), c).value
      ensures Expect(tokens, old(pos), c).Failure? ==> r == Fail(Expect(tokens, old(pos), c).error)
    {
      var tk := Read();
      if !(tk.Punctuation? && tk.c == c) {
        return Fail(ExpectedPunctuation(c));
      }
      return Pass;
    }

    /** `parse_atom` */
    method ParseAtom(acceptStatements: bool) returns (r: Result<ASTNode, SyntaxError>)
      requires pos <= |tokens|
      modifies this
      ensures pos <= |tokens| && Agrees(Atom(tokens, old(pos), acceptStatements), r, pos)
      decreases |tokens| - pos, if acceptStatements then 18 else if Stuck(tokens, pos) then 8 else 13
    {
      var p0 := pos;
      var t := Read();
      if t == Punctuation('(') {
        if p0 >= |tokens| {
          return Failure(UnboundedRecursion);
        }
        var exp := ParseComponent(true, 0);
        if exp.Failure? {
          return exp;
        }
        var ok := ExpectPunctuation(')');
        if ok.Fail? {
          return Failure(ok.error);
        }
        return exp;
      }
      if t.String? {
        return Success(ASTNode.String(t.s));
      } else if t.Number? {
        return Success(ASTNode.Number(t.lexeme));
      } else if t.Identifier? {
        return Success(ASTNode.Identifier(t.name));
      }
      if !acceptStatements {
        if t == Punctuation('{') {
          r := ParseObjectLiteral();
          return;
        }
        return Failure(StatementNotAllowed);
      }
      r := ParseStatement(t);
    }

    /** `parse_statement` */
    method ParseStatement(t: Token) returns (r: Result<ASTNode, SyntaxError>)
      requires pos <= |tokens|
      modifies this
      ensures pos <= |tokens| && Agrees(Statement(tokens, old(pos), t), r, pos)
      decreases |tokens| - pos, 17
    {
      if t.Keyword? {
        if t.kw == "let" {
          r := ParseVariableDeclaration(false);
          return;
        } else if t.kw == "const" {
          r := ParseVariableDeclaration(true);
          return;
        }
      }
      return Failure(UnsupportedSyntax);
    }

    /** `parse_object_literal` */
    method ParseObjectLiteral() returns (r: Result<ASTNode, SyntaxError>)
      requires pos <= |tokens|
      modifies this
      ensures pos <= |tokens| && Agrees(ObjectLoop(tokens, old(pos), [], []), r, pos)
      decreases |tokens| - pos, 1
    {
      var keys: seq<string> := [];
      var values: seq<ASTNode> := [];
      while pos < |tokens|
        invariant old(pos) <= pos <= |tokens| && |keys| == |values|
        invariant forall i :: 0 <= i < |values| ==> WellFormedNode(values[i])
        invariant ObjectLoop(tokens, old(pos), [], []) == ObjectLoop(tokens, pos, keys, values)
        decreases |tokens| - pos
      {
        ghost var before := pos;
        var t := Read();
        if !t.Identifier? {
          return Failure(InvalidObjectKey);
        }
        var id := t.name;
        if NextIsPunctuation(tokens, pos, ',') || NextIsPunctuation(tokens, pos, '}') {
          keys, values := keys + [id], values + [ASTNode.Identifier(id)];
          if NextIsPunctuation(tokens, pos, '}') {
            var _ := Read();
            break;
          }
          var _ := Read();
          continue;
        }
        var ok := ExpectPunctuation(':');
        if ok.Fail? {
          return Failure(ok.error);
        }
        var v := ParseComponent(false, 0);
        if v.Failure? {
          return Failure(v.error);
        }
        keys, values := keys + [id], values + [v.value];
        var nt := Read();
        if nt == Punctuation('}') {
          break;
        } else if nt == Punctuation(',') {
          continue;
        }
        return Failure(InvalidTokenAfterObjectValue);
      }
      return Success(ObjectLiteral(keys, values));
    }

    /** `parse_variable_declaration` */
    method ParseVariableDeclaration(constant: bool) returns (r: Result<ASTNode, SyntaxError>)
      requires pos <= |tokens|
      modifies this
      ensures pos <= |tokens| && Agrees(VarDecl(tokens, old(pos), constant), r, pos)
      decreases |tokens| - pos, 16
    {
      var nxt := ParseComponent(false, 0);
      if nxt.Failure? {
        return nxt;
      }
      if nxt.value.Assignment? {
        return Success(Declaration(constant, nxt.value.assignment));
      }
      return Failure(DeclarationWithoutAssignment);
    }

    /** `parse_delimited` */
    method ParseDelimited(start: char, delim: char, end: char) returns (r: Result<seq<ASTNode>, SyntaxError>)
      requires pos <= |tokens| && start != '{' && delim != '{'
      modifies this
      ensures pos <= |tokens| && Agrees(Delimited(tokens, old(pos), start, delim, end), r, pos)
      decreases |tokens| - pos, if Stuck(tokens, pos) then 12 else 10
    {
      var p0 := pos;
      var ok := ExpectPunctuation(start);
      if ok.Fail? {
        return Failure(ok.error);
      }
      var args: seq<ASTNode> := [];
      while true
        invariant p0 <= pos <= |tokens|
        invariant pos > p0 || Stuck(tokens, p0)
        invariant forall i :: 0 <= i < |args| ==> WellFormedNode(args[i])
        invariant Delimited(tokens, p0, start, delim, end) == DelimitedLoop(tokens, pos, delim, end, args)
        decreases |tokens| - pos
      {
        var n := ParseComponent(false, 0);
        if n.Failure? {
          return Failure(n.error);
        }
        args := args + [n.value];
        if !NextIsPunctuation(tokens, pos, delim) {
          break;
        }
        var _ := Read();
      }
      ok := ExpectPunctuation(end);
      if ok.Fail? {
        return Failure(ok.error);
      }
      return Success(args);
    }

    /** `might_be_assignment` */
    method MightBeAssignment(me: ASTNode) returns (r: Result<ASTNode, SyntaxError>)
      requires pos <= |tokens| && WellFormedNode(me)
      modifies this
      ensures pos <= |tokens| && Agrees(AssignmentTail(tokens, old(pos), me), r, pos)
      decreases |tokens| - pos, if Stuck(tokens, pos) then 10 else 12
    {
      var t := PeekAt(tokens, pos);
      if t.Operator? && IsAssignmentOperator(t.op) {
        var _ := Read();
        var right := ParseComponent(false, 0);
        if right.Failure? {
          return right;
        }
        return Success(Assignment(BinaryProperties(me, t.op, right.value)));
      }
      return Success(me);
    }

    /** `might_be_binary` */
    method MightBeBinary(me: ASTNode, myPrecedence: int) returns (r: Result<ASTNode, SyntaxError>)
      requires pos <= |tokens| && WellFormedNode(me)
      modifies this
      ensures pos <= |tokens| && Agrees(BinaryTail(tokens, old(pos), me, myPrecedence), r, pos)
      decreases |tokens| - pos, if Stuck(tokens, pos) then 10 else 12
    {
      var t := PeekAt(tokens, pos);
      if t.Operator? && IsBinaryOperator(t.op) {
        var theirPrec := Precedence(t.op);
        if theirPrec > myPrecedence {
          var _ := Read();
          var them := ParseComponent(false, theirPrec);
          if them.Failure? {
            return them;
          }
          var node := BinaryNode(BinaryProperties(me, t.op, them.value));
          r := MightBeBinary(node, myPrecedence);
          return;
        }
      }
      return Success(me);
    }

    /** `might_be_call` */
    method MightBeCall(node: ASTNode) returns (r: Result<(bool, ASTNode), SyntaxError>)
      requires pos <= |tokens| && WellFormedNode(node)
      modifies this
      ensures pos <= |tokens| && Agrees(CallTail(tokens, old(pos), node), r, pos)
      decreases |tokens| - pos, if Stuck(tokens, pos) then 13 else 11
    {
      if NextIsPunctuation(tokens, pos, '(') {
        var args := ParseDelimited('(', ',', ')');
        if args.Failure? {
          return Failure(args.error);
        }
        return Success((true, FunctionCall(node, args.value)));
      }
      return Success((false, node));
    }

    /** `might_be_property_access` */
    method MightBePropertyAccess(node: ASTNode) returns (r: Result<(bool, ASTNode), SyntaxError>)
      requires pos <= |tokens| && WellFormedNode(node)
      modifies this
      ensures pos <= |tokens| && Agrees(AccessTail(tokens, old(pos), node), r, pos)
      decreases |tokens| - pos, if Stuck(tokens, pos) then 13 else 11
    {
      if NextIsPunctuation(tokens, pos, '.') {
        var _ := Read();
        var property := ParseAtom(false);
        if property.Failure? {
          return Failure(property.error);
        }
        return Success((true, PropertyAccess(node, property.value)));
      }
      return Success((false, node));
    }

    /** `parse_component` */
    method ParseComponent(acceptStatements: bool, prec: int) returns (r: Result<ASTNode, SyntaxError>)
      requires pos <= |tokens|
      modifies this
      ensures pos <= |tokens| && Agrees(Component(tokens, old(pos), acceptStatements, prec), r, pos)
      decreases |tokens| - pos, if acceptStatements then 19 else if Stuck(tokens, pos) then 9 else 14
    {
      var p0 := pos;
      var atom := ParseAtom(acceptStatements);
      if atom.Failure? {
        return atom;
      }
      var node := atom.value;
      ghost var q0, n0 := pos, node;
      while true
        invariant q0 <= pos <= |tokens| && WellFormedNode(node)
        invariant pos > p0 || !Stuck(tokens, p0)
        invariant Postfix(tokens, q0, n0) == Postfix(tokens, pos, node)
        decreases |tokens| - pos
      {
        var acc := MightBePropertyAccess(node);
        if acc.Failure? {
          return Failure(acc.error);
        }
        var (wasAcc, accNode) := acc.value;
        var call := MightBeCall(accNode);
        if call.Failure? {
          return Failure(call.error);
        }
        var (wasCall, callNode) := call.value;
        if !(wasAcc || wasCall) {
          break;
        }
        node := callNode;
      }
      var mba := MightBeAssignment(node);
      if mba.Failure? {
        return mba;
      }
      r := MightBeBinary(mba.value, prec);
    }

    /** `parse_block_statement` */
    method ParseBlockStatement(expectFirstBrace: bool, expectLastBrace: bool) returns (r: Result<ASTNode, SyntaxError>)
      requires pos <= |tokens|
      modifies this
      ensures pos <= |tokens| && Agrees(Block(tokens, old(pos), expectFirstBrace, expectLastBrace), r, pos)
      decreases |tokens| - pos, 21
    {
      if expectFirstBrace {
        var ok := ExpectPunctuation('{');
        if ok.Fail? {
          return Failure(ok.error);
        }
      }
      ghost var q0 := pos;
      var statements: seq<ASTNode> := [];
      while pos < |tokens|
        invariant q0 <= pos <= |tokens|
        invariant forall i :: 0 <= i < |statements| ==> WellFormedNode(statements[i])
        invariant BlockLoop(tokens, q0, []) == BlockLoop(tokens, pos, statements)
        decreases |tokens| - pos
      {
        var s := ParseComponent(true, 0);
        if s.Failure? {
          return s;
        }
        statements := statements + [s.value];
      }
      if expectLastBrace {
        var ok := ExpectPunctuation('}');
        if ok.Fail? {
          return Failure(ok.error);
        }
      }
      return Success(BlockStatement(statements));
    }

    /** `generate_ast` */
    method GenerateAst() returns (r: Result<seq<ASTNode>, SyntaxError>)
      requires pos == 0
      modifies this
      ensures r == Program(tokens)
    {
      var bs := ParseBlockStatement(false, false);
      if bs.Failure? {
        return Failure(bs.error);
      }
      return Success(bs.value.statements);
    }
  }

  /** `parser::new`: the parser over the tokens of `code`, or the first error in tokenising it. */
  method New(code: string) returns (r: Result<Parser, LexError>)
    ensures r.Success? ==> fresh(r.value) && Lex(code, 0) == Success(r.value.tokens) && r.value.pos == 0
    ensures r.Failure? ==> Lex(code, 0) == Failure(r.error)
  {
    var lexed := Lex(code, 0);
    if lexed.Failure? {
      return Failure(lexed.error);
    }
    var parser := new Parser(lexed.value);
    return Success(parser);
  }
}
