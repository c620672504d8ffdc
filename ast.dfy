/**
 * The syntax tree the parser builds (src/parsing/ast_utils.rs). The source's
 * enum lacks the function-call and property-access variants its parser
 * constructs; they are added here with the shapes the parser gives them.
 */
module Ast {
  import opened Tokens

  datatype ASTNode =
    | String(s: string)
    /** A number literal, kept as its lexeme. */
    | Number(lexeme: string)
    | Identifier(name: string)
    | ObjectLiteral(keys: seq<string>, values: seq<ASTNode>)
    | BlockStatement(statements: seq<ASTNode>)
    | Assignment(assignment: BinaryProperties)
    | Declaration(constant: bool, assignment: BinaryProperties)
    | BinaryNode(binary: BinaryProperties)
    | FunctionCall(callee: ASTNode, args: seq<ASTNode>)
    | PropertyAccess(object: ASTNode, property: ASTNode)

  datatype BinaryProperties = BinaryProperties(left: ASTNode, operator: string, right: ASTNode)

  /**
   * The shapes the parser produces: assignments and declarations carry an
   * assignment operator, binary nodes a binary one, object literals as many
   * keys as values, calls at least one argument.
   */
  predicate WellFormedNode(n: ASTNode)
    decreases n
  {
    match n
    case Assignment(a) => IsAssignmentOperator(a.operator) && WellFormedNode(a.left) && WellFormedNode(a.right)
    case Declaration(_, a) => IsAssignmentOperator(a.operator) && WellFormedNode(a.left) && WellFormedNode(a.right)
    case BinaryNode(b) => IsBinaryOperator(b.operator) && WellFormedNode(b.left) && WellFormedNode(b.right)
    case ObjectLiteral(ks, vs) => |ks| == |vs| && forall i :: 0 <= i < |vs| ==> WellFormedNode(vs[i])
    case BlockStatement(ss) => forall i :: 0 <= i < |ss| ==> WellFormedNode(ss[i])
    case FunctionCall(c, args) => |args| > 0 && WellFormedNode(c) && forall i :: 0 <= i < |args| ==> WellFormedNode(args[i])
    case PropertyAccess(o, p) => WellFormedNode(o) && WellFormedNode(p)
    case String(_) => true
    case Number(_) => true
    case Identifier(_) => true
  }
}
