/**
 * Binary operator semantics (src/std_lib/operators.rs): `==` and `!=` work on
 * any pair of values; every other operator is dispatched on the runtime types
 * of both operands, and a combination the table does not list is an error
 * (the source panics).
 */
module Operators {
  import opened Wrappers
  import opened Values

  datatype OperatorError =
    /** "Invalid binary operation type signature." */
    | InvalidTypeSignature
    /** "Invalid operator for two number types" */
    | InvalidNumberOperator(op: string)
    /** "Invalid operator for two boolean types" */
    | InvalidBooleanOperator(op: string)
    /** "Invalid operator for two string types" */
    | InvalidStringOperator(op: string)

  /** Operators answered for every pair of operands, before the type dispatch. */
  const GenericOps: set<string> := {"==", "!="}
  /** Operators on two numbers whose result is a boolean. */
  const ComparisonOps: set<string> := {">", "<", ">=", "<="}
  /** Operators on two numbers whose result is a number. */
  const ArithmeticOps: set<string> := {"+", "-", "*", "/", "%", "**"}
  /** Operators on two booleans. */
  const BooleanOps: set<string> := {"&&", "||"}

  /**
   * Structural equality of two values, as a derived `PartialEq` compares them:
   * numbers by the host's f64 `==` (so NaN differs from itself), objects
   * slot by slot, keys and values, each slot's constant flag included.
   */
  function ValueEq(host: FloatHost, l: KaffeeValue, r: KaffeeValue): bool
    decreases l
  {
    match (l, r)
    case (Number(a), Number(b)) => host.eq(a, b)
    case (String(a), String(b)) => a == b
    case (Boolean(a), Boolean(b)) => a == b
    case (Object(a), Object(b)) =>
      |a.keys| == |b.keys| && |a.values| == |b.values| &&
      (forall i :: 0 <= i < |a.keys| ==>
         ValueEq(host, a.keys[i].value, b.keys[i].value) && a.keys[i].constant == b.keys[i].constant) &&
      (forall i :: 0 <= i < |a.values| ==>
         ValueEq(host, a.values[i].value, b.values[i].value) && a.values[i].constant == b.values[i].constant)
    case _ => false
  }

  /** `generic`: the only operators it is called with are `==` and `!=`. */
  function Generic(host: FloatHost, l: KaffeeValue, op: string, r: KaffeeValue): (v: KaffeeValue)
    requires op in GenericOps
    ensures v.Boolean?
  {
    Boolean(if op == "==" then ValueEq(host, l, r) else !ValueEq(host, l, r))
  }

  /** `maths`: comparisons give a boolean, arithmetic a number; the f64 operations come from the host. */
  function Maths(host: FloatHost, l: Float, op: string, r: Float): (v: Result<KaffeeValue, OperatorError>)
    ensures v.Success? <==> op in ComparisonOps || op in ArithmeticOps
    ensures v.Failure? ==> v.error == InvalidNumberOperator(op)
    ensures v.Success? ==> (v.value.Boolean? <==> op in ComparisonOps) && (v.value.Number? <==> op in ArithmeticOps)
  {
    if op in ComparisonOps then
      Success(Boolean(
        if op == ">" then host.gt(l, r)
        else if op == "<" then host.lt(l, r)
        else if op == ">=" then host.ge(l, r)
        else host.le(l, r)))
    else if op == "+" then Success(Number(host.add(l, r)))
    else if op == "-" then Success(Number(host.sub(l, r)))
    else if op == "*" then Success(Number(host.mul(l, r)))
    else if op == "/" then Success(Number(host.div(l, r)))
    else if op == "%" then Success(Number(host.rem(l, r)))
    else if op == "**" then Success(Number(host.pow(l, r)))
    else Failure(InvalidNumberOperator(op))
  }

  /** `bools`: logical and/or; any other operator is an error. */
  function Bools(l: bool, op: string, r: bool): (v: Result<KaffeeValue, OperatorError>)
    ensures v.Success? <==> op in BooleanOps
    ensures v.Success? ==> v.value.Boolean?
    ensures v.Failure? ==> v.error == InvalidBooleanOperator(op)
  {
    if op == "&&" then Success(Boolean(l && r))
    else if op == "||" then Success(Boolean(l || r))
    else Failure(InvalidBooleanOperator(op))
  }

  /** `strings`: `+` concatenates; any other operator is an error. */
  function Strings(l: string, op: string, r: string): (v: Result<KaffeeValue, OperatorError>)
    ensures v.Success? <==> op == "+"
    ensures v.Success? ==> v.value.String? && |v.value.s| == |l| + |r|
    ensures v.Success? ==> v.value.s[..|l|] == l && v.value.s[|l|..] == r
    ensures v.Failure? ==> v.error == InvalidStringOperator(op)
  {
    if op == "+" then Success(String(l + r))
    else Failure(InvalidStringOperator(op))
  }

  /** `operator_handler`: the generic operators first, then dispatch on the pair of operand types. */
  function OperatorHandler(host: FloatHost, l: KaffeeValue, op: string, r: KaffeeValue): (v: Result<KaffeeValue, OperatorError>)
    ensures v.Success? && (op in GenericOps || op in ComparisonOps || op in BooleanOps) ==> v.value.Boolean?
    ensures v.Success? && op !in GenericOps ==> ((v.value.Number? || v.value.String?) <==> op in ArithmeticOps)
    ensures v.Failure? ==> op !in GenericOps
    ensures v.Failure? ==>
              (v.error == InvalidTypeSignature <==> !(l.Number? && r.Number?) && !(l.Boolean? && r.Boolean?) && !(l.String? && r.String?))
  {
    if op in GenericOps then Success(Generic(host, l, op, r))
    else match (l, r)
      case (Number(a), Number(b)) => Maths(host, a, op, b)
      case (Boolean(a), Boolean(b)) => Bools(a, op, b)
      case (String(a), String(b)) => Strings(a, op, b)
      case _ => Failure(InvalidTypeSignature)
  }

  /** The operand types and operators the interpreter supports, written as a table. */
  predicate Supported(l: KaffeeValue, op: string, r: KaffeeValue)
  {
    op in GenericOps ||
    (l.Number? && r.Number? && (op in ComparisonOps || op in ArithmeticOps)) ||
    (l.Boolean? && r.Boolean? && op in BooleanOps) ||
    (l.String? && r.String? && op == "+")
  }

  /** An operation succeeds exactly on the supported combinations of types and operator. */
  lemma HandlerSucceedsIffSupported(host: FloatHost, l: KaffeeValue, op: string, r: KaffeeValue)
    ensures OperatorHandler(host, l, op, r).Success? <==> Supported(l, op, r)
  {
  }

  /** `==` and `!=` are answered for any pair of operands, always with a boolean. */
  lemma EqualityAlwaysAnswered(host: FloatHost, l: KaffeeValue, op: string, r: KaffeeValue)
    requires op in GenericOps
    ensures OperatorHandler(host, l, op, r).Success?
    ensures OperatorHandler(host, l, op, r).value == Boolean((op == "==") == ValueEq(host, l, r))
  {
  }

  /** `l != r` is the negation of `l == r`. */
  lemma NotEqualIsNegation(host: FloatHost, l: KaffeeValue, r: KaffeeValue)
    ensures OperatorHandler(host, l, "!=", r).Success? && OperatorHandler(host, l, "==", r).Success?
    ensures OperatorHandler(host, l, "!=", r).value.b == !OperatorHandler(host, l, "==", r).value.b
  {
  }

  /** On two booleans, `&&` and `||` are logical and and or. */
  lemma BooleanSemantics(host: FloatHost, a: bool, b: bool)
    ensures OperatorHandler(host, Boolean(a), "&&", Boolean(b)) == Success(Boolean(a && b))
    ensures OperatorHandler(host, Boolean(a), "||", Boolean(b)) == Success(Boolean(a || b))
  {
  }

  /** On two strings, `+` is concatenation; every other non-generic operator is rejected. */
  lemma StringSemantics(host: FloatHost, a: string, op: string, b: string)
    requires op !in GenericOps
    ensures op == "+" ==> OperatorHandler(host, String(a), op, String(b)) == Success(String(a + b))
    ensures op != "+" ==> OperatorHandler(host, String(a), op, String(b)) == Failure(InvalidStringOperator(op))
  {
  }

  /** On two numbers, each comparison gives the boolean of the matching host comparison. */
  lemma NumberComparisons(host: FloatHost, a: Float, b: Float)
    ensures OperatorHandler(host, Number(a), ">", Number(b)) == Success(Boolean(host.gt(a, b)))
    ensures OperatorHandler(host, Number(a), "<", Number(b)) == Success(Boolean(host.lt(a, b)))
    ensures OperatorHandler(host, Number(a), ">=", Number(b)) == Success(Boolean(host.ge(a, b)))
    ensures OperatorHandler(host, Number(a), "<=", Number(b)) == Success(Boolean(host.le(a, b)))
  {
  }

  /** On two numbers, each arithmetic operator gives the number of the matching host operation. */
  lemma NumberArithmetic(host: FloatHost, a: Float, b: Float)
    ensures OperatorHandler(host, Number(a), "+", Number(b)) == Success(Number(host.add(a, b)))
    ensures OperatorHandler(host, Number(a), "-", Number(b)) == Success(Number(host.sub(a, b)))
    ensures OperatorHandler(host, Number(a), "*", Number(b)) == Success(Number(host.mul(a, b)))
    ensures OperatorHandler(host, Number(a), "/", Number(b)) == Success(Number(host.div(a, b)))
    ensures OperatorHandler(host, Number(a), "%", Number(b)) == Success(Number(host.rem(a, b)))
    ensures OperatorHandler(host, Number(a), "**", Number(b)) == Success(Number(host.pow(a, b)))
  {
  }

  /** On two numbers, an operator that is neither generic, a comparison nor arithmetic is rejected. */
  lemma UnknownNumberOperatorRejected(host: FloatHost, a: Float, op: string, b: Float)
    requires op !in GenericOps && op !in ComparisonOps && op !in ArithmeticOps
    ensures OperatorHandler(host, Number(a), op, Number(b)) == Failure(InvalidNumberOperator(op))
  {
  }

  /** A non-generic operator on operands of different or unsupported types is a type-signature error. */
  lemma MismatchedTypesRejected(host: FloatHost, l: KaffeeValue, op: string, r: KaffeeValue)
    requires op !in GenericOps
    requires !(l.Number? && r.Number?) && !(l.Boolean? && r.Boolean?) && !(l.String? && r.String?)
    ensures OperatorHandler(host, l, op, r) == Failure(InvalidTypeSignature)
  {
  }

  /** No number in `v`, at any depth of its objects, is NaN: the host's f64 `==` finds each one equal to itself. */
  predicate NoNaN(host: FloatHost, v: KaffeeValue)
    decreases v
  {
    match v
    case Number(a) => host.eq(a, a)
    case Object(o) =>
      (forall i :: 0 <= i < |o.keys| ==> NoNaN(host, o.keys[i].value)) &&
      (forall i :: 0 <= i < |o.values| ==> NoNaN(host, o.values[i].value))
    case _ => true
  }

  /** A value equals itself exactly when it holds no NaN; a value holding a NaN is unequal to itself. */
  lemma {:induction false} ValueEqReflexive(host: FloatHost, v: KaffeeValue)
    ensures ValueEq(host, v, v) <==> NoNaN(host, v)
    decreases v
  {
    match v
    case Object(o) =>
      forall i | 0 <= i < |o.keys|
        ensures ValueEq(host, o.keys[i].value, o.keys[i].value) <==> NoNaN(host, o.keys[i].value)
      {
        ValueEqReflexive(host, o.keys[i].value);
      }
      forall i | 0 <= i < |o.values|
        ensures ValueEq(host, o.values[i].value, o.values[i].value) <==> NoNaN(host, o.values[i].value)
      {
        ValueEqReflexive(host, o.values[i].value);
      }
    case _ =>
  }

  /** When the host's f64 `==` is symmetric, so is value equality, and `==` gives the same answer both ways round. */
  lemma {:induction false} ValueEqSymmetric(host: FloatHost, l: KaffeeValue, r: KaffeeValue)
    requires forall x: Float, y: Float :: host.eq(x, y) == host.eq(y, x)
    ensures ValueEq(host, l, r) == ValueEq(host, r, l)
    decreases l
  {
    match (l, r)
    case (Object(a), Object(b)) =>
      if |a.keys| == |b.keys| {
        forall i | 0 <= i < |a.keys|
          ensures ValueEq(host, a.keys[i].value, b.keys[i].value) == ValueEq(host, b.keys[i].value, a.keys[i].value)
        {
          ValueEqSymmetric(host, a.keys[i].value, b.keys[i].value);
        }
      }
      if |a.values| == |b.values| {
        forall i | 0 <= i < |a.values|
          ensures ValueEq(host, a.values[i].value, b.values[i].value) == ValueEq(host, b.values[i].value, a.values[i].value)
        {
          ValueEqSymmetric(host, a.values[i].value, b.values[i].value);
        }
      }
    case _ =>
  }
}
