/**
 * Runtime values of the interpreter (src/interpretting/interpreter_utils.rs).
 *
 * Numbers are IEEE-754 doubles. The model keeps a number as its 64-bit pattern
 * and receives every floating-point operation from the host as a parameter
 * (`FloatHost`): the arithmetic itself is not part of this model.
 */
module Values {

  /** The bit pattern of an f64. */
  type Float = bv64

  /** The host's floating-point operations, as Rust's f64 provides them. */
  datatype FloatHost = FloatHost(
    eq: (Float, Float) -> bool,
    gt: (Float, Float) -> bool,
    lt: (Float, Float) -> bool,
    ge: (Float, Float) -> bool,
    le: (Float, Float) -> bool,
    add: (Float, Float) -> Float,
    sub: (Float, Float) -> Float,
    mul: (Float, Float) -> Float,
    div: (Float, Float) -> Float,
    rem: (Float, Float) -> Float,
    pow: (Float, Float) -> Float)

  /** A runtime value. `Boolean` is used by the operators although the value enum still lists it as a TODO. */
  datatype KaffeeValue =
    | Number(n: Float)
    | String(s: string)
    | Boolean(b: bool)
    | Object(obj: ObjectValue)

  /** An object holds its keys and values as slots directly, not as indices into the allocation table. */
  datatype ObjectValue = ObjectValue(keys: seq<AllocedValue>, values: seq<AllocedValue>)

  /** One slot of the allocation table. The source's `ref_count` is always 0 and never read, so it is omitted. */
  datatype AllocedValue = AllocedValue(value: KaffeeValue, constant: bool)
}
