/** The default bodies of the virtual `Write*` hooks of `DumperBase`. */
module BaseHooks {
  import opened Values
  import opened Traversal
  import opened Output

  /** The default scalar hooks: `null`, lower-case `true`/`false`, and
      `ToString()` for every other kind. The traversal only hands scalars to a
      scalar hook; a composite value writes nothing here. */
  function ScalarText(v: Value): string
  {
    match v
    case Null => "null"
    case Bool(b) => if b then "true" else "false"
    case Seq(_, _) => ""
    case Pair(_, _, _) => ""
    case Obj(_, _) => ""
    case _ => ToStringText(v)
  }

  /** Every default hook is a single `Write`. */
  function HookOps(h: Hook): (ops: seq<Op>)
    ensures |ops| == 1 && ops[0].Write?
  {
    match h
    case ObjectStart(_) => [Write("{")]
    case ObjectEnd => [Write("}")]
    case EnumerableBegin(_) => [Write("[")]
    case EnumerableSeparator(_) => [Write(",")]
    case EnumerableEnd => [Write("]")]
    case KeyValuePairBegin => [Write("{")]
    case KeyValuePairSeparator => [Write(",")]
    case KeyValuePairEnd => [Write("}")]
    case BeginProperties => [Write("{")]
    case EndProperties => [Write("}")]
    case PropertyBegin(_, _) => [Write("{")]
    case PropertyEnd(_, _) => [Write("}")]
    case Scalar(v) => [Write(ScalarText(v))]
  }
}
