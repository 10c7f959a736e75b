/**
 * The runtime values the dumpers walk. Reflection is replaced by explicit
 * descriptors: a type descriptor per value, and for an object the list of
 * its properties with what reflection would report about each one.
 * Culture-dependent formatting is not modelled: every `value.ToString()` the
 * source calls is carried as opaque text inside the value.
 */
module Values {

  /** What the dumpers ask of a `System.Type`: `Name` (with its backtick arity
      suffix for generic types), `FullName`, the formatted name produced by the
      `GetFormattedName` extension, and `IsGenericType`. */
  datatype TypeDesc = TypeDesc(name: string, fullName: string, formatted: string, isGeneric: bool)

  /** One runtime value. Each scalar constructor is one case of the type switch
      in `DumpElement`; `Seq` is a non-string `IEnumerable`, `Pair` a
      `KeyValuePair<,>`, `Obj` any other object. */
  datatype Value =
    | Null
    | Bool(b: bool)
    | Str(s: string)
    | Char(c: char)
    | Double(text: string)
    | Decimal(text: string)
    | Byte(text: string)
    | SByte(text: string)
    | Float(text: string)
    | Int(text: string)
    | UInt(text: string)
    | Long(text: string)
    | ULong(text: string)
    | Short(text: string)
    | UShort(text: string)
      /** `ticks` decides equality with `DateTime.MinValue`/`MaxValue`; `text` is
          `ToString()`, `roundTrip` is `ToString("O")`. */
    | DateTime(ticks: int, text: string, roundTrip: string)
    | Enum(ty: TypeDesc, text: string)
    | Guid(text: string)
    | Seq(ty: TypeDesc, items: seq<Value>)
    | Pair(ty: TypeDesc, key: Value, val: Value)
    | Obj(ty: TypeDesc, members: seq<Member>)

  /** A property as reflection reports it: its name, the formatted name of its
      declared type, whether it has a public non-static getter and setter,
      whether its current value equals its type's default, and that value. */
  datatype Member = Member(
    name: string,
    typeName: string,
    publicGetter: bool,
    publicSetter: bool,
    isDefault: bool,
    value: Value)

  /** The exceptions a dump can raise. */
  datatype DumpError = NullReference | ArgumentOutOfRange

  const MinTicks: int := 0
  const MaxTicks: int := 3155378975999999999

  /** Values that `DumpElement` hands to a single scalar hook (null included). */
  predicate IsScalar(v: Value)
  {
    !(v.Seq? || v.Pair? || v.Obj?)
  }

  /** `value is IEnumerable`: a string is enumerable too. */
  predicate IsEnumerable(v: Value)
  {
    v.Str? || v.Seq?
  }

  function Builtin(name: string): TypeDesc
  {
    TypeDesc(name, "System." + name, name, false)
  }

  /** `value.GetType()` for a non-null value. The formatted name of a
      non-generic framework type is its plain name. */
  function TypeOf(v: Value): (t: TypeDesc)
    requires v != Null
    ensures v.Enum? || v.Seq? || v.Pair? || v.Obj? ==> t == v.ty
  {
    match v
    case Bool(_) => Builtin("Boolean")
    case Str(_) => Builtin("String")
    case Char(_) => Builtin("Char")
    case Double(_) => Builtin("Double")
    case Decimal(_) => Builtin("Decimal")
    case Byte(_) => Builtin("Byte")
    case SByte(_) => Builtin("SByte")
    case Float(_) => Builtin("Single")
    case Int(_) => Builtin("Int32")
    case UInt(_) => Builtin("UInt32")
    case Long(_) => Builtin("Int64")
    case ULong(_) => Builtin("UInt64")
    case Short(_) => Builtin("Int16")
    case UShort(_) => Builtin("UInt16")
    case DateTime(_, _, _) => Builtin("DateTime")
    case Guid(_) => Builtin("Guid")
    case Enum(ty, _) => ty
    case Seq(ty, _) => ty
    case Pair(ty, _, _) => ty
    case Obj(ty, _) => ty
  }

  /** `value.ToString()` of a non-null scalar. */
  function ToStringText(v: Value): string
    requires IsScalar(v) && v != Null
  {
    match v
    case Bool(b) => if b then "True" else "False"
    case Str(s) => s
    case Char(c) => [c]
    case Double(t) => t
    case Decimal(t) => t
    case Byte(t) => t
    case SByte(t) => t
    case Float(t) => t
    case Int(t) => t
    case UInt(t) => t
    case Long(t) => t
    case ULong(t) => t
    case Short(t) => t
    case UShort(t) => t
    case DateTime(_, t, _) => t
    case Enum(_, t) => t
    case Guid(t) => t
  }
}
