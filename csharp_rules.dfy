/**
 * The text rules of `ObjectDumperCSharp`: the variable name, the class name
 * and the hook overrides. Hooks it does not override fall back to the
 * defaults of `DumperBase`.
 */
module CSharpRules {
  import opened Wrappers
  import opened Text
  import opened Values
  import opened Traversal
  import opened Output
  import BaseHooks

  /** `GetClassName`: the formatted name of the value's runtime type. */
  function ClassName(ty: TypeDesc): string
  {
    ty.formatted
  }

  /** The four `Replace` calls that strip a formatted generic name. */
  function StripTypeName(s: string): string
  {
    RemoveChar(RemoveChar(RemoveChar(RemoveChar(s, '<'), '>'), ' '), ',')
  }

  /** `GetVariableName`: "x" for null; for an enumerable the class name with
      `<`, `>`, spaces and commas removed; for another generic type the type
      name up to its backtick (`Substring(0, -1)` throws when there is none);
      otherwise the type name; the first letter lowered in all non-null cases. */
  function VariableName(v: Value): Result<string, DumpError>
  {
    if v == Null then Ok("x")
    else
      var ty := TypeOf(v);
      if IsEnumerable(v) then Ok(ToLowerFirst(StripTypeName(ClassName(ty))))
      else if ty.isGeneric then
        var k := IndexOf(ty.name, '`');
        if k < 0 then Err(ArgumentOutOfRange) else Ok(ToLowerFirst(ty.name[..k]))
      else Ok(ToLowerFirst(ty.name))
  }

  /** The four deletions in turn delete exactly the characters `<`, `>`, space
      and comma, and keep every other character in order. */
  lemma StripTypeNameRemovesSet(s: string)
    ensures StripTypeName(s) == RemoveAll(s, {'<', '>', ' ', ','})
  {
    var s1 := RemoveAll(s, {'<'});
    RemoveAllTwice(s, {'<'}, {'>'});
    var s2 := RemoveAll(s, {'<', '>'});
    assert {'<'} + {'>'} == {'<', '>'};
    RemoveAllTwice(s, {'<', '>'}, {' '});
    assert {'<', '>'} + {' '} == {'<', '>', ' '};
    RemoveAllTwice(s, {'<', '>', ' '}, {','});
    assert {'<', '>', ' '} + {','} == {'<', '>', ' ', ','};
  }

  /** Dumping null is announced as variable `x`. */
  lemma VariableNameNull()
    ensures VariableName(Null) == Ok("x")
  {
  }

  /** An enumerable (strings included) always gets a name, made of its class
      name with `<`, `>`, spaces and commas deleted, first letter lowered. */
  lemma VariableNameEnumerable(v: Value)
    requires IsEnumerable(v)
    ensures VariableName(v).Ok?
    ensures VariableName(v).value == ToLowerFirst(RemoveAll(ClassName(TypeOf(v)), {'<', '>', ' ', ','}))
    ensures forall i :: 0 <= i < |VariableName(v).value| ==> VariableName(v).value[i] !in {'<', '>', ' ', ','}
  {
    var stripped := RemoveAll(ClassName(TypeOf(v)), {'<', '>', ' ', ','});
    StripTypeNameRemovesSet(ClassName(TypeOf(v)));
    var r := ToLowerFirst(stripped);
    forall i | 0 <= i < |r| ensures r[i] !in {'<', '>', ' ', ','} {
      if i > 0 {
        assert r[i] == r[1..][i - 1] == stripped[1..][i - 1];
      } else if IsAsciiUpper(stripped[0]) {
        assert 'a' <= r[0] <= 'z';
      } else {
        assert r[0] == stripped[0];
      }
    }
  }

  /** A generic non-enumerable type is named by the part of its type name before
      the first backtick, first letter lowered; a generic type name without a
      backtick makes `Substring` throw. */
  lemma VariableNameGeneric(v: Value)
    requires v != Null && !IsEnumerable(v) && TypeOf(v).isGeneric
    ensures '`' !in TypeOf(v).name ==> VariableName(v) == Err(ArgumentOutOfRange)
    ensures '`' in TypeOf(v).name ==>
      var r := VariableName(v);
      && r.Ok?
      && |r.value| < |TypeOf(v).name|
      && TypeOf(v).name[|r.value|] == '`'
      && r.value == ToLowerFirst(TypeOf(v).name[..|r.value|])
      && '`' !in r.value
  {
    var name := TypeOf(v).name;
    if '`' in name {
      var k := IndexOf(name, '`');
      var r := ToLowerFirst(name[..k]);
      assert forall i :: 0 < i < |r| ==> r[i] == name[..k][i];
    }
  }

  /** `WriteDateTime`: the two extreme values by name, anything else as a
      round-trip `ParseExact` expression. Equality is on ticks. */
  function DateTimeText(ticks: int, roundTrip: string): string
  {
    if ticks == MinTicks then "DateTime.MinValue"
    else if ticks == MaxTicks then "DateTime.MaxValue"
    else "DateTime.ParseExact(\"" + roundTrip + "\", \"O\", CultureInfo.InvariantCulture, DateTimeStyles.RoundtripKind)"
  }

  /** The scalar hooks: quoted and escaped strings and characters, the numeric
      suffixes d, m, f and L, the full enum name, a `Guid` constructor, and
      the `DateTime` rule; the remaining kinds keep the default text. */
  function ScalarText(escape: string -> string, v: Value): string
  {
    match v
    case Str(s) => "\"" + escape(s) + "\""
    case Char(c) => "'" + escape([c]) + "'"
    case Double(t) => t + "d"
    case Decimal(t) => t + "m"
    case Float(t) => t + "f"
    case Long(t) => t + "L"
    case ULong(t) => t + "L"
    case Enum(ty, t) => ty.fullName + "." + t
    case Guid(t) => "new Guid(\"" + t + "\")"
    case DateTime(ticks, _, roundTrip) => DateTimeText(ticks, roundTrip)
    case _ => BaseHooks.ScalarText(v)
  }

  /** The hook overrides. */
  function HookOps(escape: string -> string, h: Hook): seq<Op>
  {
    match h
    case ObjectStart(ty) => [Write("new " + ClassName(ty)), LineBreak, Write("{"), LineBreak]
    case PropertyBegin(name, _) => [Write(name + " = ")]
    case PropertyEnd(_, last) => (if last then [] else [Write(",")]) + [LineBreak]
    case EnumerableBegin(ty) => [Write("new " + ClassName(ty)), LineBreak, Write("{"), LineBreak]
    case EnumerableSeparator(last) => (if last then [] else [Write(",")]) + [LineBreak]
    case EnumerableEnd => [Write("}")]
    case KeyValuePairBegin => [Write("{ ")]
    case KeyValuePairSeparator => [Write(", ")]
    case KeyValuePairEnd => [Write(" }")]
    case BeginProperties => []
    case EndProperties => []
    case Scalar(v) => [Write(ScalarText(escape, v))]
    case ObjectEnd => BaseHooks.HookOps(h)
  }

  /** Property ends and enumerable separators write a comma exactly when they
      are not the last, and always end the line. */
  lemma SeparatorComma(escape: string -> string, h: Hook)
    requires h.PropertyEnd? || h.EnumerableSeparator?
    ensures |HookOps(escape, h)| == (if h.last then 1 else 2)
    ensures HookOps(escape, h)[|HookOps(escape, h)| - 1] == LineBreak
    ensures Write(",") in HookOps(escape, h) <==> !h.last
  {
  }

  /** A key/value pair renders as `{ key, value }`. */
  lemma PairPunctuation(escape: string -> string)
    ensures HookOps(escape, KeyValuePairBegin) == [Write("{ ")]
    ensures HookOps(escape, KeyValuePairSeparator) == [Write(", ")]
    ensures HookOps(escape, KeyValuePairEnd) == [Write(" }")]
  {
  }
}
