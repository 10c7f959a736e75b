/**
 * The hook overrides of `ObjectDumperConsole`. Its base class (with the
 * counters `Indent`, `ObjectLevel`, `EnumerableIndex`, the flag
 * `InEnumerable`, and `Write`/`LineBreak(bool)`) is not part of this model:
 * the state is declared here as plain fields, and what the hooks ask of the
 * buffer is recorded in order, uninterpreted.
 */
module Console {

  /** A request to the buffer: `Write(s)`, or `LineBreak(force)`. */
  datatype Request = Text(s: string) | Break(force: bool)

  /** How far `WriteObjectStart` raises `Indent`: one, and one more for an
      object that is neither in an enumerable nor at object level 1. */
  function ObjectShift(inEnumerable: bool, objectLevel: int): (n: int)
    ensures n == 1 || n == 2
    ensures n == 2 <==> !inEnumerable && objectLevel > 1
  {
    if !inEnumerable && objectLevel > 1 then 2 else 1
  }

  /** How far `WriteEnumerableBegin` raises `Indent`. */
  function EnumerableShift(objectLevel: int): (n: int)
    ensures n == 0 || n == 1
    ensures n == 1 <==> objectLevel > 1
  {
    if objectLevel > 1 then 1 else 0
  }

  /** What `WriteObjectStart` asks of the buffer. */
  function ObjectStartRequests(enumerableIndex: int, inEnumerable: bool, objectLevel: int, fullName: string): seq<Request>
  {
    (if enumerableIndex > 1 then [Break(true)] else [])
    + (if !inEnumerable && objectLevel > 1 then [Text("{ }"), Break(false)] else [])
    + [Text("{" + fullName + "}"), Break(false)]
  }

  /** The object header: a forced break first exactly when the enumerable
      index is above 1, the empty-braces line exactly when the object shifts
      by two, and always the `{FullTypeName}` line last. */
  lemma ObjectStartShape(enumerableIndex: int, inEnumerable: bool, objectLevel: int, fullName: string)
    ensures var r := ObjectStartRequests(enumerableIndex, inEnumerable, objectLevel, fullName);
      && |r| == (if enumerableIndex > 1 then 1 else 0) + 2 * ObjectShift(inEnumerable, objectLevel)
      && (Break(true) in r <==> enumerableIndex > 1)
      && (enumerableIndex > 1 ==> r[0] == Break(true))
      && (ObjectShift(inEnumerable, objectLevel) == 2 ==> r[|r| - 4..|r| - 2] == [Text("{ }"), Break(false)])
      && r[|r| - 2..] == [Text("{" + fullName + "}"), Break(false)]
  {
  }

  class ConsoleDumper {
    var Indent: int
    var ObjectLevel: int
    var InEnumerable: bool
    var EnumerableIndex: int
    var requests: seq<Request>

    constructor(objectLevel: int, inEnumerable: bool, enumerableIndex: int)
      ensures Indent == 0 && ObjectLevel == objectLevel && InEnumerable == inEnumerable
      ensures EnumerableIndex == enumerableIndex && requests == []
    {
      Indent := 0;
      ObjectLevel := objectLevel;
      InEnumerable := inEnumerable;
      EnumerableIndex := enumerableIndex;
      requests := [];
    }

    method Write(s: string)
      modifies this`requests
      ensures requests == old(requests) + [Text(s)]
    {
      requests := requests + [Text(s)];
    }

    method LineBreak(force: bool)
      modifies this`requests
      ensures requests == old(requests) + [Break(force)]
    {
      requests := requests + [Break(force)];
    }

    /** `WriteEnumerableBegin`: below object level 2 nothing; otherwise an
        ellipsis, one more indent, a line break. */
    method WriteEnumerableBegin()
      modifies this`requests, this`Indent
      ensures Indent == old(Indent) + EnumerableShift(ObjectLevel)
      ensures requests == old(requests) + (if ObjectLevel > 1 then [Text("..."), Break(false)] else [])
    {
      if ObjectLevel > 1 {
        Write("...");
        Indent := Indent + 1;
        LineBreak(false);
      }
    }

    /** `WriteEnumerableSeperator`: a line break between elements only. */
    method WriteEnumerableSeparator(lastItem: bool)
      modifies this`requests
      ensures requests == old(requests) + (if lastItem then [] else [Break(false)])
    {
      if !lastItem {
        LineBreak(false);
      }
    }

    /** `WriteEnumerableEnd`: undoes the begin's indent, always breaks the line. */
    method WriteEnumerableEnd()
      modifies this`requests, this`Indent
      ensures Indent == old(Indent) - EnumerableShift(ObjectLevel)
      ensures requests == old(requests) + [Break(false)]
    {
      if ObjectLevel > 1 {
        Indent := Indent - 1;
      }
      LineBreak(false);
    }

    /** `WriteObjectStart`: `fullName` is the type's full formatted name. */
    method WriteObjectStart(fullName: string)
      modifies this`requests, this`Indent
      ensures Indent == old(Indent) + ObjectShift(InEnumerable, ObjectLevel)
      ensures requests == old(requests) + ObjectStartRequests(EnumerableIndex, InEnumerable, ObjectLevel, fullName)
    {
      if EnumerableIndex > 1 {
        LineBreak(true);
      }
      if !InEnumerable && ObjectLevel > 1 {
        Write("{ }");
        LineBreak(false);
        Indent := Indent + 1;
      }
      Write("{" + fullName + "}");
      LineBreak(false);
      Indent := Indent + 1;
    }

    /** `WriteObjectEnd`: lowers `Indent` by what the start raised it. */
    method WriteObjectEnd()
      modifies this`Indent
      ensures Indent == old(Indent) - ObjectShift(InEnumerable, ObjectLevel)
    {
      Indent := Indent - 1;
      if !InEnumerable && ObjectLevel > 1 {
        Indent := Indent - 1;
      }
    }

    method WriteCircularReference()
      modifies this`requests
      ensures requests == old(requests) + [Text("<-- bidirectional reference found")]
    {
      Write("<-- bidirectional reference found");
    }

    /** `WriteMaxLevel` writes nothing. */
    method WriteMaxLevel()
      ensures unchanged(this)
    {
    }

    method WriteKeyValuePairBegin()
      modifies this`requests
      ensures requests == old(requests) + [Text("[")]
    {
      Write("[");
    }

    method WriteKeyValuePairEnd()
      modifies this`requests
      ensures requests == old(requests) + [Text("]")]
    {
      Write("]");
    }

    method WriteKeyValuePairSeparator()
      modifies this`requests
      ensures requests == old(requests) + [Text(", ")]
    {
      Write(", ");
    }

    /** `WritePropertyBegin` and `WriteFieldBegin`: the member's name and a colon. */
    method WriteMemberBegin(name: string)
      modifies this`requests
      ensures requests == old(requests) + [Text(name + ": ")]
    {
      Write(name + ": ");
    }

    /** `WritePropertyEnd` and `WriteFieldEnd`: a line break, last or not. */
    method WriteMemberEnd(lastProperty: bool)
      modifies this`requests
      ensures requests == old(requests) + [Break(false)]
    {
      LineBreak(false);
    }

    /** `WriteString`: the value in double quotes, not escaped. */
    method WriteString(value: string)
      modifies this`requests
      ensures requests == old(requests) + [Text("\"" + value + "\"")]
    {
      Write("\"" + value + "\"");
    }

    method WriteChar(value: char)
      modifies this`requests
      ensures requests == old(requests) + [Text([value])]
    {
      Write([value]);
    }

    /** `WriteBool`: `True` or `False`. */
    method WriteBool(value: bool)
      modifies this`requests
      ensures requests == old(requests) + [Text(if value then "True" else "False")]
    {
      if value {
        Write("True");
      } else {
        Write("False");
      }
    }
  }
}
