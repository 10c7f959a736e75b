/**
 * `DumperBase` as a class: the `StringBuilder` buffer, the `isNewLine` flag,
 * the `Level` counter and the hash list, with the recursive dump methods.
 * Each dump method is proved to leave the buffer as `Render` of the calls
 * `Trace` prescribes, and to restore `Level`.
 */
module Engine {
  import opened Wrappers
  import opened Text
  import opened Values
  import opened Options
  import opened PropertyPipeline
  import opened Traversal
  import opened Output
  import opened Rendering

  class Dumper {
    const opts: DumpOptions
    const style: Style
    var buf: string
    var isNewLine: bool
    /** `Level`; an `int` in the source that only the dump methods move, and
        never below its starting value 0. */
    var Level: nat
    var hashes: seq<int>

    /** The buffer and the flag, as the rendering functions see them. */
    function Snapshot(): Sink
      reads this
    {
      Sink(buf, isNewLine)
    }

    constructor(opts: DumpOptions, style: Style)
      ensures this.opts == opts && this.style == style
      ensures buf == [] && isNewLine && Level == 0 && hashes == []
    {
      this.opts := opts;
      this.style := style;
      buf := [];
      isNewLine := true;
      Level := 0;
      hashes := [];
    }

    /** `Write(value, indentLevel)`: the indentation, then the value; the
        buffer is at a line start afterwards iff the value ends with the
        line break. */
    method WriteIndented(value: string, indentLevel: nat)
      modifies this
      ensures buf == old(buf) + Repeat(opts.indentChar, indentLevel * opts.indentSize) + value
      ensures isNewLine <==> EndsWith(value, opts.lineBreak)
      ensures Level == old(Level) && hashes == old(hashes)
    {
      buf := buf + Repeat(opts.indentChar, indentLevel * opts.indentSize);
      buf := buf + value;
      if EndsWith(value, opts.lineBreak) {
        isNewLine := true;
      } else {
        isNewLine := false;
      }
    }

    /** `Write(value)`: indented to `Level` at the start of a line, not at all
        in mid-line. */
    method Write(value: string)
      modifies this
      ensures Snapshot() == Exec(opts, old(Snapshot()), Level, Op.Write(value))
      ensures Level == old(Level) && hashes == old(hashes)
    {
      if isNewLine {
        WriteIndented(value, Level);
      } else {
        WriteIndented(value, 0);
      }
    }

    /** `LineBreak()`: appends the line break unconditionally. */
    method LineBreak()
      modifies this
      ensures buf == old(buf) + opts.lineBreak && isNewLine
      ensures Level == old(Level) && hashes == old(hashes)
    {
      buf := buf + opts.lineBreak;
      isNewLine := true;
    }

    /** `AddAlreadyTouched`: appends the element's hash code. */
    method AddAlreadyTouched(hash: int)
      modifies this`hashes
      ensures hashes == old(hashes) + [hash]
    {
      hashes := hashes + [hash];
    }

    /** `AlreadyTouched`: false for null (`None`); otherwise whether the hash
        code is in the list, by a linear scan. */
    method AlreadyTouched(hash: Option<int>) returns (found: bool)
      ensures found <==> hash.Some? && hash.value in hashes
    {
      if hash.None? {
        return false;
      }
      var i := 0;
      while i < |hashes|
        invariant 0 <= i <= |hashes|
        invariant hash.value !in hashes[..i]
      {
        if hashes[i] == hash.value {
          return true;
        }
        i := i + 1;
      }
      assert hashes[..i] == hashes;
      return false;
    }

    /** `ToString()`: the buffer contents. */
    method ToString() returns (s: string)
      ensures s == Snapshot().text
    {
      s := buf;
    }

    /** One hook: the operations its body performs, at the current level. */
    method Perform(ops: seq<Op>)
      modifies this
      ensures Snapshot() == RunOps(opts, old(Snapshot()), Level, ops)
      ensures Level == old(Level) && hashes == old(hashes)
      decreases |ops|
    {
      if ops != [] {
        match ops[0] {
          case Write(s) => Write(s);
          case LineBreak => LineBreak();
        }
        Perform(ops[1..]);
      }
    }

    method Hook(h: Hook)
      modifies this
      ensures Snapshot() == RenderCall(opts, style, old(Snapshot()), Call(h, Level))
      ensures Level == old(Level) && hashes == old(hashes)
    {
      Perform(HookOps(style, h));
    }

    /** `DumpData`. */
    method DumpData(v: Value)
      modifies this
      ensures Snapshot() == Render(opts, style, old(Snapshot()), Trace(opts, old(Level), v))
      ensures Level == old(Level) && hashes == old(hashes)
    {
      DumpElement(v);
    }

    /** `DumpElement`: nothing beyond the ceiling; then the dispatch on the
        kind of the value. */
    method DumpElement(v: Value)
      modifies this
      ensures Snapshot() == Render(opts, style, old(Snapshot()), Trace(opts, old(Level), v))
      ensures Level == old(Level) && hashes == old(hashes)
      decreases v, 2, 0
    {
      if IsMaxLevel(opts, Level) {
        return;
      }
      var s0, l := Snapshot(), Level;
      match v
      case Seq(ty, _) =>
        Hook(EnumerableBegin(ty));
        var s1 := Snapshot();
        DumpEnumerable(v);
        var s2 := Snapshot();
        Hook(EnumerableEnd);
        var b := [Call(EnumerableBegin(ty), l)];
        var body := EnumerableTrace(opts, l, v);
        var e := [Call(EnumerableEnd, l)];
        assert s1 == Render(opts, style, s0, b) by {
          assert b[1..] == [];
        }
        assert Snapshot() == Render(opts, style, s2, e) by {
          assert e[1..] == [];
        }
        RenderAppend(opts, style, s0, b, body);
        RenderAppend(opts, style, s0, b + body, e);
      case Pair(_, _, _) =>
        DumpObject(v);
      case Obj(_, _) =>
        DumpObject(v);
      case _ =>
        Hook(Scalar(v));
        assert [Call(Scalar(v), l)][1..] == [];
    }

    /** `DumpObject`: a key/value pair goes to `DumpKeyValuePair`; any other
        object gets start, its selected properties one level deeper with
        only the final one marked last, and end. */
    method DumpObject(v: Value)
      requires v.Pair? || v.Obj?
      modifies this
      ensures Snapshot() == Render(opts, style, old(Snapshot()), ObjectTrace(opts, old(Level), v))
      ensures Level == old(Level) && hashes == old(hashes)
      decreases v, 1, 0
    {
      if v.Pair? {
        DumpKeyValuePair(v);
        return;
      }
      var s0, l := Snapshot(), Level;
      var properties := Select(opts, v.members);
      SelectSubset(opts, v.members);
      OpenObject(v.ty);
      var s1 := Snapshot();
      DumpProperties(properties, v);
      var s2 := Snapshot();
      CloseObject();
      ObjectSteps(opts, style, s0, l, v, s1, s2, Snapshot());
    }

    /** The start of an object: its start hook, then one level deeper the
        hook that begins its property block. */
    method OpenObject(ty: TypeDesc)
      modifies this
      ensures Snapshot() == RenderCall(opts, style, RenderCall(opts, style, old(Snapshot()),
                 Call(ObjectStart(ty), old(Level))), Call(BeginProperties, old(Level) + 1))
      ensures Level == old(Level) + 1 && hashes == old(hashes)
    {
      Hook(ObjectStart(ty));
      Level := Level + 1;
      Hook(BeginProperties);
    }

    /** The end of an object: the hook that ends its property block, then one
        level up its end hook. */
    method CloseObject()
      requires Level > 0
      modifies this
      ensures Snapshot() == RenderCall(opts, style, RenderCall(opts, style, old(Snapshot()),
                 Call(EndProperties, old(Level))), Call(ObjectEnd, old(Level) - 1))
      ensures Level == old(Level) - 1 && hashes == old(hashes)
    {
      Hook(EndProperties);
      Level := Level - 1;
      Hook(ObjectEnd);
    }

    /** The `for` loop of `DumpObject` over the selected properties: begin,
        value and end of each, the end marked last only for the final one. */
    method DumpProperties(properties: seq<Member>, v: Value)
      requires v.Obj? && forall m :: m in properties ==> m in v.members
      modifies this
      ensures Snapshot() == Render(opts, style, old(Snapshot()), PropertiesTrace(opts, old(Level), properties, v))
      ensures Level == old(Level) && hashes == old(hashes)
      decreases v, 0, 0
    {
      var s1, l := Snapshot(), Level;
      var body := PropertiesTrace(opts, l, properties, v);
      for i := 0 to |properties|
        invariant Level == l && hashes == old(hashes)
        invariant Render(opts, style, Snapshot(), PropertiesTrace(opts, l, properties[i..], v))
               == Render(opts, style, s1, body)
      {
        var p := properties[i];
        assert p in v.members;
        var rest := properties[i + 1..];
        assert properties[i..][1..] == rest;
        var sa := Snapshot();
        var pb := [Call(PropertyBegin(p.name, p.typeName), l)];
        var pv := Trace(opts, l, p.value);
        var pe := [Call(PropertyEnd(p.name, i == |properties| - 1), l)];
        Hook(PropertyBegin(p.name, p.typeName));
        assert Snapshot() == Render(opts, style, sa, pb) by {
          assert pb[1..] == [];
        }
        DumpElement(p.value);
        var sc := Snapshot();
        Hook(PropertyEnd(p.name, i == |properties| - 1));
        assert Snapshot() == Render(opts, style, sc, pe) by {
          assert pe[1..] == [];
        }
        RenderAppend(opts, style, sa, pb, pv);
        RenderAppend(opts, style, sa, pb + pv, pe);
        RenderAppend(opts, style, sa, pb + pv + pe, PropertiesTrace(opts, l, rest, v));
      }
      assert properties[|properties|..] == [];
    }

    /** `DumpKeyValuePair`: begin, key, separator, value, end, all at the
        level of the pair. */
    method DumpKeyValuePair(v: Value)
      requires v.Pair?
      modifies this
      ensures Snapshot() == Render(opts, style, old(Snapshot()), ObjectTrace(opts, old(Level), v))
      ensures Level == old(Level) && hashes == old(hashes)
      decreases v, 0, 0
    {
      var s0, l := Snapshot(), Level;
      var b := [Call(KeyValuePairBegin, l)];
      var k := Trace(opts, l, v.key);
      var m := [Call(KeyValuePairSeparator, l)];
      var x := Trace(opts, l, v.val);
      var e := [Call(KeyValuePairEnd, l)];
      Hook(KeyValuePairBegin);
      assert Snapshot() == Render(opts, style, s0, b) by {
        assert b[1..] == [];
      }
      var s1 := Snapshot();
      DumpElement(v.key);
      var s2 := Snapshot();
      Hook(KeyValuePairSeparator);
      assert Snapshot() == Render(opts, style, s2, m) by {
        assert m[1..] == [];
      }
      var s3 := Snapshot();
      DumpElement(v.val);
      var s4 := Snapshot();
      Hook(KeyValuePairEnd);
      assert Snapshot() == Render(opts, style, s4, e) by {
        assert e[1..] == [];
      }
      RenderAppend(opts, style, s0, b, k);
      RenderAppend(opts, style, s0, b + k, m);
      RenderAppend(opts, style, s0, b + k + m, x);
      RenderAppend(opts, style, s0, b + k + m + x, e);
    }

    /** `DumpEnumerable`: one level deeper, nothing beyond the ceiling. */
    method DumpEnumerable(v: Value)
      requires v.Seq?
      modifies this
      ensures Snapshot() == Render(opts, style, old(Snapshot()), EnumerableTrace(opts, old(Level), v))
      ensures Level == old(Level) && hashes == old(hashes)
      decreases v, 1, 0
    {
      Level := Level + 1;
      if IsMaxLevel(opts, Level) {
        Level := Level - 1;
        return;
      }
      DumpItems(v);
      Level := Level - 1;
    }

    /** The enumerator loop of `DumpEnumerable`, with its look-ahead: each
        element is dumped and followed by a separator that is last only
        after the final element. The enumerator is an index into the items. */
    method DumpItems(v: Value)
      requires v.Seq?
      modifies this
      ensures Snapshot() == Render(opts, style, old(Snapshot()), ElementsTrace(opts, old(Level), v.items, v))
      ensures Level == old(Level) && hashes == old(hashes)
      decreases v, 0, 0
    {
      var s0, l := Snapshot(), Level;
      var items := v.items;
      if |items| == 0 {
        return;
      }
      var item := items[0];
      var next := 1;
      while next < |items|
        invariant 1 <= next <= |items| && item == items[next - 1]
        invariant Level == l && hashes == old(hashes)
        invariant Render(opts, style, Snapshot(), ElementsTrace(opts, l, items[next - 1..], v))
               == Render(opts, style, s0, ElementsTrace(opts, l, items, v))
      {
        assert item in v.items;
        var sa := Snapshot();
        var rest := items[next..];
        assert items[next - 1..][1..] == rest;
        DumpElement(item);
        var sb := Snapshot();
        item := items[next];
        next := next + 1;
        Hook(EnumerableSeparator(false));
        ElementStep(opts, style, l, sa, sb, Snapshot(), items[next - 2], rest, v);
      }
      assert item in v.items;
      assert items[next - 1..] == [item] && [item][1..] == [];
      var sa := Snapshot();
      DumpElement(item);
      var sb := Snapshot();
      Hook(EnumerableSeparator(true));
      ElementStep(opts, style, l, sa, sb, Snapshot(), item, [], v);
    }
  }

  /** One step of the enumerator loop: an element's dump followed by its
      separator, last exactly when no element follows. */
  lemma ElementStep(o: DumpOptions, style: Style, level: nat, sa: Sink, sb: Sink, sc: Sink,
                    item: Value, rest: seq<Value>, v: Value)
    requires v.Seq? && item in v.items && forall x :: x in rest ==> x in v.items
    requires sb == Render(o, style, sa, Trace(o, level, item))
    requires sc == RenderCall(o, style, sb, Call(EnumerableSeparator(rest == []), level))
    ensures Render(o, style, sa, ElementsTrace(o, level, [item] + rest, v))
         == Render(o, style, sc, ElementsTrace(o, level, rest, v))
  {
    var t := Trace(o, level, item);
    var sep := [Call(EnumerableSeparator(rest == []), level)];
    assert sc == Render(o, style, sb, sep) by {
      assert sep[1..] == [];
    }
    RenderAppend(o, style, sa, t, sep);
    RenderAppend(o, style, sa, t + sep, ElementsTrace(o, level, rest, v));
    assert ([item] + rest)[1..] == rest;
  }

  /** The calls `DumpObject` makes for a non-pair object, rendered one after
      another, are its `ObjectTrace`. */
  lemma ObjectSteps(o: DumpOptions, style: Style, s0: Sink, l: nat, v: Value, s1: Sink, s2: Sink, s3: Sink)
    requires v.Obj? && forall m :: m in Select(o, v.members) ==> m in v.members
    requires s1 == RenderCall(o, style, RenderCall(o, style, s0, Call(ObjectStart(v.ty), l)), Call(BeginProperties, l + 1))
    requires s2 == Render(o, style, s1, PropertiesTrace(o, l + 1, Select(o, v.members), v))
    requires s3 == RenderCall(o, style, RenderCall(o, style, s2, Call(EndProperties, l + 1)), Call(ObjectEnd, l))
    ensures s3 == Render(o, style, s0, ObjectTrace(o, l, v))
  {
    var head := [Call(ObjectStart(v.ty), l), Call(BeginProperties, l + 1)];
    var body := PropertiesTrace(o, l + 1, Select(o, v.members), v);
    var tail := [Call(EndProperties, l + 1), Call(ObjectEnd, l)];
    RenderTwo(o, style, s0, head[0], head[1]);
    RenderTwo(o, style, s2, tail[0], tail[1]);
    assert ObjectTrace(o, l, v) == head + body + tail;
    RenderAppend(o, style, s0, head, body);
    RenderAppend(o, style, s0, head + body, tail);
  }
}
