/**
 * What a sequence of hook calls does to the buffer, for each renderer: every
 * hook is a short list of `Write`/`LineBreak` operations, run at the level
 * the call carries.
 */
module Rendering {
  import opened Text
  import opened Values
  import opened Options
  import opened Traversal
  import opened Output
  import BaseHooks
  import CSharpRules
  import HtmlRules

  /** Which hook bodies are in force: the defaults of `DumperBase`, the C#
      overrides (with the string escaper, an extension method declared
      outside this model), or the HTML overrides. */
  datatype Style = BaseStyle | CSharpStyle(escape: string -> string) | HtmlStyle

  function HookOps(style: Style, h: Hook): seq<Op>
  {
    match style
    case BaseStyle => BaseHooks.HookOps(h)
    case CSharpStyle(escape) => CSharpRules.HookOps(escape, h)
    case HtmlStyle => HtmlRules.HookOps(h)
  }

  /** One hook call. */
  function RenderCall(o: DumpOptions, style: Style, s: Sink, c: Call): Sink
  {
    RunOps(o, s, c.level, HookOps(style, c.hook))
  }

  /** The calls in order. */
  function Render(o: DumpOptions, style: Style, s: Sink, calls: seq<Call>): Sink
    decreases |calls|
  {
    if calls == [] then s else Render(o, style, RenderCall(o, style, s, calls[0]), calls[1..])
  }

  lemma {:induction false} RenderAppend(o: DumpOptions, style: Style, s: Sink, a: seq<Call>, b: seq<Call>)
    ensures Render(o, style, s, a + b) == Render(o, style, Render(o, style, s, a), b)
    decreases |a|
  {
    if a == [] {
      assert a + b == b;
    } else {
      assert (a + b)[1..] == a[1..] + b;
      RenderAppend(o, style, RenderCall(o, style, s, a[0]), a[1..], b);
    }
  }

  /** Rendering one call, or two, is applying `RenderCall` to each in turn. */
  lemma RenderOne(o: DumpOptions, style: Style, s: Sink, c: Call)
    ensures Render(o, style, s, [c]) == RenderCall(o, style, s, c)
  {
    assert [c][1..] == [];
  }

  lemma RenderTwo(o: DumpOptions, style: Style, s: Sink, c1: Call, c2: Call)
    ensures Render(o, style, s, [c1, c2]) == RenderCall(o, style, RenderCall(o, style, s, c1), c2)
  {
    assert [c1, c2][1..] == [c2];
    RenderOne(o, style, RenderCall(o, style, s, c1), c2);
  }

  /** Rendering only appends: the old contents stay as a prefix, and what is
      appended depends on the old buffer only through `isNewLine`. */
  lemma {:induction false} RenderRebase(o: DumpOptions, style: Style, s: Sink, calls: seq<Call>)
    ensures Render(o, style, s, calls).text == s.text + Render(o, style, Sink([], s.newLine), calls).text
    ensures Render(o, style, s, calls).newLine == Render(o, style, Sink([], s.newLine), calls).newLine
    decreases |calls|
  {
    if calls != [] {
      var s1 := RenderCall(o, style, s, calls[0]);
      var e1 := RenderCall(o, style, Sink([], s.newLine), calls[0]);
      RunOpsRebase(o, s, calls[0].level, HookOps(style, calls[0].hook));
      assert s1 == Sink(s.text + e1.text, e1.newLine);
      RenderRebase(o, style, s1, calls[1..]);
      RenderRebase(o, style, e1, calls[1..]);
    }
  }

  /** Beyond the ceiling dumping a value leaves the buffer exactly as it was. */
  lemma MaxLevelWritesNothing(o: DumpOptions, style: Style, s: Sink, level: nat, v: Value)
    requires IsMaxLevel(o, level)
    ensures Render(o, style, s, Trace(o, level, v)) == s
  {
    MaxLevelTraceEmpty(o, level, v);
  }

  /** The C# block opening: `new T` continues the current line (indented
      to the current level only at the start of a line, as after `Persons = `
      it is not), then the brace line is indented to the current level. */
  lemma CSharpBlockOpen(o: DumpOptions, s: Sink, level: nat, name: string)
    ensures var indent := Indentation(o, level);
      RunOps(o, s, level, [Op.Write("new " + name), Op.LineBreak, Op.Write("{"), Op.LineBreak])
      == Sink(s.text + Indentation(o, if s.newLine then level else 0) + "new " + name + o.lineBreak
              + indent + "{" + o.lineBreak, true)
  {
    var ops := [Op.Write("new " + name), Op.LineBreak, Op.Write("{"), Op.LineBreak];
    var a1 := Exec(o, s, level, ops[0]);
    var a2 := Exec(o, a1, level, ops[1]);
    var a3 := Exec(o, a2, level, ops[2]);
    var a4 := Exec(o, a3, level, ops[3]);
    assert RunOps(o, a3, level, ops[3..]) == a4 by {
      assert ops[3..][1..] == [];
    }
    assert RunOps(o, a2, level, ops[2..]) == a4 by {
      assert ops[2..][1..] == ops[3..];
    }
    assert RunOps(o, a1, level, ops[1..]) == a4 by {
      assert ops[1..][1..] == ops[2..];
    }
  }

  /** An enumerable exactly at the ceiling, in C# style: its class name on the
      current line (after `Persons = ` for a list-valued property), then the
      braces each on their own indented line, and no element
      (`new List<Person>`, `{`, `}` for `MaxLevel = 1`). */
  lemma CSharpListAtCeiling(o: DumpOptions, escape: string -> string, s: Sink, level: nat,
                            ty: TypeDesc, items: seq<Value>)
    requires o.maxLevel == level
    ensures var indent := Indentation(o, level);
      Render(o, CSharpStyle(escape), s, Trace(o, level, Seq(ty, items))).text
      == s.text + Indentation(o, if s.newLine then level else 0) + "new " + ty.formatted + o.lineBreak
         + indent + "{" + o.lineBreak + indent + "}"
  {
    var indent := Indentation(o, level);
    var st := CSharpStyle(escape);
    var b, e := Call(EnumerableBegin(ty), level), Call(EnumerableEnd, level);
    EnumerableAtCeiling(o, level, ty, items);
    RenderTwo(o, st, s, b, e);
    assert HookOps(st, b.hook) == [Op.Write("new " + ty.formatted), Op.LineBreak, Op.Write("{"), Op.LineBreak];
    CSharpBlockOpen(o, s, level, ty.formatted);
    var a4 := RenderCall(o, st, s, b);
    assert RenderCall(o, st, a4, e) == Exec(o, a4, level, Op.Write("}")) by {
      assert HookOps(st, e.hook) == [Op.Write("}")];
      assert [Op.Write("}")][1..] == [];
    }
  }

  /** In C# style the separators of a list of `n` elements write `n - 1`
      commas: one after every element but the last, and each ends the line. */
  lemma CSharpListCommas(o: DumpOptions, escape: string -> string, level: nat, ty: TypeDesc, items: seq<Value>)
    requires !IsMaxLevel(o, level + 1)
    ensures var seps := LoopHooksAt(Trace(o, level, Seq(ty, items)), level + 1);
      && |seps| == |items|
      && forall i :: 0 <= i < |seps| ==>
           HookOps(CSharpStyle(escape), seps[i])
           == (if i < |items| - 1 then [Op.Write(","), Op.LineBreak] else [Op.LineBreak])
  {
    EnumerableSeparators(o, level, ty, items);
  }

  /** In HTML style every object start and property begin opens a `div`, and
      every object end and property end closes one. */
  lemma HtmlDivs(h: Hook)
    requires h.ObjectStart? || h.PropertyBegin? || h.ObjectEnd? || h.PropertyEnd?
    ensures var w := HookOps(HtmlStyle, h)[0].s;
      && (h.ObjectStart? || h.PropertyBegin? ==> |w| >= 11 && w[..11] == "<div class=")
      && (h.ObjectEnd? || h.PropertyEnd? ==> w == "</div>")
  {
    var open := "<div class=";
    if h.ObjectStart? {
      var a := open + "type-";
      assert a == "<div class=type-" && a[..11] == open;
      PrefixKept(a, HtmlRules.TypeName(h.ty), 11);
      PrefixKept(a + HtmlRules.TypeName(h.ty), ">", 11);
    } else if h.PropertyBegin? {
      var a1 := open + HtmlRules.CssClass(["type-" + h.typeName, h.name]);
      var a2 := a1 + "><span class=";
      var a3 := a2 + HtmlRules.CssClass(["label"]);
      var a4 := a3 + ">";
      var a5 := a4 + h.name;
      PrefixKept(open, HtmlRules.CssClass(["type-" + h.typeName, h.name]), 11);
      PrefixKept(a1, "><span class=", 11);
      PrefixKept(a2, HtmlRules.CssClass(["label"]), 11);
      PrefixKept(a3, ">", 11);
      PrefixKept(a4, h.name, 11);
      PrefixKept(a5, "</span> ", 11);
    }
  }

  lemma PrefixKept(a: string, b: string, n: nat)
    requires n <= |a|
    ensures n <= |a + b| && (a + b)[..n] == a[..n]
  {
  }

  /** A top-level frame around a dump: writes before it, the dump at level 0,
      one write after it. The frame's text is appended as is, and the dump's
      text depends only on whether the writes before it ended a line. */
  lemma Framed(o: DumpOptions, style: Style, before: seq<Op>, calls: seq<Call>, after: string)
    requires before != [] && before[|before| - 1].Write?
    ensures var s := Render(o, style, RunOps(o, Sink([], true), 0, before), calls);
      var lastWrite := before[|before| - 1].s;
      Exec(o, s, 0, Op.Write(after)).text
      == Appended(o, before) + Render(o, style, Sink([], EndsWith(lastWrite, o.lineBreak)), calls).text + after
  {
    var header := RunOps(o, Sink([], true), 0, before);
    var lastWrite := before[|before| - 1].s;
    assert header.text == Appended(o, before) by {
      TopLevelAppends(o, Sink([], true), before);
    }
    assert header.newLine == EndsWith(lastWrite, o.lineBreak) by {
      RunOpsLast(o, Sink([], true), 0, before);
    }
    var s := Render(o, style, header, calls);
    var body := Render(o, style, Sink([], EndsWith(lastWrite, o.lineBreak)), calls);
    assert s.text == header.text + body.text by {
      RenderRebase(o, style, header, calls);
    }
    assert Indentation(o, 0) == [];
    assert Exec(o, s, 0, Op.Write(after)).text == s.text + after;
  }
}
