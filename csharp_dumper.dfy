/**
 * `ObjectDumperCSharp.Dump`: a variable declaration whose initializer is the
 * dumped value, rendered with the C# hook overrides.
 */
module CSharpDumper {
  import opened Wrappers
  import opened Text
  import opened Values
  import opened Options
  import opened Traversal
  import opened Output
  import opened Rendering
  import CSharpRules
  import opened Engine

  /** The whole output: `var <name> = `, the dump at level 0, `;`. Fails when
      the variable name cannot be formed. */
  function Dump(o: DumpOptions, escape: string -> string, v: Value): Result<string, DumpError>
  {
    match CSharpRules.VariableName(v)
    case Err(e) => Err(e)
    case Ok(name) =>
      var header := Exec(o, Sink([], true), 0, Op.Write("var " + name + " = "));
      var body := Render(o, CSharpStyle(escape), header, Trace(o, 0, v));
      Ok(Exec(o, body, 0, Op.Write(";")).text)
  }

  /** `Dump(value, dumpOptions)`; `newLine` stands for `Environment.NewLine`
      and `escape` for the string escaper. */
  method DumpValue(v: Value, options: Option<DumpOptions>, newLine: string, escape: string -> string)
    returns (r: Result<string, DumpError>)
    ensures r == Dump(OrDefault(options, newLine), escape, v)
  {
    var o := OrDefault(options, newLine);
    var name := CSharpRules.VariableName(v);
    if name.Err? {
      return Err(name.error);
    }
    var instance := new Dumper(o, CSharpStyle(escape));
    instance.Write("var " + name.value + " = ");
    instance.DumpData(v);
    instance.Write(";");
    var text := instance.ToString();
    return Ok(text);
  }

  /** The output is the declaration head, the text of the dump, and `;`,
      exactly when the variable name can be formed. */
  lemma DumpShape(o: DumpOptions, escape: string -> string, v: Value)
    ensures Dump(o, escape, v).Ok? <==> CSharpRules.VariableName(v).Ok?
    ensures Dump(o, escape, v).Ok? ==>
      var head := "var " + CSharpRules.VariableName(v).value + " = ";
      Dump(o, escape, v).value
      == head + Render(o, CSharpStyle(escape), Sink([], EndsWith(head, o.lineBreak)), Trace(o, 0, v)).text + ";"
  {
    if CSharpRules.VariableName(v).Ok? {
      var head := "var " + CSharpRules.VariableName(v).value + " = ";
      Framed(o, CSharpStyle(escape), [Op.Write(head)], Trace(o, 0, v), ";");
      assert RunOps(o, Sink([], true), 0, [Op.Write(head)]) == Exec(o, Sink([], true), 0, Op.Write(head)) by {
        assert [Op.Write(head)][1..] == [];
      }
      assert Appended(o, [Op.Write(head)]) == head by {
        assert [Op.Write(head)][1..] == [];
      }
    }
  }

  /** Dumping null gives `var x = null;` whenever level 0 is within the
      ceiling (always with the default options). */
  lemma DumpNull(o: DumpOptions, escape: string -> string)
    requires o.maxLevel >= 0
    ensures Dump(o, escape, Null) == Ok("var x = null;")
  {
    var st := CSharpStyle(escape);
    assert Indentation(o, 0) == [];
    var head := Exec(o, Sink([], true), 0, Op.Write("var x = "));
    assert head.text == "var x = ";
    var call := Call(Scalar(Null), 0);
    var ops := HookOps(st, call.hook);
    assert ops == [Op.Write("null")];
    var body := Exec(o, head, 0, ops[0]);
    assert RunOps(o, head, 0, ops) == body by {
      assert ops[1..] == [];
    }
    assert Trace(o, 0, Null) == [call];
    assert Render(o, st, head, [call]) == body by {
      assert [call][1..] == [];
    }
    assert body.text == "var x = null";
    assert Exec(o, body, 0, Op.Write(";")).text == "var x = null;";
    assert CSharpRules.VariableName(Null) == Ok("x");
    assert "var " + "x" + " = " == "var x = ";
  }
}
