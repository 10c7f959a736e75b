/**
 * `ObjectDumperHtml.Dump`: a wrapping `div` with a type-info header, the
 * dumped value rendered with the HTML hook overrides, and the closing `div`.
 */
module HtmlDumper {
  import opened Wrappers
  import opened Text
  import opened Values
  import opened Options
  import opened Traversal
  import opened Output
  import opened Rendering
  import HtmlRules
  import opened Engine

  /** The five writes before the value, for a value whose formatted type name
      is `t`; `htmlEncode` stands for `WebUtility.HtmlEncode`. */
  function Header(htmlEncode: string -> string, t: string): seq<Op>
  {
    [ Op.Write("<div class=" + HtmlRules.CssClass(["dump", "type-" + t]) + ">"),
      Op.Write("<div class=" + HtmlRules.CssClass(["type-info"]) + ">"),
      Op.Write("<span class=" + HtmlRules.CssClass(["label"]) + ">Dumped Type:</span> "),
      Op.Write("<span class=" + HtmlRules.CssClass(["type"]) + ">" + htmlEncode(t) + "</span>"),
      Op.Write("</div>") ]
  }

  /** The whole output; dumping null fails, because the type name is taken
      from the value before anything is written. */
  function Dump(o: DumpOptions, htmlEncode: string -> string, v: Value): Result<string, DumpError>
  {
    if v == Null then Err(NullReference)
    else
      var header := RunOps(o, Sink([], true), 0, Header(htmlEncode, HtmlRules.TypeName(TypeOf(v))));
      var body := Render(o, HtmlStyle, header, Trace(o, 0, v));
      Ok(Exec(o, body, 0, Op.Write("</div>")).text)
  }

  /** Five writes in a row, one step at a time. */
  lemma FiveWrites(o: DumpOptions, s: Sink, a: string, b: string, c: string, d: string, e: string)
    ensures RunOps(o, s, 0, [Op.Write(a), Op.Write(b), Op.Write(c), Op.Write(d), Op.Write(e)])
         == Exec(o, Exec(o, Exec(o, Exec(o, Exec(o, s, 0, Op.Write(a)), 0, Op.Write(b)), 0, Op.Write(c)), 0, Op.Write(d)), 0, Op.Write(e))
  {
    var ops := [Op.Write(a), Op.Write(b), Op.Write(c), Op.Write(d), Op.Write(e)];
    var s1 := Exec(o, s, 0, ops[0]);
    var s2 := Exec(o, s1, 0, ops[1]);
    var s3 := Exec(o, s2, 0, ops[2]);
    var s4 := Exec(o, s3, 0, ops[3]);
    var s5 := Exec(o, s4, 0, ops[4]);
    assert RunOps(o, s4, 0, ops[4..]) == s5 by {
      assert ops[4..][1..] == [];
    }
    assert RunOps(o, s3, 0, ops[3..]) == s5 by {
      assert ops[3..][1..] == ops[4..];
    }
    assert RunOps(o, s2, 0, ops[2..]) == s5 by {
      assert ops[2..][1..] == ops[3..];
    }
    assert RunOps(o, s1, 0, ops[1..]) == s5 by {
      assert ops[1..][1..] == ops[2..];
    }
  }

  /** The header block of `Dump`, written by a fresh dumper at level 0. */
  method WriteHeader(instance: Dumper, htmlEncode: string -> string, t: string)
    requires instance.Level == 0
    modifies instance
    ensures instance.Snapshot() == RunOps(instance.opts, old(instance.Snapshot()), 0, Header(htmlEncode, t))
    ensures instance.Level == 0
  {
    var dumpClass := HtmlRules.BuildCssClass(["dump", "type-" + t]);
    var w1 := "<div class=" + dumpClass + ">";
    var infoClass := HtmlRules.BuildCssClass(["type-info"]);
    var w2 := "<div class=" + infoClass + ">";
    var labelClass := HtmlRules.BuildCssClass(["label"]);
    var w3 := "<span class=" + labelClass + ">Dumped Type:</span> ";
    var typeClass := HtmlRules.BuildCssClass(["type"]);
    var w4 := "<span class=" + typeClass + ">" + htmlEncode(t) + "</span>";
    var w5 := "</div>";
    assert Header(htmlEncode, t) == [Op.Write(w1), Op.Write(w2), Op.Write(w3), Op.Write(w4), Op.Write(w5)];
    FiveWrites(instance.opts, instance.Snapshot(), w1, w2, w3, w4, w5);
    instance.Write(w1);
    instance.Write(w2);
    instance.Write(w3);
    instance.Write(w4);
    instance.Write(w5);
  }

  /** `Dump(value, dumpOptions)`; `newLine` stands for `Environment.NewLine`. */
  method DumpValue(v: Value, options: Option<DumpOptions>, newLine: string, htmlEncode: string -> string)
    returns (r: Result<string, DumpError>)
    ensures r == Dump(OrDefault(options, newLine), htmlEncode, v)
  {
    var o := OrDefault(options, newLine);
    if v == Null {
      return Err(NullReference);
    }
    var instance := new Dumper(o, HtmlStyle);
    var t := HtmlRules.TypeName(TypeOf(v));
    WriteHeader(instance, htmlEncode, t);
    instance.DumpData(v);
    instance.Write("</div>");
    var text := instance.ToString();
    return Ok(text);
  }

  /** Dumping null fails; any other value gives the header, the text of the
      dump, and the closing `div`. */
  lemma DumpShape(o: DumpOptions, htmlEncode: string -> string, v: Value)
    ensures Dump(o, htmlEncode, v).Err? <==> v == Null
    ensures v == Null ==> Dump(o, htmlEncode, v) == Err(NullReference)
    ensures v != Null ==>
      var ops := Header(htmlEncode, HtmlRules.TypeName(TypeOf(v)));
      Dump(o, htmlEncode, v).value
      == Appended(o, ops)
         + Render(o, HtmlStyle, Sink([], EndsWith("</div>", o.lineBreak)), Trace(o, 0, v)).text
         + "</div>"
  {
    if v != Null {
      var ops := Header(htmlEncode, HtmlRules.TypeName(TypeOf(v)));
      Framed(o, HtmlStyle, ops, Trace(o, 0, v), "</div>");
    }
  }

  lemma DumpOpen(t: string)
    ensures "<div class=" + HtmlRules.CssClass(["dump", "type-" + t]) + ">"
         == "<div class=\"obj-dump " + HtmlRules.Token("type-" + t) + "\">"
  {
    HtmlRules.TwoClassAttribute("<div class=", "dump", "type-" + t, ">",
                                "<div class=\"obj-dump " + HtmlRules.Token("type-" + t) + "\">");
  }

  lemma InfoOpen()
    ensures "<div class=" + HtmlRules.CssClass(["type-info"]) + ">" == "<div class=\"obj-type-info\">"
  {
    HtmlRules.ClassAttribute("<div class=", "type-info", ">", "<div class=\"obj-type-info\">");
  }

  lemma LabelSpan()
    ensures "<span class=" + HtmlRules.CssClass(["label"]) + ">Dumped Type:</span> "
         == "<span class=\"obj-label\">Dumped Type:</span> "
  {
    HtmlRules.ClassAttribute("<span class=", "label", ">Dumped Type:</span> ",
                             "<span class=\"obj-label\">Dumped Type:</span> ");
  }

  lemma TypeSpan(x: string)
    ensures "<span class=" + HtmlRules.CssClass(["type"]) + ">" + x + "</span>"
         == "<span class=\"obj-type\">" + x + "</span>"
  {
    HtmlRules.ClassAttribute("<span class=", "type", ">", "<span class=\"obj-type\">");
  }

  /** The header opens the dump `div` with the classes `obj-dump` and
      `obj-type-T` (T cleaned), and holds a closed type-info `div` with the
      label and the encoded type name. */
  lemma HeaderText(htmlEncode: string -> string, t: string)
    ensures Header(htmlEncode, t)
         == [ Op.Write("<div class=\"obj-dump " + HtmlRules.Token("type-" + t) + "\">"),
              Op.Write("<div class=\"obj-type-info\">"),
              Op.Write("<span class=\"obj-label\">Dumped Type:</span> "),
              Op.Write("<span class=\"obj-type\">" + htmlEncode(t) + "</span>"),
              Op.Write("</div>") ]
  {
    DumpOpen(t);
    InfoOpen();
    LabelSpan();
    TypeSpan(htmlEncode(t));
  }
}
