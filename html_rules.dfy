/**
 * The text rules of `ObjectDumperHtml`: the CSS class attribute, the type
 * name and the hook overrides. Hooks it does not override (the property
 * block, enumerables and key/value pairs) fall back to the defaults of
 * `DumperBase`.
 */
module HtmlRules {
  import opened Text
  import opened Values
  import opened Traversal
  import opened Output
  import BaseHooks

  /** The characters the class `[A-z0-9_-]` admits. The range `A-z` also
      spans the six characters between `Z` and `a`: `[ \ ] ^ _` and backtick. */
  predicate CssChar(c: char)
  {
    ('A' <= c <= 'z') || ('0' <= c <= '9') || c == '_' || c == '-'
  }

  /** `cssRegex.Replace(s, "")`: deletes every character outside the class. */
  function KeepCss(s: string): (r: string)
    ensures |r| <= |s|
    ensures forall i :: 0 <= i < |r| ==> CssChar(r[i])
  {
    if s == [] then []
    else (if CssChar(s[0]) then [s[0]] else []) + KeepCss(s[1..])
  }

  /** One class name: `<` turned into `-`, then everything outside the
      character class deleted. */
  function Clean(s: string): string
  {
    KeepCss(ReplaceChar(s, '<', '-'))
  }

  /** One entry of the attribute: `obj-` and the cleaned name. */
  function Token(s: string): string
  {
    "obj-" + Clean(s)
  }

  /** The entries in order, separated by one space each. */
  function Joined(classes: seq<string>): string
  {
    if |classes| == 0 then ""
    else if |classes| == 1 then Token(classes[0])
    else Joined(classes[..|classes| - 1]) + " " + Token(classes[|classes| - 1])
  }

  /** `CssClass(params string[])`: the quoted attribute value. */
  function CssClass(classes: seq<string>): string
  {
    "\"" + Joined(classes) + "\""
  }

  /** `GetTypeName`: the formatted name of the runtime type. */
  function TypeName(ty: TypeDesc): string
  {
    ty.formatted
  }

  /** The `StringBuilder` loop of `CssClass`. */
  method BuildCssClass(classes: seq<string>) returns (r: string)
    ensures r == CssClass(classes)
  {
    r := "\"";
    for i := 0 to |classes|
      invariant r == "\"" + Built(classes, i)
    {
      ghost var before := r;
      r := r + "obj-";
      r := r + Clean(classes[i]);
      if i < |classes| - 1 {
        r := r + " ";
      }
      BuiltNext(classes, i, before, r);
    }
    assert classes[..|classes|] == classes;
    r := r + "\"";
  }

  /** What the loop has appended after `i` entries: the first `i` tokens, and
      the space that precedes the next one if there is a next one. */
  function Built(classes: seq<string>, i: nat): string
    requires i <= |classes|
  {
    Joined(classes[..i]) + (if 0 < i < |classes| then " " else "")
  }

  lemma BuiltNext(classes: seq<string>, i: nat, before: string, after: string)
    requires i < |classes|
    requires before == "\"" + Built(classes, i)
    requires after == before + "obj-" + Clean(classes[i]) + (if i < |classes| - 1 then " " else "")
    ensures after == "\"" + Built(classes, i + 1)
  {
    var joined, clean := Joined(classes[..i]), Clean(classes[i]);
    var sep := if 0 < i then " " else "";
    var next := if i < |classes| - 1 then " " else "";
    assert Joined(classes[..i + 1]) == joined + sep + ("obj-" + clean) by {
      assert classes[..i + 1][..i] == classes[..i];
    }
    Regroup("\"", joined + sep, "obj-", clean, next);
  }

  lemma Regroup(a: string, b: string, c: string, d: string, e: string)
    ensures a + b + c + d + e == a + (b + (c + d)) + e
  {
  }

  lemma {:induction false} KeepCssAppend(a: string, b: string)
    ensures KeepCss(a + b) == KeepCss(a) + KeepCss(b)
  {
    if a == [] {
      assert a + b == b;
    } else {
      assert (a + b)[1..] == a[1..] + b;
      KeepCssAppend(a[1..], b);
    }
  }

  /** Cleaning is idempotent: a cleaned name is left as it is. */
  lemma {:induction false} CleanIdempotent(s: string)
    ensures Clean(Clean(s)) == Clean(s)
  {
    KeepCssFixed(Clean(s));
    ReplaceCharFixed(Clean(s));
  }

  /** A string of class characters survives `KeepCss` whole. */
  lemma {:induction false} KeepCssFixed(s: string)
    requires forall i :: 0 <= i < |s| ==> CssChar(s[i])
    ensures KeepCss(s) == s
  {
    if s != [] {
      assert forall i :: 0 <= i < |s[1..]| ==> s[1..][i] == s[i + 1];
      KeepCssFixed(s[1..]);
    }
  }

  lemma ReplaceCharFixed(s: string)
    requires forall i :: 0 <= i < |s| ==> CssChar(s[i])
    ensures ReplaceChar(s, '<', '-') == s
  {
  }

  /** Cleaning commutes with concatenation. */
  lemma CleanAppend(a: string, b: string)
    ensures Clean(a + b) == Clean(a) + Clean(b)
  {
    assert ReplaceChar(a + b, '<', '-') == ReplaceChar(a, '<', '-') + ReplaceChar(b, '<', '-');
    KeepCssAppend(ReplaceChar(a, '<', '-'), ReplaceChar(b, '<', '-'));
  }

  /** Cleaning keeps exactly the class characters and the `<` signs (as `-`),
      in order: a name that has only those is changed only at its `<` signs. */
  lemma CleanKeepsClassChars(s: string)
    requires forall i :: 0 <= i < |s| ==> CssChar(s[i]) || s[i] == '<'
    ensures |Clean(s)| == |s|
    ensures forall i :: 0 <= i < |s| ==> Clean(s)[i] == (if s[i] == '<' then '-' else s[i])
  {
    KeepCssFixed(ReplaceChar(s, '<', '-'));
  }

  /** Number of occurrences of `c` in `s`. */
  function Count(s: string, c: char): nat
  {
    if s == [] then 0 else (if s[0] == c then 1 else 0) + Count(s[1..], c)
  }

  lemma {:induction false} CountAppend(a: string, b: string, c: char)
    ensures Count(a + b, c) == Count(a, c) + Count(b, c)
  {
    if a == [] {
      assert a + b == b;
    } else {
      assert (a + b)[1..] == a[1..] + b;
      CountAppend(a[1..], b, c);
    }
  }

  lemma {:induction false} CountAbsent(s: string, c: char)
    requires forall i :: 0 <= i < |s| ==> s[i] != c
    ensures Count(s, c) == 0
  {
    if s != [] {
      assert forall i :: 0 <= i < |s[1..]| ==> s[1..][i] == s[i + 1];
      CountAbsent(s[1..], c);
    }
  }

  lemma TokenChars(s: string)
    ensures forall i :: 0 <= i < |Token(s)| ==> CssChar(Token(s)[i])
  {
    var t := Token(s);
    forall i | 0 <= i < |t| ensures CssChar(t[i]) {
      if i >= 4 {
        assert t[i] == Clean(s)[i - 4];
      }
    }
  }

  /** The entries are separated by exactly one space each: `n` classes give
      `n - 1` spaces, and nothing else in the joined text is a space. */
  lemma {:induction false} JoinedSpaces(classes: seq<string>)
    requires |classes| > 0
    ensures Count(Joined(classes), ' ') == |classes| - 1
    ensures forall i :: 0 <= i < |Joined(classes)| ==> CssChar(Joined(classes)[i]) || Joined(classes)[i] == ' '
    decreases |classes|
  {
    var last := Token(classes[|classes| - 1]);
    TokenChars(classes[|classes| - 1]);
    CountAbsent(last, ' ');
    if |classes| > 1 {
      var init := classes[..|classes| - 1];
      JoinedSpaces(init);
      CountAppend(Joined(init) + " ", last, ' ');
      CountAppend(Joined(init), " ", ' ');
      assert Count(" ", ' ') == 1 by { assert " "[1..] == ""; }
    }
  }

  /** The attribute value is quoted and cannot be broken out of: it starts
      and ends with `"`, and nothing between holds a quote or an angle bracket. */
  lemma CssClassWellFormed(classes: seq<string>)
    ensures var r := CssClass(classes);
      && |r| >= 2 && r[0] == '"' && r[|r| - 1] == '"'
      && forall i :: 0 < i < |r| - 1 ==> r[i] != '"' && r[i] != '<' && r[i] != '>'
  {
    var r := CssClass(classes);
    if |classes| > 0 {
      JoinedSpaces(classes);
      forall i | 0 < i < |r| - 1 ensures r[i] != '"' && r[i] != '<' && r[i] != '>' {
        assert r[i] == Joined(classes)[i - 1];
      }
    }
  }

  /** The span around a scalar's text. */
  function ValueSpan(text: string): string
  {
    "<span class=" + CssClass(["value"]) + ">" + text + "</span>"
  }

  /** The scalar hooks: every kind is a value span around its `ToString()`
      (so booleans read `True`/`False` and strings are not encoded);
      `DateTime` uses the round-trip format and null has the extra class
      `null`. */
  function ScalarText(v: Value): string
  {
    match v
    case Null => "<span class=" + CssClass(["value", "null"]) + ">null</span>"
    case DateTime(_, _, roundTrip) => ValueSpan(roundTrip)
    case Seq(_, _) => ""
    case Pair(_, _, _) => ""
    case Obj(_, _) => ""
    case _ => ValueSpan(ToStringText(v))
  }

  /** The hook overrides. The object start writes its class bare, without
      quotes or the `obj-` prefix. */
  function HookOps(h: Hook): (ops: seq<Op>)
    ensures |ops| == 1 && ops[0].Write?
  {
    match h
    case ObjectStart(ty) => [Write("<div class=type-" + TypeName(ty) + ">")]
    case ObjectEnd => [Write("</div>")]
    case PropertyBegin(name, typeName) =>
      [Write("<div class=" + CssClass(["type-" + typeName, name]) + "><span class="
             + CssClass(["label"]) + ">" + name + "</span> ")]
    case PropertyEnd(_, _) => [Write("</div>")]
    case Scalar(v) => [Write(ScalarText(v))]
    case _ => BaseHooks.HookOps(h)
  }

  /** A single class made only of class characters is kept as it is. */
  lemma PlainClass(c: string)
    requires forall i :: 0 <= i < |c| ==> CssChar(c[i])
    ensures CssClass([c]) == "\"obj-" + c + "\""
  {
    assert Clean(c) == c by {
      ReplaceCharFixed(c);
      KeepCssFixed(c);
    }
    OneClass(c);
    assert Token(c) == "obj-" + c;
  }

  /** A single class is its token in quotes. */
  lemma OneClass(a: string)
    ensures CssClass([a]) == "\"" + Token(a) + "\""
  {
    assert Joined([a]) == Token(a);
  }

  /** The same, inside the text around an attribute: the whole equals any
      text spelled out as the prefix, `"obj-`, the class, `"` and the suffix. */
  lemma ClassAttribute(before: string, c: string, after: string, whole: string)
    requires forall i :: 0 <= i < |c| ==> CssChar(c[i])
    requires whole == before + "\"obj-" + c + "\"" + after
    ensures before + CssClass([c]) + after == whole
  {
    PlainClass(c);
  }

  /** Two classes are joined by one space. */
  lemma TwoClasses(a: string, b: string)
    ensures CssClass([a, b]) == "\"" + Token(a) + " " + Token(b) + "\""
  {
    assert [a, b][..1] == [a];
    assert Joined([a, b]) == Token(a) + " " + Token(b);
  }

  /** The class of the null span is `"obj-value obj-null"`. */
  lemma NullClass()
    ensures CssClass(["value", "null"]) == "\"obj-" + "value" + " obj-" + "null" + "\""
  {
    TwoPlainClasses("value", "null");
  }

  /** Two classes made only of class characters are kept as they are. */
  lemma TwoPlainClasses(a: string, b: string)
    requires forall i :: 0 <= i < |a| ==> CssChar(a[i])
    requires forall i :: 0 <= i < |b| ==> CssChar(b[i])
    ensures CssClass([a, b]) == "\"obj-" + a + " obj-" + b + "\""
  {
    TwoClasses(a, b);
    assert Token(a) == "obj-" + a by {
      ReplaceCharFixed(a);
      KeepCssFixed(a);
    }
    assert Token(b) == "obj-" + b by {
      ReplaceCharFixed(b);
      KeepCssFixed(b);
    }
    Splice("\"", "obj-", a, " ", b, "\"obj-", " obj-");
  }

  lemma Splice(q: string, pre: string, a: string, sp: string, b: string, qpre: string, sppre: string)
    requires qpre == q + pre && sppre == sp + pre
    ensures q + (pre + a) + sp + (pre + b) + q == qpre + a + sppre + b + q
  {
  }

  /** A first class made only of class characters, then any second class,
      inside the text around an attribute. */
  lemma TwoClassAttribute(before: string, a: string, b: string, after: string, whole: string)
    requires forall i :: 0 <= i < |a| ==> CssChar(a[i])
    requires whole == before + "\"obj-" + a + " " + Token(b) + "\"" + after
    ensures before + CssClass([a, b]) + after == whole
  {
    TwoClasses(a, b);
    assert Token(a) == "obj-" + a by {
      ReplaceCharFixed(a);
      KeepCssFixed(a);
    }
    SpliceFirst(before, "\"", "obj-", a, " " + Token(b), after, "\"obj-");
    assert " " + Token(b) + "\"" + after == " " + Token(b) + ("\"" + after);
  }

  lemma SpliceFirst(before: string, q: string, pre: string, a: string, rest: string, after: string, qpre: string)
    requires qpre == q + pre
    ensures before + (q + (pre + a) + rest + q) + after == before + qpre + a + rest + (q + after)
  {
  }

  /** The value span around any text. */
  lemma ValueSpanText(text: string)
    ensures ValueSpan(text) == "<span class=\"obj-value\">" + text + "</span>"
  {
    ClassAttribute("<span class=", "value", ">", "<span class=\"obj-value\">");
  }

  /** Every scalar but null is written inside a span of class `obj-value`:
      `DateTime` in its round-trip form, the rest as `ToString()` gives it. */
  lemma ScalarSpans(v: Value)
    requires IsScalar(v) && v != Null
    ensures ScalarText(v)
         == "<span class=\"obj-value\">" + (if v.DateTime? then v.roundTrip else ToStringText(v)) + "</span>"
  {
    var text := if v.DateTime? then v.roundTrip else ToStringText(v);
    assert ScalarText(v) == ValueSpan(text);
    ValueSpanText(text);
  }
}
