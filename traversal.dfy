/**
 * The traversal of `DumperBase` as a specification: which rendering hook
 * fires, in which order, and at which object level, when a value is dumped.
 * The engine's methods are proved to perform exactly these calls.
 */
module Traversal {
  import opened Values
  import opened Options
  import opened PropertyPipeline
  import opened Wrappers

  /** The overridable `Write*` hooks, with the arguments the renderers use. */
  datatype Hook =
    | ObjectStart(ty: TypeDesc)
    | ObjectEnd
    | BeginProperties
    | EndProperties
    | PropertyBegin(name: string, typeName: string)
    | PropertyEnd(name: string, last: bool)
    | EnumerableBegin(ty: TypeDesc)
    | EnumerableSeparator(last: bool)
    | EnumerableEnd
    | KeyValuePairBegin
    | KeyValuePairSeparator
    | KeyValuePairEnd
      /** `WriteNull`, `WriteBool`, `WriteString`, ...: one hook per scalar kind,
          selected by the constructor of `v`. */
    | Scalar(v: Value)

  /** A hook invocation and the value of `Level` while it runs. */
  datatype Call = Call(hook: Hook, level: nat)

  /** `DumpElement`: nothing at all beyond the ceiling; otherwise a string or
      any other scalar goes to its scalar hook, a non-string enumerable is
      wrapped in the enumerable begin/end hooks, and everything else goes to
      `DumpObject`. */
  function Trace(o: DumpOptions, level: nat, v: Value): seq<Call>
    decreases v, 2, 0
  {
    if IsMaxLevel(o, level) then []
    else
      match v
      case Seq(ty, _) =>
        [Call(EnumerableBegin(ty), level)] + EnumerableTrace(o, level, v) + [Call(EnumerableEnd, level)]
      case Pair(_, _, _) => ObjectTrace(o, level, v)
      case Obj(_, _) => ObjectTrace(o, level, v)
      case _ => [Call(Scalar(v), level)]
  }

  /** `DumpObject`: a key/value pair is handed to `DumpKeyValuePair` at the
      same level; any other object gets start, the properties one level
      deeper, and end. */
  function ObjectTrace(o: DumpOptions, level: nat, v: Value): seq<Call>
    requires v.Pair? || v.Obj?
    decreases v, 1, 0
  {
    if v.Pair? then
      [Call(KeyValuePairBegin, level)] + Trace(o, level, v.key)
      + [Call(KeyValuePairSeparator, level)] + Trace(o, level, v.val)
      + [Call(KeyValuePairEnd, level)]
    else
      SelectSubset(o, v.members);
      [Call(ObjectStart(v.ty), level), Call(BeginProperties, level + 1)]
      + PropertiesTrace(o, level + 1, Select(o, v.members), v)
      + [Call(EndProperties, level + 1), Call(ObjectEnd, level)]
  }

  /** The `for` loop over the selected properties; only the final one is
      closed with `lastProperty = true`. */
  function PropertiesTrace(o: DumpOptions, level: nat, ps: seq<Member>, parent: Value): seq<Call>
    requires parent.Obj? && forall m :: m in ps ==> m in parent.members
    decreases parent, 0, |ps|
  {
    if ps == [] then []
    else
      assert ps[0] in parent.members;
      [Call(PropertyBegin(ps[0].name, ps[0].typeName), level)]
      + Trace(o, level, ps[0].value)
      + [Call(PropertyEnd(ps[0].name, |ps| == 1), level)]
      + PropertiesTrace(o, level, ps[1..], parent)
  }

  /** `DumpEnumerable`: one level deeper; nothing beyond the ceiling. */
  function EnumerableTrace(o: DumpOptions, level: nat, v: Value): seq<Call>
    requires v.Seq?
    decreases v, 1, 0
  {
    if IsMaxLevel(o, level + 1) then [] else ElementsTrace(o, level + 1, v.items, v)
  }

  /** The look-ahead loop: every element but the last is followed by a
      non-last separator, the last one by a last separator. */
  function ElementsTrace(o: DumpOptions, level: nat, xs: seq<Value>, parent: Value): seq<Call>
    requires parent.Seq? && forall x :: x in xs ==> x in parent.items
    decreases parent, 0, |xs|
  {
    if xs == [] then []
    else
      assert xs[0] in parent.items;
      Trace(o, level, xs[0])
      + [Call(EnumerableSeparator(|xs| == 1), level)]
      + ElementsTrace(o, level, xs[1..], parent)
  }

  // ---- properties of the traversal ----

  /** Beyond the ceiling `DumpElement` makes no call at all. */
  lemma MaxLevelTraceEmpty(o: DumpOptions, level: nat, v: Value)
    requires IsMaxLevel(o, level)
    ensures Trace(o, level, v) == []
  {
  }

  /** A string is dumped by its scalar hook although it is enumerable;
      so is every other scalar, null included. */
  lemma ScalarDispatch(o: DumpOptions, level: nat, v: Value)
    requires IsScalar(v) && !IsMaxLevel(o, level)
    ensures Trace(o, level, v) == [Call(Scalar(v), level)]
  {
  }

  /** A key/value pair: begin, key, separator, value, end, all at the level of
      the pair itself. */
  lemma PairShape(o: DumpOptions, level: nat, ty: TypeDesc, k: Value, x: Value)
    requires !IsMaxLevel(o, level)
    ensures Trace(o, level, Pair(ty, k, x))
         == [Call(KeyValuePairBegin, level)] + Trace(o, level, k)
            + [Call(KeyValuePairSeparator, level)] + Trace(o, level, x)
            + [Call(KeyValuePairEnd, level)]
  {
  }

  /** When the elements' level is beyond the ceiling, the enumerable's begin and
      end hooks still fire but nothing is dumped between them. */
  lemma EnumerableAtCeiling(o: DumpOptions, level: nat, ty: TypeDesc, items: seq<Value>)
    requires !IsMaxLevel(o, level) && IsMaxLevel(o, level + 1)
    ensures Trace(o, level, Seq(ty, items)) == [Call(EnumerableBegin(ty), level), Call(EnumerableEnd, level)]
  {
  }

  /** The hooks that belong to one object's or one enumerable's own loop. */
  predicate IsLoopHook(h: Hook)
  {
    h.EnumerableSeparator? || h.PropertyBegin? || h.PropertyEnd?
  }

  /** The loop hooks of `calls` made at exactly `level`, in order. */
  function LoopHooksAt(calls: seq<Call>, level: nat): seq<Hook>
  {
    if calls == [] then []
    else
      (if IsLoopHook(calls[0].hook) && calls[0].level == level then [calls[0].hook] else [])
      + LoopHooksAt(calls[1..], level)
  }

  /** Every loop hook in `calls` runs at `level` or deeper. */
  predicate LoopHooksFrom(calls: seq<Call>, level: nat)
  {
    forall i :: 0 <= i < |calls| && IsLoopHook(calls[i].hook) ==> calls[i].level >= level
  }

  lemma {:induction false} LoopHooksAtAppend(a: seq<Call>, b: seq<Call>, level: nat)
    ensures LoopHooksAt(a + b, level) == LoopHooksAt(a, level) + LoopHooksAt(b, level)
  {
    if a == [] {
      assert a + b == b;
    } else {
      assert (a + b)[1..] == a[1..] + b;
      LoopHooksAtAppend(a[1..], b, level);
    }
  }

  lemma {:induction false} LoopHooksAtNone(calls: seq<Call>, level: nat)
    requires LoopHooksFrom(calls, level + 1)
    ensures LoopHooksAt(calls, level) == []
  {
    if calls != [] {
      LoopHooksAtNone(calls[1..], level);
    }
  }

  /** The loops of a value's descendants run strictly deeper than the value. */
  lemma {:induction false} TraceLoopsDeeper(o: DumpOptions, level: nat, v: Value)
    ensures LoopHooksFrom(Trace(o, level, v), level + 1)
    decreases v, 2, 0
  {
    if !IsMaxLevel(o, level) {
      match v
      case Seq(ty, _) =>
        EnumerableLoopsDeeper(o, level, v);
      case Pair(_, _, _) =>
        ObjectLoopsDeeper(o, level, v);
      case Obj(_, _) =>
        ObjectLoopsDeeper(o, level, v);
      case _ =>
    }
  }

  lemma {:induction false} ObjectLoopsDeeper(o: DumpOptions, level: nat, v: Value)
    requires v.Pair? || v.Obj?
    ensures LoopHooksFrom(ObjectTrace(o, level, v), level + 1)
    decreases v, 1, 0
  {
    if v.Pair? {
      TraceLoopsDeeper(o, level, v.key);
      TraceLoopsDeeper(o, level, v.val);
    } else {
      SelectSubset(o, v.members);
      PropertiesLoopsFrom(o, level + 1, Select(o, v.members), v);
    }
  }

  lemma {:induction false} EnumerableLoopsDeeper(o: DumpOptions, level: nat, v: Value)
    requires v.Seq?
    ensures LoopHooksFrom(EnumerableTrace(o, level, v), level + 1)
    decreases v, 1, 0
  {
    if !IsMaxLevel(o, level + 1) {
      ElementsLoopsFrom(o, level + 1, v.items, v);
    }
  }

  lemma {:induction false} PropertiesLoopsFrom(o: DumpOptions, level: nat, ps: seq<Member>, parent: Value)
    requires parent.Obj? && forall m :: m in ps ==> m in parent.members
    ensures LoopHooksFrom(PropertiesTrace(o, level, ps, parent), level)
    decreases parent, 0, |ps|
  {
    if ps != [] {
      assert ps[0] in parent.members;
      TraceLoopsDeeper(o, level, ps[0].value);
      PropertiesLoopsFrom(o, level, ps[1..], parent);
    }
  }

  lemma {:induction false} ElementsLoopsFrom(o: DumpOptions, level: nat, xs: seq<Value>, parent: Value)
    requires parent.Seq? && forall x :: x in xs ==> x in parent.items
    ensures LoopHooksFrom(ElementsTrace(o, level, xs, parent), level)
    decreases parent, 0, |xs|
  {
    if xs != [] {
      assert xs[0] in parent.items;
      TraceLoopsDeeper(o, level, xs[0]);
      ElementsLoopsFrom(o, level, xs[1..], parent);
    }
  }

  /** `n` separators, all non-last except the final one. */
  function SeparatorPattern(n: nat): (r: seq<Hook>)
    ensures |r| == n
    ensures forall i :: 0 <= i < n ==> r[i] == EnumerableSeparator(i == n - 1)
  {
    seq(n, i => EnumerableSeparator(i == n - 1))
  }

  lemma {:induction false} ElementsSeparators(o: DumpOptions, level: nat, xs: seq<Value>, parent: Value)
    requires parent.Seq? && forall x :: x in xs ==> x in parent.items
    ensures LoopHooksAt(ElementsTrace(o, level, xs, parent), level) == SeparatorPattern(|xs|)
    decreases |xs|
  {
    if xs != [] {
      var head := Trace(o, level, xs[0]);
      var sep := [Call(EnumerableSeparator(|xs| == 1), level)];
      var rest := ElementsTrace(o, level, xs[1..], parent);
      assert ElementsTrace(o, level, xs, parent) == head + sep + rest;
      LoopHooksAtAppend(head + sep, rest, level);
      LoopHooksAtAppend(head, sep, level);
      TraceLoopsDeeper(o, level, xs[0]);
      LoopHooksAtNone(head, level);
      assert LoopHooksAt(sep, level) == [EnumerableSeparator(|xs| == 1)] by {
        assert sep[1..] == [];
      }
      ElementsSeparators(o, level, xs[1..], parent);
      var pattern := SeparatorPattern(|xs|);
      assert pattern == [pattern[0]] + pattern[1..];
      assert pattern[1..] == SeparatorPattern(|xs| - 1);
    }
  }

  /** For an enumerable of N elements whose elements are within the ceiling,
      its own loop makes exactly N separator calls: N-1 non-last ones and a
      last one at the end; none for an empty enumerable. */
  lemma EnumerableSeparators(o: DumpOptions, level: nat, ty: TypeDesc, items: seq<Value>)
    requires !IsMaxLevel(o, level + 1)
    ensures LoopHooksAt(Trace(o, level, Seq(ty, items)), level + 1) == SeparatorPattern(|items|)
  {
    var v := Seq(ty, items);
    assert !IsMaxLevel(o, level);
    var b, e := Call(EnumerableBegin(ty), level), Call(EnumerableEnd, level);
    var body := ElementsTrace(o, level + 1, items, v);
    assert EnumerableTrace(o, level, v) == body;
    assert Trace(o, level, v) == [b] + body + [e];
    ElementsSeparators(o, level + 1, items, v);
    LoopHooksAtAppend([b] + body, [e], level + 1);
    LoopHooksAtAppend([b], body, level + 1);
    assert [b][1..] == [] && [e][1..] == [];
    assert LoopHooksAt([b], level + 1) == [] && LoopHooksAt([e], level + 1) == [];
  }

  /** The begin and end hooks of the property list `ps`, the end of the final
      property alone marked last. */
  function PropertyPattern(ps: seq<Member>): (r: seq<Hook>)
    ensures |r| == 2 * |ps|
  {
    if ps == [] then []
    else [PropertyBegin(ps[0].name, ps[0].typeName), PropertyEnd(ps[0].name, |ps| == 1)]
         + PropertyPattern(ps[1..])
  }

  /** Entry by entry: the i-th property is opened at 2i and closed at 2i+1,
      and its end is marked last exactly when it is the final property. */
  lemma {:induction false} PropertyPatternAt(ps: seq<Member>, i: nat)
    requires i < |ps|
    ensures PropertyPattern(ps)[2 * i] == PropertyBegin(ps[i].name, ps[i].typeName)
    ensures PropertyPattern(ps)[2 * i + 1] == PropertyEnd(ps[i].name, i == |ps| - 1)
  {
    if i > 0 {
      PropertyPatternAt(ps[1..], i - 1);
    }
  }

  lemma {:induction false} PropertiesHooks(o: DumpOptions, level: nat, ps: seq<Member>, parent: Value)
    requires parent.Obj? && forall m :: m in ps ==> m in parent.members
    ensures LoopHooksAt(PropertiesTrace(o, level, ps, parent), level) == PropertyPattern(ps)
    decreases |ps|
  {
    if ps != [] {
      var begin := [Call(PropertyBegin(ps[0].name, ps[0].typeName), level)];
      var value := Trace(o, level, ps[0].value);
      var end := [Call(PropertyEnd(ps[0].name, |ps| == 1), level)];
      var rest := PropertiesTrace(o, level, ps[1..], parent);
      LoopHooksAtAppend(begin + value + end, rest, level);
      LoopHooksAtAppend(begin + value, end, level);
      LoopHooksAtAppend(begin, value, level);
      TraceLoopsDeeper(o, level, ps[0].value);
      LoopHooksAtNone(value, level);
      PropertiesHooks(o, level, ps[1..], parent);
    }
  }

  lemma NoLoopHooks(c1: Call, c2: Call, level: nat)
    requires !IsLoopHook(c1.hook) && !IsLoopHook(c2.hook)
    ensures LoopHooksAt([c1, c2], level) == []
  {
    assert [c1, c2][1..] == [c2];
    assert [c2][1..] == [];
    assert LoopHooksAt([c2], level) == [];
  }

  /** An object within the ceiling dumps exactly the selected properties, in
      the selected order, each opened and closed once, and only the final one
      is closed with `lastProperty = true`. */
  lemma ObjectProperties(o: DumpOptions, level: nat, ty: TypeDesc, ms: seq<Member>)
    requires !IsMaxLevel(o, level)
    ensures LoopHooksAt(Trace(o, level, Obj(ty, ms)), level + 1) == PropertyPattern(Select(o, ms))
  {
    var v := Obj(ty, ms);
    SelectSubset(o, ms);
    var head := [Call(ObjectStart(ty), level), Call(BeginProperties, level + 1)];
    var body := PropertiesTrace(o, level + 1, Select(o, ms), v);
    var tail := [Call(EndProperties, level + 1), Call(ObjectEnd, level)];
    assert Trace(o, level, v) == ObjectTrace(o, level, v) == head + body + tail;
    PropertiesHooks(o, level + 1, Select(o, ms), v);
    LoopHooksAtAppend(head + body, tail, level + 1);
    LoopHooksAtAppend(head, body, level + 1);
    NoLoopHooks(head[0], head[1], level + 1);
    NoLoopHooks(tail[0], tail[1], level + 1);
  }

  // ---- nesting of the opening and closing hooks ----

  /** The kinds of block the traversal opens and closes: an object, its
      property block, one property, an enumerable, a key/value pair. */
  datatype Block = ObjectBlock | PropertiesBlock | PropertyBlock | EnumerableBlock | PairBlock

  /** Whether a hook opens a block, closes one, or neither. */
  datatype Bracket = Open(kind: Block) | Close(kind: Block) | Neither

  function BracketOf(h: Hook): Bracket
  {
    match h
    case ObjectStart(_) => Open(ObjectBlock)
    case ObjectEnd => Close(ObjectBlock)
    case BeginProperties => Open(PropertiesBlock)
    case EndProperties => Close(PropertiesBlock)
    case PropertyBegin(_, _) => Open(PropertyBlock)
    case PropertyEnd(_, _) => Close(PropertyBlock)
    case EnumerableBegin(_) => Open(EnumerableBlock)
    case EnumerableEnd => Close(EnumerableBlock)
    case KeyValuePairBegin => Open(PairBlock)
    case KeyValuePairEnd => Close(PairBlock)
    case _ => Neither
  }

  /** Reads the calls left to right against the stack of blocks still open
      (innermost first): an opener pushes its kind, a closer must find its
      own kind on top and pops it. `None` when a closer finds another kind
      or nothing open. */
  function Match(calls: seq<Call>, open: seq<Block>): Option<seq<Block>>
  {
    if calls == [] then Some(open)
    else
      match BracketOf(calls[0].hook)
      case Open(k) => Match(calls[1..], [k] + open)
      case Close(k) => if open != [] && open[0] == k then Match(calls[1..], open[1..]) else None
      case Neither => Match(calls[1..], open)
  }

  /** Every block is closed by a closer of its own kind, inner blocks before
      outer ones. */
  predicate Nested(calls: seq<Call>)
  {
    Match(calls, []) == Some([])
  }

  lemma {:induction false} MatchAppend(a: seq<Call>, b: seq<Call>, open: seq<Block>)
    ensures Match(a + b, open) == (match Match(a, open) case None => None case Some(rest) => Match(b, rest))
  {
    if a == [] {
      assert a + b == b;
    } else {
      assert (a + b)[0] == a[0];
      assert (a + b)[1..] == a[1..] + b;
      match BracketOf(a[0].hook)
      case Open(k) => MatchAppend(a[1..], b, [k] + open);
      case Close(k) =>
        if open != [] && open[0] == k {
          MatchAppend(a[1..], b, open[1..]);
        }
      case Neither => MatchAppend(a[1..], b, open);
    }
  }

  /** Blocks open below the ones a run of calls works on are left alone. */
  lemma {:induction false} MatchFrame(a: seq<Call>, open: seq<Block>, rest: seq<Block>, below: seq<Block>)
    requires Match(a, open) == Some(rest)
    ensures Match(a, open + below) == Some(rest + below)
  {
    if a != [] {
      match BracketOf(a[0].hook)
      case Open(k) =>
        assert [k] + (open + below) == ([k] + open) + below;
        MatchFrame(a[1..], [k] + open, rest, below);
      case Close(k) =>
        assert (open + below)[1..] == open[1..] + below;
        MatchFrame(a[1..], open[1..], rest, below);
      case Neither => MatchFrame(a[1..], open, rest, below);
    }
  }

  lemma NestedAppend(a: seq<Call>, b: seq<Call>)
    requires Nested(a) && Nested(b)
    ensures Nested(a + b)
  {
    MatchAppend(a, b, []);
  }

  lemma NestedNeutral(c: Call)
    requires BracketOf(c.hook).Neither?
    ensures Nested([c])
  {
    assert [c][1..] == [];
  }

  /** An opener, a nested run, and a closer of the opener's kind. */
  lemma NestedWrap(open: Call, x: seq<Call>, close: Call)
    requires BracketOf(open.hook).Open? && BracketOf(close.hook) == Close(BracketOf(open.hook).kind)
    requires Nested(x)
    ensures Nested([open] + x + [close])
  {
    var k := BracketOf(open.hook).kind;
    var w := [open] + x + [close];
    assert w[0] == open && w[1..] == x + [close];
    assert [k] + [] == [] + [k] == [k];
    MatchFrame(x, [], [], [k]);
    MatchAppend(x, [close], [k]);
    assert [close][1..] == [] && [k][1..] == [];
  }

  /** A closer never closes a block of another kind: an object start
      followed by a property end is not nested. */
  lemma MismatchedClose(ty: TypeDesc, name: string, last: bool, l: nat)
    ensures !Nested([Call(ObjectStart(ty), l), Call(PropertyEnd(name, last), l)])
  {
    var w := [Call(ObjectStart(ty), l), Call(PropertyEnd(name, last), l)];
    var rest := w[1..];
    assert rest == [Call(PropertyEnd(name, last), l)];
    assert Match(rest, [ObjectBlock]) == None;
    assert [ObjectBlock] + [] == [ObjectBlock];
    assert Match(w, []) == Match(rest, [ObjectBlock]);
  }

  /** In every traversal the opening and closing hooks are properly nested:
      each object start is matched by its end, each property block, property,
      enumerable and key/value pair by its own end, inner blocks closing
      before outer ones. */
  lemma {:induction false} TraceNested(o: DumpOptions, level: nat, v: Value)
    ensures Nested(Trace(o, level, v))
    decreases v, 2, 0
  {
    if IsMaxLevel(o, level) {
      assert Trace(o, level, v) == [];
    } else {
      match v
      case Seq(ty, _) =>
        EnumerableNested(o, level, v);
        NestedWrap(Call(EnumerableBegin(ty), level), EnumerableTrace(o, level, v), Call(EnumerableEnd, level));
      case Pair(_, _, _) => ObjectNested(o, level, v);
      case Obj(_, _) => ObjectNested(o, level, v);
      case _ => NestedNeutral(Call(Scalar(v), level));
    }
  }

  lemma {:induction false} ObjectNested(o: DumpOptions, level: nat, v: Value)
    requires v.Pair? || v.Obj?
    ensures Nested(ObjectTrace(o, level, v))
    decreases v, 1, 1
  {
    if v.Pair? {
      PairNested(o, level, v);
    } else {
      MembersNested(o, level, v);
    }
  }

  lemma {:induction false} PairNested(o: DumpOptions, level: nat, v: Value)
    requires v.Pair?
    ensures Nested(ObjectTrace(o, level, v))
    decreases v, 1, 0
  {
    var b, m, e := Call(KeyValuePairBegin, level), Call(KeyValuePairSeparator, level), Call(KeyValuePairEnd, level);
    var inner := Trace(o, level, v.key) + [m] + Trace(o, level, v.val);
    NestedNeutral(m);
    TraceNested(o, level, v.key);
    TraceNested(o, level, v.val);
    NestedAppend(Trace(o, level, v.key), [m]);
    NestedAppend(Trace(o, level, v.key) + [m], Trace(o, level, v.val));
    NestedWrap(b, inner, e);
    assert [b] + inner + [e] == ObjectTrace(o, level, v);
  }

  lemma {:induction false} MembersNested(o: DumpOptions, level: nat, v: Value)
    requires v.Obj?
    ensures Nested(ObjectTrace(o, level, v))
    decreases v, 1, 0
  {
    SelectSubset(o, v.members);
    var ps := Select(o, v.members);
    var bp, ep := Call(BeginProperties, level + 1), Call(EndProperties, level + 1);
    var body := PropertiesTrace(o, level + 1, ps, v);
    PropertiesNested(o, level + 1, ps, v);
    NestedWrap(bp, body, ep);
    NestedWrap(Call(ObjectStart(v.ty), level), [bp] + body + [ep], Call(ObjectEnd, level));
    assert [Call(ObjectStart(v.ty), level)] + ([bp] + body + [ep]) + [Call(ObjectEnd, level)]
        == ObjectTrace(o, level, v);
  }

  lemma {:induction false} EnumerableNested(o: DumpOptions, level: nat, v: Value)
    requires v.Seq?
    ensures Nested(EnumerableTrace(o, level, v))
    decreases v, 1, 0
  {
    if IsMaxLevel(o, level + 1) {
      assert EnumerableTrace(o, level, v) == [];
    } else {
      ElementsNested(o, level + 1, v.items, v);
    }
  }

  lemma {:induction false} PropertiesNested(o: DumpOptions, level: nat, ps: seq<Member>, parent: Value)
    requires parent.Obj? && forall m :: m in ps ==> m in parent.members
    ensures Nested(PropertiesTrace(o, level, ps, parent))
    decreases parent, 0, |ps|
  {
    if ps == [] {
      assert PropertiesTrace(o, level, ps, parent) == [];
    } else {
      assert ps[0] in parent.members;
      var b := Call(PropertyBegin(ps[0].name, ps[0].typeName), level);
      var e := Call(PropertyEnd(ps[0].name, |ps| == 1), level);
      TraceNested(o, level, ps[0].value);
      NestedWrap(b, Trace(o, level, ps[0].value), e);
      PropertiesNested(o, level, ps[1..], parent);
      NestedAppend([b] + Trace(o, level, ps[0].value) + [e], PropertiesTrace(o, level, ps[1..], parent));
    }
  }

  lemma {:induction false} ElementsNested(o: DumpOptions, level: nat, xs: seq<Value>, parent: Value)
    requires parent.Seq? && forall x :: x in xs ==> x in parent.items
    ensures Nested(ElementsTrace(o, level, xs, parent))
    decreases parent, 0, |xs|
  {
    if xs == [] {
      assert ElementsTrace(o, level, xs, parent) == [];
    } else {
      assert xs[0] in parent.items;
      var sep := Call(EnumerableSeparator(|xs| == 1), level);
      TraceNested(o, level, xs[0]);
      NestedNeutral(sep);
      ElementsNested(o, level, xs[1..], parent);
      NestedAppend(Trace(o, level, xs[0]), [sep]);
      NestedAppend(Trace(o, level, xs[0]) + [sep], ElementsTrace(o, level, xs[1..], parent));
    }
  }
}
