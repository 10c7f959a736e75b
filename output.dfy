/**
 * The output buffer of `DumperBase`: `Write` and `LineBreak` over a
 * `StringBuilder` and the `isNewLine` flag, as functions on a snapshot.
 */
module Output {
  import opened Text
  import opened Options

  /** What a hook does to the buffer: `Write(s)` or `LineBreak()`. */
  datatype Op = Write(s: string) | LineBreak

  /** The buffer contents and the `isNewLine` flag. */
  datatype Sink = Sink(text: string, newLine: bool)

  /** The indentation for `n` levels: `n * IndentSize` copies of `IndentChar`. */
  function Indentation(o: DumpOptions, n: nat): string
  {
    Repeat(o.indentChar, n * o.indentSize)
  }

  /** One operation at object level `level`. `Write(s)` indents by `level`
      only at the start of a line. */
  function Exec(o: DumpOptions, s: Sink, level: nat, op: Op): Sink
  {
    match op
    case Write(t) =>
      Sink(s.text + Indentation(o, if s.newLine then level else 0) + t, EndsWith(t, o.lineBreak))
    case LineBreak =>
      Sink(s.text + o.lineBreak, true)
  }

  /** The operations in order. */
  function RunOps(o: DumpOptions, s: Sink, level: nat, ops: seq<Op>): Sink
    decreases |ops|
  {
    if ops == [] then s else RunOps(o, Exec(o, s, level, ops[0]), level, ops[1..])
  }

  /** After a write the buffer is at a line start iff the written text ends with
      the line break; after a line break it always is. */
  lemma ExecNewLine(o: DumpOptions, s: Sink, level: nat, op: Op)
    ensures Exec(o, s, level, op).newLine <==> (op.LineBreak? || EndsWith(op.s, o.lineBreak))
  {
  }

  /** Only the start of a line is indented; in mid-line the text is appended as is. */
  lemma WriteMidLine(o: DumpOptions, s: Sink, level: nat, t: string)
    requires !s.newLine
    ensures Exec(o, s, level, Write(t)).text == s.text + t
  {
    assert Indentation(o, 0) == [];
  }

  lemma {:induction false} RunOpsAppend(o: DumpOptions, s: Sink, level: nat, a: seq<Op>, b: seq<Op>)
    ensures RunOps(o, s, level, a + b) == RunOps(o, RunOps(o, s, level, a), level, b)
    decreases |a|
  {
    if a == [] {
      assert a + b == b;
    } else {
      assert (a + b)[1..] == a[1..] + b;
      RunOpsAppend(o, Exec(o, s, level, a[0]), level, a[1..], b);
    }
  }

  /** What a sequence of operations appends depends on the buffer only through
      `isNewLine`: the old contents are kept as they are, as a prefix. */
  lemma {:induction false} RunOpsRebase(o: DumpOptions, s: Sink, level: nat, ops: seq<Op>)
    ensures RunOps(o, s, level, ops).text == s.text + RunOps(o, Sink([], s.newLine), level, ops).text
    ensures RunOps(o, s, level, ops).newLine == RunOps(o, Sink([], s.newLine), level, ops).newLine
    decreases |ops|
  {
    if ops != [] {
      var s1 := Exec(o, s, level, ops[0]);
      var e1 := Exec(o, Sink([], s.newLine), level, ops[0]);
      assert s1 == Sink(s.text + e1.text, e1.newLine);
      RunOpsRebase(o, s1, level, ops[1..]);
      RunOpsRebase(o, e1, level, ops[1..]);
      assert Sink([], e1.newLine) == Sink([], s1.newLine);
    }
  }

  /** The text the operations append when nothing is indented. */
  function Appended(o: DumpOptions, ops: seq<Op>): string
    decreases |ops|
  {
    if ops == [] then []
    else (match ops[0] case Write(t) => t case LineBreak => o.lineBreak) + Appended(o, ops[1..])
  }

  /** At level 0 nothing is ever indented: the operations append their texts
      and line breaks as they are. */
  lemma {:induction false} TopLevelAppends(o: DumpOptions, s: Sink, ops: seq<Op>)
    ensures RunOps(o, s, 0, ops).text == s.text + Appended(o, ops)
    decreases |ops|
  {
    if ops != [] {
      assert Indentation(o, 0) == [];
      TopLevelAppends(o, Exec(o, s, 0, ops[0]), ops[1..]);
    }
  }

  /** After a nonempty list the flag is what its last operation left. */
  lemma RunOpsLast(o: DumpOptions, s: Sink, level: nat, ops: seq<Op>)
    requires ops != []
    ensures RunOps(o, s, level, ops).newLine
         == (ops[|ops| - 1].LineBreak? || EndsWith(ops[|ops| - 1].s, o.lineBreak))
  {
    var init, last := ops[..|ops| - 1], ops[|ops| - 1];
    assert init + [last] == ops;
    RunOpsAppend(o, s, level, init, [last]);
    assert [last][1..] == [];
  }
}
