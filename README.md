# ObjectDumper in Dafny

A model of the core of ObjectDumper, a .NET library that turns an object
graph into text. `DumperBase` walks the value. It dispatches on the kind of
each value, recurses into the properties of objects, the two halves of
key/value pairs and the elements of enumerables, and stops beyond
`MaxLevel`. Each piece of output goes through a virtual `Write*` hook. The
C# renderer overrides the hooks to emit an object-initializer expression
(`var x = new T { ... };`). The HTML renderer emits nested `div`s and
`span`s with sanitised CSS classes. The console renderer tracks its own
indentation counters.

Modules, from the bottom up:

- `Text`, `Values`, `Options`, `Output`: the string helpers the source uses,
  the runtime values (reflection is replaced by explicit descriptors), the
  `DumpOptions` record with its defaults, and the buffer semantics of `Write`
  and `LineBreak`.
- `PropertyPipeline`: the LINQ pipeline that selects an object's properties
  (getter, exclusion, setter and default-value filters, then a stable
  order-by).
- `Traversal`: the walk as a specification. `Trace` is the list of hook
  calls, each with the `Level` it runs at.
- `BaseHooks`, `CSharpRules`, `HtmlRules`, `Rendering`: what each renderer's
  hooks write. `Render` folds a list of hook calls into the buffer.
- `Engine`: `DumperBase` as a class. It has the buffer, the `isNewLine`
  flag, `Level` and the hash list. Every dump method is proved to leave the
  buffer equal to `Render` of `Trace`, and to restore `Level`.
- `CSharpDumper`, `HtmlDumper`: the static `Dump` entry points.
- `Console`: the console hook overrides over their counters.

The HTML object-start hook writes its class as `type-` followed by the raw
formatted type name. It does not quote the value, add the `obj-` prefix or
sanitise it. The model keeps this, because the source writes it that way.
Only property, value and header classes go through `CssClass`.
`WriteMaxLevel` of the console renderer writes nothing, and its model
changes no field.

## Model

| member | source | states |
|---|---|---|
| Text.Repeat | ObjectDumper/Internal/DumperBase.cs:62 | the indentation is exactly `n` copies of the indent character |
| Text.RemoveAll | ObjectDumper/Internal/ObjectDumperCSharp.cs:147-151 | deleting a character set leaves none of its characters and never lengthens the text |
| Text.RemoveAllTwice | ObjectDumper/Internal/ObjectDumperCSharp.cs:147-151 | two successive deletions delete the union of the two sets |
| Text.RemoveAllAppend | ObjectDumper/Internal/ObjectDumperCSharp.cs:147-151 | deletion distributes over concatenation |
| Text.ReplaceChar | ObjectDumper/Internal/ObjectDumperHtml.cs:156 | `Replace('<', '-')` changes exactly the matching positions and keeps the length |
| Text.IndexOf | ObjectDumper/Internal/ObjectDumperCSharp.cs:155 | the first position of the character, and -1 exactly when it is absent |
| Text.ToLowerFirst | ObjectDumper/Internal/ObjectDumperCSharp.cs:158 | only the first character may change: an ASCII capital becomes the same letter in lower case, anything else leaves the text unchanged |
| Values.TypeOf | ObjectDumper/Internal/ObjectDumperHtml.cs:167-172 | an enum, enumerable, pair or object reports its own type descriptor |
| Options.DefaultNeverMaxLevel | ObjectDumper/DumpOptions.cs:16 | with `MaxLevel = int.MaxValue` no representable level is beyond the ceiling |
| Options.DefaultLayout | ObjectDumper/DumpOptions.cs:9-20 | the defaults indent by two spaces, use the platform line break and the console style |
| Output.ExecNewLine | ObjectDumper/Internal/DumperBase.cs:60-84 | after a write the buffer is at a line start iff the text ends with the line break; after a line break always |
| Output.WriteMidLine | ObjectDumper/Internal/DumperBase.cs:39-49 | in mid-line a write is appended without indentation |
| Output.RunOpsAppend | ObjectDumper/Internal/DumperBase.cs:39-84 | running two lists of operations is running their concatenation |
| Output.RunOpsRebase | ObjectDumper/Internal/DumperBase.cs:60-84 | the buffer only grows, and what is appended depends on the old state only through `isNewLine` |
| Output.TopLevelAppends | ObjectDumper/Internal/DumperBase.cs:39-49 | at level 0 every write and line break is appended as is |
| Output.RunOpsLast | ObjectDumper/Internal/DumperBase.cs:64-83 | after a list of operations `isNewLine` is what the last one left |
| BaseHooks.HookOps | ObjectDumper/Internal/DumperBase.cs:284-313 | every default hook is a single `Write` |
| PropertyPipeline.Filter | ObjectDumper/Internal/DumperBase.cs:125-151 | `Where` keeps exactly the elements that satisfy the predicate |
| PropertyPipeline.FilterTwice | ObjectDumper/Internal/DumperBase.cs:128-151 | two chained `Where`s keep what satisfies both, in order |
| PropertyPipeline.FilteredIsKept | ObjectDumper/Internal/DumperBase.cs:125-151 | the four optional stages together are one filter by `Kept`, whichever options are on |
| PropertyPipeline.Insert | ObjectDumper/Internal/DumperBase.cs:154 | insertion adds exactly one element (multiset) |
| PropertyPipeline.StableSort | ObjectDumper/Internal/DumperBase.cs:154 | `OrderBy` is a permutation |
| PropertyPipeline.StableSortSorted | ObjectDumper/Internal/DumperBase.cs:154 | `OrderBy` orders by the key |
| PropertyPipeline.StableSortStable | ObjectDumper/Internal/DumperBase.cs:154 | elements with equal keys keep their original order |
| PropertyPipeline.SelectMembers | ObjectDumper/Internal/DumperBase.cs:125-155 | a property is dumped iff it belongs to the object and passes every enabled filter |
| PropertyPipeline.SelectSubset | ObjectDumper/Internal/DumperBase.cs:125-155 | every dumped property belongs to the object |
| PropertyPipeline.SelectUnordered | ObjectDumper/Internal/DumperBase.cs:125-151 | without `PropertyOrderBy` the properties keep reflection order |
| PropertyPipeline.SelectOrdered | ObjectDumper/Internal/DumperBase.cs:152-155 | with `PropertyOrderBy` they are sorted by it, and stably |
| PropertyPipeline.SelectDefault | ObjectDumper/DumpOptions.cs:15-19 | with default options only the public-getter filter acts |
| Traversal.MaxLevelTraceEmpty | ObjectDumper/Internal/DumperBase.cs:186-189 | beyond the ceiling `DumpElement` calls no hook |
| Traversal.ScalarDispatch | ObjectDumper/Internal/DumperBase.cs:191-246 | a scalar (string and null included) gets exactly its own scalar hook |
| Traversal.PairShape | ObjectDumper/Internal/DumperBase.cs:172-182 | a pair is begin, key, separator, value, end, all at the pair's level |
| Traversal.EnumerableAtCeiling | ObjectDumper/Internal/DumperBase.cs:258-265 | an enumerable whose elements would be beyond the ceiling gets its begin and end hooks and nothing between |
| Traversal.TraceLoopsDeeper | ObjectDumper/Internal/DumperBase.cs:157 | the loop hooks of a value's descendants run strictly deeper than the value |
| Traversal.SeparatorPattern | ObjectDumper/Internal/DumperBase.cs:267-279 | `n` separators, only the final one marked last |
| Traversal.ElementsSeparators | ObjectDumper/Internal/DumperBase.cs:267-279 | the look-ahead loop makes one separator per element, only the final one last |
| Traversal.EnumerableSeparators | ObjectDumper/Internal/DumperBase.cs:258-282 | an enumerable within the ceiling makes exactly N separators at its elements' level, none when empty |
| Traversal.PropertyPattern | ObjectDumper/Internal/DumperBase.cs:160-166 | two hooks per property |
| Traversal.PropertyPatternAt | ObjectDumper/Internal/DumperBase.cs:160-166 | the i-th property is opened at 2i and closed at 2i+1, marked last iff it is the final one |
| Traversal.PropertiesHooks | ObjectDumper/Internal/DumperBase.cs:160-166 | the property loop's own hooks follow that pattern |
| Traversal.ObjectProperties | ObjectDumper/Internal/DumperBase.cs:125-169 | an object within the ceiling opens and closes exactly its selected properties, in order, one level deeper |
| Traversal.MismatchedClose | ObjectDumper/Internal/DumperBase.cs:156-169 | nesting is by kind: a property end cannot close an object start |
| Traversal.NestedWrap | ObjectDumper/Internal/DumperBase.cs:156-169 | an opener, a nested run and a closer of the same kind are nested |
| Traversal.TraceNested | ObjectDumper/Internal/DumperBase.cs:184-256 | in every traversal each object, property block, property, enumerable and key/value pair is closed by its own kind of end hook, inner blocks first |
| Traversal.ObjectNested | ObjectDumper/Internal/DumperBase.cs:115-182 | the same for one object or pair |
| Traversal.PairNested | ObjectDumper/Internal/DumperBase.cs:172-182 | the same for a key/value pair |
| Traversal.MembersNested | ObjectDumper/Internal/DumperBase.cs:156-169 | the same for an object and its property block |
| Traversal.EnumerableNested | ObjectDumper/Internal/DumperBase.cs:258-282 | the same for one enumerable's elements |
| Traversal.PropertiesNested | ObjectDumper/Internal/DumperBase.cs:160-166 | the same for the property loop |
| Traversal.ElementsNested | ObjectDumper/Internal/DumperBase.cs:267-279 | the same for the element loop |
| Rendering.RenderAppend | ObjectDumper/Internal/DumperBase.cs:184-282 | rendering two call lists in turn is rendering their concatenation |
| Rendering.RenderRebase | ObjectDumper/Internal/DumperBase.cs:60-84 | a dump only appends, and what it appends depends on the buffer only through `isNewLine` |
| Rendering.MaxLevelWritesNothing | ObjectDumper/Internal/DumperBase.cs:186-189 | beyond the ceiling the buffer is left exactly as it was, in every style |
| Rendering.CSharpBlockOpen | ObjectDumper/Internal/ObjectDumperCSharp.cs:97-103 | `new T` continues the current line (indented only at a line start), then `{` on its own indented line |
| Rendering.CSharpListAtCeiling | ObjectDumper/Internal/ObjectDumperCSharp.cs:97-117 | a C# list at the ceiling renders as `new T` on the current line (mid-line after `Name = `), then `{` and `}` on indented lines, with no element |
| Rendering.CSharpListCommas | ObjectDumper/Internal/ObjectDumperCSharp.cs:105-112 | in C# a list of N elements gets N-1 commas, each separator ending the line |
| Rendering.HtmlDivs | ObjectDumper/Internal/ObjectDumperHtml.cs:40-58 | every HTML object start and property begin opens a `div`, every end closes one |
| Rendering.Framed | ObjectDumper/Internal/ObjectDumperHtml.cs:27-37 | writes around a level-0 dump are appended as is; the dump depends only on whether the last of them ended a line |
| Engine.Dumper.constructor | ObjectDumper/Internal/DumperBase.cs:16-23 | empty buffer, at a line start, level 0, no hashes |
| Engine.Dumper.WriteIndented | ObjectDumper/Internal/DumperBase.cs:60-72 | appends the indentation and the value; `isNewLine` iff the value ends with the line break |
| Engine.Dumper.Write | ObjectDumper/Internal/DumperBase.cs:39-49 | indents to `Level` only at the start of a line |
| Engine.Dumper.LineBreak | ObjectDumper/Internal/DumperBase.cs:80-84 | appends the line break and sets `isNewLine` |
| Engine.Dumper.AddAlreadyTouched | ObjectDumper/Internal/DumperBase.cs:86-89 | appends the hash code to the list |
| Engine.Dumper.AlreadyTouched | ObjectDumper/Internal/DumperBase.cs:91-108 | true iff the value is non-null and its hash is in the list |
| Engine.Dumper.ToString | ObjectDumper/Internal/DumperBase.cs:319-322 | returns the buffer contents |
| Engine.Dumper.Perform | ObjectDumper/Internal/DumperBase.cs:284-313 | a hook body's operations are run in order at the current level |
| Engine.Dumper.Hook | ObjectDumper/Internal/DumperBase.cs:284-313 | one hook call renders as its style prescribes |
| Engine.Dumper.DumpData | ObjectDumper/Internal/DumperBase.cs:110-113 | the buffer becomes `Render` of `Trace` of the value; `Level` and hashes unchanged |
| Engine.Dumper.DumpElement | ObjectDumper/Internal/DumperBase.cs:184-256 | same, for the dispatch: nothing beyond the ceiling, scalar hook, enumerable wrapper, or object |
| Engine.Dumper.DumpObject | ObjectDumper/Internal/DumperBase.cs:115-170 | same, for a pair or an object; `Level` is raised for the properties and restored |
| Engine.Dumper.OpenObject | ObjectDumper/Internal/DumperBase.cs:156-158 | object start at the level, property block begin one deeper |
| Engine.Dumper.CloseObject | ObjectDumper/Internal/DumperBase.cs:167-169 | property block end, then object end one level up |
| Engine.Dumper.DumpProperties | ObjectDumper/Internal/DumperBase.cs:159-166 | the property loop renders `PropertiesTrace` |
| Engine.Dumper.DumpKeyValuePair | ObjectDumper/Internal/DumperBase.cs:172-182 | the pair renders begin, key, separator, value, end |
| Engine.Dumper.DumpEnumerable | ObjectDumper/Internal/DumperBase.cs:258-282 | one level deeper, nothing beyond the ceiling, `Level` restored on both paths |
| Engine.Dumper.DumpItems | ObjectDumper/Internal/DumperBase.cs:267-279 | the look-ahead enumerator loop renders `ElementsTrace` |
| Engine.ElementStep | ObjectDumper/Internal/DumperBase.cs:271-278 | one loop step is the element's dump and its separator, last iff nothing follows |
| Engine.ObjectSteps | ObjectDumper/Internal/DumperBase.cs:156-169 | the hook calls of `DumpObject` in turn are its `ObjectTrace` |
| CSharpRules.StripTypeNameRemovesSet | ObjectDumper/Internal/ObjectDumperCSharp.cs:147-151 | the four `Replace`s delete exactly `<`, `>`, space and comma |
| CSharpRules.VariableNameNull | ObjectDumper/Internal/ObjectDumperCSharp.cs:137-140 | null is named `x` |
| CSharpRules.VariableNameEnumerable | ObjectDumper/Internal/ObjectDumperCSharp.cs:145-152 | an enumerable is always named: its stripped class name, first letter lowered, with no `<`, `>`, space or comma |
| CSharpRules.VariableNameGeneric | ObjectDumper/Internal/ObjectDumperCSharp.cs:153-156 | a generic type is named by its type name up to the first backtick; without a backtick `Substring` throws |
| CSharpRules.SeparatorComma | ObjectDumper/Internal/ObjectDumperCSharp.cs:45-52 | a property end or element separator writes a comma iff it is not last, and always ends the line |
| CSharpRules.PairPunctuation | ObjectDumper/Internal/ObjectDumperCSharp.cs:119-123 | a key/value pair renders as `{ key, value }` |
| CSharpDumper.DumpValue | ObjectDumper/Internal/ObjectDumperCSharp.cs:18-30 | the imperative entry point returns exactly `Dump` of the value with the given or default options |
| CSharpDumper.DumpShape | ObjectDumper/Internal/ObjectDumperCSharp.cs:25-29 | the output is `var name = `, the dump, `;`, exactly when the variable name can be formed |
| CSharpDumper.DumpNull | ObjectDumper/Internal/ObjectDumperCSharp.cs:18-30 | null dumps as `var x = null;` whenever level 0 is within the ceiling |
| HtmlRules.KeepCss | ObjectDumper/Internal/ObjectDumperHtml.cs:148 | the regex deletion leaves only characters of the class `[A-z0-9_-]` |
| HtmlRules.BuildCssClass | ObjectDumper/Internal/ObjectDumperHtml.cs:149-165 | the `StringBuilder` loop yields the quoted, space-joined `obj-` tokens |
| HtmlRules.CleanIdempotent | ObjectDumper/Internal/ObjectDumperHtml.cs:156 | cleaning a cleaned name changes nothing |
| HtmlRules.CleanAppend | ObjectDumper/Internal/ObjectDumperHtml.cs:156 | cleaning commutes with concatenation |
| HtmlRules.CleanKeepsClassChars | ObjectDumper/Internal/ObjectDumperHtml.cs:156 | a name of class characters and `<` keeps its length, with each `<` turned into `-` |
| HtmlRules.TokenChars | ObjectDumper/Internal/ObjectDumperHtml.cs:155-156 | every token is made of class characters only |
| HtmlRules.JoinedSpaces | ObjectDumper/Internal/ObjectDumperHtml.cs:153-161 | `n` classes are joined by exactly `n - 1` spaces |
| HtmlRules.CssClassWellFormed | ObjectDumper/Internal/ObjectDumperHtml.cs:149-165 | the attribute is quoted and holds no quote or angle bracket inside |
| HtmlRules.HookOps | ObjectDumper/Internal/ObjectDumperHtml.cs:40-58 | every HTML hook is a single `Write` |
| HtmlRules.PlainClass | ObjectDumper/Internal/ObjectDumperHtml.cs:149-165 | a single class of class characters is kept as it is, prefixed by `obj-` |
| HtmlRules.TwoPlainClasses | ObjectDumper/Internal/ObjectDumperHtml.cs:149-165 | two such classes are kept, each prefixed, joined by one space |
| HtmlRules.NullClass | ObjectDumper/Internal/ObjectDumperHtml.cs:109-112 | the null span's class is `"obj-value obj-null"` |
| HtmlRules.ValueSpanText | ObjectDumper/Internal/ObjectDumperHtml.cs:60-63 | a value span is `<span class="obj-value">` around the text |
| HtmlRules.ScalarSpans | ObjectDumper/Internal/ObjectDumperHtml.cs:60-146 | every non-null scalar is a value span around its `ToString()`, a `DateTime` around its round-trip form |
| HtmlDumper.WriteHeader | ObjectDumper/Internal/ObjectDumperHtml.cs:29-34 | the five header writes leave the buffer as `Header` prescribes |
| HtmlDumper.DumpValue | ObjectDumper/Internal/ObjectDumperHtml.cs:20-38 | the imperative entry point returns exactly `Dump`, null giving the null-reference error |
| HtmlDumper.DumpShape | ObjectDumper/Internal/ObjectDumperHtml.cs:27-37 | the output fails iff the value is null; otherwise header, dump and closing `div` |
| HtmlDumper.DumpOpen | ObjectDumper/Internal/ObjectDumperHtml.cs:29 | the outer `div` has classes `obj-dump` and the type's token |
| HtmlDumper.InfoOpen | ObjectDumper/Internal/ObjectDumperHtml.cs:31 | the info `div` has class `obj-type-info` |
| HtmlDumper.LabelSpan | ObjectDumper/Internal/ObjectDumperHtml.cs:32 | the label reads `Dumped Type:` in class `obj-label` |
| HtmlDumper.TypeSpan | ObjectDumper/Internal/ObjectDumperHtml.cs:33 | the encoded type name sits in class `obj-type` |
| HtmlDumper.HeaderText | ObjectDumper/Internal/ObjectDumperHtml.cs:29-34 | the header's five writes, spelled out |
| Console.ObjectShift | ObjectDumper/Internal/ObjectDumperConsole.cs:53-76 | an object raises `Indent` by 2 iff it is outside an enumerable and above object level 1, else by 1 |
| Console.EnumerableShift | ObjectDumper/Internal/ObjectDumperConsole.cs:29-52 | an enumerable raises `Indent` by 1 iff above object level 1 |
| Console.ObjectStartShape | ObjectDumper/Internal/ObjectDumperConsole.cs:53-68 | forced break first iff the index is above 1, the `{ }` line iff the shift is 2, the `{FullName}` line last |
| Console.ConsoleDumper.constructor | ObjectDumper/Internal/ObjectDumperConsole.cs:13-15 | the counters start as given, with nothing requested |
| Console.ConsoleDumper.WriteEnumerableBegin | ObjectDumper/Internal/ObjectDumperConsole.cs:29-37 | above level 1 an ellipsis and a break, with `Indent` raised by the shift |
| Console.ConsoleDumper.WriteEnumerableSeparator | ObjectDumper/Internal/ObjectDumperConsole.cs:38-44 | a break between elements only |
| Console.ConsoleDumper.WriteEnumerableEnd | ObjectDumper/Internal/ObjectDumperConsole.cs:45-52 | `Indent` lowered by the same shift the begin applied, and a break |
| Console.ConsoleDumper.WriteObjectStart | ObjectDumper/Internal/ObjectDumperConsole.cs:53-68 | the requests of `ObjectStartRequests`, with `Indent` raised by `ObjectShift` |
| Console.ConsoleDumper.WriteObjectEnd | ObjectDumper/Internal/ObjectDumperConsole.cs:69-76 | `Indent` lowered by the same `ObjectShift` |
| Console.ConsoleDumper.WriteMaxLevel | ObjectDumper/Internal/ObjectDumperConsole.cs:81 | writes nothing and changes no counter |
| Console.ConsoleDumper.WriteCircularReference | ObjectDumper/Internal/ObjectDumperConsole.cs:77-80 | writes the bidirectional-reference marker |
| Console.ConsoleDumper.WriteKeyValuePairBegin | ObjectDumper/Internal/ObjectDumperConsole.cs:82 | writes `[` |
| Console.ConsoleDumper.WriteKeyValuePairEnd | ObjectDumper/Internal/ObjectDumperConsole.cs:83 | writes `]` |
| Console.ConsoleDumper.WriteKeyValuePairSeparator | ObjectDumper/Internal/ObjectDumperConsole.cs:84 | writes `, ` |
| Console.ConsoleDumper.WriteMemberBegin | ObjectDumper/Internal/ObjectDumperConsole.cs:85-88 | writes the member name and `: ` |
| Console.ConsoleDumper.WriteMemberEnd | ObjectDumper/Internal/ObjectDumperConsole.cs:89-92 | a break, whether last or not |
| Console.ConsoleDumper.WriteString | ObjectDumper/Internal/ObjectDumperConsole.cs:106-109 | the value in double quotes, unescaped |
| Console.ConsoleDumper.WriteChar | ObjectDumper/Internal/ObjectDumperConsole.cs:110-113 | the character as text |
| Console.ConsoleDumper.WriteBool | ObjectDumper/Internal/ObjectDumperConsole.cs:114-124 | `True` or `False` |

## Left out

- Reflection is replaced by the `Value`, `TypeDesc` and `Member` datatypes. `GetRuntimeProperties`, the getter and setter visibility, `GetDefault()` and `TryGetValue` become fields of `Member`.
- `GetFormattedName` is a field of `TypeDesc`, because that extension method is not part of this model. The C# string escaper and `WebUtility.HtmlEncode` are function parameters for the same reason.
- Culture-dependent formatting (`ToString()` of numbers, dates, enums and GUIDs) is opaque text carried in each value.
- `Environment.NewLine` is a parameter. A null `DumpOptions` is `None` and is replaced by the defaults, as in the source.
- Hash codes are plain integers supplied by the caller. The source's engine never calls `AlreadyTouched`, so circular references are not detected. A cyclic graph is not representable by the `Value` datatype.
- The enumerator is modelled as an index into the element sequence; lazy or infinite enumerables are not modelled.
- `Text.EndsWith`: an ordinal comparison. The source's `String.EndsWith(string)` compares with the current culture, which skips ignorable characters (a value ending in the line break followed by a soft hyphen counts as ending a line there and not here). A null `LineBreakChar`, which makes the first `Write` throw, is not representable. Strings are sequences of Unicode scalar values, not UTF-16 code units, so lone surrogates are not representable either.
- `Text.ToLowerFirst`: lowers only ASCII capitals; culture-specific case mapping is not modelled.
- `Engine.Dumper.Level`: a `nat`; the 32-bit overflow of `Level++` after 2^31 nested levels is not modelled.
- `Options.DumpOptions.indentSize`: a `nat`. A negative `IndentSize` makes `StringBuilder.Append` throw, and that path is not modelled.
- The console renderer's base class is not part of this model. That covers `Write` and `LineBreak(bool)`, how `Indent` turns into whitespace, and where `ObjectLevel`, `InEnumerable` and `EnumerableIndex` are updated. The console hooks record their requests in order, and the counters are plain fields. Console `Dump` is therefore not modelled end to end.
- `Console.ConsoleDumper.WriteMemberBegin` and `WriteMemberEnd` stand for both the property and the field variants, whose bodies are identical. The empty `WriteBeginProperties`/`WriteEndProperties`/`WriteBeginFields`/`WriteEndFields` hooks are not modelled.
- `HtmlRules.NullClass`: the null span's class is stated as the concatenation of its parts. The spelled-out literal is not restated.
