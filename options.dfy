/** The options record of a dump session and its constructor defaults. */
module Options {
  import opened Wrappers
  import opened Values

  /** The renderer the options ask for. (The enum itself is declared outside
      this model; its members here are the three renderers.) */
  datatype DumpStyle = Console | CSharp | Html

  /** `DumpOptions`. `indentSize` is a `nat`: a negative size makes the first
      indented write throw. `excludeProperties` stands for the collection
      (a null collection filters nothing, as the empty set). `propertyOrderBy`
      is the compiled ordering expression, a key into an ordered type. */
  datatype DumpOptions = DumpOptions(
    dumpStyle: DumpStyle,
    indentSize: nat,
    indentChar: char,
    lineBreak: string,
    setPropertiesOnly: bool,
    maxLevel: int,
    excludeProperties: set<string>,
    propertyOrderBy: Option<Member -> int>,
    ignoreDefaultValues: bool)

  const IntMaxValue: int := 0x7FFF_FFFF

  /** `new DumpOptions()`; `newLine` is `Environment.NewLine`. */
  function Default(newLine: string): DumpOptions
  {
    DumpOptions(
      dumpStyle := Console,
      indentSize := 2,
      indentChar := ' ',
      lineBreak := newLine,
      setPropertiesOnly := false,
      maxLevel := IntMaxValue,
      excludeProperties := {},
      propertyOrderBy := None,
      ignoreDefaultValues := false)
  }

  /** A `Dump` call's options: the given ones, or `new DumpOptions()` when
      the caller passes null. */
  function OrDefault(options: Option<DumpOptions>, newLine: string): DumpOptions
  {
    if options.Some? then options.value else Default(newLine)
  }

  /** `IsMaxLevel()`: the current object level is beyond the configured ceiling. */
  predicate IsMaxLevel(o: DumpOptions, level: int)
  {
    level > o.maxLevel
  }

  /** With the default options no representable level is beyond the ceiling. */
  lemma DefaultNeverMaxLevel(newLine: string, level: int)
    requires level <= IntMaxValue
    ensures !IsMaxLevel(Default(newLine), level)
  {
  }

  /** The default options indent by two spaces, write the platform line break
      and render in console style. */
  lemma DefaultLayout(newLine: string)
    ensures Default(newLine).indentSize == 2 && Default(newLine).indentChar == ' '
    ensures Default(newLine).lineBreak == newLine
    ensures Default(newLine).dumpStyle == Console
  {
  }
}
