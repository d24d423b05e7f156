/**
 * Log levels and `LoggerService`'s filtering and line assembly.
 *
 * `LogLevels` is the priority/badge/colour table of `utils/logger/levels.ts`.
 * `LoggerService` reads its table from a sibling module that is not part of
 * this model, so there the table is a parameter. Colours are named rather
 * than applied, and the date prefix is a parameter.
 */
module LogLevels {
  datatype Level = Debug | Info | Warn | Error | Silent

  datatype Colour = Blue | Green | Yellow | Red | NoColour

  /** One row of the table: badge text, priority, and the colour messages are painted in. */
  datatype LevelInfo = LevelInfo(badge: string, priority: int, colour: Colour)

  /** The table of `levels.ts`; badge styling (background, bold) is not modelled. */
  function Table(l: Level): (info: LevelInfo)
    ensures l == Silent <==> info.badge == ""
    ensures l == Silent <==> info.colour == NoColour
  {
    match l
    case Debug => LevelInfo(" DEBUG ", 40, Blue)
    case Info => LevelInfo(" INFO ", 30, Green)
    case Warn => LevelInfo(" WARN ", 20, Yellow)
    case Error => LevelInfo(" ERROR ", 10, Red)
    case Silent => LevelInfo("", -1, NoColour)
  }

  /** The order of declaration. */
  function Rank(l: Level): nat {
    match l
    case Debug => 0
    case Info => 1
    case Warn => 2
    case Error => 3
    case Silent => 4
  }

  /** Priorities strictly decrease from `debug` to `silent`, so they order the levels totally. */
  lemma PrioritiesDecrease(a: Level, b: Level)
    ensures Rank(a) < Rank(b) <==> Table(a).priority > Table(b).priority
    ensures Table(a).priority == Table(b).priority <==> a == b
  {
  }
}

module LoggerService {
  import opened Wrappers
  import opened LogLevels

  /** A logged argument: a string, or any other value. */
  datatype Arg = Text(s: string) | Other(id: nat)

  /** An item of the printed line. */
  datatype Item = Date(d: string) | Badge(b: string) | Painted(colour: Colour, s: string) | Plain(arg: Arg)

  /** The logger's only state: its threshold, `info` initially. */
  datatype Logger = Logger(level: Level)

  const Initial: Logger := Logger(Info)

  /** `setLevel(level)`. */
  function SetLevel(lg: Logger, level: Level): (r: Logger)
    ensures r.level == level
  {
    Logger(level)
  }

  /** The `_log` threshold test under a table. */
  predicate Emits(table: Level -> LevelInfo, threshold: Level, level: Level) {
    level != Silent && table(level).priority >= table(threshold).priority
  }

  /** A colour function applied to a string: the identity paints nothing. */
  function Paint(c: Colour, s: string): Item {
    if c == NoColour then Plain(Text(s)) else Painted(c, s)
  }

  /** `_log(level, ...args)`: `None` when nothing is printed, else the items of the line. */
  function Log(table: Level -> LevelInfo, lg: Logger, level: Level, date: string, args: seq<Arg>): (r: Option<seq<Item>>)
    ensures r.Some? <==> Emits(table, lg.level, level)
    ensures r.Some? ==> |r.value| == 2 + |args|
    ensures r.Some? ==> r.value[0] == Date(date) && r.value[1] == Badge(table(level).badge)
    ensures r.Some? && |args| > 0 && args[0].Text? ==>
              r.value[2] == Paint(table(level).colour, args[0].s)
              && forall i :: 3 <= i < |r.value| ==> r.value[i] == Plain(args[i - 2])
    ensures r.Some? && !(|args| > 0 && args[0].Text?) ==>
              forall i :: 2 <= i < |r.value| ==> r.value[i] == Plain(args[i - 2])
  {
    if level == Silent then None
    else if table(level).priority < table(lg.level).priority then None
    else
      var head := [Date(date), Badge(table(level).badge)];
      var rest := seq(|args|, i requires 0 <= i < |args| => Plain(args[i]));
      if |args| > 0 && args[0].Text? then
        Some(head + [Paint(table(level).colour, args[0].s)] + rest[1..])
      else Some(head + rest)
  }

  /** `info(...args)`: printed with the `info` badge when `info` ranks at or above the threshold. */
  function LogInfo(table: Level -> LevelInfo, lg: Logger, date: string, args: seq<Arg>): (r: Option<seq<Item>>)
    ensures r.Some? <==> table(Info).priority >= table(lg.level).priority
    ensures r.Some? ==> |r.value| == 2 + |args| && r.value[1] == Badge(table(Info).badge)
  {
    Log(table, lg, Info, date, args)
  }

  /** `debug(...args)`. */
  function LogDebug(table: Level -> LevelInfo, lg: Logger, date: string, args: seq<Arg>): (r: Option<seq<Item>>)
    ensures r.Some? <==> table(Debug).priority >= table(lg.level).priority
    ensures r.Some? ==> |r.value| == 2 + |args| && r.value[1] == Badge(table(Debug).badge)
  {
    Log(table, lg, Debug, date, args)
  }

  /** `warn(...args)`. */
  function LogWarn(table: Level -> LevelInfo, lg: Logger, date: string, args: seq<Arg>): (r: Option<seq<Item>>)
    ensures r.Some? <==> table(Warn).priority >= table(lg.level).priority
    ensures r.Some? ==> |r.value| == 2 + |args| && r.value[1] == Badge(table(Warn).badge)
  {
    Log(table, lg, Warn, date, args)
  }

  /** `error(...args)`. */
  function LogError(table: Level -> LevelInfo, lg: Logger, date: string, args: seq<Arg>): (r: Option<seq<Item>>)
    ensures r.Some? <==> table(Error).priority >= table(lg.level).priority
    ensures r.Some? ==> |r.value| == 2 + |args| && r.value[1] == Badge(table(Error).badge)
  {
    Log(table, lg, Error, date, args)
  }

  /** `setLevel` changes what is printed only through the threshold test. */
  lemma SetLevelGoverns(table: Level -> LevelInfo, lg: Logger, t: Level, level: Level, date: string, args: seq<Arg>)
    ensures Log(table, SetLevel(lg, t), level, date, args).Some? <==> level != Silent && table(level).priority >= table(t).priority
  {
  }

  /** Under the table of `levels.ts` and the initial threshold, `debug` is printed and `error` is not. */
  lemma InvertedUnderLevelsTable(date: string, args: seq<Arg>)
    ensures Initial.level == Info
    ensures LogDebug(Table, Initial, date, args).Some?
    ensures LogInfo(Table, Initial, date, args).Some?
    ensures LogWarn(Table, Initial, date, args).None?
    ensures LogError(Table, Initial, date, args).None?
  {
  }

  /** Nothing is ever printed at level `silent`, whatever the table and threshold. */
  lemma SilentNeverPrinted(table: Level -> LevelInfo, lg: Logger, date: string, args: seq<Arg>)
    ensures Log(table, lg, Silent, date, args).None?
  {
  }

  /** Under the table of `levels.ts`, the threshold `silent` lets every other level through. */
  lemma SilentThresholdShowsAll(level: Level, date: string, args: seq<Arg>)
    requires level != Silent
    ensures Log(Table, SetLevel(Initial, Silent), level, date, args).Some?
  {
  }

  /** The `silent` row paints a string argument as it is. */
  lemma SilentRowPaintsNothing(s: string)
    ensures Paint(Table(Silent).colour, s) == Plain(Text(s))
  {
  }
}
