/**
 * The logger: four severities, a configured threshold and an optional prefix.
 * Operations elsewhere in the model return the log calls they make as
 * `Entry` values; `Emitted` says which of them the logger lets through.
 * Timestamps and the console itself are not modelled.
 */
module Logging {
  import opened JsValue

  datatype Level = Error | Warn | Info | Debug

  /** The method name, which is also the key into the severity table. */
  function Name(l: Level): string {
    match l
    case Error => "error"
    case Warn => "warn"
    case Info => "info"
    case Debug => "debug"
  }

  /** The severity table: a lower rank is more severe. Any other key is
      missing from the table and reads as undefined. */
  function Rank(name: string): Option<nat> {
    if name == "error" then Some(0)
    else if name == "warn" then Some(1)
    else if name == "info" then Some(2)
    else if name == "debug" then Some(3)
    else None
  }

  /** The rank of a level's own name; every level is in the table. */
  function Severity(l: Level): (r: nat)
    ensures Rank(Name(l)) == Some(r)
    ensures r <= 3
  {
    match l
    case Error => 0
    case Warn => 1
    case Info => 2
    case Debug => 3
  }

  /** A logger's configured level and prefix, as passed to its constructor. */
  datatype Logger = Logger(level: Value, prefix: Value)

  /** `new Logger(level, prefix)`: an omitted argument takes its default,
      'warn' for the level and '' for the prefix. */
  function NewLogger(level: Value, prefix: Value): Logger {
    Logger(if level.Undefined? then Str("warn") else level,
           if prefix.Undefined? then Str("") else prefix)
  }

  /** The shared logger every component uses unless given another. */
  const GlobalLogger: Logger := NewLogger(Str("warn"), Undefined)

  /** The rank of the configured level, looked up by its string form. */
  function ConfiguredRank(lg: Logger): Option<nat> {
    Rank(ToString(lg.level))
  }

  /** A message at `l` is written iff its rank is at most the configured
      rank. A comparison with an undefined rank is false. */
  predicate ShouldLog(lg: Logger, l: Level) {
    ConfiguredRank(lg).Some? && Severity(l) <= ConfiguredRank(lg).value
  }

  /** The bracketed prefix, present only when the prefix is truthy. */
  function MessagePrefix(lg: Logger): (r: string)
    ensures r == "" <==> !Truthy(lg.prefix)
  {
    if Truthy(lg.prefix) then "[" + ToString(lg.prefix) + "]" else ""
  }

  /** One console line: the console method used, the prefix text after the
      (unmodelled) timestamp, and the message. */
  datatype Line = Line(console: Level, prefix: string, message: string)

  /** A log call `lg[l](message)`: a console line when the level passes. */
  function Emit(lg: Logger, l: Level, message: string): (r: Option<Line>)
    ensures r.Some? <==> ShouldLog(lg, l)
    ensures r.Some? ==> r.value.console == l && r.value.prefix == MessagePrefix(lg)
                        && r.value.message == message
    ensures r.Some? ==> forall k :: Severity(k) <= Severity(l) ==> ShouldLog(lg, k)
    ensures ConfiguredRank(lg).None? ==> r.None?
    ensures lg.level == Str("warn") ==> (r.Some? <==> l == Error || l == Warn)
  {
    if ShouldLog(lg, l) then Some(Line(l, MessagePrefix(lg), message)) else None
  }

  /** A log call made by some operation: its level, what it reports, and the
      value it names (an id, a type, ...; undefined when there is none). */
  datatype Entry = Entry(level: Level, message: string, subject: Value)

  /** The log calls the logger writes out, in order. */
  function Emitted(lg: Logger, entries: seq<Entry>): (r: seq<Entry>)
    ensures |r| <= |entries|
    ensures forall e :: e in r <==> e in entries && ShouldLog(lg, e.level)
  {
    if entries == [] then []
    else
      var rest := Emitted(lg, entries[1..]);
      if ShouldLog(lg, entries[0].level) then [entries[0]] + rest else rest
  }

  /** Emitting respects concatenation, so each operation's log calls can be
      filtered on their own. */
  lemma {:induction false} EmittedAppend(lg: Logger, a: seq<Entry>, b: seq<Entry>)
    ensures Emitted(lg, a + b) == Emitted(lg, a) + Emitted(lg, b)
  {
    if a == [] {
      assert a + b == b;
    } else {
      assert (a + b)[0] == a[0];
      assert (a + b)[1..] == a[1..] + b;
      EmittedAppend(lg, a[1..], b);
    }
  }

  /** If a level is written, every more severe level is written too. */
  lemma Monotone(lg: Logger, l: Level, m: Level)
    requires ShouldLog(lg, l)
    requires Severity(m) <= Severity(l)
    ensures ShouldLog(lg, m)
  {
  }

  /** Under any configured level in the table, errors are written. */
  lemma ErrorsAlwaysWritten(lg: Logger)
    requires ConfiguredRank(lg).Some?
    ensures ShouldLog(lg, Error)
  {
  }

  /** A configured level outside the table silences everything. */
  lemma UnknownLevelSilences(lg: Logger, l: Level)
    requires ConfiguredRank(lg).None?
    ensures !ShouldLog(lg, l)
  {
  }

  /** The default logger writes errors and warnings only. */
  lemma DefaultLevelIsWarn(l: Level)
    ensures ShouldLog(NewLogger(Undefined, Undefined), l) <==> l == Error || l == Warn
    ensures ShouldLog(GlobalLogger, l) <==> l == Error || l == Warn
    ensures MessagePrefix(GlobalLogger) == ""
  {
  }
}
