/** The level-gated logger of the providers. Console output and the error
    pop-up are returned instead of performed. */
module Logging {
  import opened Wrappers

  /** `LogLevel`, in the order of its numeric values 0 to 4. */
  datatype LogLevel = LevelNone | LevelError | LevelWarn | LevelInfo | LevelLog

  function Rank(l: LogLevel): nat {
    match l
    case LevelNone => 0
    case LevelError => 1
    case LevelWarn => 2
    case LevelInfo => 3
    case LevelLog => 4
  }

  /** `LogLevel[name]` for a configured level name. A name that is not one of
      the enum's members gives a value that is not a level (`None`), and
      every `>=` comparison with it is false. */
  function LevelFromName(name: string): (l: Option<LogLevel>)
    ensures l == Some(LevelNone) <==> name == "none"
    ensures l == Some(LevelError) <==> name == "error"
    ensures l == Some(LevelWarn) <==> name == "warn"
    ensures l == Some(LevelInfo) <==> name == "info"
    ensures l == Some(LevelLog) <==> name == "log"
    ensures l.None? <==> name !in {"none", "error", "warn", "info", "log"}
  {
    if name == "none" then Some(LevelNone)
    else if name == "error" then Some(LevelError)
    else if name == "warn" then Some(LevelWarn)
    else if name == "info" then Some(LevelInfo)
    else if name == "log" then Some(LevelLog)
    else None
  }

  /** `this.level >= threshold`. */
  predicate AtLeast(level: Option<LogLevel>, threshold: LogLevel) {
    level.Some? && Rank(level.value) >= Rank(threshold)
  }

  const DefaultPrefix: string := "VSCODE-HLINT"

  class Logger {
    var level: Option<LogLevel>
    var prefix: string

    /** A missing or empty prefix falls back to the default; because of `||`,
        a missing level and `LogLevel.none` (0, falsy) both become `error`. */
    constructor(prefix: Option<string>, level: Option<LogLevel>)
      ensures this.prefix == if prefix.Some? && prefix.value != "" then prefix.value else DefaultPrefix
      ensures this.level == if level.Some? && level.value != LevelNone then level else Some(LevelError)
    {
      this.prefix := if prefix.Some? && prefix.value != "" then prefix.value else DefaultPrefix;
      this.level := if level.Some? && level.value != LevelNone then level else Some(LevelError);
    }

    /** Replaces the level and nothing else. */
    method SetLogLevel(level: Option<LogLevel>)
      modifies this
      ensures this.level == level && prefix == old(prefix)
    {
      this.level := level;
    }

    /** The text every emitted line carries. */
    function Line(message: string): string
      reads this
    {
      prefix + " " + message
    }

    /** `console.log`, only at level `log`. */
    method Log(message: string) returns (console: Option<string>)
      ensures console.Some? <==> level == Some(LevelLog)
      ensures console.Some? ==> console.value == Line(message)
    {
      console := if AtLeast(level, LevelLog) then Some(Line(message)) else None;
    }

    /** `console.info`, at level `info` or `log`. */
    method Info(message: string) returns (console: Option<string>)
      ensures console.Some? <==> level in {Some(LevelInfo), Some(LevelLog)}
      ensures console.Some? ==> console.value == Line(message)
    {
      console := if AtLeast(level, LevelInfo) then Some(Line(message)) else None;
    }

    /** `console.warn`, at level `warn` and above. */
    method Warn(message: string) returns (console: Option<string>)
      ensures console.Some? <==> level in {Some(LevelWarn), Some(LevelInfo), Some(LevelLog)}
      ensures console.Some? ==> console.value == Line(message)
    {
      console := if AtLeast(level, LevelWarn) then Some(Line(message)) else None;
    }

    /** `console.error` and the error pop-up, at every level but `none`; the
        pop-up shows the message without the prefix. */
    method Error(message: string) returns (console: Option<string>, popup: Option<string>)
      ensures console.Some? <==> level.Some? && level.value != LevelNone
      ensures console.Some? ==> console.value == Line(message)
      ensures popup.Some? <==> console.Some?
      ensures popup.Some? ==> popup.value == message
    {
      if AtLeast(level, LevelError) {
        console, popup := Some(Line(message)), Some(message);
      } else {
        console, popup := None, None;
      }
    }
  }
}
