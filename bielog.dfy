/** Logger construction and the logger carried by a context (pkg/bielog/logger.go).
    `slog` itself is not modelled: a logger is the handler kind it writes with and the
    options that handler was given. A context is the chain of values
    `context.WithValue` builds, searched from the newest entry outwards. */
module Bielog {
  import opened Common

  /** The four `slog` levels the parser produces. */
  datatype Level = Debug | Info | Warn | Error

  /** The lower-case name that selects each level. */
  function LevelName(level: Level): (name: string)
    ensures IsLowerString(name)
  {
    match level
    case Debug => "debug"
    case Info => "info"
    case Warn => "warn"
    case Error => "error"
  }

  /** `parseLogLevel`: the level named by `levelStr` in any letter case; any other
      string, the empty one included, gives `Info`. */
  function ParseLogLevel(levelStr: string): (level: Level)
    ensures level != Info ==> Lower(levelStr) == LevelName(level)
    ensures forall named :: Lower(levelStr) == LevelName(named) ==> level == named
  {
    var name := Lower(levelStr);
    if name == "debug" then Debug
    else if name == "info" then Info
    else if name == "warn" then Warn
    else if name == "error" then Error
    else Info
  }

  /** Every level's name parses back to that level. */
  lemma ParseLevelName(level: Level)
    ensures ParseLogLevel(LevelName(level)) == level
  {
    LowerOfLower(LevelName(level));
  }

  /** A string that names no level gives `Info`. */
  lemma ParseUnknownIsInfo(levelStr: string)
    requires forall level: Level :: Lower(levelStr) != LevelName(level)
    ensures ParseLogLevel(levelStr) == Info
  {
  }

  /** Parsing ignores letter case: a string and its lower-case form give the same level. */
  lemma ParseIgnoresCase(levelStr: string)
    ensures ParseLogLevel(levelStr) == ParseLogLevel(Lower(levelStr))
  {
    LowerIdempotent(levelStr);
  }

  datatype HandlerKind = JsonHandler | TextHandler

  /** The handler `NewLogger` picks: JSON for exactly `"json"`, text otherwise. */
  function HandlerFor(loggerType: string): (kind: HandlerKind)
    ensures kind == JsonHandler <==> loggerType == "json"
  {
    if loggerType == "json" then JsonHandler else TextHandler
  }

  /** Matching the logger type is case-sensitive: `"JSON"` gives the text handler. */
  lemma UpperCaseJsonIsText()
    ensures HandlerFor("JSON") == TextHandler
  {
    assert "JSON"[0] != "json"[0];
  }

  /** A `ReplaceAttr` callback, known only by identity. */
  type Hook = nat

  /** `slog.HandlerOptions`; a `None` level is a nil `Leveler`, which handlers read as `Info`. */
  datatype HandlerOptions = HandlerOptions(addSource: bool, level: Option<Level>, replaceAttr: Option<Hook>)

  /** The zero `slog.HandlerOptions{}`. */
  const DefaultOptions: HandlerOptions := HandlerOptions(false, None, None)

  datatype Logger = Logger(handler: HandlerKind, options: HandlerOptions)

  /** `NewLogger`: the caller's options copied (or the zero options for nil), the
      level always replaced by the parsed one, and the handler picked by type. */
  function NewLogger(loggerType: string, logLevel: string, handlerOpts: Option<HandlerOptions>): (logger: Logger)
    ensures logger.handler == HandlerFor(loggerType)
    ensures logger.options.level == Some(ParseLogLevel(logLevel))
    ensures handlerOpts.Some? ==>
      logger.options.addSource == handlerOpts.value.addSource
      && logger.options.replaceAttr == handlerOpts.value.replaceAttr
    ensures handlerOpts.None? ==> logger.options == DefaultOptions.(level := Some(ParseLogLevel(logLevel)))
  {
    var base := if handlerOpts.Some? then handlerOpts.value else DefaultOptions;
    var resulting := base.(level := Some(ParseLogLevel(logLevel)));
    Logger(HandlerFor(loggerType), resulting)
  }

  /** The caller's level never survives: two option sets that differ only in level
      give the same logger. */
  lemma NewLoggerOverridesLevel(loggerType: string, logLevel: string, opts: HandlerOptions, other: Option<Level>)
    ensures NewLogger(loggerType, logLevel, Some(opts)) == NewLogger(loggerType, logLevel, Some(opts.(level := other)))
  {
  }

  /** The logger `FromCtx` falls back to: text output with nil options. */
  const DefaultLogger: Logger := Logger(TextHandler, DefaultOptions)

  /** Context keys: `LoggerCtxKey{}` and any other key. */
  datatype Key = LoggerKey | OtherKey(id: nat)

  /** Values stored in a context: a `*slog.Logger` (`None` is a nil pointer) or anything else. */
  datatype Value = LoggerRef(logger: Option<Logger>) | OtherValue(id: nat)

  datatype Context = Background | WithValue(parent: Context, key: Key, value: Value)

  /** `ctx.Value(key)`: the newest value stored under `key`. */
  function Lookup(ctx: Context, key: Key): (v: Option<Value>)
    ensures ctx.Background? ==> v == None
    ensures ctx.WithValue? && ctx.key == key ==> v == Some(ctx.value)
  {
    match ctx
    case Background => None
    case WithValue(parent, k, value) => if k == key then Some(value) else Lookup(parent, key)
  }

  /** `FromCtx`: the logger stored under `LoggerCtxKey{}` if the stored value is a
      `*slog.Logger` (possibly nil), the default logger otherwise. */
  function FromCtx(ctx: Context): (logger: Option<Logger>)
    ensures Lookup(ctx, LoggerKey) == None ==> logger == Some(DefaultLogger)
  {
    match Lookup(ctx, LoggerKey)
    case Some(LoggerRef(stored)) => stored
    case _ => Some(DefaultLogger)
  }

  /** `CtxWithLogger`. */
  function CtxWithLogger(ctx: Context, logger: Option<Logger>): (r: Context)
    ensures Lookup(r, LoggerKey) == Some(LoggerRef(logger))
    ensures forall key :: key != LoggerKey ==> Lookup(r, key) == Lookup(ctx, key)
  {
    WithValue(ctx, LoggerKey, LoggerRef(logger))
  }

  /** A logger put into a context comes back out, whatever the context held before,
      a nil logger included. */
  lemma FromCtxWithLogger(ctx: Context, logger: Option<Logger>)
    ensures FromCtx(CtxWithLogger(ctx, logger)) == logger
  {
  }

  /** Values stored under other keys do not hide the logger. */
  lemma FromCtxSkipsOtherKeys(ctx: Context, id: nat, value: Value)
    ensures FromCtx(WithValue(ctx, OtherKey(id), value)) == FromCtx(ctx)
  {
  }

  /** Without a logger stored, every context gives the default logger. */
  lemma {:induction false} FromCtxWithoutLogger(ctx: Context)
    requires NoLoggerStored(ctx)
    ensures FromCtx(ctx) == Some(DefaultLogger)
  {
    NoLoggerNoLookup(ctx);
  }

  predicate NoLoggerStored(ctx: Context) {
    match ctx
    case Background => true
    case WithValue(parent, key, _) => key != LoggerKey && NoLoggerStored(parent)
  }

  lemma {:induction false} NoLoggerNoLookup(ctx: Context)
    requires NoLoggerStored(ctx)
    ensures Lookup(ctx, LoggerKey) == None
  {
    if ctx.WithValue? {
      NoLoggerNoLookup(ctx.parent);
    }
  }
}
