/**
 * The bridge from the `log` crate to the global slog logger
 * (log_redirect.rs): the two level mappings, the backend that turns a
 * `log` record into a slog record and hands it to whichever global logger
 * is current at that moment, and `redirect_std_log`, which registers the
 * backend and may set the `log` crate's maximum level filter.
 */
module LogRedirect {
  import opened Common
  import Slog
  import opened LogFacade
  import SlogGlobal

  /** `log_to_slog_level`: every `log` level lands one rank further down slog's scale, so never on Critical. */
  function LogToSlogLevel(level: LogLevel): (r: Slog.Level)
    ensures Slog.Rank(r) == LevelRank(level) + 1
    ensures r != Slog.Level.Critical
  {
    match level
    case Trace => Slog.Level.Trace
    case Debug => Slog.Level.Debug
    case Info => Slog.Level.Info
    case Warn => Slog.Level.Warning
    case Error => Slog.Level.Error
  }

  /** `slog_to_log_level`: one rank up `log`'s scale, with Critical collapsed onto Error. */
  function SlogToLogLevel(level: Slog.Level): (r: LogLevel)
    ensures LevelRank(r) == if level == Slog.Level.Critical then 1 else Slog.Rank(level) - 1
  {
    match level
    case Critical | Error => LogLevel.Error
    case Warning => LogLevel.Warn
    case Debug => LogLevel.Debug
    case Trace => LogLevel.Trace
    case Info => LogLevel.Info
  }

  /** Mapping a `log` level to slog and back gives the level unchanged. */
  lemma LogLevelRoundTrip(x: LogLevel)
    ensures SlogToLogLevel(LogToSlogLevel(x)) == x
  {
  }

  /** Mapping a slog level to `log` and back gives it unchanged, except Critical, which comes back as Error. */
  lemma SlogLevelRoundTrip(y: Slog.Level)
    ensures LogToSlogLevel(SlogToLogLevel(y)) == if y == Slog.Level.Critical then Slog.Level.Error else y
  {
  }

  /** `log_to_slog_level` is injective, and its image is every slog level but Critical. */
  lemma LogToSlogBijective(a: LogLevel, b: LogLevel, y: Slog.Level)
    ensures LogToSlogLevel(a) == LogToSlogLevel(b) <==> a == b
    ensures y != Slog.Level.Critical <==> exists x: LogLevel :: LogToSlogLevel(x) == y
  {
    if y != Slog.Level.Critical {
      SlogLevelRoundTrip(y);
    }
  }

  /** `slog_to_log_level` merges exactly Critical and Error, and nothing else. */
  lemma SlogToLogCollapse(a: Slog.Level, b: Slog.Level)
    ensures SlogToLogLevel(a) == SlogToLogLevel(b) <==>
            a == b || (a in {Slog.Level.Critical, Slog.Level.Error} && b in {Slog.Level.Critical, Slog.Level.Error})
  {
  }

  /** Both mappings keep the order of severity. */
  lemma LevelMapsMonotone(a: LogLevel, b: LogLevel, c: Slog.Level, d: Slog.Level)
    ensures LevelRank(a) <= LevelRank(b) <==> Slog.Rank(LogToSlogLevel(a)) <= Slog.Rank(LogToSlogLevel(b))
    ensures Slog.Rank(c) <= Slog.Rank(d) ==> LevelRank(SlogToLogLevel(c)) <= LevelRank(SlogToLogLevel(d))
  {
  }

  /** `SlogBackend::enabled`: the backend accepts every record; filtering is left to the global logger. */
  function Enabled(metadata: Metadata): (b: bool)
    ensures b
  {
    true
  }

  /**
   * The slog record `SlogBackend::log` builds from a `log` record: the mapped
   * level, the record's file, line and module, column 0, no function name,
   * the target as tag and the message unchanged. Nothing is lost: the `log`
   * record can be read back from it.
   */
  function ToSlogRecord(r: LogRecord): (s: Slog.Record)
    ensures s.level != Slog.Level.Critical
    ensures s.location.column == 0 && s.location.functionName == ""
    ensures FromSlogRecord(s) == r
  {
    Slog.Record(
      Slog.Location(r.location.file, r.location.line, 0, "", r.location.modulePath),
      LogToSlogLevel(r.metadata.level),
      r.metadata.target,
      r.args)
  }

  /** Reads a `log` record back from a slog record built by the bridge. */
  function FromSlogRecord(s: Slog.Record): (r: LogRecord)
  {
    LogRecord(
      Metadata(SlogToLogLevel(s.level), s.tag),
      LogLocation(s.location.modulePath, s.location.file, s.location.line),
      s.msg)
  }

  /** Two different `log` records never become the same slog record. */
  lemma ToSlogRecordInjective(r1: LogRecord, r2: LogRecord)
    ensures ToSlogRecord(r1) == ToSlogRecord(r2) <==> r1 == r2
  {
  }

  /**
   * `SlogBackend::log`: hands exactly one record to the global logger current
   * at the time of the call. It calls the logger directly, so slog's build-time
   * level cap, which only the logging macros check, does not apply.
   */
  method Log(g: SlogGlobal.GlobalLogger, r: LogRecord, out: Slog.Drains)
    modifies out
    ensures out.sent == old(out.sent) + [Slog.Delivery(g.slot.logger, ToSlogRecord(r))]
    ensures forall staticMax: nat ::
              out.sent == old(out.sent) + SlogGlobal.Delivered(g.slot.logger, SlogGlobal.Direct(ToSlogRecord(r)), staticMax)
  {
    var current := g.Borrow();
    Slog.Emit(current, ToSlogRecord(r), out);
  }

  /** The maximum level filter `redirect_std_log` asks for: none when no level is given. */
  function ChosenMaxLevel(level: Option<Slog.Level>): (f: Option<LogLevelFilter>)
    ensures f.None? <==> level.None?
  {
    match level
    case Some(l) => Some(ToLogLevelFilter(SlogToLogLevel(l)))
    case None => None
  }

  /**
   * With `redirect_std_log(Some(l))`, a `log` call passes the filter exactly
   * when its slog level is at least as severe as `l`, except that Critical
   * lets Error through too.
   */
  lemma ChosenMaxLevelAdmits(l: Slog.Level, x: LogLevel)
    ensures ChosenMaxLevel(Some(l)).Some?
    ensures Admits(ChosenMaxLevel(Some(l)).value, x) <==>
            Slog.Rank(LogToSlogLevel(x)) <= (if l == Slog.Level.Critical then Slog.Rank(Slog.Level.Error) else Slog.Rank(l))
  {
  }

  /**
   * `redirect_std_log(level)`: registers the backend. The first time it
   * succeeds and, given a level, sets the filter to that level's `log`
   * counterpart; given none, it leaves the filter as it was. Later calls fail
   * and change nothing.
   */
  method RedirectStdLog(f: Facade, level: Option<Slog.Level>) returns (r: Result<(), SetLoggerError>)
    modifies f
    ensures f.bound
    ensures old(f.bound) ==> r.Err? && f.maxLevel == old(f.maxLevel)
    ensures !old(f.bound) ==> r.Ok? && f.maxLevel == (if level.Some? then ToLogLevelFilter(SlogToLogLevel(level.value)) else old(f.maxLevel))
  {
    r := f.SetLogger(ChosenMaxLevel(level));
  }

  /**
   * From process start, `redirect_std_log(None)` registers the backend but
   * leaves the `log` crate's filter at its initial `Off`, which admits no level.
   */
  method RedirectWithoutLevelAtStart() returns (f: Facade, r: Result<(), SetLoggerError>)
    ensures r.Ok? && f.bound
    ensures forall x: LogLevel :: !Admits(f.maxLevel, x)
  {
    f := new Facade();
    r := RedirectStdLog(f, None);
  }
}
