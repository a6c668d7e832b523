/**
 * The parts of the `log` crate (version 0.3) that the bridge is written
 * against. `Facade` stands in for the crate's process-wide state: the
 * one-shot logger registration and the maximum level filter. Its behaviour
 * is the crate's, stated here as an assumption about a foreign library.
 */
module LogFacade {
  import opened Common

  /** `log::LogLevel`, most severe first. */
  datatype LogLevel = Error | Warn | Info | Debug | Trace

  /** `log::LogLevelFilter`: `Off` admits nothing, `Trace` admits everything. */
  datatype LogLevelFilter = Off | Error | Warn | Info | Debug | Trace

  /** `LogLevel as usize`: Error is 1, Trace is 5. */
  function LevelRank(l: LogLevel): (n: nat)
    ensures 1 <= n <= 5
  {
    match l
    case Error => 1
    case Warn => 2
    case Info => 3
    case Debug => 4
    case Trace => 5
  }

  /** `LogLevelFilter as usize`: Off is 0, Trace is 5. */
  function FilterRank(f: LogLevelFilter): (n: nat)
    ensures n <= 5
  {
    match f
    case Off => 0
    case Error => 1
    case Warn => 2
    case Info => 3
    case Debug => 4
    case Trace => 5
  }

  /** `LogLevel::to_log_level_filter`: the filter that admits this level and every more severe one. */
  function ToLogLevelFilter(l: LogLevel): (f: LogLevelFilter)
    ensures FilterRank(f) == LevelRank(l)
  {
    match l
    case Error => LogLevelFilter.Error
    case Warn => LogLevelFilter.Warn
    case Info => LogLevelFilter.Info
    case Debug => LogLevelFilter.Debug
    case Trace => LogLevelFilter.Trace
  }

  /** `level <= max_log_level()`: whether a filter lets a level through. */
  predicate Admits(f: LogLevelFilter, l: LogLevel)
  {
    LevelRank(l) <= FilterRank(f)
  }

  /** `log::LogMetadata`. */
  datatype Metadata = Metadata(level: LogLevel, target: string)

  /** `log::LogLocation`. */
  datatype LogLocation = LogLocation(modulePath: string, file: string, line: nat)

  /** `log::LogRecord`; the formatted arguments are an opaque string. */
  datatype LogRecord = LogRecord(metadata: Metadata, location: LogLocation, args: string)

  /** `log::SetLoggerError`. */
  datatype SetLoggerError = SetLoggerError

  /** The crate's global state: whether a backend has been registered, and the maximum level filter. */
  class Facade {
    var bound: bool
    var maxLevel: LogLevelFilter

    /** The state at process start: nothing registered, the filter at `Off`. */
    constructor()
      ensures !bound && maxLevel == LogLevelFilter.Off
    {
      bound := false;
      maxLevel := LogLevelFilter.Off;
    }

    /**
     * `log::set_logger`: registration succeeds once. On success the backend's
     * constructor runs and may set the filter (`newMax`); on a second call the
     * constructor does not run and nothing changes.
     */
    method SetLogger(newMax: Option<LogLevelFilter>) returns (r: Result<(), SetLoggerError>)
      modifies this
      ensures bound
      ensures old(bound) ==> r == Err(SetLoggerError) && maxLevel == old(maxLevel)
      ensures !old(bound) ==> r == Ok(()) && maxLevel == newMax.GetOr(old(maxLevel))
    {
      if bound {
        return Err(SetLoggerError);
      }
      bound := true;
      if newMax.Some? {
        maxLevel := newMax.value;
      }
      r := Ok(());
    }
  }
}
