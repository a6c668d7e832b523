# slog-global, modelled in Dafny

`slog-global` keeps one process-wide slog `Logger` so that call sites can log
without passing a logger around. The slot starts out holding a logger that
discards everything. `set_global` installs a new logger and `clear_global`
puts a fresh discard logger back. `get_global` hands out a shared snapshot that
the caller may keep, and `borrow_global` gives a short-lived view. The six
macros `crit!` … `trace!` read the slot when they run and log at a fixed
severity. slog's macros only log levels the build includes (slog's
build-time maximum level). An optional bridge (`log_redirect.rs`) registers a backend with the
`log` crate. That backend maps `log` levels onto slog levels, turns each `log`
record into a slog record, and hands it to whichever global logger is current
at the time of the call. It does so through `Logger::log` directly, so slog's
build-time maximum level does not apply to it.

Files:

- `common.dfy`: `Option` and `Result`.
- `slog.dfy`: the slog types the core uses. This covers the six levels, records,
  and logger handles (`Discard` or `Root(id)`, where `id` is the handle's
  identity). It also holds a ghost trail `Drains.sent` of every record handed to
  a logger, and `Observable`, the records handed to loggers other than the
  discard logger. A configured logger is assumed to keep every record it receives.
- `log_facade.dfy`: the `log` 0.3 types the bridge uses. It also has `Facade`,
  a stand-in for that crate's one-shot registration and maximum level filter.
- `global.dfy` (lib.rs): `GlobalLogger` is the slot, with one field holding an
  `Arc` snapshot whose logger never changes. The macros are methods on it.
  `SlotAfter` and `Emitted` give the meaning of a whole sequential history of
  calls: writes, reads, macro calls and the bridge's direct calls (`Direct`).
  `Replay` shows that the object follows them call by call. The
  lemmas about them state last-write-wins, reads-do-not-write,
  clear-equals-initial and silence-before-set.
- `log_redirect.dfy` (log_redirect.rs): the level mappings and their
  round-trip laws, the backend, and `redirect_std_log`.

The global static becomes an explicit `GlobalLogger` object, which the bridge
takes as a parameter. lib.rs has no flush-guard slot and no set-with-guard
operation, so the model has neither.

## Model

| member | source | states |
|---|---|---|
| SlogGlobal.DiscardLogger | lib.rs:29-32 | the discard logger drops every record: handing it any record produces no observable output |
| SlogGlobal.GlobalLogger.constructor | lib.rs:34-36 | the slot starts as a fresh snapshot holding the discard logger, the state `SlotAfter([])` of the empty history |
| SlogGlobal.GlobalLogger.Set | lib.rs:38-41 | `set_global(l)` installs a new snapshot holding `l`; the old snapshot is not touched |
| SlogGlobal.GlobalLogger.Get | lib.rs:43-49 | `get_global` returns the current snapshot itself and changes nothing |
| SlogGlobal.GlobalLogger.Borrow | lib.rs:51-54 | `borrow_global` yields the current logger and changes nothing |
| SlogGlobal.GlobalLogger.Clear | lib.rs:56-59 | `clear_global` installs a new snapshot holding a discard logger |
| SlogGlobal.GlobalLogger.LogAt | lib.rs:62-64 | a macro whose level is within the build's static maximum hands exactly one record (call-site location, no function name, tag, message) to the logger current at the call; otherwise it hands over nothing |
| SlogGlobal.GlobalLogger.Crit | lib.rs:61-65 | `crit!` logs one record at Critical through the current logger when Critical is built in, and nothing otherwise |
| SlogGlobal.GlobalLogger.Error | lib.rs:66-70 | `error!` logs one record at Error through the current logger when Error is built in, and nothing otherwise |
| SlogGlobal.GlobalLogger.Warn | lib.rs:71-75 | `warn!` logs one record at Warning through the current logger when Warning is built in, and nothing otherwise |
| SlogGlobal.GlobalLogger.Info | lib.rs:76-80 | `info!` logs one record at Info through the current logger when Info is built in, and nothing otherwise |
| SlogGlobal.GlobalLogger.Debug | lib.rs:81-85 | `debug!` logs one record at Debug through the current logger when Debug is built in, and nothing otherwise |
| SlogGlobal.GlobalLogger.Trace | lib.rs:86-90 | `trace!` logs one record at Trace through the current logger when Trace is built in, and nothing otherwise |
| SlogGlobal.Perform | lib.rs:34-90 | one call moves the slot to its `Step` successor and hands its records (a built-in macro's record, or a direct call's record) to the logger current before the call |
| SlogGlobal.Replay | lib.rs:34-90 | running any history of calls on a fresh slot, one call at a time, leaves the object holding `SlotAfter(history)` and the drains holding exactly `Emitted(history)`, so the history lemmas hold of the object itself |
| SlogGlobal.SnapshotOutlivesSet | lib.rs:39-49 | a snapshot taken by `get_global` still holds the old logger after a `set_global`, and it is no longer the slot's snapshot |
| SlogGlobal.SnapshotOutlivesClear | lib.rs:47-59 | a snapshot taken by `get_global` still holds the old logger after a `clear_global` |
| SlogGlobal.SlotIsLastWrite | lib.rs:34-59 | for every history, the slot holds the value of the last write (a `clear_global` counting as the discard logger), or the discard logger if there was none |
| SlogGlobal.ReadsPreserveSlot | lib.rs:47-54 | reads and logging calls appended to any history leave the slot unchanged |
| SlogGlobal.ReadAfterWrite | lib.rs:39-49 | after `set_global(l)` every read up to the next write sees `l` |
| SlogGlobal.ClearRestoresInitial | lib.rs:34-59 | after `clear_global` the slot is the same as at process start |
| SlogGlobal.NoSetMeansDiscard | lib.rs:34-59 | a history without `set_global` leaves the discard logger in the slot |
| SlogGlobal.SilentUntilSet | lib.rs:29-64 | logging before any `set_global`, by the macros or by the bridge's direct calls, produces no observable output, whatever the build's static maximum level |
| SlogGlobal.OneRecordPerLogCall | lib.rs:61-90 | a history delivers exactly the records of its built-in macro calls and its direct calls, one each, in order (counted independently from the front) |
| SlogGlobal.DeliveredWhileRoot | lib.rs:47-90 | while the slot holds `Root(id)`, reads leave it there and the deliveries grow by exactly one delivery to `Root(id)` per record handed over, in order |
| SlogGlobal.ObservableWhileRoot | lib.rs:47-90 | while the slot holds `Root(id)`, reads leave it there, every record handed over is delivered to `Root(id)` in order, and those records are exactly what the observable output gains |
| SlogGlobal.ObservableAfterSet | lib.rs:39-64 | after `set_global(Root(id))`, the records handed over up to the next write are delivered to `Root(id)` in order, nothing else is delivered, and they are exactly what the observable output gains |
| Slog.RootKeepsAll | lib.rs:39-41 | records delivered to a configured logger all count as observable, in order |
| Slog.OnlyDiscardIsSilent | lib.rs:29-32 | records handed only to the discard logger produce no observable output |
| LogRedirect.LogToSlogLevel | log_redirect.rs:11-19 | each `log` level maps to the slog level of the same severity (Error→Error … Trace→Trace), whose `as_usize` rank is one higher; never Critical |
| LogRedirect.SlogToLogLevel | log_redirect.rs:21-29 | each slog level maps to the `log` level of the same severity, whose rank is one lower; Critical and Error both map to Error |
| LogRedirect.LogLevelRoundTrip | log_redirect.rs:11-29 | `slog_to_log_level(log_to_slog_level(x)) == x` for every `log` level |
| LogRedirect.SlogLevelRoundTrip | log_redirect.rs:11-29 | `log_to_slog_level(slog_to_log_level(y)) == y` except Critical, which comes back as Error |
| LogRedirect.LogToSlogBijective | log_redirect.rs:11-19 | `log_to_slog_level` is injective and reaches exactly the slog levels other than Critical |
| LogRedirect.SlogToLogCollapse | log_redirect.rs:21-29 | two slog levels map to the same `log` level iff they are equal or both in {Critical, Error} |
| LogRedirect.LevelMapsMonotone | log_redirect.rs:11-29 | both mappings preserve the severity order; `log_to_slog_level` also reflects it |
| LogRedirect.Enabled | log_redirect.rs:32-34 | the backend reports every metadata as enabled |
| LogRedirect.ToSlogRecord | log_redirect.rs:36-55 | the built record is never Critical, has column 0 and an empty function name, and the original `log` record (level, target as tag, module, file, line, message) can be read back from it |
| LogRedirect.ToSlogRecordInjective | log_redirect.rs:36-55 | distinct `log` records become distinct slog records |
| LogRedirect.Log | log_redirect.rs:36-57 | the backend hands exactly one record, the converted one, to the global logger current at the time of the call, at every level: it is the `Direct` call of that record, whatever the build's static maximum level, because it calls `Logger::log` directly and skips the macros' build-time level cap |
| LogRedirect.ChosenMaxLevel | log_redirect.rs:66-70 | a filter is chosen exactly when a level is given |
| LogRedirect.ChosenMaxLevelAdmits | log_redirect.rs:66-70 | with `Some(l)`, a `log` level passes the chosen filter iff its slog level is at least as severe as `l`, where Critical lets Error through too |
| LogRedirect.RedirectStdLog | log_redirect.rs:60-73 | the first call registers the backend and sets the filter to `slog_to_log_level(l)` when given `Some(l)`, or leaves it unchanged for `None`; later calls fail with `SetLoggerError` and change nothing |
| LogRedirect.RedirectWithoutLevelAtStart | log_redirect.rs:66-72 | from process start, `redirect_std_log(None)` succeeds but leaves the filter at `Off`, which admits no `log` level |

## Left out

- Atomicity, memory ordering and the lease and reference-count internals of `ArcSwap`, and when `lazy_static` runs its initialiser. The model runs one call at a time, with the slot as a plain field and the global as an explicit object.
- `borrow_global` returns a `Lease` whose lifetime is not modelled. `Borrow` returns the logger it views.
- slog internals: `Logger::root`, the `Discard` drain, drains and formatting, and the key-value sets `o!()` and `b!()`. A logger is an opaque handle that receives records, and the macros' key-value arguments are dropped.
- SlogGlobal.GlobalLogger.LogAt and SlogGlobal.OneRecordPerLogCall: slog's build-time maximum level is a parameter (`staticMax`) of the macros and of the history functions. The model does not fix slog's feature-driven default. Per slog's documentation, that default leaves out Trace in debug builds, and Trace and Debug in release builds.
- Message arguments (`fmt::Arguments`) are opaque strings. The macros' optional `#tag` is a parameter.
- The `log` crate's `set_logger`, its `SetLoggerError` and its initial `Off` filter are foreign behaviour. `LogFacade.Facade` states them as assumptions about `log` 0.3 and does not prove them. `RedirectWithoutLevelAtStart` relies on that assumed initial filter.
- The `log` crate's own dispatch, which checks the filter before calling the backend, is not modelled. `Admits` only states which levels a filter lets through.
- Line and column numbers are `u32` in both crates and `nat` in the model. The macros and the bridge copy them without arithmetic, so no wrap-around can arise.
- Slog.Observable, SlogGlobal.ObservableWhileRoot and SlogGlobal.ObservableAfterSet: a configured (`Root`) logger is assumed to keep every record it receives. The filtering its drain may do (for example a level filter) and the records it may lose (for example an async drain that drops on overflow) are not modelled. The lemmas state delivery to the logger, in order, as `Emitted` equations. Their `Observable` conclusions rest on that assumption and do not promise output from the drain.
- The example programs (threads, sleeps, random delays, terminal output, async flushing) have no logic of their own.
