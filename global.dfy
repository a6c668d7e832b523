/**
 * The process-wide logger slot of `slog-global` (lib.rs). The slot always
 * holds a shared, immutable snapshot (`Arc`) of a logger; writers install a
 * new snapshot, readers take the current one. Seen one call at a time, the
 * slot is a single field of a `GlobalLogger` object. The logging macros
 * read the slot at the moment they run and hand one record at a fixed
 * severity to the logger they found.
 *
 * Beside the class, `SlotAfter` and `Emitted` give the meaning of a whole
 * sequential history of calls, and the lemmas below state what the library
 * promises about such histories.
 */
module SlogGlobal {
  import opened Common
  import opened Slog

  /** `discard_logger()`: a logger that drops everything it is given. */
  function DiscardLogger(): (l: Logger)
    ensures forall r: Record :: Observable([Delivery(l, r)]) == []
  {
    Discard
  }

  /** `Arc<Logger>`: a shared snapshot of a logger that is never changed after it is built. */
  class Arc {
    const logger: Logger

    constructor(l: Logger)
      ensures logger == l
    {
      logger := l;
    }
  }

  /** Where a logging macro was expanded: `file!()`, `line!()`, `column!()`, `module_path!()`. */
  datatype CallSite = CallSite(file: string, line: nat, column: nat, modulePath: string)

  /** The record a slog logging macro builds: the call site's location, no function name. */
  function MacroRecord(level: Level, site: CallSite, tag: string, msg: string): (r: Record)
  {
    Record(Location(site.file, site.line, site.column, "", site.modulePath), level, tag, msg)
  }

  /** One call on the global logger's public interface. */
  datatype Call =
    | SetGlobal(l: Logger)
    | ClearGlobal
    | GetGlobal
    | BorrowGlobal
    | LogAt(level: Level, site: CallSite, tag: string, msg: string)
    | Direct(r: Record)  // a record handed straight to `Logger::log` of the borrowed logger, as the `log` bridge does

  /** What one call does to the logger held in the slot. */
  function Step(current: Logger, c: Call): (next: Logger)
  {
    match c
    case SetGlobal(l) => l
    case ClearGlobal => DiscardLogger()
    case _ => current
  }

  /** The logger in the slot after a sequential history of calls from process start. */
  function SlotAfter(calls: seq<Call>): (current: Logger)
    decreases |calls|
  {
    if calls == [] then DiscardLogger()
    else Step(SlotAfter(calls[..|calls| - 1]), calls[|calls| - 1])
  }

  /**
   * The records one call hands over: a logging macro its record when its level
   * is built in, a direct call its record whatever the build, anything else none.
   */
  function Handed(c: Call, staticMax: nat): (rs: seq<Record>)
  {
    match c
    case LogAt(level, site, tag, msg) =>
      if CompiledIn(level, staticMax) then [MacroRecord(level, site, tag, msg)] else []
    case Direct(r) => [r]
    case _ => []
  }

  /** The deliveries one call makes when the slot holds `current`: its records, all to `current`. */
  function Delivered(current: Logger, c: Call, staticMax: nat): (ds: seq<Delivery>)
  {
    DeliveriesTo(current, Handed(c, staticMax))
  }

  /**
   * The deliveries made by a sequential history, in a build whose static
   * maximum level has rank `staticMax`: the records each call hands over
   * reach the logger current when it runs.
   */
  function Emitted(calls: seq<Call>, staticMax: nat): (ds: seq<Delivery>)
    decreases |calls|
  {
    if calls == [] then []
    else
      var before := calls[..|calls| - 1];
      Emitted(before, staticMax) + Delivered(SlotAfter(before), calls[|calls| - 1], staticMax)
  }

  /** The logger a call writes into the slot, if it writes at all. */
  function Written(c: Call): (w: Option<Logger>)
  {
    match c
    case SetGlobal(l) => Some(l)
    case ClearGlobal => Some(Discard)
    case _ => None
  }

  /** The value of the last write in a history, found by scanning it from the front. */
  function LastWrite(calls: seq<Call>): (w: Option<Logger>)
    decreases |calls|
  {
    if calls == [] then None
    else
      match LastWrite(calls[1..])
      case Some(l) => Some(l)
      case None => Written(calls[0])
  }

  /** Whether a call only reads the slot (or logs through it). */
  predicate IsRead(c: Call)
  {
    Written(c).None?
  }

  lemma {:induction false} LastWriteSnoc(calls: seq<Call>, c: Call)
    ensures LastWrite(calls + [c]) == if Written(c).Some? then Written(c) else LastWrite(calls)
  {
    if calls == [] {
      assert [c][1..] == [];
    } else {
      assert (calls + [c])[1..] == calls[1..] + [c];
      LastWriteSnoc(calls[1..], c);
    }
  }

  /** Last write wins: the slot holds the value of the last `set_global`/`clear_global`, or the discard logger if there was none. */
  lemma {:induction false} SlotIsLastWrite(calls: seq<Call>)
    ensures SlotAfter(calls) == LastWrite(calls).GetOr(Discard)
    decreases |calls|
  {
    if calls != [] {
      var before, c := calls[..|calls| - 1], calls[|calls| - 1];
      assert calls == before + [c];
      SlotIsLastWrite(before);
      LastWriteSnoc(before, c);
    }
  }

  /** Reads and logging calls never change the slot. */
  lemma {:induction false} ReadsPreserveSlot(before: seq<Call>, readCalls: seq<Call>)
    requires forall i :: 0 <= i < |readCalls| ==> IsRead(readCalls[i])
    ensures SlotAfter(before + readCalls) == SlotAfter(before)
    decreases |readCalls|
  {
    if readCalls == [] {
      assert before + readCalls == before;
    } else {
      var rest := readCalls[..|readCalls| - 1];
      assert (before + readCalls)[..|before + readCalls| - 1] == before + rest;
      ReadsPreserveSlot(before, rest);
    }
  }

  /** After `set_global(l)`, every later read sees `l` until the next write. */
  lemma {:induction false} ReadAfterWrite(before: seq<Call>, l: Logger, readCalls: seq<Call>)
    requires forall i :: 0 <= i < |readCalls| ==> IsRead(readCalls[i])
    ensures SlotAfter(before + [SetGlobal(l)] + readCalls) == l
  {
    ReadsPreserveSlot(before + [SetGlobal(l)], readCalls);
    assert (before + [SetGlobal(l)])[..|before|] == before;
  }

  /** `clear_global()` leaves the slot as it was at process start. */
  lemma {:induction false} ClearRestoresInitial(before: seq<Call>)
    ensures SlotAfter(before + [ClearGlobal]) == SlotAfter([])
  {
  }

  /** A history with no `set_global` only ever holds the discard logger. */
  lemma {:induction false} NoSetMeansDiscard(calls: seq<Call>)
    requires forall i :: 0 <= i < |calls| ==> !calls[i].SetGlobal?
    ensures SlotAfter(calls) == Discard
    decreases |calls|
  {
    if calls != [] {
      NoSetMeansDiscard(calls[..|calls| - 1]);
    }
  }

  /** Before any `set_global`, logging produces no observable output, whatever the build's static maximum level. */
  lemma {:induction false} SilentUntilSet(calls: seq<Call>, staticMax: nat)
    requires forall i :: 0 <= i < |calls| ==> !calls[i].SetGlobal?
    ensures Observable(Emitted(calls, staticMax)) == []
    decreases |calls|
  {
    if calls != [] {
      var before, c := calls[..|calls| - 1], calls[|calls| - 1];
      SilentUntilSet(before, staticMax);
      NoSetMeansDiscard(before);
      OnlyDiscardIsSilent(Delivered(SlotAfter(before), c, staticMax));
      ObservableAppend(Emitted(before, staticMax), Delivered(SlotAfter(before), c, staticMax));
    }
  }

  /** The records a history hands over, in order, found by scanning it from the front. */
  function HandedRecords(calls: seq<Call>, staticMax: nat): (rs: seq<Record>)
    decreases |calls|
  {
    if calls == [] then []
    else Handed(calls[0], staticMax) + HandedRecords(calls[1..], staticMax)
  }

  lemma {:induction false} HandedRecordsSnoc(calls: seq<Call>, c: Call, staticMax: nat)
    ensures HandedRecords(calls + [c], staticMax) == HandedRecords(calls, staticMax) + Handed(c, staticMax)
  {
    if calls == [] {
      assert [c][1..] == [];
    } else {
      assert (calls + [c])[1..] == calls[1..] + [c];
      HandedRecordsSnoc(calls[1..], c, staticMax);
    }
  }

  /**
   * Every built-in logging call and every direct call hands over exactly one
   * record, its own, and nothing else hands over any.
   */
  lemma {:induction false} OneRecordPerLogCall(calls: seq<Call>, staticMax: nat)
    ensures |Emitted(calls, staticMax)| == |HandedRecords(calls, staticMax)|
    ensures forall i :: 0 <= i < |Emitted(calls, staticMax)| ==> Emitted(calls, staticMax)[i].record == HandedRecords(calls, staticMax)[i]
    decreases |calls|
  {
    if calls != [] {
      var before, c := calls[..|calls| - 1], calls[|calls| - 1];
      assert calls == before + [c];
      OneRecordPerLogCall(before, staticMax);
      HandedRecordsSnoc(before, c, staticMax);
    }
  }

  lemma EmittedSnoc(calls: seq<Call>, c: Call, staticMax: nat)
    ensures Emitted(calls + [c], staticMax) == Emitted(calls, staticMax) + Delivered(SlotAfter(calls), c, staticMax)
    ensures SlotAfter(calls + [c]) == Step(SlotAfter(calls), c)
  {
  }

  /** The history's meaning grows by one step per call, prefix by prefix. */
  lemma PrefixStep(calls: seq<Call>, i: nat, staticMax: nat)
    requires i < |calls|
    ensures SlotAfter(calls[..i + 1]) == Step(SlotAfter(calls[..i]), calls[i])
    ensures Emitted(calls[..i + 1], staticMax) == Emitted(calls[..i], staticMax) + Delivered(SlotAfter(calls[..i]), calls[i], staticMax)
  {
    assert calls[..i + 1] == calls[..i] + [calls[i]];
    EmittedSnoc(calls[..i], calls[i], staticMax);
  }

  /**
   * While the slot holds a configured logger, reads leave it there and every
   * record handed over is delivered to that logger, in order.
   */
  lemma {:induction false} DeliveredWhileRoot(before: seq<Call>, id: nat, readCalls: seq<Call>, staticMax: nat)
    requires SlotAfter(before) == Root(id)
    requires forall i :: 0 <= i < |readCalls| ==> IsRead(readCalls[i])
    ensures SlotAfter(before + readCalls) == Root(id)
    ensures Emitted(before + readCalls, staticMax)
            == Emitted(before, staticMax) + DeliveriesTo(Root(id), HandedRecords(readCalls, staticMax))
    decreases |readCalls|
  {
    if readCalls == [] {
      assert before + readCalls == before;
    } else {
      var rest, c := readCalls[..|readCalls| - 1], readCalls[|readCalls| - 1];
      assert readCalls == rest + [c];
      assert forall i :: 0 <= i < |rest| ==> IsRead(rest[i]) by {
        forall i | 0 <= i < |rest| ensures IsRead(rest[i]) {
          assert rest[i] == readCalls[i];
        }
      }
      DeliveredWhileRoot(before, id, rest, staticMax);
      DeliveredWhileRootStep(before, id, rest, c, staticMax);
    }
  }

  /** One step of `DeliveredWhileRoot`: a read made while the slot holds `Root(id)` delivers its records, if any, to it. */
  lemma DeliveredWhileRootStep(before: seq<Call>, id: nat, rest: seq<Call>, c: Call, staticMax: nat)
    requires IsRead(c)
    requires SlotAfter(before + rest) == Root(id)
    requires Emitted(before + rest, staticMax)
             == Emitted(before, staticMax) + DeliveriesTo(Root(id), HandedRecords(rest, staticMax))
    ensures SlotAfter(before + (rest + [c])) == Root(id)
    ensures Emitted(before + (rest + [c]), staticMax)
            == Emitted(before, staticMax) + DeliveriesTo(Root(id), HandedRecords(rest + [c], staticMax))
  {
    var rs, hs := HandedRecords(rest, staticMax), Handed(c, staticMax);
    var mid, all := before + rest, before + (rest + [c]);
    assert all == mid + [c];
    assert SlotAfter(all) == Root(id) && Emitted(all, staticMax) == Emitted(mid, staticMax) + DeliveriesTo(Root(id), hs) by {
      EmittedSnoc(mid, c, staticMax);
    }
    assert HandedRecords(rest + [c], staticMax) == rs + hs by {
      HandedRecordsSnoc(rest, c, staticMax);
    }
    DeliveriesToExtend(Emitted(before, staticMax), Emitted(mid, staticMax), Emitted(all, staticMax), Root(id), rs, hs);
  }

  lemma DeliveriesToExtend(e0: seq<Delivery>, e1: seq<Delivery>, e2: seq<Delivery>, l: Logger, rs: seq<Record>, hs: seq<Record>)
    requires e1 == e0 + DeliveriesTo(l, rs) && e2 == e1 + DeliveriesTo(l, hs)
    ensures e2 == e0 + DeliveriesTo(l, rs + hs)
  {
  }

  /**
   * While the slot holds a configured logger, every record handed over
   * reaches it, in order, and joins the output of configured loggers.
   */
  lemma ObservableWhileRoot(before: seq<Call>, id: nat, readCalls: seq<Call>, staticMax: nat)
    requires SlotAfter(before) == Root(id)
    requires forall i :: 0 <= i < |readCalls| ==> IsRead(readCalls[i])
    ensures SlotAfter(before + readCalls) == Root(id)
    ensures Emitted(before + readCalls, staticMax)
            == Emitted(before, staticMax) + DeliveriesTo(Root(id), HandedRecords(readCalls, staticMax))
    ensures Observable(Emitted(before + readCalls, staticMax))
            == Observable(Emitted(before, staticMax)) + HandedRecords(readCalls, staticMax)
  {
    DeliveredWhileRoot(before, id, readCalls, staticMax);
    ObservableAppend(Emitted(before, staticMax), DeliveriesTo(Root(id), HandedRecords(readCalls, staticMax)));
    RootKeepsAll(id, HandedRecords(readCalls, staticMax));
  }

  /**
   * Once `set_global` has installed a configured logger, every record handed
   * over up to the next write is delivered to that logger, in order, and
   * joins the output of configured loggers.
   */
  lemma {:induction false} ObservableAfterSet(before: seq<Call>, id: nat, readCalls: seq<Call>, staticMax: nat)
    requires forall i :: 0 <= i < |readCalls| ==> IsRead(readCalls[i])
    ensures Emitted(before + [SetGlobal(Root(id))] + readCalls, staticMax)
            == Emitted(before, staticMax) + DeliveriesTo(Root(id), HandedRecords(readCalls, staticMax))
    ensures Observable(Emitted(before + [SetGlobal(Root(id))] + readCalls, staticMax))
            == Observable(Emitted(before, staticMax)) + HandedRecords(readCalls, staticMax)
  {
    var afterSet := before + [SetGlobal(Root(id))];
    EmittedSnoc(before, SetGlobal(Root(id)), staticMax);
    assert Emitted(afterSet, staticMax) == Emitted(before, staticMax);
    ObservableWhileRoot(afterSet, id, readCalls, staticMax);
  }

  /**
   * `GLOBAL_LOGGER`: the slot. It always holds a snapshot; a write replaces
   * the snapshot with a new one and never changes the old one, so a snapshot
   * a reader already holds keeps its logger.
   */
  class GlobalLogger {
    var slot: Arc

    /** First use of the slot: it holds a fresh discard logger. */
    constructor()
      ensures fresh(slot)
      ensures slot.logger == DiscardLogger() && slot.logger == SlotAfter([])
    {
      slot := new Arc(DiscardLogger());
    }

    /** `set_global(l)`: installs a new snapshot holding `l`. */
    method Set(l: Logger)
      modifies this
      ensures fresh(slot)
      ensures slot.logger == l
    {
      slot := new Arc(l);
    }

    /** `get_global()`: the current snapshot, which the caller may keep. */
    method Get() returns (a: Arc)
      ensures a == slot
    {
      a := slot;
    }

    /** `borrow_global()`: a short-lived view of the current logger. */
    method Borrow() returns (l: Logger)
      ensures l == slot.logger
    {
      l := slot.logger;
    }

    /** `clear_global()`: installs a new snapshot holding a fresh discard logger. */
    method Clear()
      modifies this
      ensures fresh(slot)
      ensures slot.logger == DiscardLogger()
    {
      slot := new Arc(DiscardLogger());
    }

    /**
     * What every logging macro expands to: if the level is built in, borrow
     * the current logger and hand it one record; otherwise do nothing.
     */
    method LogAt(level: Level, site: CallSite, tag: string, msg: string, staticMax: nat, out: Drains)
      modifies out
      ensures out.sent == old(out.sent) + Delivered(slot.logger, Call.LogAt(level, site, tag, msg), staticMax)
    {
      if CompiledIn(level, staticMax) {
        var l := Borrow();
        Emit(l, MacroRecord(level, site, tag, msg), out);
      }
    }

    /** `crit!`: logs at `Critical` through the current logger. */
    method Crit(site: CallSite, tag: string, msg: string, staticMax: nat, out: Drains)
      modifies out
      ensures out.sent == old(out.sent) + Delivered(slot.logger, Call.LogAt(Critical, site, tag, msg), staticMax)
    {
      LogAt(Critical, site, tag, msg, staticMax, out);
    }

    /** `error!`: logs at `Error` through the current logger. */
    method Error(site: CallSite, tag: string, msg: string, staticMax: nat, out: Drains)
      modifies out
      ensures out.sent == old(out.sent) + Delivered(slot.logger, Call.LogAt(Level.Error, site, tag, msg), staticMax)
    {
      LogAt(Level.Error, site, tag, msg, staticMax, out);
    }

    /** `warn!`: logs at `Warning` through the current logger. */
    method Warn(site: CallSite, tag: string, msg: string, staticMax: nat, out: Drains)
      modifies out
      ensures out.sent == old(out.sent) + Delivered(slot.logger, Call.LogAt(Warning, site, tag, msg), staticMax)
    {
      LogAt(Warning, site, tag, msg, staticMax, out);
    }

    /** `info!`: logs at `Info` through the current logger. */
    method Info(site: CallSite, tag: string, msg: string, staticMax: nat, out: Drains)
      modifies out
      ensures out.sent == old(out.sent) + Delivered(slot.logger, Call.LogAt(Level.Info, site, tag, msg), staticMax)
    {
      LogAt(Level.Info, site, tag, msg, staticMax, out);
    }

    /** `debug!`: logs at `Debug` through the current logger. */
    method Debug(site: CallSite, tag: string, msg: string, staticMax: nat, out: Drains)
      modifies out
      ensures out.sent == old(out.sent) + Delivered(slot.logger, Call.LogAt(Level.Debug, site, tag, msg), staticMax)
    {
      LogAt(Level.Debug, site, tag, msg, staticMax, out);
    }

    /** `trace!`: logs at `Trace` through the current logger. */
    method Trace(site: CallSite, tag: string, msg: string, staticMax: nat, out: Drains)
      modifies out
      ensures out.sent == old(out.sent) + Delivered(slot.logger, Call.LogAt(Level.Trace, site, tag, msg), staticMax)
    {
      LogAt(Level.Trace, site, tag, msg, staticMax, out);
    }
  }

  /** Regrouping a concatenation, the step `Replay`'s loop needs after each call. */
  lemma AppendAssoc<T>(a: seq<T>, b: seq<T>, c: seq<T>)
    ensures (a + b) + c == a + (b + c)
  {
  }

  /** Performs one call of a history on the global slot, as `Replay` does call by call. */
  method Perform(g: GlobalLogger, c: Call, staticMax: nat, out: Drains)
    modifies g, out
    ensures g.slot.logger == Step(old(g.slot.logger), c)
    ensures out.sent == old(out.sent) + Delivered(old(g.slot.logger), c, staticMax)
  {
    match c {
      case SetGlobal(l) =>
        g.Set(l);
      case ClearGlobal =>
        g.Clear();
      case GetGlobal =>
        var _ := g.Get();
      case BorrowGlobal =>
        var _ := g.Borrow();
      case LogAt(level, site, tag, msg) =>
        g.LogAt(level, site, tag, msg, staticMax, out);
      case Direct(r) =>
        var l := g.Borrow();
        Emit(l, r, out);
    }
  }

  /**
   * Runs a history of calls on a freshly initialised slot, one call at a
   * time. The object then holds exactly what the history semantics says, and
   * the drains received exactly the history's deliveries, so the lemmas about
   * `SlotAfter` and `Emitted` hold of the object itself.
   */
  method Replay(g: GlobalLogger, calls: seq<Call>, staticMax: nat, out: Drains)
    requires g.slot.logger == SlotAfter([])
    modifies g, out
    ensures g.slot.logger == SlotAfter(calls)
    ensures out.sent == old(out.sent) + Emitted(calls, staticMax)
  {
    var i := 0;
    while i < |calls|
      invariant 0 <= i <= |calls|
      invariant g.slot.logger == SlotAfter(calls[..i])
      invariant out.sent == old(out.sent) + Emitted(calls[..i], staticMax)
    {
      Perform(g, calls[i], staticMax, out);
      PrefixStep(calls, i, staticMax);
      assert out.sent == old(out.sent) + Emitted(calls[..i + 1], staticMax) by {
        var d := Delivered(SlotAfter(calls[..i]), calls[i], staticMax);
        AppendAssoc(old(out.sent), Emitted(calls[..i], staticMax), d);
      }
      i := i + 1;
    }
    assert calls[..|calls|] == calls;
  }

  /** A snapshot taken by `get_global()` keeps its logger after a later `set_global`. */
  method SnapshotOutlivesSet(g: GlobalLogger, l: Logger) returns (kept: Arc)
    modifies g
    ensures kept.logger == old(g.slot.logger) && kept != g.slot && g.slot.logger == l
  {
    kept := g.Get();
    g.Set(l);
  }

  /** A snapshot taken by `get_global()` keeps its logger after a later `clear_global`. */
  method SnapshotOutlivesClear(g: GlobalLogger) returns (kept: Arc)
    modifies g
    ensures kept.logger == old(g.slot.logger) && kept != g.slot && g.slot.logger == Discard
  {
    kept := g.Get();
    g.Clear();
  }
}
