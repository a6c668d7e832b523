/**
 * The parts of the `slog` library that the global logger and the `log`
 * bridge hand records to. A `Logger` is an opaque handle: the model only
 * tells the distinguished discard logger apart from configured ones, each
 * of which carries an identity. What every handle has been given is kept
 * as a ghost trail of deliveries (`Drains.sent`); formatting, key-value
 * pairs and the drains' own output are not modelled.
 */
module Slog {

  /** slog's severities, most severe first. */
  datatype Level = Critical | Error | Warning | Info | Debug | Trace

  /** slog's `Level::as_usize`: Critical is 1, Trace is 6. */
  function Rank(l: Level): (n: nat)
    ensures 1 <= n <= 6
  {
    match l
    case Critical => 1
    case Error => 2
    case Warning => 3
    case Info => 4
    case Debug => 5
    case Trace => 6
  }

  /**
   * Whether slog's logging macros are built in for a level: they log only when
   * the level's rank is at most the rank of the build's static maximum level
   * (`__slog_static_max_level()`, whose `Off` has rank 0). The cap is chosen by
   * crate features when the program is built, so it is a parameter here.
   */
  predicate CompiledIn(level: Level, staticMax: nat)
  {
    Rank(level) <= staticMax
  }

  /** slog's `RecordLocation`. */
  datatype Location = Location(file: string, line: nat, column: nat, functionName: string, modulePath: string)

  /** A record as the logger receives it: its static part and the formatted message. */
  datatype Record = Record(location: Location, level: Level, tag: string, msg: string)

  /** A logger handle: the discard logger, or a configured root logger with an identity. */
  datatype Logger = Discard | Root(id: nat)

  /** One record handed to one logger. */
  datatype Delivery = Delivery(to: Logger, record: Record)

  /** Everything the program has handed to loggers, oldest first. */
  class Drains {
    ghost var sent: seq<Delivery>

    constructor()
      ensures sent == []
    {
      sent := [];
    }
  }

  /** `Logger::log`: the logger receives the record. */
  method Emit(l: Logger, r: Record, out: Drains)
    modifies out
    ensures out.sent == old(out.sent) + [Delivery(l, r)]
  {
    out.sent := out.sent + [Delivery(l, r)];
  }

  /** The records that reached a drain that keeps them: the discard drain drops every record. */
  function Observable(ds: seq<Delivery>): (kept: seq<Record>)
    decreases |ds|
  {
    if ds == [] then []
    else (if ds[0].to.Discard? then [] else [ds[0].record]) + Observable(ds[1..])
  }

  /** Output is produced record by record: the observable part of a concatenation is the concatenation of the parts. */
  lemma {:induction false} ObservableAppend(a: seq<Delivery>, b: seq<Delivery>)
    ensures Observable(a + b) == Observable(a) + Observable(b)
  {
    if a == [] {
      assert a + b == b;
    } else {
      assert (a + b)[1..] == a[1..] + b;
      ObservableAppend(a[1..], b);
    }
  }

  /** Handing records only to the discard logger produces no observable output. */
  lemma {:induction false} OnlyDiscardIsSilent(ds: seq<Delivery>)
    requires forall i :: 0 <= i < |ds| ==> ds[i].to.Discard?
    ensures Observable(ds) == []
  {
    if ds != [] {
      OnlyDiscardIsSilent(ds[1..]);
    }
  }

  /** The deliveries of the records `rs`, in order, all to the logger `l`. */
  function DeliveriesTo(l: Logger, rs: seq<Record>): (ds: seq<Delivery>)
  {
    seq(|rs|, i requires 0 <= i < |rs| => Delivery(l, rs[i]))
  }

  /** A configured logger keeps every record it is given, in order. */
  lemma {:induction false} RootKeepsAll(id: nat, rs: seq<Record>)
    ensures Observable(DeliveriesTo(Root(id), rs)) == rs
    decreases |rs|
  {
    if rs != [] {
      assert DeliveriesTo(Root(id), rs)[1..] == DeliveriesTo(Root(id), rs[1..]);
      RootKeepsAll(id, rs[1..]);
    }
  }
}
