/** The log multiplexer of log.go: a TeeLogger forwards each record to every
    handler it wraps, in order, and stops at the first error.

    The handlers are values of an abstract type `H`; what `log/slog`'s
    Handler interface lets the tee ask of them is a `HandlerOps<H>`, four
    function values. The context argument is passed through unchanged by the
    source and is not modelled. */
module Tee {
  import opened Results

  /** slog.Level. */
  type Level = int

  /** One structured attribute, slog.Attr. */
  datatype Attr = Attr(key: string, value: string)

  /** A log record, slog.Record (time and source location left out). */
  datatype LogRecord = LogRecord(level: Level, message: string, attrs: seq<Attr>)

  /** The slog.Handler methods of a handler `H`; `handle` gives the error
      Handle returns, None for nil. */
  datatype HandlerOps<!H> = HandlerOps(
    enabled: (H, Level) -> bool,
    handle: (H, LogRecord) -> Option<string>,
    withAttrs: (H, seq<Attr>) -> H,
    withGroup: (H, string) -> H)

  class TeeLogger<H(0)> {
    const ops: HandlerOps<H>
    const handlers: array<H>

    /** NewTeeLogger: keeps the handler slice it is given, in its order. */
    constructor (ops: HandlerOps<H>, handlers: array<H>)
      ensures this.ops == ops && this.handlers == handlers
      ensures this.handlers[..] == old(handlers[..])
    {
      this.ops := ops;
      this.handlers := handlers;
    }

    /** Enabled: some handler is enabled at `level`; false with no handlers. */
    method Enabled(level: Level) returns (b: bool)
      ensures b <==> exists i :: 0 <= i < handlers.Length && ops.enabled(handlers[i], level)
      ensures handlers.Length == 0 ==> !b
    {
      for i := 0 to handlers.Length
        invariant forall k :: 0 <= k < i ==> !ops.enabled(handlers[k], level)
      {
        if ops.enabled(handlers[i], level) {
          return true;
        }
      }
      return false;
    }

    /** Handle: calls the handlers in index order and returns the first error.
        `delivered` lists the indices of the handlers that received `record`,
        in call order. */
    method Handle(record: LogRecord) returns (err: Option<string>, ghost delivered: seq<int>)
      // handlers are called in index order, each at most once, from the first
      ensures |delivered| <= handlers.Length
      ensures forall j :: 0 <= j < |delivered| ==> delivered[j] == j
      // nil exactly when every handler returned nil, and then all were called
      ensures err.None? <==> forall i :: 0 <= i < handlers.Length ==> ops.handle(handlers[i], record).None?
      ensures err.None? ==> |delivered| == handlers.Length
      // otherwise the error of the last handler called, all before it having returned nil
      ensures err.Some? ==>
        |delivered| > 0 && err == ops.handle(handlers[|delivered| - 1], record) &&
        forall j :: 0 <= j < |delivered| - 1 ==> ops.handle(handlers[j], record).None?
    {
      delivered := [];
      for i := 0 to handlers.Length
        invariant |delivered| == i
        invariant forall j :: 0 <= j < i ==> delivered[j] == j
        invariant forall j :: 0 <= j < i ==> ops.handle(handlers[j], record).None?
      {
        delivered := delivered + [i];
        var e := ops.handle(handlers[i], record);
        if e.Some? {
          return e, delivered;
        }
      }
      return None, delivered;
    }

    /** WithAttrs: a new tee over a fresh, equally long handler array whose
        k-th handler is handler k with `attrs` attached; this tee is left as
        it was. */
    method WithAttrs(attrs: seq<Attr>) returns (ret: TeeLogger<H>)
      ensures fresh(ret) && fresh(ret.handlers)
      ensures ret.ops == ops && ret.handlers.Length == handlers.Length
      ensures forall k :: 0 <= k < handlers.Length ==> ret.handlers[k] == ops.withAttrs(handlers[k], attrs)
      ensures handlers[..] == old(handlers[..])
    {
      var hs := new H[handlers.Length];
      ret := new TeeLogger(ops, hs);
      for k := 0 to handlers.Length
        invariant forall j :: 0 <= j < k ==> hs[j] == ops.withAttrs(handlers[j], attrs)
      {
        hs[k] := ops.withAttrs(handlers[k], attrs);
      }
    }

    /** WithGroup: a new tee over a fresh, equally long handler array whose
        k-th handler is handler k opened on group `name`; this tee is left as
        it was. */
    method WithGroup(name: string) returns (ret: TeeLogger<H>)
      ensures fresh(ret) && fresh(ret.handlers)
      ensures ret.ops == ops && ret.handlers.Length == handlers.Length
      ensures forall k :: 0 <= k < handlers.Length ==> ret.handlers[k] == ops.withGroup(handlers[k], name)
      ensures handlers[..] == old(handlers[..])
    {
      var hs := new H[handlers.Length];
      ret := new TeeLogger(ops, hs);
      for k := 0 to handlers.Length
        invariant forall j :: 0 <= j < k ==> hs[j] == ops.withGroup(handlers[j], name)
      {
        hs[k] := ops.withGroup(handlers[k], name);
      }
    }
  }
}
