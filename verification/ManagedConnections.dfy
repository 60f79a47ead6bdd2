/** One managed connection: its drain state and the shutdown signals it has received. */
module ManagedConnections {
  import opened CursorList

  datatype DrainState = Untouched | SentNotifyPendingShutdown | SentCloseWhenIdle

  /** The two virtual calls a connection can receive from a drain. */
  datatype Signal = NotifyPendingShutdown | CloseWhenIdle

  /** The value of a connection: drain state, the signals received so far, and the time
      since which it has been parked in the idle part of a manager's list. */
  datatype Record = Record(drain: DrainState, signals: seq<Signal>, idleSince: Option<int>)

  function FireNotifyPendingShutdown(r: Record): Record {
    if r.drain == Untouched then
      r.(drain := SentNotifyPendingShutdown, signals := r.signals + [NotifyPendingShutdown])
    else r
  }

  function FireCloseWhenIdle(r: Record, force: bool): Record {
    if force || r.drain == SentNotifyPendingShutdown then
      r.(drain := SentCloseWhenIdle, signals := r.signals + [CloseWhenIdle])
    else r
  }

  /** A connection that has been through part of a graceful drain: each signal at most
      once, the notification first. */
  predicate Graceful(r: Record) {
    match r.drain
    case Untouched => r.signals == []
    case SentNotifyPendingShutdown => r.signals == [NotifyPendingShutdown]
    case SentCloseWhenIdle => r.signals == [NotifyPendingShutdown, CloseWhenIdle]
  }

  /** The idle time a connection reports; a busy connection reports zero. */
  function IdleTime(r: Record, now: int): int {
    if r.idleSince.Some? then now - r.idleSince.value else 0
  }

  class ManagedConnection {
    var state: DrainState
    var idleSince: Option<int>
    ghost var signals: seq<Signal>

    ghost function Value(): Record
      reads this
    {
      Record(state, signals, idleSince)
    }

    constructor ()
      ensures Value() == Record(Untouched, [], None)
    {
      state, idleSince, signals := Untouched, None, [];
    }

    /** Returns whether the connection's own callback ran. */
    method FireNotify() returns (fired: bool)
      modifies this
      ensures Value() == FireNotifyPendingShutdown(old(Value()))
      ensures fired <==> Value() != old(Value())
    {
      fired := state == Untouched;
      if fired {
        state := SentNotifyPendingShutdown;
        signals := signals + [NotifyPendingShutdown];
      }
    }

    method FireClose(force: bool) returns (fired: bool)
      modifies this
      ensures Value() == FireCloseWhenIdle(old(Value()), force)
      ensures fired <==> Value() != old(Value())
    {
      fired := force || state == SentNotifyPendingShutdown;
      if fired {
        state := SentCloseWhenIdle;
        signals := signals + [CloseWhenIdle];
      }
    }

    method GetIdleTime(now: int) returns (t: int)
      ensures t == IdleTime(Value(), now)
    {
      t := if idleSince.Some? then now - idleSince.value else 0;
    }
  }
}
