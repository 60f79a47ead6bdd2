/** The acceptor as an object whose callbacks nest. */
module AcceptorClass {
  import opened CursorList
  import opened Repetition
  import opened AcceptorDrain
  import Drain = AcceptorDrain

  /** No method fails a CHECK or uses a manager that is gone, except for a TLS connection that
      is accepted too late. */
  class Acceptor {
    var phase: Phase
    var numPending: nat
    var manager: Option<seq<Conn>>
    var force: bool
    var drained: nat
    var stopped: bool
    /** A manager that was gone has been used. */
    var fault: bool
    ghost var open: set<nat>
    ghost var live: set<nat>

    ghost function Value(): State
      reads this
    {
      State(phase, numPending, manager, force, open, live, drained, stopped, fault)
    }

    constructor ()
      ensures Value() == Initial()
    {
      phase, numPending, manager, force := Running, 0, Some([]), false;
      drained, stopped, fault := 0, false, false;
      open, live := {}, {};
    }

    method CheckDrained()
      requires force || manager.Some?
      modifies this
      ensures Value() == Drain.CheckDrained(old(Value()))
    {
      if force || manager.value != [] || numPending != 0 { return; }
      manager, phase, drained := None, Done, drained + 1;
    }

    method Unlink(c: Conn)
      requires manager.Some?
      modifies this
      ensures Value() == RemoveConnection(old(Value()), c)
    {
      if c in manager.value {
        manager := Some(Erase(manager.value, c));
        if manager.value == [] && phase == Draining { CheckDrained(); }
      }
    }

    method CountDown(id: nat)
      requires numPending > 0
      modifies this
      ensures Value() == Drain.CountDown(old(Value()), id)
    {
      numPending := numPending - 1;
      open := open - {id};
    }

    method SslConnectionError(id: nat)
      requires numPending > 0 && (phase == Draining ==> manager.Some?)
      modifies this
      ensures Value() == Drain.SslConnectionError(old(Value()), id)
    {
      CountDown(id);
      if phase == Draining { CheckDrained(); }
    }

    method ConnectionReady(session: Option<nat>)
      requires phase == Running ==> manager.Some?
      modifies this
      ensures Value() == Drain.ConnectionReady(old(Value()), session)
    {
      if phase == Running && session.Some? {
        live := live + {session.value};
        manager := Some([Session(session.value)] + manager.value);
      }
    }

    method AcceptTls(id: nat, max: nat)
      requires Inv(Value()) && Enabled(Value(), Tls(id, max))
      modifies this
      ensures Value() == Drain.AcceptTls(old(Value()), id, max)
      ensures Inv(Value()) <==> !fault
      ensures fault <==> old(TooLate(Value(), Tls(id, max)))
    {
      TlsInv(Value(), id, max);
      numPending := numPending + 1;
      open := open + {id};
      if numPending > max {
        SslConnectionError(id);
      } else if manager.None? {
        fault := true;
      } else {
        manager := Some([Handshake(id)] + manager.value);
      }
    }

    method OnHandshakeReady(id: nat, session: Option<nat>)
      requires Inv(Value()) && Enabled(Value(), Ready(id, session))
      modifies this
      ensures Value() == HandshakeReady(old(Value()), id, session) && Inv(Value())
    {
      ReadyInv(Value(), id, session);
      UnlinkHoldsManager(Value(), id);
      ReportInv(Value(), id);
      Unlink(Handshake(id));
      CountDown(id);
      ConnectionReady(session);
      if phase == Draining { CheckDrained(); }
    }

    method OnHandshakeError(id: nat)
      requires Inv(Value()) && id in open
      modifies this
      ensures Value() == HandshakeError(old(Value()), id) && Inv(Value())
    {
      InvStep(Value(), Error(id));
      UnlinkHoldsManager(Value(), id);
      Unlink(Handshake(id));
      SslConnectionError(id);
    }

    method AcceptStopped()
      requires Inv(Value()) && !stopped
      modifies this
      ensures Value() == Drain.AcceptStopped(old(Value())) && Inv(Value())
    {
      StopInv(Value());
      stopped := true;
      if phase != Done {
        phase := Draining;
        CheckDrained();
      }
    }

    /** dropConnection on a connection that is no longer linked. */
    method DropConnection(c: Conn)
      requires manager.Some? && c !in manager.value && force && (c.Handshake? ==> numPending > 0)
      modifies this
      ensures Value() == DropUnlinked(old(Value()), c)
    {
      match c
      case Session(id) => live := live - {id};
      case Handshake(id) =>
        Unlink(c);
        SslConnectionError(id);
    }

    method DropAllConnections()
      requires Inv(Value())
      modifies this
      ensures Value() == Drain.DropAllConnections(old(Value())) && Inv(Value())
    {
      DropAllEnds(Value());
      if manager.Some? {
        force := true;
        ghost var start := Value();
        DropEachEmpties(start);
        while manager.value != []
          invariant force && !fault && manager.Some? && Counted(Value())
          invariant DropEach(Value()) == DropEach(start)
          decreases |manager.value|
        {
          DropFront(Value());
          DroppableFront(Value());
          var c := manager.value[0];
          manager := Some(manager.value[1..]);
          DropConnection(c);
        }
        if phase == Draining { CheckDrained(); }
        manager := None;
      }
      phase, drained := Done, drained + 1;
    }

    method OnSessionGone(id: nat)
      requires Inv(Value()) && id in live
      modifies this
      ensures Value() == SessionGone(old(Value()), id) && Inv(Value())
    {
      GoneInv(Value(), id);
      assert Session(id) in List(Value());
      live := live - {id};
      Unlink(Session(id));
    }

    /** The front connection is unlinked and then dropped. */
    method DropNext()
      requires Inv(Value()) && force && manager.Some?
      modifies this
      ensures Value() == DropOne(old(Value())) && Inv(Value()) && manager.Some? && force
    {
      DropOneInv(Value());
      if manager.value != [] {
        PopFront(Value());
        DroppableFront(Value());
        var c := manager.value[0];
        Unlink(c);
        DropConnection(c);
      }
    }

    method DropConnections(n: nat)
      requires Inv(Value())
      modifies this
      ensures Value() == Drain.DropConnections(old(Value()), n) && Inv(Value())
    {
      if manager.Some? {
        force := true;
        ghost var start := Value();
        var i := 0;
        while i < n && manager.value != []
          invariant i <= n && force && manager.Some? && Inv(Value())
          invariant Repeat(DropOne, Value(), n - i) == Repeat(DropOne, start, n)
        {
          DropNext();
          i := i + 1;
        }
        if manager.value == [] { RepeatFixed(DropOne, Value(), n - i); }
      }
    }
  }

  lemma DroppableFront(s: State)
    requires Counted(s) && List(s) != []
    ensures List(s)[0] !in List(s)[1..] && (List(s)[0].Handshake? ==> s.numPending > 0)
  {
    var c := List(s)[0];
    assert c in List(s);
    if c.Handshake? { assert c == Handshake(c.id) && c.id in s.open; }
  }
}
