/** EvbHandshakeHelper: a handshake driven on one event base whose outcome is delivered on
    another.  Every statement that another thread could observe is a step of its own, so a
    run is any interleaving of the acceptor thread and the handshake thread. */
module EvbHandshake {

  /** The compare-and-swap word. */
  datatype Word = Invalid | Started | Dropped | Callback

  datatype Base = AcceptorBase | HandshakeBase

  datatype Transport = Attached(base: Base) | Detached | Destroyed

  datatype Outcome = Ready | Error

  /** Closures queued on the acceptor's event base ... */
  datatype AcceptorTask = DeliverResult(outcome: Outcome) | ClearGuard

  /** ... and on the handshake event base. */
  datatype HandshakeTask = StartHandshake | DropHandshake

  /** Where the acceptor thread is inside `dropConnection`; `won` is its compare-and-swap. */
  datatype AcceptorPc =
    | AcceptorIdle
    | DropRaced(won: bool)
    | DropGuarded(won: bool)
    | DropReported(won: bool)

  /** Where the handshake thread is inside a result callback or the drop closure. */
  datatype HandshakePc =
    | HandshakeIdle
    | ResultWon(outcome: Outcome)
    | ResultDetached(outcome: Outcome)
    | InnerDropped
    | InnerReset

  datatype State = State(
    word: Word,
    transport: Transport,
    acceptorQ: seq<AcceptorTask>,
    handshakeQ: seq<HandshakeTask>,
    acceptorPc: AcceptorPc,
    handshakePc: HandshakePc,
    inner: bool,            // the inner helper exists, has been started and has not reported
    dropCalled: bool,
    delivered: bool,        // a result closure has run on the acceptor thread
    readyLost: bool,        // a successful handshake lost the race and closed its transport
    guardSets: nat,
    guardClears: nat,
    reports: seq<Outcome>)  // calls of the outer callback; each asks for the helper's destruction

  const Initial := State(Invalid, Attached(AcceptorBase), [], [], AcceptorIdle, HandshakeIdle,
                         false, false, false, false, 0, 0, [])

  predicate Guarded(s: State) { s.guardClears < s.guardSets }

  /** The helper has been deleted: destruction was asked for and no guard holds it back. */
  predicate Deleted(s: State) { |s.reports| > 0 && !Guarded(s) }

  datatype Event =
    | Start
    | DropRace                  // dropConnection: the compare-and-swap
    | DropSetGuard              //   emplacing the destructor guard
    | DropReport                //   calling the outer callback
    | DropSchedule              //   queueing the drop closure, if the swap succeeded
    | RunAcceptorTask
    | RunHandshakeTask
    | ResultRace(outcome: Outcome)   // connectionReady/connectionError: the compare-and-swap
    | ResultDetach                   //   detaching the transport
    | ResultSchedule                 //   queueing the delivery
    | ResetInner                // the drop closure: destroying the inner helper
    | ScheduleClear             //   queueing the release of the guard

  /** The helper is started once, dropped at most once and not after it has reported. */
  predicate Enabled(s: State, e: Event) {
    match e
    case Start => s.word == Invalid
    case DropRace => s.acceptorPc == AcceptorIdle && s.word != Invalid && !s.dropCalled && |s.reports| == 0
    case DropSetGuard => s.acceptorPc.DropRaced?
    case DropReport => s.acceptorPc.DropGuarded?
    case DropSchedule => s.acceptorPc.DropReported?
    case RunAcceptorTask => s.acceptorPc == AcceptorIdle && s.acceptorQ != []
    case RunHandshakeTask => s.handshakePc == HandshakeIdle && s.handshakeQ != []
    case ResultRace(_) => s.inner && (s.handshakePc == HandshakeIdle || s.handshakePc == InnerDropped)
    case ResultDetach => s.handshakePc.ResultWon?
    case ResultSchedule => s.handshakePc.ResultDetached?
    case ResetInner => s.handshakePc == InnerDropped
    case ScheduleClear => s.handshakePc == InnerReset
  }

  function Step(s: State, e: Event): State
    requires Enabled(s, e)
  {
    match e
    case Start =>
      s.(word := Started, transport := Detached, handshakeQ := s.handshakeQ + [StartHandshake])
    case DropRace =>
      var won := s.word == Started;
      s.(word := if won then Dropped else s.word, acceptorPc := DropRaced(won), dropCalled := true)
    case DropSetGuard =>
      s.(acceptorPc := DropGuarded(s.acceptorPc.won), guardSets := s.guardSets + 1)
    case DropReport =>
      s.(acceptorPc := DropReported(s.acceptorPc.won), reports := s.reports + [Error])
    case DropSchedule =>
      s.(acceptorPc := AcceptorIdle,
         handshakeQ := if s.acceptorPc.won then s.handshakeQ + [DropHandshake] else s.handshakeQ)
    case RunAcceptorTask =>
      var rest := s.(acceptorQ := s.acceptorQ[1..]);
      (match s.acceptorQ[0]
       case DeliverResult(outcome) =>
         var here := rest.(transport := Attached(AcceptorBase), delivered := true);
         if Guarded(s) then here.(guardClears := s.guardClears + 1) else here.(reports := s.reports + [outcome])
       case ClearGuard => rest.(guardClears := s.guardClears + 1))
    case RunHandshakeTask =>
      var rest := s.(handshakeQ := s.handshakeQ[1..]);
      (match s.handshakeQ[0]
       case StartHandshake => rest.(transport := Attached(HandshakeBase), inner := true)
       case DropHandshake => rest.(handshakePc := InnerDropped))
    case ResultRace(outcome) =>
      if s.word == Started then s.(word := Callback, inner := false, handshakePc := ResultWon(outcome))
      else if outcome == Ready then s.(inner := false, readyLost := true, transport := Destroyed)
      else s.(inner := false)
    case ResultDetach => s.(handshakePc := ResultDetached(s.handshakePc.outcome), transport := Detached)
    case ResultSchedule =>
      s.(handshakePc := HandshakeIdle, acceptorQ := s.acceptorQ + [DeliverResult(s.handshakePc.outcome)])
    case ResetInner => s.(handshakePc := InnerReset, inner := false, transport := Destroyed)
    case ScheduleClear => s.(handshakePc := HandshakeIdle, acceptorQ := s.acceptorQ + [ClearGuard])
  }

  // ---------------------------------------------------------------- the invariant

  predicate GuardOk(s: State) {
    && s.guardClears <= s.guardSets <= 1 && |s.reports| <= 1
  }

  predicate Untouched(s: State) {
    && s.acceptorPc == AcceptorIdle && s.handshakePc == HandshakeIdle && s.acceptorQ == []
    && !s.dropCalled && !s.delivered && !s.readyLost && s.guardSets == 0 && |s.reports| == 0
  }

  /** The transport while the handshake thread owns it. */
  predicate InHandshake(s: State) {
    if s.readyLost then s.transport == Destroyed && !s.inner else s.transport == Attached(HandshakeBase)
  }

  predicate NotStartedYet(s: State) {
    s.transport == Detached && !s.inner && !s.readyLost
  }

  /** Case 1 of the race: the drop won.  The acceptor thread reports, then hands the drop
      over to the handshake thread, which hands the guard back. */
  predicate DropWins(s: State) {
    && s.dropCalled && !s.delivered
    && match s.acceptorPc
       case AcceptorIdle => s.guardSets == 1 && |s.reports| == 1 && DropUnderWay(s)
       case DropRaced(won) => won && s.guardSets == 0 && |s.reports| == 0 && BeforeDrop(s)
       case DropGuarded(won) => won && s.guardSets == 1 && s.guardClears == 0 && |s.reports| == 0 && BeforeDrop(s)
       case DropReported(won) => won && s.guardSets == 1 && s.guardClears == 0 && |s.reports| == 1 && BeforeDrop(s)
  }

  predicate BeforeDrop(s: State) {
    && s.acceptorQ == [] && s.handshakePc == HandshakeIdle
    && ((s.handshakeQ == [StartHandshake] && NotStartedYet(s)) || (s.handshakeQ == [] && InHandshake(s)))
  }

  predicate DropUnderWay(s: State) {
    match s.handshakePc
    case HandshakeIdle =>
      || (s.acceptorQ == [] && s.guardClears == 0
          && ((s.handshakeQ == [StartHandshake, DropHandshake] && NotStartedYet(s))
              || (s.handshakeQ == [DropHandshake] && InHandshake(s))))
      || (s.handshakeQ == [] && s.transport == Destroyed && !s.inner
          && s.acceptorQ == if s.guardClears == 0 then [ClearGuard] else [])
    case InnerDropped => s.acceptorQ == [] && s.handshakeQ == [] && s.guardClears == 0 && InHandshake(s)
    case InnerReset =>
      s.acceptorQ == [] && s.handshakeQ == [] && s.guardClears == 0 && s.transport == Destroyed && !s.inner
    case _ => false
  }

  /** Case 2: the result won.  A drop that comes first on the acceptor thread only leaves
      its guard behind, for the delivery to find. */
  predicate ResultWins(s: State) {
    && s.handshakeQ == [] && !s.inner && !s.readyLost
    && (match s.handshakePc
        case HandshakeIdle =>
          if s.delivered then s.acceptorQ == [] && s.transport == Attached(AcceptorBase)
          else s.transport == Detached && |s.acceptorQ| == 1 && s.acceptorQ[0].DeliverResult?
        case ResultWon(_) => !s.delivered && s.acceptorQ == [] && s.transport == Attached(HandshakeBase)
        case ResultDetached(_) => !s.delivered && s.acceptorQ == [] && s.transport == Detached
        case _ => false)
    && match s.acceptorPc
       case AcceptorIdle =>
         && s.guardSets == (if s.dropCalled then 1 else 0)
         && |s.reports| == (if s.dropCalled || s.delivered then 1 else 0)
         && s.guardClears == (if s.dropCalled && s.delivered then 1 else 0)
       case DropRaced(won) => !won && s.dropCalled && !s.delivered && s.guardSets == 0 && |s.reports| == 0
       case DropGuarded(won) =>
         !won && s.dropCalled && !s.delivered && s.guardSets == 1 && s.guardClears == 0 && |s.reports| == 0
       case DropReported(won) =>
         !won && s.dropCalled && !s.delivered && s.guardSets == 1 && s.guardClears == 0 && |s.reports| == 1
  }

  predicate Inv(s: State) {
    && GuardOk(s)
    && match s.word
       case Invalid => s == Initial
       case Started =>
         && Untouched(s)
         && ((s.handshakeQ == [StartHandshake] && NotStartedYet(s))
             || (s.handshakeQ == [] && s.transport == Attached(HandshakeBase) && s.inner))
       case Dropped => DropWins(s)
       case Callback => ResultWins(s)
  }

  lemma StartedStep(s: State, e: Event)
    requires Inv(s) && Enabled(s, e) && (s.word == Invalid || s.word == Started)
    ensures Inv(Step(s, e))
  {}

  /** Once the drop has won, the acceptor thread's steps ... */
  lemma DroppedAcceptorStep(s: State, e: Event)
    requires Inv(s) && Enabled(s, e) && s.word == Dropped
    requires e == DropRace || e == DropSetGuard || e == DropReport || e == DropSchedule || e == RunAcceptorTask
    ensures Inv(Step(s, e))
  {}

  /** ... and the handshake thread's. */
  lemma DroppedHandshakeStep(s: State, e: Event)
    requires Inv(s) && Enabled(s, e) && s.word == Dropped
    requires e == RunHandshakeTask || e.ResultRace? || e == ResetInner || e == ScheduleClear
    ensures Inv(Step(s, e))
  {}

  lemma CallbackStep(s: State, e: Event)
    requires Inv(s) && Enabled(s, e) && s.word == Callback
    ensures Inv(Step(s, e))
  {}

  lemma InvStep(s: State, e: Event)
    requires Inv(s) && Enabled(s, e)
    ensures Inv(Step(s, e))
  {
    if s.word == Invalid || s.word == Started {
      StartedStep(s, e);
    } else if s.word == Callback {
      CallbackStep(s, e);
    } else if e == DropRace || e == DropSetGuard || e == DropReport || e == DropSchedule || e == RunAcceptorTask {
      DroppedAcceptorStep(s, e);
    } else {
      DroppedHandshakeStep(s, e);
    }
  }

  // ---------------------------------------------------------------- runs

  /** `states[i]` is the state before event `i` of some interleaving. */
  ghost predicate IsRun(states: seq<State>, es: seq<Event>) {
    && |states| == |es| + 1 && states[0] == Initial
    && (forall i :: 0 <= i < |es| ==> Enabled(states[i], es[i]) && states[i + 1] == Step(states[i], es[i]))
  }

  lemma {:induction false} InvInEveryRun(states: seq<State>, es: seq<Event>, i: nat)
    requires IsRun(states, es) && i < |states|
    ensures Inv(states[i])
  {
    if i > 0 {
      InvInEveryRun(states, es, i - 1);
      InvStep(states[i - 1], es[i - 1]);
    }
  }

  /** The outer callback is invoked at most once, and exactly once as soon as a drop or a
      delivered result has run to its end on the acceptor thread. */
  lemma OutcomeExactlyOnce(states: seq<State>, es: seq<Event>, i: nat)
    requires IsRun(states, es) && i < |states|
    ensures |states[i].reports| <= 1
    ensures states[i].acceptorPc == AcceptorIdle ==>
              (|states[i].reports| == 1 <==> states[i].dropCalled || states[i].delivered)
  {
    InvInEveryRun(states, es, i);
  }

  /** What the transport must be when a step touches its event base: it is attached only
      when no base holds it, and detached or dropped only by the thread that holds it. */
  predicate TransportUseOk(s: State, e: Event)
    requires Enabled(s, e)
  {
    match e
    case Start => s.transport == Attached(AcceptorBase)
    case RunHandshakeTask =>
      if s.handshakeQ[0] == StartHandshake then s.transport == Detached
      else s.transport == if s.readyLost then Destroyed else Attached(HandshakeBase)
    case ResultDetach => s.transport == Attached(HandshakeBase)
    case ResultRace(_) => s.transport == Attached(HandshakeBase)
    case ResetInner => s.transport == if s.readyLost then Destroyed else Attached(HandshakeBase)
    case RunAcceptorTask => s.acceptorQ[0].DeliverResult? ==> s.transport == Detached
    case _ => true
  }

  /** In every interleaving the transport is handed over cleanly: at most one event base
      holds it, each thread touches it only while its own base does, and the inner drop
      finds it on the handshake base unless a successful handshake that lost the race has
      already closed it there. */
  lemma TransportIsHandedOver(states: seq<State>, es: seq<Event>, i: nat)
    requires IsRun(states, es) && i < |es|
    ensures TransportUseOk(states[i], es[i])
  {
    InvInEveryRun(states, es, i);
  }

  lemma WordStays(s: State, e: Event)
    requires Enabled(s, e) && Decided(s)
    ensures Step(s, e).word == s.word
  {}

  predicate Decided(s: State) {
    s.word == Dropped || s.word == Callback
  }

  lemma {:induction false} StaysDecided(states: seq<State>, i: nat, j: nat)
    requires forall k :: 0 <= k < |states| - 1 && Decided(states[k]) ==> states[k + 1].word == states[k].word
    requires i <= j < |states| && Decided(states[i])
    ensures states[j].word == states[i].word
    decreases j
  {
    if i < j {
      StaysDecided(states, i, j - 1);
      assert states[j - 1 + 1].word == states[j - 1].word;
    }
  }

  /** Once decided, the race stays decided. */
  lemma WordIsDecided(states: seq<State>, es: seq<Event>, i: nat, j: nat)
    requires IsRun(states, es) && i <= j < |states| && Decided(states[i])
    ensures states[j].word == states[i].word
  {
    forall k | 0 <= k < |es| && Decided(states[k]) ensures states[k + 1].word == states[k].word {
      WordStays(states[k], es[k]);
    }
    StaysDecided(states, i, j);
  }

  // ---------------------------------------------------------------- what is reported

  /** The result that won the race. */
  ghost predicate WinsRace(states: seq<State>, es: seq<Event>, j: nat)
    requires j < |es| < |states|
  {
    es[j].ResultRace? && states[j].word == Started
  }

  /** `outcome` is on its way to the outer callback, or has got there unless a drop was first. */
  predicate Carries(s: State, outcome: Outcome) {
    && s.word == Callback
    && match s.handshakePc
       case ResultWon(o) => o == outcome
       case ResultDetached(o) => o == outcome
       case _ =>
         if s.delivered then s.dropCalled || s.reports == [outcome]
         else s.acceptorQ == [DeliverResult(outcome)]
  }

  lemma CarriesStep(s: State, e: Event, outcome: Outcome)
    requires Inv(s) && Enabled(s, e)
    requires if s.word == Callback then Carries(s, outcome) else s.word == Started && e == ResultRace(outcome)
    ensures Carries(Step(s, e), outcome)
  {
    InvStep(s, e);
  }

  lemma {:induction false} CarriedInEveryRun(states: seq<State>, es: seq<Event>, j: nat, i: nat)
    requires IsRun(states, es) && j < i < |states| && WinsRace(states, es, j)
    ensures Carries(states[i], es[j].outcome)
    decreases i
  {
    InvInEveryRun(states, es, i - 1);
    if j < i - 1 { CarriedInEveryRun(states, es, j, i - 1); }
    CarriesStep(states[i - 1], es[i - 1], es[j].outcome);
  }

  /** One result, and only one, has won the race once the word says so. */
  lemma {:induction false} SomeResultWon(states: seq<State>, es: seq<Event>, i: nat) returns (j: nat)
    requires IsRun(states, es) && i < |states| && states[i].word == Callback
    ensures j < i && WinsRace(states, es, j)
    ensures forall k :: 0 <= k < |es| && WinsRace(states, es, k) ==> k == j
  {
    if states[i - 1].word == Callback {
      j := SomeResultWon(states, es, i - 1);
    } else {
      InvInEveryRun(states, es, i - 1);
      j := i - 1;
      OnlyOneWins(states, es, j);
    }
  }

  lemma OnlyOneWins(states: seq<State>, es: seq<Event>, j: nat)
    requires IsRun(states, es) && j < |es| && WinsRace(states, es, j)
    ensures forall k :: 0 <= k < |es| && WinsRace(states, es, k) ==> k == j
  {
    forall k | 0 <= k < |es| && WinsRace(states, es, k) ensures k == j {
      if k < j { CarriedInEveryRun(states, es, k, j); }
      if j < k { CarriedInEveryRun(states, es, j, k); }
    }
  }

  ghost predicate DropHasReported(es: seq<Event>, i: nat)
    requires i <= |es|
  {
    exists k :: 0 <= k < i && es[k] == DropReport
  }

  predicate ReportsOk(s: State) {
    s.dropCalled && s.reports != [] ==> s.reports == [Error]
  }

  lemma ReportsStep(s: State, e: Event)
    requires Inv(s) && Enabled(s, e) && ReportsOk(s)
    ensures ReportsOk(Step(s, e))
    ensures Step(s, e).dropCalled && Step(s, e).reports != [] <==> (s.dropCalled && s.reports != []) || e == DropReport
  {
    InvStep(s, e);
  }

  lemma {:induction false} ReportsInEveryRun(states: seq<State>, es: seq<Event>, i: nat)
    requires IsRun(states, es) && i < |states|
    ensures ReportsOk(states[i])
    ensures states[i].dropCalled && states[i].reports != [] <==> DropHasReported(es, i)
  {
    if i > 0 {
      ReportsInEveryRun(states, es, i - 1);
      InvInEveryRun(states, es, i - 1);
      ReportsStep(states[i - 1], es[i - 1]);
      if DropHasReported(es, i - 1) { var k :| 0 <= k < i - 1 && es[k] == DropReport; }
    }
  }

  /** What the outer callback is told: an error if a drop told it, and otherwise the outcome of
      the one result that found the handshake still running. */
  lemma OutcomeIsTheWinners(states: seq<State>, es: seq<Event>, i: nat)
    requires IsRun(states, es) && i < |states| && states[i].reports != []
    ensures DropHasReported(es, i) ==> states[i].reports == [Error]
    ensures !DropHasReported(es, i) ==>
              exists j :: 0 <= j < i && WinsRace(states, es, j) && states[i].reports == [es[j].outcome]
  {
    ReportsInEveryRun(states, es, i);
    InvInEveryRun(states, es, i);
    if !DropHasReported(es, i) {
      var j := SomeResultWon(states, es, i);
      CarriedInEveryRun(states, es, j, i);
    }
  }

  /** A drop closure and a delivery are never both scheduled: whoever wins the word is the
      only one to put anything on the other thread. */
  lemma NeverBothScheduled(states: seq<State>, es: seq<Event>, i: nat, j: nat)
    requires IsRun(states, es) && i < |es| && j < |es|
    requires es[i] == DropSchedule && states[i].acceptorPc.won
    ensures !es[j].ResultSchedule?
  {
    InvInEveryRun(states, es, i);
    InvInEveryRun(states, es, j);
    if i <= j {
      WordIsDecided(states, es, i, j);
    } else if states[j].word == Callback {
      WordIsDecided(states, es, j, i);
    }
  }

  /** Lifetime: a deleted helper is never touched again, because the guard is released only
      by the last closure that refers to it. */
  lemma NothingRunsAfterDeletion(states: seq<State>, es: seq<Event>, i: nat)
    requires IsRun(states, es) && i < |states| && Deleted(states[i])
    ensures states[i].acceptorQ == [] && states[i].handshakeQ == []
    ensures forall e: Event :: !Enabled(states[i], e)
  {
    InvInEveryRun(states, es, i);
  }

  /** Nothing leaks: when both threads have run everything there is to run, the outcome has
      been reported, the guard released and the helper deleted. */
  lemma QuietMeansReleased(states: seq<State>, es: seq<Event>, i: nat)
    requires IsRun(states, es) && i < |states|
    requires Decided(states[i])
    requires states[i].acceptorQ == [] && states[i].handshakeQ == []
    requires states[i].acceptorPc == AcceptorIdle && states[i].handshakePc == HandshakeIdle
    ensures |states[i].reports| == 1 && states[i].guardClears == states[i].guardSets && Deleted(states[i])
    ensures states[i].transport == Attached(AcceptorBase) || states[i].transport == Destroyed
  {
    InvInEveryRun(states, es, i);
  }
}
