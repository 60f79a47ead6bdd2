/** Pipelined dispatch: a client that matches responses to its promises by order alone, and
    a server whose service may finish requests in any order. */
module Pipelining {
  import Bytes

  type Resp = string

  /** Request ids are unsigned 32-bit counters. */
  const IDS: nat := Bytes.TWO_32

  /** The id of the i-th request, counting from zero; the first id handed out is 1. */
  function IdOf(i: nat): nat { (i + 1) % IDS }

  function Succ(id: nat): nat { (id + 1) % IDS }

  datatype Server = Server(
    requestId: nat,
    responses: map<nat, Resp>,
    lastWrittenId: nat,
    // history: requests read, what the service answered to each, and what was written
    read: nat,
    answers: map<nat, Resp>,
    written: seq<Resp>,
    writing: bool)              // inside fireWrite, before lastWrittenId is advanced

  const NewServer := Server(1, map[], 0, 0, map[], [], false)

  /** The requests whose write has returned. */
  function Done(s: Server): int {
    |s.written| - if s.writing then 1 else 0
  }

  function ReadRequest(s: Server): Server {
    s.(requestId := Succ(s.requestId), read := s.read + 1)
  }

  function Complete(s: Server, i: nat, resp: Resp): Server {
    s.(responses := s.responses[IdOf(i) := resp], answers := s.answers[i := resp])
  }

  predicate NextIsReady(s: Server) {
    Succ(s.lastWrittenId) in s.responses
  }

  function BeginWrite(s: Server): Server
    requires NextIsReady(s)
  {
    var id := Succ(s.lastWrittenId);
    s.(responses := s.responses - {id}, written := s.written + [s.responses[id]], writing := true)
  }

  function EndWrite(s: Server): Server {
    s.(lastWrittenId := Succ(s.lastWrittenId), writing := false)
  }

  // ---------------------------------------------------------------- the server's invariant

  /** The ids completed and not yet written. */
  ghost predicate Holds(s: Server) {
    && (forall i :: i in s.answers && |s.written| <= i ==>
          IdOf(i) in s.responses && s.responses[IdOf(i)] == s.answers[i])
    && (forall id :: id in s.responses ==> exists i :: i in s.answers && |s.written| <= i && IdOf(i) == id)
  }

  /** Responses were written in request order, each the answer to its own request. */
  ghost predicate InOrder(s: Server) {
    forall i :: 0 <= i < |s.written| ==> i in s.answers && s.written[i] == s.answers[i]
  }

  ghost predicate Counted(s: Server) {
    && 0 <= Done(s) <= |s.written| <= s.read
    && s.requestId == IdOf(s.read) && s.lastWrittenId == Done(s) % IDS
    && (forall i :: i in s.answers ==> i < s.read)
  }

  /** At most 2^32 requests outstanding, a request being so until its write has returned. */
  predicate WithinIds(s: Server) {
    s.read - Done(s) <= IDS
  }

  ghost predicate Inv(s: Server) {
    Counted(s) && WithinIds(s) && InOrder(s) && Holds(s)
  }

  lemma SameId(i: nat, j: nat)
    ensures IdOf(i) == IdOf(j) <==> (i - j) % IDS == 0
  {}

  /** Within 2^32 consecutive requests an id names one request. */
  lemma IdsAreDistinct(s: Server, i: nat, j: nat)
    requires WithinIds(s) && Done(s) <= i < s.read && Done(s) <= j < s.read && IdOf(i) == IdOf(j)
    ensures i == j
  {
    SameId(i, j);
  }

  /** The id looked up next is the one of the first request whose write has not returned. */
  lemma NextId(s: Server)
    requires Counted(s)
    ensures Succ(s.lastWrittenId) == IdOf(Done(s))
  {}

  lemma ReadInv(s: Server)
    requires Inv(s) && s.read - Done(s) < IDS
    ensures Inv(ReadRequest(s))
  {
    SuccId(s.read);
    assert Holds(ReadRequest(s)) && InOrder(ReadRequest(s));
  }

  lemma SuccId(n: nat)
    ensures Succ(IdOf(n)) == IdOf(n + 1)
  {}

  lemma CompleteInv(s: Server, i: nat, resp: Resp)
    requires Inv(s) && i < s.read && i !in s.answers
    ensures Inv(Complete(s, i, resp))
  {
    var s' := Complete(s, i, resp);
    assert |s.written| <= i;
    forall j | j in s'.answers && |s.written| <= j
      ensures IdOf(j) in s'.responses && s'.responses[IdOf(j)] == s'.answers[j]
    {
      if j != i && IdOf(j) == IdOf(i) { IdsAreDistinct(s, i, j); }
    }
    forall id | id in s'.responses
      ensures exists j :: j in s'.answers && |s.written| <= j && IdOf(j) == id
    {
      if id == IdOf(i) {
        assert i in s'.answers;
      } else {
        var j :| j in s.answers && |s.written| <= j && IdOf(j) == id;
        assert j in s'.answers;
      }
    }
  }

  lemma BeginWriteInv(s: Server)
    requires Inv(s) && !s.writing && NextIsReady(s)
    ensures Inv(BeginWrite(s))
    ensures |s.written| in s.answers && BeginWrite(s).written == s.written + [s.answers[|s.written|]]
  {
    var w, id, s' := |s.written|, Succ(s.lastWrittenId), BeginWrite(s);
    NextId(s);
    var i :| i in s.answers && w <= i && IdOf(i) == id;
    IdsAreDistinct(s, i, w);
    forall j | j in s'.answers && w + 1 <= j
      ensures IdOf(j) in s'.responses && s'.responses[IdOf(j)] == s'.answers[j]
    {
      if IdOf(j) == id { IdsAreDistinct(s, j, w); }
    }
    forall x | x in s'.responses
      ensures exists j :: j in s'.answers && w + 1 <= j && IdOf(j) == x
    {
      var j :| j in s.answers && w <= j && IdOf(j) == x;
      assert j in s'.answers && j != w;
    }
  }

  lemma EndWriteInv(s: Server)
    requires Inv(s) && s.writing
    ensures Inv(EndWrite(s))
  {}

  /** A sendResponses that re-enters while a write is in progress finds nothing to send: the
      response being written is off the map and its id is not yet passed. */
  lemma ReentryFindsNothing(s: Server)
    requires Inv(s) && s.writing
    ensures !NextIsReady(s)
  {
    NextId(s);
    if NextIsReady(s) {
      var i :| i in s.answers && |s.written| <= i && IdOf(i) == Succ(s.lastWrittenId);
      IdsAreDistinct(s, i, Done(s));
    }
  }

  /** When sendResponses has nothing more to send, the first unwritten request is unanswered. */
  lemma SentAllThatCanBeSent(s: Server)
    requires Inv(s) && !s.writing && !NextIsReady(s)
    ensures |s.written| !in s.answers
  {
    NextId(s);
  }

  /** Beyond 2^32 outstanding requests order can be lost: while there is nothing to send, be it
      from inside a write, some request other than the first would be written as soon as it
      completes exactly when more than 2^32 are outstanding. */
  lemma OrderCanBreakIff(s: Server)
    requires Counted(s) && !NextIsReady(s)
    ensures (exists i :: Done(s) < i < s.read && NextIsReady(Complete(s, i, ""))) <==> s.read - Done(s) > IDS
  {
    NextId(s);
    if s.read - Done(s) > IDS {
      var i := Done(s) + IDS;
      SameId(i, Done(s));
      assert NextIsReady(Complete(s, i, ""));
    }
    forall i | Done(s) < i < s.read && NextIsReady(Complete(s, i, "")) ensures i - Done(s) >= IDS {
      SameId(i, Done(s));
    }
  }

  /** Such a server: 2^32 + 1 requests are read, the last is answered first, and its response
      goes out as the first one's. */
  lemma ResponseOvertakes(resp: Resp)
    ensures var s := NewServer.(requestId := IdOf(IDS + 1), read := IDS + 1);
            var s' := Complete(s, IDS, resp);
            && Counted(s) && InOrder(s) && NextIsReady(s')
            && BeginWrite(s').written == [resp] && !InOrder(BeginWrite(s'))
  {
    var s := NewServer.(requestId := IdOf(IDS + 1), read := IDS + 1);
    SameId(IDS, 0);
    NextId(s);
    assert 0 !in BeginWrite(Complete(s, IDS, resp)).answers;
  }

  // ---------------------------------------------------------------- the object

  class PipelinedServerDispatcher {
    var requestId: nat
    var responses: map<nat, Resp>
    var lastWrittenId: nat
    ghost var read: nat
    ghost var answers: map<nat, Resp>
    ghost var written: seq<Resp>

    ghost function Value(): Server
      reads this
    {
      Server(requestId, responses, lastWrittenId, read, answers, written, false)
    }

    constructor ()
      ensures Value() == NewServer
    {
      requestId, responses, lastWrittenId := 1, map[], 0;
      read, answers, written := 0, map[], [];
    }

    /** Returns the id under which the service's answer will come back. */
    method Read() returns (id: nat)
      requires Counted(Value())
      modifies this
      ensures Counted(Value()) && Value() == ReadRequest(old(Value())) && id == IdOf(old(read))
      ensures old(Inv(Value())) && old(read) - |old(written)| < IDS ==> Inv(Value())
    {
      if read - |written| < IDS && Inv(Value()) { ReadInv(Value()); }
      SuccId(read);
      id := requestId;
      requestId := Succ(requestId);
      read := read + 1;
    }

    /** The continuation of the i-th request: files the response and sends what it can. */
    method OnResponse(i: nat, resp: Resp) returns (sent: seq<Resp>)
      requires Inv(Value()) && i < read && i !in answers
      modifies this
      ensures Inv(Value()) && read == old(read) && answers == old(answers)[i := resp]
      ensures written == old(written) + sent && |written| !in answers
    {
      CompleteInv(Value(), i, resp);
      responses := responses[IdOf(i) := resp];
      answers := answers[i := resp];
      sent := SendResponses();
    }

    method SendResponses() returns (sent: seq<Resp>)
      requires Inv(Value())
      modifies `responses, `lastWrittenId, `written
      ensures Inv(Value()) && written == old(written) + sent && |written| !in answers
    {
      sent := SendWhileReady();
      SentAllThatCanBeSent(Value());
    }

    method SendWhileReady() returns (sent: seq<Resp>)
      requires Inv(Value())
      modifies `responses, `lastWrittenId, `written
      ensures Inv(Value()) && written == old(written) + sent && Succ(lastWrittenId) !in responses
    {
      sent := [];
      while Succ(lastWrittenId) in responses
        invariant Inv(Value()) && written == old(written) + sent
        decreases |responses|
      {
        var resp := WriteNext();
        sent := sent + [resp];
      }
    }

    method WriteNext() returns (resp: Resp)
      requires Inv(Value()) && NextIsReady(Value())
      modifies `responses, `lastWrittenId, `written
      ensures Inv(Value()) && written == old(written) + [resp] && |responses| < |old(responses)|
    {
      BeginWriteInv(Value());
      EndWriteInv(BeginWrite(Value()));
      var id := Succ(lastWrittenId);
      resp := responses[id];
      responses := responses - {id};
      written := written + [resp];
      lastWrittenId := id;
      assert |responses| == |old(responses)| - 1 by { assert responses.Keys == old(responses).Keys - {id}; }
    }
  }

  // ---------------------------------------------------------------- end to end

  /** A client, a server and the two ordered byte streams between them.  A request is named
      by its number at the client; a promise by the request it was made for. */
  datatype System = System(
    sent: nat,
    promises: seq<nat>,
    toServer: seq<nat>,
    server: Server,
    toClient: seq<Resp>,
    fulfilled: seq<(nat, Resp)>)

  const NewSystem := System(0, [], [], NewServer, [], [])

  datatype Event =
    | Call                               // the client queues a promise and writes the request
    | Arrive                             // the server reads the next request
    | Answer(i: nat, resp: Resp)         // the service completes the i-th request it was given
    | StartWriting
    | FinishWriting
    | Deliver                            // the client reads the next response

  predicate Enabled(s: System, e: Event) {
    match e
    case Call => true
    case Arrive => s.toServer != [] && s.server.read - Done(s.server) < IDS
    case Answer(i, _) => i < s.server.read && i !in s.server.answers
    case StartWriting => !s.server.writing && NextIsReady(s.server)
    case FinishWriting => s.server.writing
    case Deliver => s.toClient != [] && s.promises != []
  }

  function Step(s: System, e: Event): System
    requires Enabled(s, e)
  {
    match e
    case Call => s.(sent := s.sent + 1, promises := s.promises + [s.sent], toServer := s.toServer + [s.sent])
    case Arrive => s.(toServer := s.toServer[1..], server := ReadRequest(s.server))
    case Answer(i, resp) => s.(server := Complete(s.server, i, resp))
    case StartWriting =>
      var server := BeginWrite(s.server);
      s.(server := server, toClient := s.toClient + [server.written[|server.written| - 1]])
    case FinishWriting => s.(server := EndWrite(s.server))
    case Deliver =>
      s.(toClient := s.toClient[1..], promises := s.promises[1..],
         fulfilled := s.fulfilled + [(s.promises[0], s.toClient[0])])
  }

  /** The numbers in a queue are consecutive, starting from `n`. */
  ghost predicate CountsFrom(q: seq<nat>, n: nat) {
    forall i :: 0 <= i < |q| ==> q[i] == n + i
  }

  ghost predicate SystemInv(s: System) {
    && Inv(s.server)
    && CountsFrom(s.toServer, s.server.read) && s.server.read + |s.toServer| == s.sent
    && CountsFrom(s.promises, |s.fulfilled|) && |s.fulfilled| + |s.promises| == s.sent
    && |s.fulfilled| <= |s.server.written| && s.toClient == s.server.written[|s.fulfilled|..]
    && (forall n :: 0 <= n < |s.fulfilled| ==> s.fulfilled[n] == (n, s.server.written[n]))
  }

  lemma SystemStep(s: System, e: Event)
    requires SystemInv(s) && Enabled(s, e)
    ensures SystemInv(Step(s, e))
  {
    match e
    case Call =>
    case Arrive => ReadInv(s.server);
    case Answer(i, resp) => CompleteInv(s.server, i, resp);
    case StartWriting => WritingStep(s);
    case FinishWriting => EndWriteInv(s.server);
    case Deliver => DeliverStep(s);
  }

  lemma WritingStep(s: System)
    requires SystemInv(s) && Enabled(s, StartWriting)
    ensures SystemInv(Step(s, StartWriting))
  {
    BeginWriteInv(s.server);
    var w, s' := s.server.written, Step(s, StartWriting);
    assert s'.server.written[|s.fulfilled|..] == w[|s.fulfilled|..] + [s'.server.written[|w|]];
    assert forall n :: 0 <= n < |s.fulfilled| ==> s'.server.written[n] == w[n];
  }

  lemma DeliverStep(s: System)
    requires SystemInv(s) && Enabled(s, Deliver)
    ensures SystemInv(Step(s, Deliver))
  {
    var s', f := Step(s, Deliver), |s.fulfilled|;
    assert s.toClient[0] == s.server.written[f] && s.promises[0] == f;
    assert s'.server == s.server;
    assert s'.toClient == s.server.written[f + 1..];
  }

  ghost predicate IsRun(states: seq<System>, es: seq<Event>) {
    && |states| == |es| + 1 && states[0] == NewSystem
    && (forall i :: 0 <= i < |es| ==> Enabled(states[i], es[i]) && states[i + 1] == Step(states[i], es[i]))
  }

  lemma {:induction false} SystemInvInEveryRun(states: seq<System>, es: seq<Event>, i: nat)
    requires IsRun(states, es) && i < |states|
    ensures SystemInv(states[i])
  {
    if i > 0 {
      SystemInvInEveryRun(states, es, i - 1);
      SystemStep(states[i - 1], es[i - 1]);
    } else {
      assert SystemInv(NewSystem);
    }
  }

  ghost predicate Answered(es: seq<Event>, i: nat, n: nat)
    requires i <= |es|
  {
    exists j :: 0 <= j < i && es[j].Answer? && es[j].i == n
  }

  /** What the service answered is what the events say it did. */
  lemma {:induction false} AnswersAreEvents(states: seq<System>, es: seq<Event>, i: nat, n: nat)
    requires IsRun(states, es) && i < |states|
    ensures n in states[i].server.answers <==> Answered(es, i, n)
    ensures forall j :: 0 <= j < i && es[j].Answer? && es[j].i == n ==>
              n in states[i].server.answers && states[i].server.answers[n] == es[j].resp
  {
    if i > 0 { AnswersAreEvents(states, es, i - 1, n); }
  }

  /** In every run, whatever the order in which the service answers and however often the
      ids wrap around, the n-th promise receives the answer to the n-th request, as the service
      gave it; and a response on the wire always finds a promise waiting. */
  lemma PromisesMatchRequests(states: seq<System>, es: seq<Event>, i: nat, n: nat)
    requires IsRun(states, es) && i < |states|
    ensures n < |states[i].fulfilled| ==>
              && n in states[i].server.answers && states[i].fulfilled[n] == (n, states[i].server.answers[n])
              && exists j :: 0 <= j < i && es[j] == Answer(n, states[i].fulfilled[n].1)
    ensures states[i].toClient != [] ==> states[i].promises != []
  {
    SystemInvInEveryRun(states, es, i);
    AnswersAreEvents(states, es, i, n);
  }

  /** The server is given the requests in the order in which the client sent them. */
  lemma RequestsArriveInOrder(states: seq<System>, es: seq<Event>, i: nat)
    requires IsRun(states, es) && i < |es| && es[i] == Arrive
    ensures states[i].toServer[0] == states[i].server.read && states[i + 1].server.read == states[i].server.read + 1
  {
    SystemInvInEveryRun(states, es, i);
  }

  /** Nothing is lost: when nothing is under way and every request was answered, every promise has
      been fulfilled. */
  lemma AllPromisesFulfilled(states: seq<System>, es: seq<Event>, i: nat)
    requires IsRun(states, es) && i < |states|
    requires var s := states[i];
             s.toServer == [] && s.toClient == [] && !s.server.writing && !NextIsReady(s.server)
    requires forall n: nat :: n < states[i].sent ==> Answered(es, i, n)
    ensures |states[i].fulfilled| == states[i].sent && states[i].promises == []
  {
    SystemInvInEveryRun(states, es, i);
    SentAllThatCanBeSent(states[i].server);
    AnswersAreEvents(states, es, i, |states[i].server.written|);
  }
}
