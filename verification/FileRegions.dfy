/** Sending part of a file through a pipe: a reader thread splices the file into the pipe
    and announces each piece on a queue, and the socket's thread splices the pipe into the
    socket. The kernel's splice is a parameter of each step. */
module FileRegions {
  import opened Bytes

  /** What a splice call reported. */
  datatype Spliced = Moved(bytes: nat) | Again | Failed

  /** `announcing` has been spliced into the pipe by a reader that has not queued it yet, and
      `lost` was never queued because queueing failed. The base class of write requests keeps
      its total in a counter whose modulus is a parameter here. */
  datatype State = State(
    started: bool,
    bytesToRead: nat,
    announcing: nat,
    lost: nat,
    queue: seq<nat>,
    bytesInPipe: nat,
    pipe: seq<Byte>,
    sent: seq<Byte>,
    failed: bool)

  datatype Request = Request(file: seq<Byte>, offset: nat, count: nat, modulus: nat)

  predicate ValidRequest(r: Request) {
    r.offset <= |r.file| && r.count < TWO_64 && r.modulus > 0
  }

  function Initial(r: Request): State {
    State(false, r.count, 0, 0, [], 0, [], [], false)
  }

  /** totalBytesWritten_. */
  function TotalBytesWritten(r: Request, s: State): nat
    requires r.modulus > 0
  {
    |s.sent| % r.modulus
  }

  predicate IsComplete(r: Request, s: State)
    requires r.modulus > 0
  {
    TotalBytesWritten(r, s) == r.count
  }

  function Sum(q: seq<nat>): nat {
    if q == [] then 0 else q[0] + Sum(q[1..])
  }

  // ---------------------------------------------------------------- steps

  /** The file position the reader has reached. */
  function Position(r: Request, s: State): int {
    r.offset + r.count - s.bytesToRead
  }

  /** The most that a splice from the file can move. */
  predicate CanRead(r: Request, s: State, n: nat) {
    n <= s.bytesToRead && 0 <= Position(r, s) && Position(r, s) + n <= |r.file|
  }

  function ReadFile(r: Request, s: State, n: nat): State
    requires CanRead(r, s, n)
  {
    var p := Position(r, s);
    s.(bytesToRead := s.bytesToRead - n, announcing := n, pipe := s.pipe + r.file[p..p + n])
  }

  function Announce(s: State, queued: bool): State {
    if s.announcing == 0 then s
    else if queued then s.(announcing := 0, queue := s.queue + [s.announcing])
    else s.(announcing := 0, lost := s.lost + s.announcing, failed := true)
  }

  function MessageAvailable(s: State, count: nat): State {
    s.(bytesInPipe := (s.bytesInPipe + count) % TWO_64)
  }

  function WriteSocket(s: State, n: nat): State
    requires n <= |s.pipe|
  {
    s.(bytesInPipe := (s.bytesInPipe - n) % TWO_64, pipe := s.pipe[n..], sent := s.sent + s.pipe[..n])
  }

  datatype Event =
    | Start
    | Read(result: Spliced)
    | Queue(queued: bool)
    | Deliver
    | Write(result: Spliced)

  predicate Enabled(r: Request, s: State, e: Event) {
    match e
    case Start => !s.started
    case Read(Moved(n)) => s.started && s.announcing == 0 && CanRead(r, s, n)
    case Read(_) => s.started && s.announcing == 0
    case Queue(_) => s.announcing > 0
    case Deliver => s.queue != []
    case Write(Moved(n)) => s.started && n <= s.bytesInPipe && n <= |s.pipe|
    case Write(_) => s.started
  }

  function Step(r: Request, s: State, e: Event): State
    requires Enabled(r, s, e)
  {
    match e
    case Start => s.(started := true)
    case Read(Moved(n)) => ReadFile(r, s, n)
    case Read(Again) => s
    case Read(Failed) => s.(failed := true)
    case Queue(queued) => Announce(s, queued)
    case Deliver => MessageAvailable(s.(queue := s.queue[1..]), s.queue[0])
    case Write(Moved(n)) => WriteSocket(s, n)
    case Write(Again) => s
    case Write(Failed) => s.(failed := true)
  }

  ghost predicate IsRun(r: Request, states: seq<State>, es: seq<Event>) {
    && |states| == |es| + 1
    && states[0] == Initial(r)
    && forall i :: 0 <= i < |es| ==> Enabled(r, states[i], es[i]) && states[i + 1] == Step(r, states[i], es[i])
  }

  // ---------------------------------------------------------------- the request

  class FileWriteRequest {
    const request: Request
    var started: bool
    var bytesToRead: nat
    var queue: seq<nat>
    var bytesInPipe: nat
    var pipe: seq<Byte>
    var sent: seq<Byte>
    var failed: bool
    var lost: nat

    ghost function Value(): State
      reads this
    {
      State(started, bytesToRead, 0, lost, queue, bytesInPipe, pipe, sent, failed)
    }

    constructor (r: Request)
      ensures request == r && Value() == Initial(r)
    {
      request := r;
      started, bytesToRead, queue, bytesInPipe := false, r.count, [], 0;
      pipe, sent, failed, lost := [], [], false, 0;
    }

    /** Returns the bytes written, or -1. */
    method PerformWrite(result: Spliced) returns (written: int)
      requires result.Moved? ==> result.bytes <= bytesInPipe && result.bytes <= |pipe|
      modifies this
      ensures old(started) ==> Value() == Step(request, old(Value()), Write(result))
      ensures !old(started) ==> Value() == Step(request, old(Value()), Start) && written == 0
      ensures old(started) ==> written == (match result case Moved(n) => n case Again => 0 case Failed => -1)
    {
      if !started {
        started := true;
        return 0;
      }
      match result
      case Failed =>
        failed := true;
        return -1;
      case Again =>
        return 0;
      case Moved(n) =>
        bytesInPipe := (bytesInPipe - n) % TWO_64;
        sent, pipe := sent + pipe[..n], pipe[n..];
        return n;
    }

    /** Takes the first announcement; returns whether the socket is told to write. */
    method OnMessage() returns (ready: bool)
      requires queue != []
      modifies this
      ensures Value() == Step(request, old(Value()), Deliver)
      ensures ready == (old(bytesInPipe) == 0)
    {
      var count := queue[0];
      queue := queue[1..];
      ready := bytesInPipe == 0;
      bytesInPipe := (bytesInPipe + count) % TWO_64;
    }

    /** Returns whether the reader stays registered. */
    method HandlerReady(result: Spliced, queued: bool) returns (more: bool)
      requires started && (result.Moved? ==> CanRead(request, Value(), result.bytes))
      modifies this
      ensures more == (old(bytesToRead) > 0)
      ensures Value() == (if !more then old(Value())
                          else Announce(Step(request, old(Value()), Read(result)), queued))
    {
      if bytesToRead == 0 { return false; }
      more := true;
      match result
      case Again =>
      case Failed =>
        failed := true;
      case Moved(n) =>
        if n > 0 {
          var p := request.offset + request.count - bytesToRead;
          pipe := pipe + request.file[p..p + n];
          bytesToRead := bytesToRead - n;
          if queued {
            queue := queue + [n];
          } else {
            lost, failed := lost + n, true;
          }
        }
    }
  }

  // ---------------------------------------------------------------- conservation

  /** Every byte of the request is in exactly one place. */
  predicate Conserved(r: Request, s: State) {
    s.bytesToRead + s.announcing + s.lost + Sum(s.queue) + s.bytesInPipe + |s.sent| == r.count
  }

  /** The pipe holds what has been announced and what has not. */
  predicate PipeAccounted(s: State) {
    s.bytesInPipe + Sum(s.queue) + s.announcing + s.lost == |s.pipe|
  }

  /** What left the file is what was sent followed by what is in the pipe. */
  predicate InOrder(r: Request, s: State) {
    && s.bytesToRead <= r.count && Position(r, s) <= |r.file|
    && s.sent + s.pipe == r.file[r.offset..Position(r, s)]
  }

  predicate Inv(r: Request, s: State) {
    Conserved(r, s) && PipeAccounted(s) && InOrder(r, s)
  }

  lemma {:induction false} SumAppend(q: seq<nat>, n: nat)
    ensures Sum(q + [n]) == Sum(q) + n
  {
    if q != [] {
      assert (q + [n])[1..] == q[1..] + [n];
      SumAppend(q[1..], n);
    }
  }

  lemma ReadInv(r: Request, s: State, n: nat)
    requires ValidRequest(r) && Inv(r, s) && s.announcing == 0 && CanRead(r, s, n)
    ensures Inv(r, ReadFile(r, s, n))
  {
    var p, t := Position(r, s), ReadFile(r, s, n);
    assert r.file[r.offset..p + n] == r.file[r.offset..p] + r.file[p..p + n];
    assert t.sent + t.pipe == (s.sent + s.pipe) + r.file[p..p + n];
  }

  lemma WriteInv(r: Request, s: State, n: nat)
    requires ValidRequest(r) && Inv(r, s) && n <= s.bytesInPipe && n <= |s.pipe|
    ensures Inv(r, WriteSocket(s, n))
  {
    assert s.pipe == s.pipe[..n] + s.pipe[n..];
    assert (s.sent + s.pipe[..n]) + s.pipe[n..] == s.sent + s.pipe;
  }

  lemma InvStep(r: Request, s: State, e: Event)
    requires ValidRequest(r) && Inv(r, s) && Enabled(r, s, e)
    ensures Inv(r, Step(r, s, e))
  {
    match e
    case Read(Moved(n)) => ReadInv(r, s, n);
    case Queue(_) => SumAppend(s.queue, s.announcing);
    case Write(Moved(n)) => WriteInv(r, s, n);
    case _ =>
  }

  lemma {:induction false} InvInEveryRun(r: Request, states: seq<State>, es: seq<Event>, k: nat)
    requires ValidRequest(r) && IsRun(r, states, es) && k < |states|
    ensures Inv(r, states[k])
  {
    if k > 0 {
      InvInEveryRun(r, states, es, k - 1);
      InvStep(r, states[k - 1], es[k - 1]);
    }
  }

  // ---------------------------------------------------------------- main results

  /** In every interleaving the bytes add up, the socket thread never believes in more than
      the pipe holds, and the counter never wraps. */
  lemma ByteConservation(r: Request, states: seq<State>, es: seq<Event>, k: nat)
    requires ValidRequest(r) && IsRun(r, states, es) && k < |states|
    ensures var s := states[k];
            && s.bytesToRead + s.announcing + s.lost + Sum(s.queue) + s.bytesInPipe + |s.sent| == r.count
            && s.bytesInPipe <= |s.pipe|
    ensures k < |es| && es[k] == Deliver ==>
              states[k + 1].bytesInPipe == states[k].bytesInPipe + states[k].queue[0]
    ensures k < |es| && es[k].Write? && es[k].result.Moved? ==>
              states[k + 1].bytesInPipe == states[k].bytesInPipe - es[k].result.bytes
  {
    InvInEveryRun(r, states, es, k);
  }

  /** A request that says it is complete has sent exactly the requested region, and nothing
      is left anywhere. */
  lemma CompleteMeansSent(r: Request, states: seq<State>, es: seq<Event>, k: nat)
    requires ValidRequest(r) && IsRun(r, states, es) && k < |states| && IsComplete(r, states[k])
    ensures var s := states[k];
            && s.bytesToRead == 0 && s.announcing == 0 && s.lost == 0
            && Sum(s.queue) == 0 && s.bytesInPipe == 0 && s.pipe == []
            && r.offset + r.count <= |r.file| && s.sent == r.file[r.offset..r.offset + r.count]
  {
    InvInEveryRun(r, states, es, k);
    ModAtMost(|states[k].sent|, r.modulus);
  }

  lemma ModAtMost(a: nat, m: nat)
    requires m > 0
    ensures a % m <= a
    ensures a % m == a <==> a < m
  {
    if a >= m {
      assert a % m < m;
    }
  }

  /** A request says it is complete exactly if everything has been sent and the counter can
      hold the size of the region. */
  lemma CompleteIff(r: Request, states: seq<State>, es: seq<Event>, k: nat)
    requires ValidRequest(r) && IsRun(r, states, es) && k < |states|
    ensures IsComplete(r, states[k]) <==> |states[k].sent| == r.count && r.count < r.modulus
  {
    InvInEveryRun(r, states, es, k);
    ModAtMost(|states[k].sent|, r.modulus);
  }

  /** The events that make a request fail. */
  predicate Fails(e: Event) {
    e == Read(Failed) || e == Write(Failed) || e == Queue(false)
  }

  /** A request has failed exactly if the kernel or the queue has, and it has lost bytes only by
      the queue. */
  lemma {:induction false} FailedIff(r: Request, states: seq<State>, es: seq<Event>, k: nat)
    requires IsRun(r, states, es) && k < |states|
    ensures states[k].failed <==> exists i :: 0 <= i < k && Fails(es[i])
    ensures states[k].lost > 0 <==> exists i :: 0 <= i < k && es[i] == Queue(false)
  {
    if k > 0 {
      FailedIff(r, states, es, k - 1);
      if i :| 0 <= i < k - 1 && Fails(es[i]) { assert Fails(es[i]); }
      if i :| 0 <= i < k - 1 && es[i] == Queue(false) { assert es[i] == Queue(false); }
    }
  }

  /** Announced pieces are never empty, so the socket is asked to write exactly when what it can
      write goes from nothing to something. */
  lemma {:induction false} PiecesArePositive(r: Request, states: seq<State>, es: seq<Event>, k: nat)
    requires ValidRequest(r) && IsRun(r, states, es) && k < |states|
    ensures forall i :: 0 <= i < |states[k].queue| ==> states[k].queue[i] > 0
    ensures k < |es| && es[k] == Deliver ==> states[k + 1].bytesInPipe > 0
  {
    if k > 0 { PiecesArePositive(r, states, es, k - 1); }
    InvInEveryRun(r, states, es, k);
    if k < |es| { InvInEveryRun(r, states, es, k + 1); }
  }

  /** A request that is not: two bytes, with a counter that goes up to one. */
  lemma SentButNotComplete() returns (r: Request, states: seq<State>, es: seq<Event>)
    ensures r == Request([7, 7], 0, 2, 2) && IsRun(r, states, es)
    ensures es == [Start, Read(Moved(2)), Queue(true), Deliver, Write(Moved(2))]
    ensures states[5].sent == [7, 7] && !IsComplete(r, states[5])
  {
    r := Request([7, 7], 0, 2, 2);
    es := [Start, Read(Moved(2)), Queue(true), Deliver, Write(Moved(2))];
    var s1 := Step(r, Initial(r), es[0]);
    var s2 := Step(r, s1, es[1]);
    assert s2.pipe == [7, 7];
    var s3 := Step(r, s2, es[2]);
    var s4 := Step(r, s3, es[3]);
    var s5 := Step(r, s4, es[4]);
    assert s5.sent == [7, 7];
    states := [Initial(r), s1, s2, s3, s4, s5];
  }
}
