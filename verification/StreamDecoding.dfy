/** The stream decoding loop of ByteToMessageDecoder over any frame decoder, and when the
    frames it emits do not depend on how the stream was cut into reads. */
module StreamDecoding {
  import opened Bytes

  /** One call of `decode` on the queued bytes.  `Fault` is a call that reported an error,
      after consuming all but `rest`. */
  datatype Decoded =
    | NeedMore
    | Frame(frame: seq<Byte>, rest: seq<Byte>)
    | Fault(rest: seq<Byte>)

  type Decoder = seq<Byte> -> Decoded

  /** Every success takes at least one byte off the queue. */
  ghost predicate Consumes(decode: Decoder) {
    forall b :: decode(b).Frame? ==> |decode(b).rest| < |b|
  }

  /** A complete frame is recognised whatever follows it. */
  ghost predicate Stable(decode: Decoder) {
    forall b, more :: decode(b).Frame? ==> decode(b + more) == Frame(decode(b).frame, decode(b).rest + more)
  }

  /** The frames a read emits and the bytes it leaves on the queue. */
  datatype Output = Output(frames: seq<seq<Byte>>, queue: seq<Byte>)

  function Prepend(frames: seq<seq<Byte>>, o: Output): Output {
    Output(frames + o.frames, o.queue)
  }

  function Read(decode: Decoder, queue: seq<Byte>): Output
    decreases |queue|
  {
    match decode(queue)
    case NeedMore => Output([], queue)
    case Fault(rest) => Output([], rest)
    case Frame(frame, rest) =>
      if |rest| < |queue| then Prepend([frame], Read(decode, rest)) else Output([], queue)
  }

  /** The do/while loop, on a queue updated in place. */
  class IOBufQueue {
    var data: seq<Byte>

    constructor (data: seq<Byte>)
      ensures this.data == data
    {
      this.data := data;
    }

    method TrimStart(n: nat)
      requires n <= |data|
      modifies this
      ensures data == old(data)[n..]
    {
      data := data[n..];
    }

    method TrimStartAtMost(n: nat)
      modifies this
      ensures data == if n <= |old(data)| then old(data)[n..] else []
    {
      data := if n <= |data| then data[n..] else [];
    }

    method Split(n: nat) returns (front: seq<Byte>)
      requires n <= |data|
      modifies this
      ensures front + data == old(data) && |front| == n
    {
      front := data[..n];
      data := data[n..];
    }
  }

  method ReadLoop(decode: Decoder, q: IOBufQueue) returns (fired: seq<seq<Byte>>)
    requires Consumes(decode)
    modifies q
    ensures Output(fired, q.data) == Read(decode, old(q.data))
  {
    fired := [];
    var success := true;
    ghost var goal := Read(decode, q.data);
    while success
      invariant success ==> Prepend(fired, Read(decode, q.data)) == goal
      invariant !success ==> Output(fired, q.data) == goal
      decreases success, |q.data|
    {
      match decode(q.data)
      case NeedMore => success := false;
      case Fault(rest) =>
        q.data := rest;
        success := false;
      case Frame(frame, rest) =>
        q.data := rest;
        fired := fired + [frame];
    }
  }

  function Concat(chunks: seq<seq<Byte>>): seq<Byte> {
    if chunks == [] then [] else chunks[0] + Concat(chunks[1..])
  }

  /** The chunks arrive one by one, each triggering a read of what is queued by then. */
  function Feed(decode: Decoder, queue: seq<Byte>, chunks: seq<seq<Byte>>): Output
    decreases |chunks|
  {
    if chunks == [] then Output([], queue)
    else
      var o := Read(decode, queue + chunks[0]);
      Prepend(o.frames, Feed(decode, o.queue, chunks[1..]))
  }

  /** No prefix of the stream is reported as faulty. */
  ghost predicate Faultless(decode: Decoder, stream: seq<Byte>) {
    forall k :: 0 <= k <= |stream| ==> !decode(stream[..k]).Fault?
  }

  /** No prefix of the stream, from any frame boundary on, is reported as faulty. */
  ghost predicate Clean(decode: Decoder, stream: seq<Byte>)
    decreases |stream|
  {
    && Faultless(decode, stream)
    && (decode(stream).Frame? && |decode(stream).rest| < |stream| ==> Clean(decode, decode(stream).rest))
  }

  lemma CleanFrame(decode: Decoder, stream: seq<Byte>)
    requires decode(stream).Frame? && |decode(stream).rest| < |stream|
    requires Faultless(decode, stream) && Clean(decode, decode(stream).rest)
    ensures Clean(decode, stream)
    ensures Read(decode, stream) == Prepend([decode(stream).frame], Read(decode, decode(stream).rest))
  {}

  /** Reading a clean front piece stops only for want of bytes, and reading more of the
      stream goes on from there. */
  lemma {:induction false} ReadInTwo(decode: Decoder, a: seq<Byte>, b: seq<Byte>)
    requires Consumes(decode) && Stable(decode) && Clean(decode, a + b)
    ensures var o := Read(decode, a);
            && decode(o.queue).NeedMore?
            && Clean(decode, o.queue + b)
            && Read(decode, a + b) == Prepend(o.frames, Read(decode, o.queue + b))
    decreases |a|
  {
    assert (a + b)[..|a|] == a;
    if decode(a).Frame? {
      var rest := decode(a).rest;
      assert decode(a + b).rest == rest + b;
      ReadInTwo(decode, rest, b);
      var o := Read(decode, rest);
      assert [decode(a).frame] + (o.frames + Read(decode, o.queue + b).frames)
          == ([decode(a).frame] + o.frames) + Read(decode, o.queue + b).frames;
    }
  }

  /** On a clean stream the frames and the leftover depend only on the bytes, not on how
      they were cut into reads. */
  lemma {:induction false} ChunkIndependence(decode: Decoder, queue: seq<Byte>, chunks: seq<seq<Byte>>)
    requires Consumes(decode) && Stable(decode)
    requires decode(queue).NeedMore? && Clean(decode, queue + Concat(chunks))
    ensures Feed(decode, queue, chunks) == Read(decode, queue + Concat(chunks))
    decreases |chunks|
  {
    if chunks == [] {
      assert queue + Concat(chunks) == queue;
    } else {
      var a, b := queue + chunks[0], Concat(chunks[1..]);
      assert a + b == queue + Concat(chunks);
      ReadInTwo(decode, a, b);
      ChunkIndependence(decode, Read(decode, a).queue, chunks[1..]);
    }
  }
}
