/** The fixed-length decoder, and the line decoder in newline mode. */
module LineCodec {
  import opened Bytes
  import opened StreamDecoding

  // ---------------------------------------------------------------- fixed length

  function FixedLength(length: nat): Decoder {
    b => if |b| < length then NeedMore else Frame(b[..length], b[length..])
  }

  /** The frames are the consecutive pieces of `length` bytes. */
  function Pieces(length: nat, stream: seq<Byte>): Output
    requires length > 0
    decreases |stream|
  {
    if |stream| < length then Output([], stream)
    else Prepend([stream[..length]], Pieces(length, stream[length..]))
  }

  /** They make up the stream, but for less than one more. */
  lemma {:induction false} PiecesRejoin(length: nat, stream: seq<Byte>)
    requires length > 0
    ensures MakesUpPieces(length, Pieces(length, stream), stream)
    decreases |stream|
  {
    if |stream| >= length {
      PiecesRejoin(length, stream[length..]);
      assert stream == stream[..length] + stream[length..];
      OneMorePiece(length, stream[..length], Pieces(length, stream[length..]), stream[length..]);
    }
  }

  ghost predicate MakesUpPieces(length: nat, o: Output, stream: seq<Byte>) {
    && Concat(o.frames) + o.queue == stream && |o.queue| < length
    && forall i :: 0 <= i < |o.frames| ==> |o.frames[i]| == length
  }

  lemma OneMorePiece(length: nat, piece: seq<Byte>, o: Output, tail: seq<Byte>)
    requires |piece| == length && MakesUpPieces(length, o, tail)
    ensures MakesUpPieces(length, Prepend([piece], o), piece + tail)
  {
    var o' := Prepend([piece], o);
    assert o'.frames[1..] == o.frames;
    assert Concat(o'.frames) == piece + Concat(o.frames);
    assert (piece + Concat(o.frames)) + o.queue == piece + (Concat(o.frames) + o.queue);
    forall i | 0 < i < |o'.frames| ensures o'.frames[i] == o.frames[i - 1] {}
  }

  lemma {:induction false} ReadPieces(length: nat, stream: seq<Byte>)
    requires length > 0
    ensures Read(FixedLength(length), stream) == Pieces(length, stream)
    ensures Clean(FixedLength(length), stream)
    decreases |stream|
  {
    if |stream| >= length { ReadPieces(length, stream[length..]); }
  }

  lemma FixedLengthIsStable(length: nat)
    requires length > 0
    ensures Stable(FixedLength(length)) && Consumes(FixedLength(length))
  {
    var decode := FixedLength(length);
    forall b: seq<Byte>, more: seq<Byte> | decode(b).Frame?
      ensures decode(b + more) == Frame(decode(b).frame, decode(b).rest + more)
    {
      assert (b + more)[..length] == b[..length] && (b + more)[length..] == b[length..] + more;
    }
  }

  /** Whatever the chunks, the stream is cut into pieces of the given positive length. */
  lemma FixedLengthFrames(length: nat, chunks: seq<seq<Byte>>)
    requires length > 0
    ensures Feed(FixedLength(length), [], chunks) == Pieces(length, Concat(chunks))
  {
    FixedLengthIsStable(length);
    ReadPieces(length, Concat(chunks));
    assert [] + Concat(chunks) == Concat(chunks);
    ChunkIndependence(FixedLength(length), [], chunks);
  }

  // ---------------------------------------------------------------- lines

  const NEWLINE: Byte := 10

  /** The first newline among the first `limit` bytes, or -1. */
  function EndOfLine(b: seq<Byte>, limit: nat): (eol: int)
    ensures -1 <= eol < |b| && eol < limit
    ensures eol >= 0 ==> b[eol] == NEWLINE && forall k :: 0 <= k < eol ==> b[k] != NEWLINE
    ensures eol < 0 ==> forall k :: 0 <= k < |b| && k < limit ==> b[k] != NEWLINE
  {
    if b == [] || limit == 0 then -1
    else if b[0] == NEWLINE then 0
    else
      var e := EndOfLine(b[1..], limit - 1);
      if e < 0 then -1 else e + 1
  }

  /** The scanning loop. */
  method FindEndOfLine(b: seq<Byte>, maxLength: nat) returns (eol: int)
    ensures eol == EndOfLine(b, maxLength)
  {
    var i := 0;
    while i < maxLength && i < |b|
      invariant 0 <= i <= |b| && i <= maxLength
      invariant forall k :: 0 <= k < i ==> b[k] != NEWLINE
    {
      if b[i] == NEWLINE {
        FirstNewline(b, maxLength, i);
        return i;
      }
      i := i + 1;
    }
    eol := -1;
  }

  /** The decoder while it is not discarding.  An overlong line is a fault that drops
      everything queued. */
  function Line(maxLength: nat, strip: bool): Decoder {
    b =>
      var eol := EndOfLine(b, maxLength);
      if eol >= 0 then Frame(if strip then b[..eol] else b[..eol + 1], b[eol + 1..])
      else if |b| > maxLength then Fault([])
      else NeedMore
  }

  /** The stream split at its newlines; the leftover is the unterminated last line. */
  function Lines(strip: bool, stream: seq<Byte>): Output
    decreases |stream|
  {
    var eol := EndOfLine(stream, |stream|);
    if eol < 0 then Output([], stream)
    else Prepend([if strip then stream[..eol] else stream[..eol + 1]], Lines(strip, stream[eol + 1..]))
  }

  /** The lines with their delimiters put back. */
  function Rejoined(strip: bool, lines: seq<seq<Byte>>): seq<Byte> {
    if lines == [] then [] else lines[0] + (if strip then [NEWLINE] else []) + Rejoined(strip, lines[1..])
  }

  /** A line ends with its only newline, and without its delimiter has none. */
  predicate IsLine(strip: bool, line: seq<Byte>) {
    if strip then NEWLINE !in line
    else line != [] && line[|line| - 1] == NEWLINE && NEWLINE !in line[..|line| - 1]
  }

  /** `o` is the stream cut into lines, and a leftover without a newline. */
  ghost predicate MakesUp(strip: bool, o: Output, stream: seq<Byte>) {
    && Rejoined(strip, o.frames) + o.queue == stream && NEWLINE !in o.queue
    && forall i :: 0 <= i < |o.frames| ==> IsLine(strip, o.frames[i])
  }

  lemma OneMoreLine(strip: bool, line: seq<Byte>, o: Output, tail: seq<Byte>)
    requires MakesUp(strip, o, tail) && IsLine(strip, line)
    ensures MakesUp(strip, Prepend([line], o), line + (if strip then [NEWLINE] else []) + tail)
  {
    RejoinedPrepend(strip, line, o.frames);
    var o' := Prepend([line], o);
    forall i | 0 < i < |o'.frames| ensures o'.frames[i] == o.frames[i - 1] {}
  }

  lemma {:induction false} LinesRejoin(strip: bool, stream: seq<Byte>)
    ensures MakesUp(strip, Lines(strip, stream), stream)
    decreases |stream|
  {
    var eol := EndOfLine(stream, |stream|);
    if eol >= 0 {
      var line, tail := if strip then stream[..eol] else stream[..eol + 1], stream[eol + 1..];
      LinesRejoin(strip, tail);
      FirstLine(strip, stream, eol);
      OneMoreLine(strip, line, Lines(strip, tail), tail);
      assert stream == stream[..eol + 1] + tail;
    }
  }

  lemma FirstLine(strip: bool, stream: seq<Byte>, eol: nat)
    requires eol < |stream| && stream[eol] == NEWLINE && forall k :: 0 <= k < eol ==> stream[k] != NEWLINE
    ensures var line := if strip then stream[..eol] else stream[..eol + 1];
            IsLine(strip, line) && line + (if strip then [NEWLINE] else []) == stream[..eol + 1]
  {}

  lemma RejoinedPrepend(strip: bool, line: seq<Byte>, lines: seq<seq<Byte>>)
    ensures Rejoined(strip, [line] + lines) == line + (if strip then [NEWLINE] else []) + Rejoined(strip, lines)
  {
    assert ([line] + lines)[1..] == lines;
  }

  /** Every terminated line is shorter than the maximum, and the last, unterminated one no
      longer than it. */
  ghost predicate ShortLines(maxLength: nat, stream: seq<Byte>)
    decreases |stream|
  {
    var eol := EndOfLine(stream, |stream|);
    if eol < 0 then |stream| <= maxLength
    else eol < maxLength && ShortLines(maxLength, stream[eol + 1..])
  }

  /** The first newline of `b` is the one found, if it lies within the limit. */
  lemma FirstNewline(b: seq<Byte>, limit: nat, i: nat)
    requires i < |b| && b[i] == NEWLINE && forall k :: 0 <= k < i ==> b[k] != NEWLINE
    ensures EndOfLine(b, limit) == if i < limit then i else -1
  {
    var e := EndOfLine(b, limit);
    assert e < 0 || b[e] == NEWLINE;
  }

  lemma LineIsStable(maxLength: nat, strip: bool)
    ensures Stable(Line(maxLength, strip)) && Consumes(Line(maxLength, strip))
  {
    var decode := Line(maxLength, strip);
    forall b: seq<Byte>, more: seq<Byte> | decode(b).Frame?
      ensures decode(b + more) == Frame(decode(b).frame, decode(b).rest + more)
    {
      var e := EndOfLine(b, maxLength);
      assert (b + more)[..e] == b[..e] && (b + more)[..e + 1] == b[..e + 1];
      assert (b + more)[e + 1..] == b[e + 1..] + more;
      FirstNewline(b + more, maxLength, e);
    }
  }

  lemma PrefixEndOfLine(stream: seq<Byte>, limit: nat, k: nat)
    requires k <= |stream|
    ensures var e := EndOfLine(stream, |stream|);
            EndOfLine(stream[..k], limit) == if 0 <= e < k && e < limit then e else -1
  {
    var e, b := EndOfLine(stream, |stream|), stream[..k];
    if 0 <= e < k {
      FirstNewline(b, limit, e);
    } else {
      forall j | 0 <= j < k ensures b[j] != NEWLINE {}
    }
  }

  /** The decoder at a prefix of a stream whose first line ends at `e`. */
  lemma LinePrefix(maxLength: nat, strip: bool, stream: seq<Byte>, k: nat)
    requires k <= |stream|
    ensures var e := EndOfLine(stream, |stream|);
            Line(maxLength, strip)(stream[..k]).Fault? <==>
              if 0 <= e < k then maxLength <= e else maxLength < k
  {
    PrefixEndOfLine(stream, maxLength, k);
  }

  lemma LineFaultlessIff(maxLength: nat, strip: bool, stream: seq<Byte>)
    ensures var e := EndOfLine(stream, |stream|);
            Faultless(Line(maxLength, strip), stream) <==> if e < 0 then |stream| <= maxLength else e < maxLength
  {
    var decode, e, n := Line(maxLength, strip), EndOfLine(stream, |stream|), |stream|;
    forall k | 0 <= k <= n
      ensures decode(stream[..k]).Fault? <==> if 0 <= e < k then maxLength <= e else maxLength < k
    {
      LinePrefix(maxLength, strip, stream, k);
    }
    assert decode(stream[..if e < 0 then n else e + 1]).Fault? || (if e < 0 then n <= maxLength else e < maxLength);
  }

  /** The line decoder never faults on a stream exactly when its lines are short; then it
      emits the lines. */
  lemma {:induction false} ReadLinesIff(maxLength: nat, strip: bool, stream: seq<Byte>)
    ensures Clean(Line(maxLength, strip), stream) <==> ShortLines(maxLength, stream)
    ensures ShortLines(maxLength, stream) ==> Read(Line(maxLength, strip), stream) == Lines(strip, stream)
    decreases |stream|
  {
    var e := EndOfLine(stream, |stream|);
    LineFaultlessIff(maxLength, strip, stream);
    if 0 <= e < maxLength {
      FirstNewline(stream, maxLength, e);
      ReadLinesIff(maxLength, strip, stream[e + 1..]);
    }
  }

  /** A line of exactly the maximum length: one byte and its newline, with room for one byte. */
  lemma LineOfMaximumLengthIsRefused(strip: bool)
    ensures Line(1, strip)([65, 10]) == Fault([]) && Lines(strip, [65, 10]).frames != []
  {
    FirstNewline([65, 10], 2, 1);
  }

  /** On short lines the frames are the lines of the stream, whatever the chunks. */
  lemma LineFrames(maxLength: nat, strip: bool, chunks: seq<seq<Byte>>)
    requires ShortLines(maxLength, Concat(chunks))
    ensures Feed(Line(maxLength, strip), [], chunks) == Lines(strip, Concat(chunks))
  {
    LineIsStable(maxLength, strip);
    ReadLinesIff(maxLength, strip, Concat(chunks));
    assert [] + Concat(chunks) == Concat(chunks);
    ChunkIndependence(Line(maxLength, strip), [], chunks);
  }

  /** The decoder on the queue in place, with its discarding mode.  (Its check for a line end
      beyond the maximum never succeeds: the scan stops before.) */
  class LineBasedFrameDecoder {
    const maxLength: nat
    const stripDelimiter: bool
    var discarding: bool
    var discardedBytes: nat

    constructor (maxLength: nat, stripDelimiter: bool)
      ensures !discarding && this.maxLength == maxLength && this.stripDelimiter == stripDelimiter
    {
      this.maxLength, this.stripDelimiter := maxLength, stripDelimiter;
      discarding, discardedBytes := false, 0;
    }

    /** Removes the line that ends at `eol`, and returns it with its delimiter or without. */
    method TakeLine(q: IOBufQueue, eol: nat) returns (line: seq<Byte>)
      requires eol < |q.data|
      modifies q
      ensures line == old(q.data)[..if stripDelimiter then eol else eol + 1]
      ensures q.data == old(q.data)[eol + 1..]
    {
      if stripDelimiter {
        line := q.Split(eol);
        q.TrimStart(1);
      } else {
        line := q.Split(eol + 1);
      }
    }

    /** A line end found at `eol`, or none if negative, while not discarding. */
    method DecodeLine(q: IOBufQueue, eol: int) returns (success: bool, result: seq<Byte>)
      requires eol < |q.data|
      modifies this, q
      ensures discarding <==> (if eol >= 0 then old(discarding) else |old(q.data)| > maxLength || old(discarding))
      ensures success <==> eol >= 0
      ensures eol >= 0 ==> result == old(q.data)[..if stripDelimiter then eol else eol + 1]
      ensures eol >= 0 ==> q.data == old(q.data)[eol + 1..]
      ensures eol < 0 ==> q.data == if |old(q.data)| > maxLength then [] else old(q.data)
    {
      success, result := eol >= 0, [];
      if eol >= 0 {
        result := TakeLine(q, eol);
      } else if |q.data| > maxLength {
        discardedBytes := |q.data|;
        q.TrimStart(|q.data|);
        discarding := true;
      }
    }

    method Discard(q: IOBufQueue, eol: int)
      requires eol < |q.data| && discarding
      modifies this, q
      ensures discarding <==> eol < 0
      ensures q.data == if eol < 0 then [] else old(q.data)[eol + 1..]
    {
      if eol >= 0 {
        q.TrimStart(eol + 1);
        discardedBytes, discarding := 0, false;
      } else {
        discardedBytes := |q.data|;
        q.TrimStart(|q.data|);
      }
    }

    method Decode(q: IOBufQueue) returns (success: bool, result: seq<Byte>)
      modifies this, q
      ensures !old(discarding) ==>
                match Line(maxLength, stripDelimiter)(old(q.data))
                case NeedMore => !success && q.data == old(q.data) && !discarding
                case Fault(rest) => !success && q.data == rest && discarding
                case Frame(frame, rest) => success && result == frame && q.data == rest && !discarding
      // while discarding, everything up to and including the next line end goes
      ensures old(discarding) ==>
                var eol := EndOfLine(old(q.data), maxLength);
                && !success && (discarding <==> eol < 0)
                && q.data == if eol < 0 then [] else old(q.data)[eol + 1..]
    {
      var eol := FindEndOfLine(q.data, maxLength);
      if !discarding {
        success, result := DecodeLine(q, eol);
      } else {
        Discard(q, eol);
        success, result := false, [];
      }
    }
  }
}
