/** The length-field prepender and the length-field based frame decoder. */
module LengthFieldCodec {
  import opened Bytes
  import opened StreamDecoding

  predicate ValidWidth(w: int) {
    w == 1 || w == 2 || w == 4 || w == 8
  }

  // ---------------------------------------------------------------- encoding

  datatype Prepender = Prepender(width: nat, adjustment: int, includesField: bool, bigEndian: bool)

  ghost predicate ValidPrepender(p: Prepender) {
    ValidWidth(p.width) && -TWO_31 <= p.adjustment < TWO_31
  }

  datatype Written = Wrote(bytes: seq<Byte>) | Refused

  /** The length the prepender computes: a size_t sum truncated to int, then an int sum
      (taken to wrap, though the language leaves its overflow undefined). */
  function ComputedLength(p: Prepender, size: nat): int {
    var length := ToInt32(ToUint64(p.adjustment + size));
    if p.includesField then ToInt32(length + p.width) else length
  }

  /** The length the wire format asks for. */
  function TrueLength(p: Prepender, size: nat): int {
    p.adjustment + size + if p.includesField then p.width else 0
  }

  function Write(p: Prepender, message: seq<Byte>): Written {
    var length := ComputedLength(p, |message|);
    if length < 0 then Refused
    else if p.width == 1 && length >= 256 then Refused
    else if p.width == 2 && length >= 65536 then Refused
    else Wrote(WriteUint(length, p.width, p.bigEndian) + message)
  }

  /** What the prepender lets through: below 2^31, and within a narrow field. */
  function Limit(width: nat): nat {
    if width == 1 then 256 else if width == 2 then 65536 else TWO_31
  }

  predicate Fits(p: Prepender, size: nat) {
    0 <= TrueLength(p, size) < Limit(p.width)
  }

  /** What was written carries the true length in its length field and the message after it. */
  predicate Faithful(p: Prepender, message: seq<Byte>, w: Written) {
    && w.Wrote? && |w.bytes| == p.width + |message|
    && ReadUint(w.bytes[..p.width], p.bigEndian) == TrueLength(p, |message|)
    && w.bytes[p.width..] == message
  }

  lemma WriteAnatomy(p: Prepender, message: seq<Byte>)
    requires ValidPrepender(p) && Write(p, message).Wrote?
    ensures var w := Write(p, message).bytes;
            && |w| == p.width + |message| && w[p.width..] == message
            && w[..p.width] == WriteUint(ComputedLength(p, |message|), p.width, p.bigEndian)
            && ReadUint(w[..p.width], p.bigEndian) == ComputedLength(p, |message|)
  {
    Capacities();
    UintRoundTrip(ComputedLength(p, |message|), p.width, p.bigEndian);
    assert Write(p, message).bytes[..p.width] == WriteUint(ComputedLength(p, |message|), p.width, p.bigEndian);
  }

  lemma ToInt32OfUint64(x: int)
    ensures ToInt32(ToUint64(x)) == ToInt32(x)
  {
    var q := x / TWO_64;
    assert x == q * TWO_64 + ToUint64(x);
    ToInt32Shift(ToUint64(x), q * TWO_32);
  }

  lemma ToInt32Shift(x: int, k: int)
    ensures ToInt32(x + k * TWO_32) == ToInt32(x)
  {
    assert (x + k * TWO_32 + TWO_31) % TWO_32 == (x + TWO_31) % TWO_32;
  }

  /** The machine computes the true length modulo 2^32, whatever the size. */
  lemma LengthIsTruncated(p: Prepender, size: nat)
    ensures ComputedLength(p, size) == ToInt32(TrueLength(p, size))
  {
    var x := p.adjustment + size;
    ToInt32OfUint64(x);
    var q := (x + TWO_31) / TWO_32;
    assert x == ToInt32(x) + q * TWO_32;
    ToInt32Shift(ToInt32(x) + p.width, q);
  }

  /** A message is framed with its true length exactly when that length fits ... */
  lemma WriteIsFaithfulIff(p: Prepender, message: seq<Byte>)
    requires ValidPrepender(p)
    ensures Faithful(p, message, Write(p, message)) <==> Fits(p, |message|)
  {
    LengthIsTruncated(p, |message|);
    if Write(p, message).Wrote? { WriteAnatomy(p, message); }
  }

  /** ... it is refused exactly when the length modulo 2^32 does not, because the prepender
      truncates before it checks. So a message goes out under a wrong length exactly when its
      length does not fit and what truncation leaves of it does. */
  lemma WriteMisframesIff(p: Prepender, message: seq<Byte>)
    requires ValidPrepender(p)
    ensures Write(p, message).Refused? <==> TrueLength(p, |message|) % TWO_32 >= Limit(p.width)
    ensures (Write(p, message).Wrote? ==> Faithful(p, message, Write(p, message))) <==>
            TrueLength(p, |message|) < Limit(p.width) || TrueLength(p, |message|) % TWO_32 >= Limit(p.width)
  {
    LengthIsTruncated(p, |message|);
    WroteIff(p, message);
    Residue(TrueLength(p, |message|), Limit(p.width));
    WriteIsFaithfulIff(p, message);
  }

  lemma WroteIff(p: Prepender, message: seq<Byte>)
    requires ValidPrepender(p)
    ensures Write(p, message).Wrote? <==> 0 <= ComputedLength(p, |message|) < Limit(p.width)
  {}

  lemma Residue(x: int, limit: nat)
    requires -TWO_31 <= x && limit <= TWO_31
    ensures 0 <= ToInt32(x) < limit <==> x % TWO_32 < limit
    ensures x < 0 ==> x % TWO_32 >= limit
  {}

  /** Such a message: 2^32 + 5 bytes are sent under the length 5. */
  lemma OversizedMessageIsMisframed(message: seq<Byte>)
    requires |message| == TWO_32 + 5
    ensures Write(Prepender(4, 0, false, true), message) == Wrote(WriteUint(5, 4, true) + message)
  {}

  // ---------------------------------------------------------------- decoding

  datatype FrameDecoder = FrameDecoder(
    width: nat, maxFrameLength: nat, offset: nat, adjustment: int, bytesToStrip: nat, bigEndian: bool)
  {
    /** lengthFieldEndOffset_, an unsigned 32-bit sum. */
    function EndOffset(): nat { ToUint32(offset + width) }
  }

  ghost predicate ValidDecoder(d: FrameDecoder) {
    && ValidWidth(d.width) && d.maxFrameLength < TWO_32 && d.offset < TWO_32 && d.bytesToStrip < TWO_32
    && -TWO_31 <= d.adjustment < TWO_31
    // the constructor's checks, the second one on an unsigned difference
    && d.maxFrameLength > 0 && d.offset <= ToUint32(d.maxFrameLength - d.width)
  }

  /** The frame length: a 64-bit field plus a sum computed in 32 unsigned bits. */
  function FrameLength(d: FrameDecoder, field: nat): nat {
    ToUint64(field + ToUint32(d.adjustment + d.EndOffset()))
  }

  /** The machine arithmetic agrees with the intended one exactly when neither unsigned sum
      leaves its range; an adjustment below minus the field's end makes the first wrap. */
  lemma FrameLengthIsExactIff(d: FrameDecoder, bytes: seq<Byte>)
    requires ValidDecoder(d) && |bytes| == d.width
    ensures var field := ReadUint(bytes, d.bigEndian);
            FrameLength(d, field) == field + d.adjustment + d.EndOffset() <==>
            0 <= d.adjustment + d.EndOffset() < TWO_32 && field + d.adjustment + d.EndOffset() < TWO_64
  {
    Capacities();
    UintBound(bytes, d.bigEndian);
    SumIsExactIff(d, ReadUint(bytes, d.bigEndian));
  }

  /** Such a decoder: an adjustment of -2 with a field of one byte makes a length of 4 into
      2^32 + 4. */
  lemma FrameLengthWraps()
    ensures var d := FrameDecoder(1, 100, 0, -2, 1, true);
            && ValidDecoder(d)
            && FrameLength(d, ReadUint([5], true)) == TWO_32 + 4 != 5 + d.adjustment + d.EndOffset()
  {
    assert FromBE([5]) == 5;
  }

  lemma SumIsExactIff(d: FrameDecoder, field: nat)
    requires ValidDecoder(d) && field < TWO_64
    ensures FrameLength(d, field) == field + d.adjustment + d.EndOffset() <==>
            0 <= d.adjustment + d.EndOffset() < TWO_32 && field + d.adjustment + d.EndOffset() < TWO_64
  {}

  /** Otherwise reading the field throws: the end offset wrapped, or the offset, which is
      passed on as an int, is negative there. */
  predicate Readable(d: FrameDecoder, size: nat) {
    d.offset + d.width <= size && ToInt32(d.offset) >= 0
  }

  /** What becomes of a buffer whose first frame has the given length. */
  function Cut(d: FrameDecoder, length: nat, buf: seq<Byte>): Decoded
    requires d.EndOffset() <= |buf|
  {
    if length < d.EndOffset() then Fault(buf[d.EndOffset()..])                      // frame too small
    else if length > d.maxFrameLength then
      Fault(if length <= |buf| then buf[length..] else [])                          // frame too large
    else if |buf| < length then NeedMore
    else if d.bytesToStrip > length then Fault(buf[length..])
    else
      // the split length is an int: a negative one makes the split throw
      var actual := ToInt32(length - d.bytesToStrip);
      if actual < 0 then Fault(buf[d.bytesToStrip..])
      else Frame(buf[d.bytesToStrip..][..actual], buf[d.bytesToStrip..][actual..])
  }

  function LengthIn(d: FrameDecoder, buf: seq<Byte>): nat
    requires d.offset + d.width <= |buf|
  {
    FrameLength(d, ReadUint(buf[d.offset..d.offset + d.width], d.bigEndian))
  }

  function Decode(d: FrameDecoder, buf: seq<Byte>): Decoded {
    if |buf| < d.EndOffset() then NeedMore
    else if !Readable(d, |buf|) then Fault(buf)
    else Cut(d, LengthIn(d, buf), buf)
  }

  function AsDecoder(d: FrameDecoder): Decoder {
    b => Decode(d, b)
  }

  /** The decoder working on the queue in place. */
  method DecodeInPlace(d: FrameDecoder, q: IOBufQueue) returns (success: bool, result: seq<Byte>)
    requires ValidDecoder(d)
    modifies q
    ensures match Decode(d, old(q.data))
            case NeedMore => !success && q.data == old(q.data)
            case Fault(rest) => !success && q.data == rest
            case Frame(frame, rest) => success && result == frame && q.data == rest
  {
    success, result := false, [];
    var buf := q.data;
    if |buf| < d.EndOffset() { return; }
    if !Readable(d, |buf|) { return; }
    var length := LengthIn(d, buf);
    if length < d.EndOffset() {
      q.TrimStart(d.EndOffset());
      return;
    }
    if length > d.maxFrameLength {
      q.TrimStartAtMost(length);
      return;
    }
    if |buf| < length { return; }
    if d.bytesToStrip > length {
      q.TrimStart(length);
      return;
    }
    q.TrimStart(d.bytesToStrip);
    var actual := ToInt32(length - d.bytesToStrip);
    if actual < 0 { return; }
    result := q.Split(actual);
    success := true;
  }

  lemma TakeExtends(b: seq<Byte>, more: seq<Byte>, from: nat, n: nat)
    requires from + n <= |b|
    ensures (b + more)[from..][..n] == b[from..][..n] && (b + more)[from..][n..] == b[from..][n..] + more
  {
    assert (b + more)[from..] == b[from..] + more;
  }

  lemma CutExtends(d: FrameDecoder, length: nat, b: seq<Byte>, more: seq<Byte>)
    requires d.EndOffset() <= |b| && Cut(d, length, b).Frame?
    ensures Cut(d, length, b + more) == Frame(Cut(d, length, b).frame, Cut(d, length, b).rest + more)
  {
    TakeExtends(b, more, d.bytesToStrip, ToInt32(length - d.bytesToStrip));
  }

  lemma DecodeExtends(d: FrameDecoder, b: seq<Byte>, more: seq<Byte>)
    requires Decode(d, b).Frame?
    ensures Decode(d, b + more) == Frame(Decode(d, b).frame, Decode(d, b).rest + more)
  {
    assert (b + more)[d.offset..d.offset + d.width] == b[d.offset..d.offset + d.width];
    CutExtends(d, LengthIn(d, b), b, more);
  }

  lemma DecodeIsStable(d: FrameDecoder)
    requires ValidDecoder(d)
    ensures Stable(AsDecoder(d)) && Consumes(AsDecoder(d))
  {
    forall b: seq<Byte>, more: seq<Byte> | AsDecoder(d)(b).Frame?
      ensures AsDecoder(d)(b + more) == Frame(AsDecoder(d)(b).frame, AsDecoder(d)(b).rest + more)
    {
      DecodeExtends(d, b, more);
    }
    forall b: seq<Byte> | AsDecoder(d)(b).Frame? ensures |AsDecoder(d)(b).rest| < |b| {
      DecodeConsumes(d, b);
    }
  }

  lemma DecodeConsumes(d: FrameDecoder, b: seq<Byte>)
    requires ValidDecoder(d) && Decode(d, b).Frame?
    ensures |Decode(d, b).rest| < |b|
  {
    var length := LengthIn(d, b);
    assert 0 < d.offset + d.width == d.EndOffset() <= length <= d.maxFrameLength;
    SplitSize(length, d.bytesToStrip);
  }

  lemma SplitSize(length: nat, strip: nat)
    requires strip <= length < TWO_32 && ToInt32(length - strip) >= 0
    ensures ToInt32(length - strip) == length - strip
  {}

  // ---------------------------------------------------------------- frames on the wire

  /** What is to become of a buffer whose first frame has the given length, field end included:
      a frame that is too small, too large or smaller than what is to be stripped is skipped,
      as far as it is there, and one that is too large for an int is given up half-way. */
  function Verdict(d: FrameDecoder, end: nat, length: nat, buf: seq<Byte>): Decoded
    requires end <= |buf|
  {
    if length < end then Fault(buf[end..])
    else if length > d.maxFrameLength then Fault(if length <= |buf| then buf[length..] else [])
    else if |buf| < length then NeedMore
    else if d.bytesToStrip > length then Fault(buf[length..])
    else if length - d.bytesToStrip >= TWO_31 then Fault(buf[d.bytesToStrip..])
    else Frame(buf[d.bytesToStrip..length], buf[length..])
  }

  /** What the decoder makes of a header, a length field that says `n`, and whatever follows: as
      long as the sum behind the length is not negative, the machine arithmetic never shows. */
  lemma DecodeCases(d: FrameDecoder, header: seq<Byte>, n: nat, rest: seq<Byte>)
    requires ValidDecoder(d) && d.offset + d.width < TWO_31 && |header| == d.offset && n < Capacity(d.width)
    requires 0 <= d.adjustment + d.offset + d.width && n + d.adjustment + d.offset + d.width < TWO_64
    ensures var buf, end := header + WriteUint(n, d.width, d.bigEndian) + rest, d.offset + d.width;
            Decode(d, buf) == Verdict(d, end, n + d.adjustment + end, buf)
  {
    var buf, end := header + WriteUint(n, d.width, d.bigEndian) + rest, d.offset + d.width;
    FieldIsRead(d, header, n, rest);
    LengthIsExact(d, n);
    CutCases(d, n + d.adjustment + end, buf);
  }

  lemma FieldIsRead(d: FrameDecoder, header: seq<Byte>, n: nat, rest: seq<Byte>)
    requires |header| == d.offset && n < Capacity(d.width)
    ensures var buf := header + WriteUint(n, d.width, d.bigEndian) + rest;
            ReadUint(buf[d.offset..d.offset + d.width], d.bigEndian) == n
  {
    UintRoundTrip(n, d.width, d.bigEndian);
    var field := WriteUint(n, d.width, d.bigEndian);
    assert (header + field + rest)[d.offset..d.offset + d.width] == field;
  }

  lemma LengthIsExact(d: FrameDecoder, n: nat)
    requires ValidDecoder(d) && d.offset + d.width < TWO_31 && n < Capacity(d.width)
    requires 0 <= d.adjustment + d.offset + d.width && n + d.adjustment + d.offset + d.width < TWO_64
    ensures d.EndOffset() == d.offset + d.width && FrameLength(d, n) == n + d.adjustment + d.offset + d.width
  {
    Capacities();
    SumIsExactIff(d, n);
  }

  lemma CutCases(d: FrameDecoder, length: nat, buf: seq<Byte>)
    requires ValidDecoder(d) && d.EndOffset() <= |buf|
    ensures Cut(d, length, buf) == Verdict(d, d.EndOffset(), length, buf)
  {
    if d.bytesToStrip <= length <= |buf| {
      var strip, size := d.bytesToStrip, length - d.bytesToStrip;
      assert buf[strip..][..size] == buf[strip..length] && buf[strip..][size..] == buf[length..];
      if length < TWO_32 { IntSign(size); }
    }
  }

  lemma IntSign(size: nat)
    requires size < TWO_32
    ensures if size < TWO_31 then ToInt32(size) == size else ToInt32(size) < 0
  {}

  /** A frame on the wire: what comes before the length field, what the field says, and what
      comes after it. */
  datatype Framed = Framed(header: seq<Byte>, field: nat, body: seq<Byte>)

  function OnWire(d: FrameDecoder, f: Framed): seq<Byte> {
    f.header + WriteUint(f.field, d.width, d.bigEndian) + f.body
  }

  /** The decoder's settings describe the frame, and it is within bounds. */
  predicate Describes(d: FrameDecoder, f: Framed) {
    var size := d.offset + d.width + |f.body|;
    && |f.header| == d.offset && f.field < Capacity(d.width) && |f.body| == f.field + d.adjustment
    && 0 <= d.adjustment + d.offset + d.width
    && d.bytesToStrip <= size <= d.maxFrameLength && size - d.bytesToStrip < TWO_31
  }

  /** Any front piece of a frame and what follows it decodes to the frame less the bytes to
      strip as soon as it is complete, and to nothing before, wherever its length field is. */
  lemma DecodeFramed(d: FrameDecoder, f: Framed, tail: seq<Byte>, k: nat)
    requires ValidDecoder(d) && d.offset + d.width < TWO_31 && Describes(d, f) && k <= |OnWire(d, f) + tail|
    ensures var w := OnWire(d, f);
            d.bytesToStrip <= |w| &&
            Decode(d, (w + tail)[..k]) == if k < |w| then NeedMore else Frame(w[d.bytesToStrip..], (w + tail)[|w|..k])
  {
    var w, end := OnWire(d, f), d.offset + d.width;
    var buf := (w + tail)[..k];
    if k >= end {
      var rest := (f.body + tail)[..k - end];
      assert buf == f.header + WriteUint(f.field, d.width, d.bigEndian) + rest;
      DecodeCases(d, f.header, f.field, rest);
      if k >= |w| { PrefixSlices(w, tail, k, d.bytesToStrip); }
    }
  }

  lemma PrefixSlices(w: seq<Byte>, tail: seq<Byte>, k: nat, i: nat)
    requires i <= |w| <= k <= |w| + |tail|
    ensures (w + tail)[..k][i..|w|] == w[i..] && (w + tail)[..k][|w|..] == (w + tail)[|w|..k]
  {}

  function AllOnWire(d: FrameDecoder, fs: seq<Framed>): seq<Byte> {
    if fs == [] then [] else OnWire(d, fs[0]) + AllOnWire(d, fs[1..])
  }

  /** What the decoder is to hand on of each frame. */
  function Stripped(d: FrameDecoder, fs: seq<Framed>): seq<seq<Byte>>
    requires forall f :: f in fs ==> Describes(d, f)
  {
    if fs == [] then []
    else
      assert Describes(d, fs[0]);
      [OnWire(d, fs[0])[d.bytesToStrip..]] + Stripped(d, fs[1..])
  }

  lemma FirstFramed(d: FrameDecoder, f: Framed, tail: seq<Byte>)
    requires ValidDecoder(d) && d.offset + d.width < TWO_31 && Describes(d, f)
    ensures AsDecoder(d)(OnWire(d, f) + tail) == Frame(OnWire(d, f)[d.bytesToStrip..], tail)
    ensures Faultless(AsDecoder(d), OnWire(d, f) + tail)
  {
    var stream := OnWire(d, f) + tail;
    forall k | 0 <= k <= |stream| ensures !AsDecoder(d)(stream[..k]).Fault? {
      DecodeFramed(d, f, tail, k);
    }
    DecodeFramed(d, f, tail, |stream|);
    assert stream[..|stream|] == stream && stream[|OnWire(d, f)|..] == tail;
  }

  lemma {:induction false} FramedStream(d: FrameDecoder, fs: seq<Framed>)
    requires ValidDecoder(d) && d.offset + d.width < TWO_31 && forall f :: f in fs ==> Describes(d, f)
    ensures Clean(AsDecoder(d), AllOnWire(d, fs))
    ensures Read(AsDecoder(d), AllOnWire(d, fs)) == Output(Stripped(d, fs), [])
  {
    if fs == [] {
      NothingToRead(d);
    } else {
      FramedStream(d, fs[1..]);
      FirstFramed(d, fs[0], AllOnWire(d, fs[1..]));
      CleanFrame(AsDecoder(d), AllOnWire(d, fs));
    }
  }

  lemma NothingToRead(d: FrameDecoder)
    requires ValidDecoder(d) && d.offset + d.width < TWO_32
    ensures AsDecoder(d)([]) == NeedMore && Clean(AsDecoder(d), [])
  {
    var none: seq<Byte> := [];
    assert forall k :: 0 <= k <= |none| ==> none[..k] == [];
  }

  /** Any frames that the settings describe, fed in any chunks, come out in order, stripped, with
      nothing left over. */
  lemma FramesUnderFragmentation(d: FrameDecoder, fs: seq<Framed>, chunks: seq<seq<Byte>>)
    requires ValidDecoder(d) && d.offset + d.width < TWO_31 && forall f :: f in fs ==> Describes(d, f)
    requires Concat(chunks) == AllOnWire(d, fs)
    ensures Feed(AsDecoder(d), [], chunks) == Output(Stripped(d, fs), [])
  {
    DecodeIsStable(d);
    FramedStream(d, fs);
    NothingToRead(d);
    assert [] + Concat(chunks) == Concat(chunks);
    ChunkIndependence(AsDecoder(d), [], chunks);
  }

  // ---------------------------------------------------------------- the two together

  /** Settings under which the decoder undoes the prepender: the field first, nothing else
      in front of the message, and an adjustment that cancels the prepender's. */
  ghost predicate Matching(p: Prepender, d: FrameDecoder) {
    && ValidPrepender(p) && ValidDecoder(d)
    && d.width == p.width && d.bigEndian == p.bigEndian && d.offset == 0 && d.bytesToStrip == p.width
    && d.adjustment == -(p.adjustment + if p.includesField then p.width else 0)
    && d.adjustment + d.EndOffset() >= 0
  }

  ghost predicate Carries(p: Prepender, d: FrameDecoder, message: seq<Byte>) {
    Fits(p, |message|) && |message| < TWO_31 && p.width + |message| <= d.maxFrameLength
  }

  /** An encoded message as a frame without a header. */
  function AsFrame(p: Prepender, message: seq<Byte>): Framed
    requires Fits(p, |message|)
  {
    Framed([], TrueLength(p, |message|), message)
  }

  lemma EncodedIsFramed(p: Prepender, d: FrameDecoder, message: seq<Byte>)
    requires Matching(p, d) && Carries(p, d, message)
    ensures var f := AsFrame(p, message);
            && Describes(d, f) && Write(p, message) == Wrote(OnWire(d, f))
            && OnWire(d, f)[d.bytesToStrip..] == message
  {
    Capacities();
    LengthIsTruncated(p, |message|);
  }

  /** A front piece of an encoded message and whatever follows it decodes to the message as
      soon as it is complete, and to nothing before. */
  lemma DecodeEncoded(p: Prepender, d: FrameDecoder, message: seq<Byte>, tail: seq<Byte>, k: nat)
    requires Matching(p, d) && Carries(p, d, message)
    requires Write(p, message).Wrote?
    requires k <= |Write(p, message).bytes + tail|
    ensures var buf, n := Write(p, message).bytes + tail, p.width + |message|;
            |Write(p, message).bytes| == n &&
            Decode(d, buf[..k]) == if k < n then NeedMore else Frame(message, buf[n..k])
  {
    EncodedIsFramed(p, d, message);
    DecodeFramed(d, AsFrame(p, message), tail, k);
  }

  /** One message comes back exactly when it is carried: no other message survives, not even
      by accident of the truncations on the way. */
  lemma DecodeUndoesWriteIff(p: Prepender, d: FrameDecoder, message: seq<Byte>)
    requires Matching(p, d)
    ensures Write(p, message).Wrote? && Decode(d, Write(p, message).bytes) == Frame(message, []) <==>
            Carries(p, d, message)
  {
    WriteIsFaithfulIff(p, message);
    if Write(p, message).Wrote? {
      var w := Write(p, message).bytes;
      WriteAnatomy(p, message);
      assert w[0..d.width] == w[..p.width];
      SumIsExactIff(d, ComputedLength(p, |message|));
      if Carries(p, d, message) {
        DecodeEncoded(p, d, message, [], |w|);
        assert (w + [])[..|w|] == w && (w + [])[|w|..|w|] == [];
      }
    }
  }

  function WriteAll(p: Prepender, messages: seq<seq<Byte>>): seq<Byte> {
    if messages == [] then []
    else match Write(p, messages[0])
         case Wrote(bytes) => bytes + WriteAll(p, messages[1..])
         case Refused => WriteAll(p, messages[1..])
  }

  ghost function AsFrames(p: Prepender, d: FrameDecoder, messages: seq<seq<Byte>>): seq<Framed>
    requires forall m :: m in messages ==> Carries(p, d, m)
  {
    seq(|messages|, i requires 0 <= i < |messages| => assert Carries(p, d, messages[i]); AsFrame(p, messages[i]))
  }

  lemma {:induction false} EncodedStream(p: Prepender, d: FrameDecoder, messages: seq<seq<Byte>>)
    requires Matching(p, d) && forall m :: m in messages ==> Carries(p, d, m)
    ensures var fs := AsFrames(p, d, messages);
            && (forall f :: f in fs ==> Describes(d, f))
            && AllOnWire(d, fs) == WriteAll(p, messages) && Stripped(d, fs) == messages
  {
    if messages != [] {
      var fs := AsFrames(p, d, messages);
      EncodedIsFramed(p, d, messages[0]);
      EncodedStream(p, d, messages[1..]);
      assert fs[1..] == AsFrames(p, d, messages[1..]) && fs == [fs[0]] + fs[1..];
      assert [messages[0]] + messages[1..] == messages;
    }
  }

  /** Encoding any messages and feeding the bytes in any chunks to the read loop yields
      exactly those messages, in order, with nothing left over. */
  lemma RoundTripUnderFragmentation(
    p: Prepender, d: FrameDecoder, messages: seq<seq<Byte>>, chunks: seq<seq<Byte>>)
    requires Matching(p, d) && forall m :: m in messages ==> Carries(p, d, m)
    requires Concat(chunks) == WriteAll(p, messages)
    ensures Feed(AsDecoder(d), [], chunks) == Output(messages, [])
  {
    EncodedStream(p, d, messages);
    FramesUnderFragmentation(d, AsFrames(p, d, messages), chunks);
  }
}
