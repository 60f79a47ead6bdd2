/** Fixed-width unsigned integers as bytes, and the machine integers the codecs compute with. */
module Bytes {
  type Byte = b: int | 0 <= b < 256

  const TWO_31: int := 0x8000_0000
  const TWO_32: int := 0x1_0000_0000
  const TWO_64: int := 0x1_0000_0000_0000_0000

  /** Conversion to a 32-bit two's complement integer. */
  function ToInt32(x: int): (r: int)
    ensures -TWO_31 <= r < TWO_31
    ensures -TWO_31 <= x < TWO_31 <==> r == x
  {
    (x + TWO_31) % TWO_32 - TWO_31
  }

  function ToUint32(x: int): (r: nat)
    ensures r < TWO_32
    ensures 0 <= x < TWO_32 <==> r == x
  {
    x % TWO_32
  }

  function ToUint64(x: int): (r: nat)
    ensures r < TWO_64
    ensures 0 <= x < TWO_64 <==> r == x
  {
    x % TWO_64
  }

  /** The number of values `width` bytes can hold. */
  function Capacity(width: nat): (c: nat)
    ensures c > 0
  {
    if width == 0 then 1 else 256 * Capacity(width - 1)
  }

  function ToLE(n: nat, width: nat): (bs: seq<Byte>)
    ensures |bs| == width
  {
    if width == 0 then [] else [n % 256] + ToLE(n / 256, width - 1)
  }

  function FromLE(bs: seq<Byte>): nat {
    if bs == [] then 0 else bs[0] + 256 * FromLE(bs[1..])
  }

  function ToBE(n: nat, width: nat): (bs: seq<Byte>)
    ensures |bs| == width
  {
    if width == 0 then [] else ToBE(n / 256, width - 1) + [n % 256]
  }

  function FromBE(bs: seq<Byte>): nat {
    if bs == [] then 0 else 256 * FromBE(bs[..|bs| - 1]) + bs[|bs| - 1]
  }

  function WriteUint(n: nat, width: nat, bigEndian: bool): (bs: seq<Byte>)
    ensures |bs| == width
  {
    if bigEndian then ToBE(n, width) else ToLE(n, width)
  }

  function ReadUint(bs: seq<Byte>, bigEndian: bool): nat {
    if bigEndian then FromBE(bs) else FromLE(bs)
  }

  lemma {:induction false} LittleEndianRoundTrip(n: nat, width: nat)
    requires n < Capacity(width)
    ensures FromLE(ToLE(n, width)) == n
  {
    if width > 0 { LittleEndianRoundTrip(n / 256, width - 1); }
  }

  lemma {:induction false} BigEndianRoundTrip(n: nat, width: nat)
    requires n < Capacity(width)
    ensures FromBE(ToBE(n, width)) == n
  {
    if width > 0 {
      BigEndianRoundTrip(n / 256, width - 1);
      assert ToBE(n, width)[..width - 1] == ToBE(n / 256, width - 1);
    }
  }

  /** In network byte order the first byte is the most significant one ... */
  lemma {:induction false} FirstByteCountsMost(b: Byte, bs: seq<Byte>)
    ensures FromBE([b] + bs) == b * Capacity(|bs|) + FromBE(bs)
  {
    if bs == [] {
      assert [b][..0] == [];
    } else {
      var n := |bs| - 1;
      FirstByteCountsMost(b, bs[..n]);
      assert ([b] + bs)[..n + 1] == [b] + bs[..n];
    }
  }

  /** ... and otherwise the last. */
  lemma {:induction false} LastByteCountsMost(bs: seq<Byte>, b: Byte)
    ensures FromLE(bs + [b]) == FromLE(bs) + b * Capacity(|bs|)
  {
    if bs != [] {
      LastByteCountsMost(bs[1..], b);
      assert (bs + [b])[1..] == bs[1..] + [b];
    }
  }

  /** What a field says, in the two byte orders. */
  lemma UintSignificance(bs: seq<Byte>, b: Byte)
    ensures ReadUint([b] + bs, true) == b * Capacity(|bs|) + ReadUint(bs, true)
    ensures ReadUint(bs + [b], false) == ReadUint(bs, false) + b * Capacity(|bs|)
  {
    FirstByteCountsMost(b, bs);
    LastByteCountsMost(bs, b);
  }

  lemma UintRoundTrip(n: nat, width: nat, bigEndian: bool)
    requires n < Capacity(width)
    ensures ReadUint(WriteUint(n, width, bigEndian), bigEndian) == n
  {
    if bigEndian { BigEndianRoundTrip(n, width); } else { LittleEndianRoundTrip(n, width); }
  }

  lemma {:induction false} UintBound(bs: seq<Byte>, bigEndian: bool)
    ensures ReadUint(bs, bigEndian) < Capacity(|bs|)
  {
    if bs != [] {
      if bigEndian { UintBound(bs[..|bs| - 1], true); } else { UintBound(bs[1..], false); }
    }
  }

  lemma Capacities()
    ensures Capacity(1) == 256 && Capacity(2) == 65536 && Capacity(4) == TWO_32 && Capacity(8) == TWO_64
  {
    assert Capacity(2) == 256 * Capacity(1);
    assert Capacity(4) == 256 * (256 * Capacity(2));
    assert Capacity(8) == 256 * (256 * (256 * (256 * Capacity(4))));
  }
}
