/** The length-prefixed frames of the file protocol and the payload of a DATA frame. */
module Frames {
  import opened Common
  import opened Bytes

  datatype Frame = Frame(typ: byte, payload: seq<byte>)

  datatype ReadResult = Got(frame: Frame, rest: seq<byte>) | ShortLength | ShortType | ShortPayload

  const MAX_PAYLOAD: nat := 0x1_0000_0000

  function Encode(f: Frame): seq<byte> {
    BigEndian(|f.payload|, 4) + [f.typ] + f.payload
  }

  function Decode(s: seq<byte>): ReadResult {
    if |s| < 4 then ShortLength
    else if |s| < 5 then ShortType
    else
      var n := FromBigEndian(s[..4]);
      if |s| < 5 + n then ShortPayload else Got(Frame(s[4], s[5..5 + n]), s[5 + n..])
  }

  function EncodeAll(fs: seq<Frame>): seq<byte> {
    if fs == [] then [] else Encode(fs[0]) + EncodeAll(fs[1..])
  }

  /** Read `n` frames off a stream: whether all could be read, those that could, and the bytes left. */
  function DecodeN(s: seq<byte>, n: nat): (r: (bool, seq<Frame>, seq<byte>)) {
    if n == 0 then (true, [], s)
    else
      match Decode(s)
      case Got(f, rest) => var (ok, fs, left) := DecodeN(rest, n - 1); (ok, [f] + fs, left)
      case _ => (false, [], s)
  }

  /** Reading undoes writing exactly for payloads whose length fits the 32-bit field. */
  lemma FrameRoundTrip(f: Frame, rest: seq<byte>)
    ensures Decode(Encode(f) + rest) == Got(f, rest) <==> |f.payload| < MAX_PAYLOAD
  {
    hide BigEndian, FromBigEndian, Pow256;
    var s, head := Encode(f) + rest, BigEndian(|f.payload|, 4);
    Widths();
    assert s[..4] == head;
    if |f.payload| < MAX_PAYLOAD {
      BigEndianRoundTrip(|f.payload|, 4);
      assert s[5..5 + |f.payload|] == f.payload;
      assert s[5 + |f.payload|..] == rest;
    } else {
      assert FromBigEndian(head) < |f.payload|;
    }
  }

  /** On the wire: four bytes of length, one of type, the payload. */
  lemma FrameLayout(f: Frame)
    requires |f.payload| < MAX_PAYLOAD
    ensures var s := Encode(f);
            && |s| == 5 + |f.payload| && FromBigEndian(s[..4]) == |f.payload| && s[4] == f.typ && s[5..] == f.payload
  {
    hide BigEndian, FromBigEndian, Pow256;
    Widths();
    BigEndianRoundTrip(|f.payload|, 4);
    assert Encode(f)[..4] == BigEndian(|f.payload|, 4);
  }

  lemma EncodeFirst(fs: seq<Frame>, rest: seq<byte>)
    ensures EncodeAll(fs) + rest == if fs == [] then rest else Encode(fs[0]) + (EncodeAll(fs[1..]) + rest)
  {
    hide Encode;
  }

  /** Any sequence of frames reads back as written and leaves what follows untouched. */
  lemma {:induction false} ReadBack(fs: seq<Frame>, rest: seq<byte>)
    requires forall f :: f in fs ==> |f.payload| < MAX_PAYLOAD
    ensures DecodeN(EncodeAll(fs) + rest, |fs|) == (true, fs, rest)
  {
    hide Encode, Decode, EncodeAll;
    EncodeFirst(fs, rest);
    if fs != [] {
      var more := EncodeAll(fs[1..]) + rest;
      FrameRoundTrip(fs[0], more);
      ReadBack(fs[1..], rest);
      assert [fs[0]] + fs[1..] == fs;
    }
  }

  /** A byte stream with its unread bytes. */
  class Wire {
    var pending: seq<byte>

    method Write(s: seq<byte>)
      modifies this
      ensures pending == old(pending) + s
    {
      pending := pending + s;
    }

    /** Read exactly `n` bytes, or fail having drained the stream. */
    method ReadFull(n: nat) returns (ok: bool, s: seq<byte>)
      modifies this
      ensures ok == (n <= |old(pending)|)
      ensures ok ==> s == old(pending[..n]) && pending == old(pending[n..])
      ensures !ok ==> s == [] && pending == []
    {
      if n <= |pending| {
        s, pending := pending[..n], pending[n..];
        ok := true;
      } else {
        ok, s, pending := false, [], [];
      }
    }

    /** Three writes, one frame. */
    method FrameWrite(typ: byte, payload: seq<byte>)
      modifies this
      ensures pending == old(pending) + Encode(Frame(typ, payload))
    {
      Write(BigEndian(|payload|, 4));
      Write([typ]);
      if |payload| > 0 {
        Write(payload);
      }
    }

    /** Field-by-field reads give what `Decode` says of the whole stream. */
    method FrameRead() returns (r: ReadResult)
      modifies this
      ensures r == Decode(old(pending))
      ensures pending == if r.Got? then r.rest else []
    {
      var okLen, lenBytes := ReadFull(4);
      if !okLen {
        return ShortLength;
      }
      var n := FromBigEndian(lenBytes);
      var okTyp, typ := ReadFull(1);
      if !okTyp {
        return ShortType;
      }
      var payload := [];
      if n > 0 {
        var okBody;
        okBody, payload := ReadFull(n);
        if !okBody {
          return ShortPayload;
        }
      }
      r := Got(Frame(typ[0], payload), pending);
    }
  }

  // ----- the payload of a DATA frame -----

  /** A block compressor, of which only invertibility matters. */
  datatype Codec = Codec(pack: seq<byte> -> seq<byte>, unpack: (seq<byte>, nat) -> Option<seq<byte>>) {
    ghost predicate Invertible() {
      forall d: seq<byte> :: d != [] ==> pack(d) != [] && unpack(pack(d), |d|) == Some(d)
    }

    function CompressBlock(d: seq<byte>): seq<byte> {
      if d == [] then [] else pack(d)
    }

    function DecompressBlock(d: seq<byte>, length: nat): Option<seq<byte>> {
      if d == [] then Some([]) else unpack(d, length)
    }
  }

  function DataPayload(z: Codec, seqNo: int, data: seq<byte>, zstd: bool): seq<byte> {
    BigEndian(AsUnsigned(seqNo), 8) + if zstd then BigEndian(|data|, 4) + z.CompressBlock(data) else data
  }

  /** Sequence numbers are signed when they come out. */
  function ReadDataPayload(z: Codec, payload: seq<byte>, zstd: bool): Option<(int, seq<byte>)> {
    if |payload| < 8 then None
    else
      var seqNo := AsSigned(FromBigEndian(payload[..8]));
      if !zstd then Some((seqNo, payload[8..]))
      else if |payload| < 12 then None
      else
        match z.DecompressBlock(payload[12..], FromBigEndian(payload[8..12]))
        case None => None
        case Some(d) => Some((seqNo, d))
  }

  /** Filling a buffer field by field yields the payload. */
  method PackDataFrame(z: Codec, seqNo: int, data: seq<byte>, zstd: bool) returns (pay: array<byte>)
    ensures pay[..] == DataPayload(z, seqNo, data, zstd)
  {
    hide BigEndian;
    if zstd {
      var compressed := z.CompressBlock(data);
      pay := new byte[12 + |compressed|];
      CopyInto(pay, 0, BigEndian(AsUnsigned(seqNo), 8));
      CopyInto(pay, 8, BigEndian(|data|, 4));
      CopyInto(pay, 12, compressed);
    } else {
      pay := new byte[8 + |data|];
      CopyInto(pay, 0, BigEndian(AsUnsigned(seqNo), 8));
      CopyInto(pay, 8, data);
    }
  }

  lemma BlockRoundTrip(z: Codec, d: seq<byte>)
    requires z.Invertible()
    ensures z.DecompressBlock(z.CompressBlock(d), |d|) == Some(d)
  {
  }

  lemma Fields(a: seq<byte>, b: seq<byte>, c: seq<byte>)
    ensures var s := a + (b + c);
            s[..|a|] == a && s[|a|..] == b + c && s[|a|..|a| + |b|] == b && s[|a| + |b|..] == c
  {
  }

  /** A DATA payload: eight bytes of sequence number, then, if compressed, four of the length before compression, then
      the block. */
  lemma DataLayout(z: Codec, seqNo: int, data: seq<byte>, zstd: bool)
    requires IsInt64(seqNo) && |data| < MAX_PAYLOAD
    ensures var s := DataPayload(z, seqNo, data, zstd);
            && |s| >= 8 && AsSigned(FromBigEndian(s[..8])) == seqNo
            && (if !zstd then s[8..] == data
                else |s| >= 12 && FromBigEndian(s[8..12]) == |data| && s[12..] == z.CompressBlock(data))
  {
    hide BigEndian, FromBigEndian, Pow256, Codec.CompressBlock, AsSigned, AsUnsigned;
    Widths();
    SignRoundTrip(seqNo);
    var n := AsUnsigned(seqNo);
    BigEndianRoundTrip(n, 8);
    BigEndianRoundTrip(|data|, 4);
    if zstd {
      Fields(BigEndian(n, 8), BigEndian(|data|, 4), z.CompressBlock(data));
    } else {
      Fields(BigEndian(n, 8), [], data);
      assert [] + data == data;
    }
  }

  /** Unpacking undoes packing, compressed or not, the empty chunk included, for every 64-bit sequence number. */
  lemma DataRoundTrip(z: Codec, seqNo: int, data: seq<byte>, zstd: bool)
    requires z.Invertible() && IsInt64(seqNo) && |data| < MAX_PAYLOAD
    ensures ReadDataPayload(z, DataPayload(z, seqNo, data, zstd), zstd) == Some((seqNo, data))
  {
    hide BigEndian, FromBigEndian, Pow256, Codec.Invertible, Codec.CompressBlock, Codec.DecompressBlock;
    hide AsSigned, AsUnsigned;
    Widths();
    SignRoundTrip(seqNo);
    var n := AsUnsigned(seqNo);
    BigEndianRoundTrip(n, 8);
    if zstd {
      BigEndianRoundTrip(|data|, 4);
      BlockRoundTrip(z, data);
      Fields(BigEndian(n, 8), BigEndian(|data|, 4), z.CompressBlock(data));
    } else {
      Fields(BigEndian(n, 8), [], data);
      assert [] + data == data;
    }
  }
}
