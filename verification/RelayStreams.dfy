/** Streams multiplexed over a relay: chunked writes, per-stream receive buffers, stream numbering. */
module RelayStreams {
  import opened Common
  import opened Bytes
  import opened Bits

  const MAX_DATAGRAM_PAYLOAD: nat := 64000
  const STREAM_ID_BASE: nat := 1000
  const DATA: byte := 0
  const CLOSE: byte := 1
  const RESET: byte := 2

  // ----- frames -----

  datatype StreamFrame = StreamFrame(sid: nat, flag: byte, data: seq<byte>) {
    function ToBytes(): seq<byte> { LittleEndian(sid, 8) + [flag] + data }
  }

  /** Datagrams too short for a frame header are ignored. */
  function ParseFrame(payload: seq<byte>): Option<StreamFrame> {
    if |payload| < 9 then None
    else Some(StreamFrame(FromLittleEndian(payload[..8]), payload[8], payload[9..]))
  }

  lemma FrameRoundTrip(f: StreamFrame)
    requires f.sid < Pow256(8)
    ensures ParseFrame(f.ToBytes()) == Some(f)
  {
    LittleEndianRoundTrip(f.sid, 8);
    assert f.ToBytes()[..8] == LittleEndian(f.sid, 8);
    assert f.ToBytes()[9..] == f.data;
  }

  /** On the wire: eight bytes of stream number, least significant first, one of flag, the data. */
  lemma FrameLayout(f: StreamFrame)
    requires f.sid < Pow256(8)
    ensures var s := f.ToBytes();
            |s| == 9 + |f.data| && FromLittleEndian(s[..8]) == f.sid && s[8] == f.flag && s[9..] == f.data
  {
    LittleEndianRoundTrip(f.sid, 8);
    assert f.ToBytes()[..8] == LittleEndian(f.sid, 8);
  }

  // ----- writing -----

  function Concat(ss: seq<seq<byte>>): seq<byte> {
    if ss == [] then [] else ss[0] + Concat(ss[1..])
  }

  lemma {:induction false} ConcatSnoc(ss: seq<seq<byte>>, s: seq<byte>)
    ensures Concat(ss + [s]) == Concat(ss) + s
  {
    if ss == [] {
      assert ss + [s] == [s] && [s][1..] == [];
    } else {
      ConcatSnoc(ss[1..], s);
      assert (ss + [s])[1..] == ss[1..] + [s];
    }
  }

  /** The datagrams that carry some chunks of a stream. */
  function Datagrams(sid: nat, chunks: seq<seq<byte>>): (r: seq<seq<byte>>)
    ensures |r| == |chunks|
  {
    if chunks == [] then [] else [StreamFrame(sid, DATA, chunks[0]).ToBytes()] + Datagrams(sid, chunks[1..])
  }

  lemma {:induction false} DatagramsSnoc(sid: nat, chunks: seq<seq<byte>>, c: seq<byte>)
    ensures Datagrams(sid, chunks + [c]) == Datagrams(sid, chunks) + [StreamFrame(sid, DATA, c).ToBytes()]
  {
    if chunks == [] {
      assert chunks + [c] == [c] && [c][1..] == [];
    } else {
      DatagramsSnoc(sid, chunks[1..], c);
      assert (chunks + [c])[1..] == chunks[1..] + [c];
    }
  }

  /** `Write` on a relay that fails at the attempts `sends` says: what went out, as one datagram a chunk, is a prefix of
      the data in chunks of at most 64000 bytes, and the count returned is its length; without an error it is all. */
  method Write(sid: nat, b: seq<byte>, sends: nat -> bool)
    returns (n: nat, ok: bool, out: seq<seq<byte>>, ghost chunks: seq<seq<byte>>)
    ensures n <= |b| && out == Datagrams(sid, chunks) && Concat(chunks) == b[..n]
    ensures forall i :: 0 <= i < |chunks| ==> 0 < |chunks[i]| <= 64000 && sends(i)
    ensures forall i :: 0 <= i < |chunks| - 1 ==> |chunks[i]| == 64000
    ensures ok ==> n == |b|
    ensures !ok ==> n < |b| && !sends(|out|)
  {
    hide Datagrams, Concat;
    n, out, chunks := 0, [], [];
    NothingWritten(sid);
    while n < |b|
      invariant n <= |b| && out == Datagrams(sid, chunks) && Concat(chunks) == b[..n]
      invariant forall i :: 0 <= i < |chunks| ==> 0 < |chunks[i]| <= MAX_DATAGRAM_PAYLOAD && sends(i)
      invariant forall i :: 0 <= i < |chunks| - 1 ==> |chunks[i]| == MAX_DATAGRAM_PAYLOAD
      invariant n < |b| && chunks != [] ==> |chunks[|chunks| - 1]| == MAX_DATAGRAM_PAYLOAD
    {
      var end := Min(n + MAX_DATAGRAM_PAYLOAD, |b|);
      var chunk := b[n..end];
      if !sends(|out|) {
        ok := false;
        return;
      }
      ConcatSnoc(chunks, chunk);
      DatagramsSnoc(sid, chunks, chunk);
      assert b[..n] + chunk == b[..end];
      out, chunks := out + [StreamFrame(sid, DATA, chunk).ToBytes()], chunks + [chunk];
      n := end;
    }
    ok := true;
  }

  lemma NothingWritten(sid: nat)
    ensures Datagrams(sid, []) == [] && Concat([]) == []
  {
  }

  // ----- one stream at the receiver -----

  datatype Stream = Stream(rxBuf: seq<byte>, closed: bool, reset: bool)

  datatype ReadResult = Bytes(data: seq<byte>) | Blocks | Eof | ErrClosed

  function Dispatch(s: Stream, flag: byte, data: seq<byte>): Stream {
    if flag == RESET then s.(reset := true, rxBuf := [])
    else if flag == CLOSE then s.(closed := true)
    else if flag == DATA then s.(rxBuf := s.rxBuf + data)
    else s
  }

  /** A read of up to `n` bytes: what is buffered comes first, whatever the flags say. */
  function Read(s: Stream, n: nat): (r: (ReadResult, Stream))
    ensures r.0.Eof? || r.0.ErrClosed? || r.0.Blocks? ==> s.rxBuf == [] && r.1 == s
    ensures r.0.Bytes? ==> r.0.data + r.1.rxBuf == s.rxBuf
    ensures s.rxBuf != [] ==> r.0.Bytes? && |r.0.data| == Min(n, |s.rxBuf|)
  {
    if s.rxBuf == [] then
      if s.reset then (ErrClosed, s) else if s.closed then (Eof, s) else (Blocks, s)
    else
      var k := Min(n, |s.rxBuf|);
      (Bytes(s.rxBuf[..k]), s.(rxBuf := s.rxBuf[k..]))
  }

  /** When the buffer is empty, a reset counts before a close, and only a stream with neither waits. */
  lemma DrainedRead(s: Stream, n: nat)
    requires s.rxBuf == []
    ensures Read(s, n).0 == if s.reset then ErrClosed else if s.closed then Eof else Blocks
  {
  }

  /** Each frame does one thing: data is buffered behind what is there, a close only sets its flag, a reset also throws
      the buffer away, and any other flag is ignored. */
  lemma DispatchEffects(s: Stream, flag: byte, data: seq<byte>)
    ensures var t := Dispatch(s, flag, data);
            && t.rxBuf == (if flag == 2 then [] else if flag == 0 then s.rxBuf + data else s.rxBuf)
            && (t.closed <==> s.closed || flag == 1)
            && (t.reset <==> s.reset || flag == 2)
  {
  }

  /** Reading what there is, in pieces of any size but zero, ends with an empty buffer: every byte can be had. */
  lemma {:induction false} ReadsDrain(s: Stream, n: nat) returns (calls: seq<Event>)
    requires n > 0
    ensures Run(s, calls).0.rxBuf == [] && Run(s, calls).1 == s.rxBuf
    ensures forall i :: 0 <= i < |calls| ==> calls[i] == Reads(n)
    decreases |s.rxBuf|
  {
    if s.rxBuf == [] {
      calls := [];
    } else {
      var t := Read(s, n).1;
      var rest := ReadsDrain(t, n);
      calls := [Reads(n)] + rest;
      assert calls[1..] == rest;
    }
  }

  /** The stream object: its buffer and flags, changed under its lock. */
  class RelayStream {
    var rxBuf: seq<byte>
    var closed: bool
    var reset: bool

    ghost function State(): Stream
      reads this
    {
      Stream(rxBuf, closed, reset)
    }

    constructor ()
      ensures State() == Stream([], false, false)
    {
      rxBuf, closed, reset := [], false, false;
    }

    method Receive(flag: byte, data: seq<byte>)
      modifies this
      ensures State() == Dispatch(old(State()), flag, data)
    {
      if flag == RESET {
        reset := true;
        rxBuf := [];
      } else if flag == CLOSE {
        closed := true;
      } else if flag == DATA {
        rxBuf := rxBuf + data;
      }
    }

    /** One turn of the read loop; `Blocks` is where it waits for the next arrival. */
    method TryRead(n: nat) returns (r: ReadResult)
      modifies this
      ensures (r, State()) == Read(old(State()), n)
    {
      if |rxBuf| == 0 {
        if reset {
          return ErrClosed;
        }
        if closed {
          return Eof;
        }
        return Blocks;
      }
      var k := Min(n, |rxBuf|);
      r := Bytes(rxBuf[..k]);
      rxBuf := rxBuf[k..];
    }
  }

  /** The bytes a read hands out. */
  function Taken(s: Stream, n: nat): (d: seq<byte>)
    ensures d + Read(s, n).1.rxBuf == s.rxBuf
  {
    var r := Read(s, n).0;
    if r.Bytes? then r.data else []
  }

  datatype Event = Arrives(flag: byte, data: seq<byte>) | Reads(max: nat)

  /** The stream after a run of arrivals and reads, and all the bytes the reads returned. */
  function Run(s: Stream, evs: seq<Event>): (Stream, seq<byte>)
    decreases |evs|
  {
    if evs == [] then (s, [])
    else
      match evs[0]
      case Arrives(flag, data) => Run(Dispatch(s, flag, data), evs[1..])
      case Reads(n) =>
        var (u, got) := Run(Read(s, n).1, evs[1..]);
        (u, Taken(s, n) + got)
  }

  /** The payloads of the DATA frames of a run, in order. */
  function Payloads(evs: seq<Event>): seq<byte> {
    if evs == [] then []
    else (if evs[0].Arrives? && evs[0].flag == DATA then evs[0].data else []) + Payloads(evs[1..])
  }

  ghost predicate NoReset(evs: seq<Event>) {
    forall i :: 0 <= i < |evs| ==> !(evs[i].Arrives? && evs[i].flag == RESET)
  }

  /** Without a reset, what was read followed by what is buffered is every DATA payload in order:
      nothing lost, doubled or reordered, over every interleaving of arrivals and reads of any size. */
  lemma {:induction false} InOrderDelivery(s: Stream, evs: seq<Event>)
    requires NoReset(evs)
    ensures Run(s, evs).1 + Run(s, evs).0.rxBuf == s.rxBuf + Payloads(evs)
    decreases |evs|
  {
    if evs == [] {
    } else {
      var rest := evs[1..];
      match evs[0]
      case Arrives(flag, data) =>
        var t := Dispatch(s, flag, data);
        InOrderDelivery(t, rest);
        ArrivalAdds(s, flag, data, Payloads(rest));
      case Reads(n) =>
        var t := Read(s, n).1;
        InOrderDelivery(t, rest);
        Regroup(Taken(s, n), Run(t, rest).1, Run(t, rest).0.rxBuf, t.rxBuf, Payloads(rest), s.rxBuf);
    }
  }

  lemma ArrivalAdds(s: Stream, flag: byte, data: seq<byte>, later: seq<byte>)
    requires flag != RESET
    ensures Dispatch(s, flag, data).rxBuf + later == s.rxBuf + ((if flag == DATA then data else []) + later)
  {
  }

  lemma Regroup(head: seq<byte>, got: seq<byte>, end: seq<byte>, left: seq<byte>, later: seq<byte>, whole: seq<byte>)
    requires got + end == left + later && head + left == whole
    ensures (head + got) + end == whole + ([] + later)
  {
    assert (head + got) + end == head + (got + end);
    assert head + (left + later) == (head + left) + later;
  }

  /** End of file is reported only once every byte sent has been handed out. */
  lemma EofMeansDrained(s: Stream, evs: seq<Event>, n: nat)
    requires NoReset(evs) && s.rxBuf == [] && Read(Run(s, evs).0, n).0.Eof?
    ensures Run(s, evs).1 == Payloads(evs) && Run(s, evs).0.closed
  {
    InOrderDelivery(s, evs);
    var got := Run(s, evs).1;
    assert got + [] == got && [] + Payloads(evs) == Payloads(evs);
  }

  // ----- the manager of one peer's streams -----

  datatype Manager = Manager(streams: map<nat, Stream>) {
    function Buffered(sid: nat): seq<byte> { if sid in streams then streams[sid].rxBuf else [] }
  }

  /** The first DATA frame of an unknown stream opens it, if the accept queue has room, and is not delivered. */
  function ManagerDispatch(m: Manager, f: StreamFrame, hasRoom: bool): Manager {
    if f.sid in m.streams then Manager(m.streams[f.sid := Dispatch(m.streams[f.sid], f.flag, f.data)])
    else if f.flag != DATA then m
    else if hasRoom then Manager(m.streams[f.sid := Stream([], false, false)])
    else m
  }

  /** Only data opens a stream that is not known, and only if the accept queue has room; no frame touches another
      stream. */
  lemma OnlyDataOpens(m: Manager, f: StreamFrame, hasRoom: bool)
    ensures var t := ManagerDispatch(m, f, hasRoom).streams;
            && (f.sid in t <==> f.sid in m.streams || (f.flag == 0 && hasRoom))
            && (f.sid in t && f.sid !in m.streams ==> t[f.sid] == Stream([], false, false))
            && (forall sid :: sid != f.sid ==> (sid in t <==> sid in m.streams))
            && (forall sid :: sid != f.sid && sid in t ==> t[sid] == m.streams[sid])
  {
  }

  /** Deliver the chunks of a write in order; `room` tells, by chunks left, whether the accept queue has room. */
  function Deliver(m: Manager, sid: nat, chunks: seq<seq<byte>>, room: nat -> bool): Manager
    decreases |chunks|
  {
    if chunks == [] then m
    else Deliver(ManagerDispatch(m, StreamFrame(sid, DATA, chunks[0]), room(|chunks|)), sid, chunks[1..], room)
  }

  lemma {:induction false} KnownStreamGetsAll(m: Manager, sid: nat, chunks: seq<seq<byte>>, room: nat -> bool)
    requires sid in m.streams
    ensures Deliver(m, sid, chunks, room).Buffered(sid) == m.Buffered(sid) + Concat(chunks)
    decreases |chunks|
  {
    if chunks != [] {
      KnownStreamGetsAll(ManagerDispatch(m, StreamFrame(sid, DATA, chunks[0]), room(|chunks|)), sid, chunks[1..], room);
    }
  }

  lemma {:induction false} NeverMoreThanSent(m: Manager, sid: nat, chunks: seq<seq<byte>>, room: nat -> bool)
    ensures |Deliver(m, sid, chunks, room).Buffered(sid)| <= |m.Buffered(sid)| + |Concat(chunks)|
    decreases |chunks|
  {
    if chunks != [] {
      NeverMoreThanSent(ManagerDispatch(m, StreamFrame(sid, DATA, chunks[0]), room(|chunks|)), sid, chunks[1..], room);
    }
  }

  /** End to end, a write arrives whole exactly when the receiver already knew the stream (or nothing was written):
      the chunk that opens a stream is lost. */
  lemma WriteArrivesIffKnown(m: Manager, sid: nat, b: seq<byte>, chunks: seq<seq<byte>>, room: nat -> bool)
    requires Concat(chunks) == b && forall i :: 0 <= i < |chunks| ==> 0 < |chunks[i]|
    ensures Deliver(m, sid, chunks, room).Buffered(sid) == m.Buffered(sid) + b <==> sid in m.streams || b == []
  {
    if sid in m.streams {
      KnownStreamGetsAll(m, sid, chunks, room);
    } else if chunks != [] {
      var next := ManagerDispatch(m, StreamFrame(sid, DATA, chunks[0]), room(|chunks|));
      NeverMoreThanSent(next, sid, chunks[1..], room);
      assert |Concat(chunks)| == |chunks[0]| + |Concat(chunks[1..])|;
    }
  }

  // ----- the whole path -----

  /** What happens at the receiving end: datagrams come in, for any stream, and streams are read. */
  datatype NetEvent = Datagram(bytes: seq<byte>, hasRoom: bool) | ReadCall(sid: nat, max: nat)

  function ReceiveDatagram(m: Manager, bytes: seq<byte>, hasRoom: bool): Manager {
    match ParseFrame(bytes)
    case None => m
    case Some(f) => ManagerDispatch(m, f, hasRoom)
  }

  function ReadStream(m: Manager, sid: nat, n: nat): (Manager, seq<byte>) {
    if sid !in m.streams then (m, [])
    else (Manager(m.streams[sid := Read(m.streams[sid], n).1]), Taken(m.streams[sid], n))
  }

  /** The manager after a run, and all the bytes the reads of stream `sid` returned. */
  function Serve(m: Manager, evs: seq<NetEvent>, sid: nat): (Manager, seq<byte>)
    decreases |evs|
  {
    if evs == [] then (m, [])
    else
      match evs[0]
      case Datagram(bytes, hasRoom) => Serve(ReceiveDatagram(m, bytes, hasRoom), evs[1..], sid)
      case ReadCall(t, n) =>
        var (u, got) := Serve(ReadStream(m, t, n).0, evs[1..], sid);
        (u, (if t == sid then ReadStream(m, t, n).1 else []) + got)
  }

  predicate IsFor(bytes: seq<byte>, sid: nat) {
    ParseFrame(bytes).Some? && ParseFrame(bytes).value.sid == sid
  }

  /** What of an event concerns stream `sid`. */
  function Concerning(e: NetEvent, sid: nat): seq<Event> {
    match e
    case Datagram(bytes, _) =>
      if IsFor(bytes, sid) then [Arrives(ParseFrame(bytes).value.flag, ParseFrame(bytes).value.data)] else []
    case ReadCall(t, n) => if t == sid then [Reads(n)] else []
  }

  function Project(evs: seq<NetEvent>, sid: nat): seq<Event> {
    if evs == [] then [] else Concerning(evs[0], sid) + Project(evs[1..], sid)
  }

  /** The datagrams of a run that carry frames of stream `sid`. */
  function DatagramsFor(evs: seq<NetEvent>, sid: nat): seq<seq<byte>> {
    if evs == [] then []
    else (if evs[0].Datagram? && IsFor(evs[0].bytes, sid) then [evs[0].bytes] else []) + DatagramsFor(evs[1..], sid)
  }

  /** One event does to a known stream what its projection says; the events of other streams leave it alone. */
  lemma EventOnStream(m: Manager, e: NetEvent, sid: nat)
    requires sid in m.streams
    ensures var u := Serve(m, [e], sid);
            && sid in u.0.streams
            && (u.0.streams[sid], u.1) == Run(m.streams[sid], Concerning(e, sid))
  {
    assert [e][1..] == [];
    var s := m.streams[sid];
    match e
    case Datagram(bytes, hasRoom) =>
      if IsFor(bytes, sid) {
        var f := ParseFrame(bytes).value;
        assert [Arrives(f.flag, f.data)][1..] == [];
        assert Run(Dispatch(s, f.flag, f.data), []) == (Dispatch(s, f.flag, f.data), []);
      }
    case ReadCall(t, n) =>
      assert Serve(ReadStream(m, t, n).0, [], sid) == (ReadStream(m, t, n).0, []);
      if t == sid {
        assert [Reads(n)][1..] == [];
        assert Run(Read(s, n).1, []) == (Read(s, n).1, []);
      } else {
        var none: seq<byte> := [];
        assert none + none == none;
      }
  }

  lemma {:induction false} RunAppend(s: Stream, a: seq<Event>, b: seq<Event>)
    ensures Run(s, a + b) == (Run(Run(s, a).0, b).0, Run(s, a).1 + Run(Run(s, a).0, b).1)
    decreases |a|
  {
    if a == [] {
      assert a + b == b && [] + Run(s, b).1 == Run(s, b).1;
    } else {
      assert (a + b)[1..] == a[1..] + b && (a + b)[0] == a[0];
      match a[0]
      case Arrives(flag, data) => RunAppend(Dispatch(s, flag, data), a[1..], b);
      case Reads(n) =>
        var t := Read(s, n).1;
        RunAppend(t, a[1..], b);
        var got, more := Run(t, a[1..]).1, Run(Run(t, a[1..]).0, b).1;
        assert Taken(s, n) + (got + more) == Taken(s, n) + got + more;
    }
  }

  lemma ServeFirst(m: Manager, evs: seq<NetEvent>, sid: nat)
    requires evs != []
    ensures var u := Serve(m, [evs[0]], sid);
            Serve(m, evs, sid) == (Serve(u.0, evs[1..], sid).0, u.1 + Serve(u.0, evs[1..], sid).1)
  {
    assert [evs[0]][1..] == [];
    match evs[0]
    case Datagram(bytes, hasRoom) =>
      var m1 := ReceiveDatagram(m, bytes, hasRoom);
      assert Serve(m1, [], sid) == (m1, []);
      var later := Serve(m1, evs[1..], sid).1;
      assert [] + later == later;
    case ReadCall(t, n) =>
      var m1 := ReadStream(m, t, n).0;
      assert Serve(m1, [], sid) == (m1, []);
      var got := if t == sid then ReadStream(m, t, n).1 else [];
      assert got + [] == got;
  }

  /** Streams do not disturb each other: over every run, a known stream ends, and is read, as if it were alone with its
      own frames and its own reads. */
  lemma {:induction false} StreamsAreIndependent(m: Manager, evs: seq<NetEvent>, sid: nat)
    requires sid in m.streams
    ensures var u := Serve(m, evs, sid);
            && sid in u.0.streams
            && (u.0.streams[sid], u.1) == Run(m.streams[sid], Project(evs, sid))
    decreases |evs|
  {
    if evs != [] {
      hide Serve, Run, Concerning;
      var u := Serve(m, [evs[0]], sid);
      EventOnStream(m, evs[0], sid);
      StreamsAreIndependent(u.0, evs[1..], sid);
      ServeFirst(m, evs, sid);
      RunAppend(m.streams[sid], Concerning(evs[0], sid), Project(evs[1..], sid));
    }
  }

  /** If the datagrams of the stream are those of some chunks, its payloads are those chunks. */
  lemma {:induction false} PayloadsAreChunks(evs: seq<NetEvent>, sid: nat, chunks: seq<seq<byte>>)
    requires sid < Pow256(8) && DatagramsFor(evs, sid) == Datagrams(sid, chunks)
    ensures Payloads(Project(evs, sid)) == Concat(chunks) && NoReset(Project(evs, sid))
    decreases |evs|
  {
    if evs == [] {
      assert chunks == [];
    } else if evs[0].Datagram? && IsFor(evs[0].bytes, sid) {
      hide Pow256;
      assert DatagramsFor(evs, sid)[1..] == DatagramsFor(evs[1..], sid);
      assert chunks != [];
      var f := StreamFrame(sid, DATA, chunks[0]);
      assert evs[0].bytes == DatagramsFor(evs, sid)[0] == f.ToBytes();
      FrameRoundTrip(f);
      assert Datagrams(sid, chunks)[1..] == Datagrams(sid, chunks[1..]);
      PayloadsAreChunks(evs[1..], sid, chunks[1..]);
      ConsPayload(Arrives(DATA, chunks[0]), Project(evs[1..], sid));
    } else {
      assert DatagramsFor(evs, sid) == DatagramsFor(evs[1..], sid);
      PayloadsAreChunks(evs[1..], sid, chunks);
      if evs[0].ReadCall? && evs[0].sid == sid {
        ConsPayload(Reads(evs[0].max), Project(evs[1..], sid));
      } else {
        assert Project(evs, sid) == Project(evs[1..], sid);
      }
    }
  }

  lemma ConsPayload(e: Event, evs: seq<Event>)
    requires NoReset(evs) && !(e.Arrives? && e.flag == RESET)
    ensures NoReset([e] + evs)
    ensures Payloads([e] + evs) == (if e.Arrives? && e.flag == DATA then e.data else []) + Payloads(evs)
  {
    assert ([e] + evs)[1..] == evs;
  }

  /** From `Write` to the peer's reads, for a stream the peer knows: if the relay delivers the datagrams of a write in
      order, then whatever else arrives for other streams, and however reads are interleaved, the bytes read followed
      by those buffered are what was buffered before and then the bytes written. */
  lemma EndToEnd(m: Manager, evs: seq<NetEvent>, sid: nat, b: seq<byte>, chunks: seq<seq<byte>>)
    requires sid in m.streams && sid < Pow256(8)
    requires DatagramsFor(evs, sid) == Datagrams(sid, chunks) && Concat(chunks) == b
    ensures var u := Serve(m, evs, sid);
            u.1 + u.0.Buffered(sid) == m.Buffered(sid) + b
  {
    hide Serve, Run, Project, Datagrams, DatagramsFor, Concat;
    StreamsAreIndependent(m, evs, sid);
    PayloadsAreChunks(evs, sid, chunks);
    InOrderDelivery(m.streams[sid], Project(evs, sid));
  }

  // ----- stream numbers -----

  /** Byte-wise order of public keys. */
  predicate KeyLess(a: seq<byte>, b: seq<byte>) {
    if b == [] then false
    else if a == [] then true
    else a[0] < b[0] || (a[0] == b[0] && KeyLess(a[1..], b[1..]))
  }

  /** The smaller key is the one with the smaller byte where the two first differ, or the one that ends first. */
  lemma {:induction false} KeyLessIff(a: seq<byte>, b: seq<byte>)
    ensures KeyLess(a, b) <==>
            exists i :: 0 <= i <= |a| && i < |b| && a[..i] == b[..i] && (i == |a| || a[i] < b[i])
    decreases |a|
  {
    if b == [] || a == [] {
      assert a == [] && b != [] ==> a[..0] == b[..0];
    } else if a[0] != b[0] {
      assert a[..0] == b[..0];
      assert forall i :: 1 <= i <= |a| && i < |b| ==> a[..i][0] != b[..i][0];
    } else {
      KeyLessIff(a[1..], b[1..]);
      if KeyLess(a, b) {
        var i :| 0 <= i <= |a[1..]| && i < |b[1..]| && a[1..][..i] == b[1..][..i]
                 && (i == |a[1..]| || a[1..][i] < b[1..][i]);
        ShiftedPrefix(a, b, i);
        assert a[..i + 1] == b[..i + 1];
      }
      if i :| 0 <= i <= |a| && i < |b| && a[..i] == b[..i] && (i == |a| || a[i] < b[i]) {
        assert i > 0;
        assert a[1..][..i - 1] == a[..i][1..] && b[1..][..i - 1] == b[..i][1..];
      }
    }
  }

  lemma ShiftedPrefix(a: seq<byte>, b: seq<byte>, i: nat)
    requires a != [] && b != [] && a[0] == b[0] && i < |a| && i < |b| && a[1..][..i] == b[1..][..i]
    ensures a[..i + 1] == b[..i + 1]
  {
    assert a[..i + 1] == [a[0]] + a[1..][..i] && b[..i + 1] == [b[0]] + b[1..][..i];
  }

  lemma {:induction false} KeysCompare(a: seq<byte>, b: seq<byte>)
    requires a != b
    ensures KeyLess(a, b) != KeyLess(b, a)
  {
    if a != [] && b != [] && a[0] == b[0] {
      TailsDiffer(a, b);
      KeysCompare(a[1..], b[1..]);
    }
  }

  lemma TailsDiffer(a: seq<byte>, b: seq<byte>)
    requires a != b && a != [] && b != [] && a[0] == b[0]
    ensures a[1..] != b[1..]
  {
    assert a == [a[0]] + a[1..] && b == [b[0]] + b[1..];
  }

  function OddBit(local: seq<byte>, remote: seq<byte>): nat { if KeyLess(local, remote) then 1 else 0 }

  /** The `k`-th number an end allocates. */
  function NthId(local: seq<byte>, remote: seq<byte>, k: nat): nat {
    Or(STREAM_ID_BASE + 2 * k, OddBit(local, remote))
  }

  /** The numbering of the streams one end opens; `count` is how many it has opened. */
  class StreamIds {
    const local: seq<byte>
    const remote: seq<byte>
    const oddBit: nat
    var nextId: nat
    ghost var count: nat

    ghost predicate Valid()
      reads this
    {
      oddBit == OddBit(local, remote) && nextId == STREAM_ID_BASE + 2 * count
    }

    constructor (localPub: seq<byte>, remotePub: seq<byte>)
      ensures Valid() && local == localPub && remote == remotePub && count == 0
    {
      local, remote := localPub, remotePub;
      oddBit, nextId, count := OddBit(localPub, remotePub), STREAM_ID_BASE, 0;
    }

    /** Hands out the numbers one after the other: none this end handed out before, none the other end ever will. */
    method AllocId() returns (id: nat)
      requires Valid()
      modifies this
      ensures Valid() && count == old(count) + 1 && id == NthId(local, remote, old(count))
      ensures id == 1000 + 2 * old(count) + if KeyLess(local, remote) then 1 else 0
      ensures forall k: nat :: k < old(count) ==> id != NthId(local, remote, k)
      ensures local != remote ==> forall k: nat :: id != NthId(remote, local, k)
    {
      nextId, count := nextId + 2, count + 1;
      id := Or(nextId - 2, oddBit);
      OrLowBit(nextId - 2, oddBit);
      forall k: nat
        ensures k < count - 1 ==> id != NthId(local, remote, k)
        ensures local != remote ==> id != NthId(remote, local, k)
      {
        OwnIdsDiffer(local, remote, count - 1, k);
        if local != remote {
          StreamIdsNeverCollide(local, remote, count - 1, k);
        }
      }
    }
  }

  lemma OrLowBit(n: nat, bit: nat)
    requires n % 2 == 0 && bit <= 1
    ensures Or(n, bit) == n + bit
  {
  }

  lemma OwnIdsDiffer(a: seq<byte>, b: seq<byte>, i: nat, j: nat)
    ensures NthId(a, b, i) == NthId(a, b, j) <==> i == j
  {
    OrLowBit(STREAM_ID_BASE + 2 * i, OddBit(a, b));
    OrLowBit(STREAM_ID_BASE + 2 * j, OddBit(a, b));
  }

  /** An end never reuses a number, and the two ends of a pair never pick the same one. */
  lemma StreamIdsNeverCollide(a: seq<byte>, b: seq<byte>, i: nat, j: nat)
    requires a != b
    ensures NthId(a, b, i) == NthId(a, b, j) <==> i == j
    ensures NthId(a, b, i) != NthId(b, a, j)
  {
    OwnIdsDiffer(a, b, i, j);
    KeysCompare(a, b);
    OrLowBit(STREAM_ID_BASE + 2 * i, OddBit(a, b));
    OrLowBit(STREAM_ID_BASE + 2 * j, OddBit(b, a));
  }
}
