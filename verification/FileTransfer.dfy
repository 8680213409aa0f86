/** The chunked file transfer: sender and receiver as step machines over two FIFO channels,
    with batched acknowledgements, reconnection and resume. */
module FileTransfer {
  import opened Common
  import opened Bytes
  import opened Frames
  import Bitmap

  const CHUNK: nat := 65536
  const ACK_BATCH: nat := 8

  /** Chunks needed for `size` bytes, a partial one included. */
  function ChunksFor(size: nat, chunk: nat): nat
    requires chunk > 0
  {
    size / chunk + if size % chunk != 0 then 1 else 0
  }

  datatype Job = Job(source: seq<byte>, zstd: bool, codec: Codec, digest: seq<byte> -> seq<byte>) {
    function Total(): nat { ChunksFor(|source|, CHUNK) }

    /** The compressor inverts and the file size is a signed 64-bit number. */
    ghost predicate Sane() { codec.Invertible() && |source| < TWO_63 }

    function FirstChunks(k: nat): seq<byte> { source[..Min(k * CHUNK, |source|)] }

    /** What a read of one chunk at file offset `pos` gives; empty at or past the end. */
    function ReadAt(pos: nat): seq<byte> {
      if pos >= |source| then [] else source[pos..Min(pos + CHUNK, |source|)]
    }

    function DataMsg(k: nat): Msg { Data(DataPayload(codec, k, ReadAt(k * CHUNK), zstd)) }

    /** The DATA messages of chunks `i` to `j - 1`. */
    function DataMsgs(i: nat, j: nat): seq<Msg>
      decreases j - i
    {
      if i >= j then [] else [DataMsg(i)] + DataMsgs(i + 1, j)
    }

    function InitMsg(offset: nat): Msg { Init(CHUNK, Total(), digest(source), offset, zstd) }
  }

  datatype Msg =
    | Init(chunkSize: nat, total: nat, checksum: seq<byte>, offset: nat, zstd: bool)
    | Accept(offset: nat)
    | Data(payload: seq<byte>)
    | Ack(cs: nat)
    | Fin(total: nat, checksum: seq<byte>)
    | Done
    | Error

  // ----- the receiver -----

  datatype Session = Session(total: nat, checksum: seq<byte>, zstd: bool, have: set<nat>,
                             writeAt: nat, doneBytes: nat, lastAck: nat, startSeq: nat)

  function FullPrefixFrom(have: set<nat>, limit: nat, n: nat): (r: nat)
    requires n <= limit
    ensures n <= r <= limit && (forall k: nat :: n <= k < r ==> k in have) && (r < limit ==> r !in have)
    decreases limit - n
  {
    if n < limit && n in have then FullPrefixFrom(have, limit, n + 1) else n
  }

  function FullPrefix(have: set<nat>, limit: nat): (n: nat)
    ensures Bitmap.IsFullPrefix(have, limit, n)
  {
    FullPrefixFrom(have, limit, 0)
  }

  function Below(n: nat): (s: set<nat>)
    ensures forall k: nat :: k in s <==> k < n
  {
    if n == 0 then {} else Below(n - 1) + {n - 1}
  }

  /** Writing at a file offset: overwrites, and fills a gap past the end with zeros. */
  function WriteFile(file: seq<byte>, at: nat, data: seq<byte>): seq<byte> {
    if at > |file| then file + seq(at - |file|, _ => 0) + data
    else file[..at] + data + if at + |data| <= |file| then file[at + |data|..] else []
  }

  /** Bits the bitmap has room for. */
  function Capacity(total: nat): nat { (total + 63) / 64 * 64 }

  /** Counting the chunks of a part file divides by the chunk size that the sender names. */
  predicate OpenPanics(init: Msg, part: Option<seq<byte>>)
    requires init.Init?
  {
    init.offset > 0 && part.Some? && init.chunkSize == 0
  }

  /** Start of a session: resume from the part file if asked to and there is one, else start it afresh. */
  function Open(init: Msg, part: Option<seq<byte>>): (r: (Session, seq<byte>))
    requires init.Init? && !OpenPanics(init, part)
  {
    var resume := init.offset > 0 && part.Some?;
    var file := if resume then part.value else [];
    var written := if resume then ChunksFor(|file|, init.chunkSize) else 0;
    var have := Below(Min(written, init.total));
    var prefix := FullPrefix(have, init.total);
    var start := if prefix > written then prefix else written;
    (Session(init.total, init.checksum, init.zstd, have, start * init.chunkSize, |file|, start, start), file)
  }

  /** Store a chunk unless it is already there; one whose number has no bit is stored each time. */
  function StoreChunk(s: Session, file: seq<byte>, seqNo: int, data: seq<byte>): (Session, seq<byte>) {
    if 0 <= seqNo && seqNo in s.have then (s, file)
    else (s.(have := if 0 <= seqNo < Capacity(s.total) then s.have + {seqNo} else s.have,
             writeAt := s.writeAt + |data|,
             doneBytes := s.doneBytes + |data|),
          WriteFile(file, s.writeAt, data))
  }

  /** Acknowledge the longest full prefix when it completes a batch or the file. */
  function Acknowledge(s: Session): (Session, Option<nat>) {
    var n := FullPrefix(s.have, s.total);
    if (n - s.lastAck >= ACK_BATCH || n >= s.total) && n > s.lastAck then (s.(lastAck := n), Some(n - 1)) else (s, None)
  }

  /** One DATA frame. */
  function TakeData(s: Session, file: seq<byte>, seqNo: int, data: seq<byte>): (Session, seq<byte>, Option<nat>) {
    var (s1, file1) := StoreChunk(s, file, seqNo, data);
    var (s2, ack) := Acknowledge(s1);
    (s2, file1, ack)
  }

  // ----- both ends and the channels -----

  datatype Sender =
    | WantInit(offset: nat)
    | WantAccept(offset: nat)
    | Sending(seqNo: nat, batchEnd: nat, pos: nat)
    | WantAck(seqNo: nat)
    | ReadyFin
    | WantDone
    | SentAll

  datatype Receiver = NoSession | Active(session: Session) | Stored | Failed | Crashed

  datatype World = World(sender: Sender, receiver: Receiver, part: Option<seq<byte>>, saved: Option<seq<byte>>,
                         fwd: seq<Msg>, back: seq<Msg>)

  datatype Action =
    | SendInit | OpenSession | TakeAccept | SendChunk | ReceiveData | TakeAck
    | SendFin | ReceiveFin | TakeDone
    | Reconnect(keepPart: bool)

  function StartBatch(job: Job, seqNo: nat): Sender {
    if seqNo < job.Total() then Sending(seqNo, Min(seqNo + ACK_BATCH, job.Total()), seqNo * CHUNK) else ReadyFin
  }

  /** Batches are of eight chunks of 64 KiB, the last one perhaps shorter. */
  lemma BatchesOfEight(job: Job, n: nat)
    requires n * 65536 < |job.source|
    ensures var s := StartBatch(job, n);
            && s.Sending? && s.seqNo == n && s.pos == n * 65536
            && (s.batchEnd == n + 8
                || (s.batchEnd < n + 8 && |job.source| <= s.batchEnd * 65536 < |job.source| + 65536))
  {
    ChunkBounds(job, n);
  }

  function DoSendInit(job: Job, w: World): Option<World> {
    if !w.sender.WantInit? then None
    else Some(w.(sender := WantAccept(w.sender.offset), fwd := w.fwd + [job.InitMsg(w.sender.offset)]))
  }

  function DoOpenSession(job: Job, w: World): Option<World> {
    if !(w.receiver.NoSession? && w.fwd != [] && w.fwd[0].Init?) then None
    else if OpenPanics(w.fwd[0], w.part) then Some(w.(receiver := Crashed, fwd := w.fwd[1..]))
    else
      var (s, file) := Open(w.fwd[0], w.part);
      Some(w.(receiver := Active(s), part := Some(file), fwd := w.fwd[1..], back := w.back + [Accept(s.startSeq)]))
  }

  function DoTakeAccept(job: Job, w: World): Option<World> {
    if !(w.sender.WantAccept? && w.back != [] && w.back[0].Accept?) then None
    else Some(w.(sender := StartBatch(job, w.back[0].offset), back := w.back[1..]))
  }

  function DoSendChunk(job: Job, w: World): Option<World> {
    if !w.sender.Sending? then None
    else
      var n, chunk := w.sender.seqNo, job.ReadAt(w.sender.pos);
      if chunk == [] then Some(w.(sender := WantAck(n)))
      else Some(w.(fwd := w.fwd + [Data(DataPayload(job.codec, n, chunk, job.zstd))],
                   sender := if n + 1 < w.sender.batchEnd then Sending(n + 1, w.sender.batchEnd, w.sender.pos + |chunk|)
                   else WantAck(n + 1)))
  }

  function DoReceiveData(job: Job, w: World): Option<World> {
    if !(w.receiver.Active? && w.part.Some? && w.fwd != [] && w.fwd[0].Data?) then None
    else
      var r := ReadDataPayload(job.codec, w.fwd[0].payload, w.receiver.session.zstd);
      if r.None? then Some(w.(receiver := Failed, part := None, fwd := w.fwd[1..], back := w.back + [Error]))
      else if !Bitmap.InRange(r.value.0) then Some(w.(receiver := Crashed, fwd := w.fwd[1..]))
      else
        var (s, file, ack) := TakeData(w.receiver.session, w.part.value, r.value.0, r.value.1);
        Some(w.(receiver := Active(s), part := Some(file), fwd := w.fwd[1..],
                back := if ack.Some? then w.back + [Ack(ack.value)] else w.back))
  }

  function DoTakeAck(job: Job, w: World): Option<World> {
    if !(w.sender.WantAck? && w.back != [] && w.back[0].Ack?) then None
    else Some(w.(sender := StartBatch(job, w.back[0].cs + 1), back := w.back[1..]))
  }

  function DoSendFin(job: Job, w: World): Option<World> {
    if !w.sender.ReadyFin? then None
    else Some(w.(sender := WantDone, fwd := w.fwd + [Fin(job.Total(), job.digest(job.source))]))
  }

  function DoReceiveFin(job: Job, w: World): Option<World> {
    if !(w.receiver.Active? && w.fwd != [] && w.fwd[0].Fin?) then None
    else if w.part.Some? && w.fwd[0].checksum == w.receiver.session.checksum == job.digest(w.part.value)
    then Some(w.(receiver := Stored, saved := w.part, part := None, fwd := w.fwd[1..], back := w.back + [Done]))
    else Some(w.(receiver := Failed, part := None, fwd := w.fwd[1..], back := w.back + [Error]))
  }

  function DoTakeDone(job: Job, w: World): Option<World> {
    if !(w.sender.WantDone? && w.back != [] && w.back[0].Done?) then None
    else Some(w.(sender := SentAll, back := w.back[1..]))
  }

  function DoReconnect(job: Job, w: World, keepPart: bool): Option<World> {
    if !w.sender.WantAck? then None
    else Some(World(WantInit(w.sender.seqNo), NoSession, if keepPart then w.part else None, w.saved, [], []))
  }

  /** The state after an action, or None when it cannot happen. `Reconnect` is the sender giving up on an
      acknowledgement: the stream and what it carried are gone, and the part file may or may not be. */
  function Next(job: Job, w: World, a: Action): Option<World> {
    match a
    case SendInit => DoSendInit(job, w)
    case OpenSession => DoOpenSession(job, w)
    case TakeAccept => DoTakeAccept(job, w)
    case SendChunk => DoSendChunk(job, w)
    case ReceiveData => DoReceiveData(job, w)
    case TakeAck => DoTakeAck(job, w)
    case SendFin => DoSendFin(job, w)
    case ReceiveFin => DoReceiveFin(job, w)
    case TakeDone => DoTakeDone(job, w)
    case Reconnect(keepPart) => DoReconnect(job, w, keepPart)
  }

  /** A fresh transfer, whatever lies around at the part and final paths. */
  function Begin(part: Option<seq<byte>>, saved: Option<seq<byte>>): World {
    World(WantInit(0), NoSession, part, saved, [], [])
  }

  /** What cannot be read, and an end that does not fit, fail the session: the sender hears of it, the part file goes,
      and what was stored before stays. */
  lemma ErrorsEnd(job: Job, w: World)
    requires w.receiver.Active? && w.fwd != []
    ensures w.fwd[0].Data? && w.part.Some?
            && ReadDataPayload(job.codec, w.fwd[0].payload, w.receiver.session.zstd).None? ==>
              Next(job, w, ReceiveData) ==
              Some(w.(receiver := Failed, part := None, fwd := w.fwd[1..], back := w.back + [Error]))
    ensures w.fwd[0].Fin?
            && (w.part.None? || w.fwd[0].checksum != w.receiver.session.checksum
                || job.digest(w.part.value) != w.receiver.session.checksum) ==>
              Next(job, w, ReceiveFin) ==
              Some(w.(receiver := Failed, part := None, fwd := w.fwd[1..], back := w.back + [Error]))
  {
    hide TakeData, ReadDataPayload;
  }

  // ----- chunks of the source -----

  lemma ChunkBounds(job: Job, k: nat)
    ensures k < job.Total() <==> k * CHUNK < |job.source|
  {
  }

  lemma NextChunk(job: Job, k: nat)
    requires k < job.Total()
    ensures job.ReadAt(k * CHUNK) != []
    ensures |job.FirstChunks(k)| == k * CHUNK
    ensures job.FirstChunks(k) + job.ReadAt(k * CHUNK) == job.FirstChunks(k + 1)
    ensures k + 1 < job.Total() ==> |job.ReadAt(k * CHUNK)| == CHUNK
  {
    ChunkBounds(job, k);
    ChunkBounds(job, k + 1);
  }

  lemma AllChunks(job: Job)
    ensures job.FirstChunks(job.Total()) == job.source
  {
    ChunkBounds(job, job.Total());
  }

  /** Counting the chunks of a whole-chunk prefix recovers their number. */
  lemma PrefixCount(job: Job, k: nat)
    requires k <= job.Total()
    ensures ChunksFor(|job.FirstChunks(k)|, CHUNK) == k
  {
    if k < job.Total() {
      NextChunk(job, k);
    } else {
      AllChunks(job);
    }
  }

  lemma FullPrefixBelow(n: nat, limit: nat)
    requires n <= limit
    ensures FullPrefix(Below(n), limit) == n
  {
    Bitmap.FullPrefixIsUnique(Below(n), limit, FullPrefix(Below(n), limit), n);
  }

  lemma {:induction false} DataMsgsSnoc(job: Job, i: nat, j: nat)
    requires i <= j
    ensures job.DataMsgs(i, j + 1) == job.DataMsgs(i, j) + [job.DataMsg(j)]
    decreases j - i
  {
    if i < j {
      DataMsgsSnoc(job, i + 1, j);
    } else {
      assert job.DataMsgs(i + 1, j + 1) == [];
    }
  }

  // ----- the invariant -----

  /** The session holds exactly the first `k` chunks, in the bitmap, in the file and in its counters. */
  ghost predicate Holds(job: Job, s: Session, file: seq<byte>, k: nat) {
    && s.total == job.Total() && s.checksum == job.digest(job.source) && s.zstd == job.zstd
    && k <= job.Total() && s.have == Below(k) && s.lastAck <= k
    && file == job.FirstChunks(k) && s.doneBytes == |file|
    && (k < job.Total() ==> s.writeAt == k * CHUNK)
  }

  ghost predicate HoldsNow(job: Job, w: World, k: nat) {
    w.receiver.Active? && w.part.Some? && Holds(job, w.receiver.session, w.part.value, k)
  }

  /** A part file a resuming session may be handed: none, or a whole-chunk prefix. */
  ghost predicate PartOk(job: Job, part: Option<seq<byte>>) {
    part.Some? ==> exists k: nat :: k <= job.Total() && part.value == job.FirstChunks(k)
  }

  function Held(w: World): nat {
    if w.receiver.Active? then FullPrefix(w.receiver.session.have, w.receiver.session.total) else 0
  }

  ghost predicate Inv(job: Job, w: World) {
    var k := Held(w);
    match w.sender
    case WantInit(offset) =>
      w.fwd == [] && w.back == [] && w.receiver.NoSession? && (offset > 0 ==> PartOk(job, w.part))
    case WantAccept(offset) =>
      || (&& w.fwd == [job.InitMsg(offset)] && w.back == [] && w.receiver.NoSession?
          && (offset > 0 ==> PartOk(job, w.part)))
      || (w.fwd == [] && w.back == [Accept(k)] && HoldsNow(job, w, k) && w.receiver.session.lastAck == k)
    case Sending(n, end, pos) =>
      && HoldsNow(job, w, k) && k <= n < end && pos == n * CHUNK
      && end == Min(w.receiver.session.lastAck + ACK_BATCH, job.Total())
      && w.fwd == job.DataMsgs(k, n) && w.back == []
    case WantAck(n) =>
      && HoldsNow(job, w, k) && k <= n <= job.Total() && w.fwd == job.DataMsgs(k, n)
      && (if k < n then w.back == [] && n == Min(w.receiver.session.lastAck + ACK_BATCH, job.Total())
          else n > 0 && w.back == [Ack(n - 1)] && w.receiver.session.lastAck == n)
    case ReadyFin =>
      w.fwd == [] && w.back == [] && HoldsNow(job, w, job.Total())
    case WantDone =>
      || (w.fwd == [Fin(job.Total(), job.digest(job.source))] && w.back == [] && HoldsNow(job, w, job.Total()))
      || (w.fwd == [] && w.back == [Done] && w.receiver.Stored? && w.saved == Some(job.source))
    case SentAll => w.fwd == [] && w.back == [] && w.receiver.Stored? && w.saved == Some(job.source)
  }

  lemma HeldIs(job: Job, w: World, k: nat)
    requires HoldsNow(job, w, k)
    ensures Held(w) == k
  {
    FullPrefixBelow(k, job.Total());
  }

  /** A session holds a whole-chunk prefix of the source exactly if it starts afresh or resumes from one; and then it
      starts where that prefix ends. */
  lemma OpenHolds(job: Job, offset: nat, part: Option<seq<byte>>)
    ensures var (s, file) := Open(job.InitMsg(offset), part);
            && ((exists k: nat :: Holds(job, s, file, k)) <==> offset == 0 || PartOk(job, part))
            && (offset == 0 || PartOk(job, part) ==> s.startSeq == s.lastAck && Holds(job, s, file, s.startSeq))
  {
    var (s, file) := Open(job.InitMsg(offset), part);
    if offset > 0 && part.Some? {
      if PartOk(job, part) {
        var k: nat :| k <= job.Total() && part.value == job.FirstChunks(k);
        PrefixCount(job, k);
        FullPrefixBelow(k, job.Total());
        assert Holds(job, s, file, s.startSeq);
      }
    } else {
      FullPrefixBelow(0, job.Total());
      assert Holds(job, s, file, s.startSeq);
    }
  }

  /** Where a session that resumes starts: behind the last chunk that the part file reaches into, even if that is beyond
      the end of the source. */
  lemma ResumePoint(job: Job, offset: nat, file: seq<byte>)
    requires offset > 0
    ensures var s := Open(job.InitMsg(offset), Some(file)).0;
            && |file| <= s.startSeq * CHUNK < |file| + CHUNK
            && s.writeAt == s.startSeq * CHUNK && s.lastAck == s.startSeq && s.doneBytes == |file|
            && s.have == Below(Min(s.startSeq, job.Total()))
  {
    FullPrefixBelow(Min(ChunksFor(|file|, CHUNK), job.Total()), job.Total());
  }

  /** A part file that ends inside a chunk has that chunk counted as done: the sender will skip its rest. */
  lemma PartialChunkIsSkipped(job: Job, offset: nat, file: seq<byte>)
    requires offset > 0 && |file| % CHUNK != 0 && |file| < |job.source|
    ensures var s := Open(job.InitMsg(offset), Some(file)).0;
            && |file| / CHUNK in s.have && s.startSeq == |file| / CHUNK + 1
            && !PartOk(job, Some(file))
  {
    var n := |file| / CHUNK + 1;
    ChunkBounds(job, n - 1);
    FullPrefixBelow(n, job.Total());
    forall k: nat | k <= job.Total()
      ensures file != job.FirstChunks(k)
    {
      assert k * CHUNK % CHUNK == 0;
    }
  }

  /** The next chunk in order is appended, and acknowledged exactly at the end of its batch. */
  lemma TakeNext(job: Job, s: Session, file: seq<byte>, k: nat)
    requires k < job.Total() && Holds(job, s, file, k)
    requires k < s.lastAck + ACK_BATCH
    ensures var (t, g, ack) := TakeData(s, file, k, job.ReadAt(k * CHUNK));
            && Holds(job, t, g, k + 1)
            && (if k + 1 == Min(s.lastAck + ACK_BATCH, job.Total()) then ack == Some(k) && t.lastAck == k + 1
                else ack == None && t.lastAck == s.lastAck)
  {
    NextChunk(job, k);
    assert Below(k) + {k} == Below(k + 1);
    FullPrefixBelow(k + 1, job.Total());
    var g := WriteFile(file, s.writeAt, job.ReadAt(k * CHUNK));
    assert g == file + job.ReadAt(k * CHUNK);
  }

  // ----- every step keeps the invariant -----

  lemma OpenKeepsInv(job: Job, w: World)
    requires Inv(job, w) && Next(job, w, OpenSession).Some?
    ensures Inv(job, Next(job, w, OpenSession).value)
  {
    var offset := w.sender.offset;
    assert w.fwd == [job.InitMsg(offset)];
    OpenHolds(job, offset, w.part);
    var v := Next(job, w, OpenSession).value;
    HeldIs(job, v, v.receiver.session.startSeq);
  }

  lemma StartKeepsInv(job: Job, w: World, k: nat)
    requires HoldsNow(job, w, k) && w.receiver.session.lastAck == k && w.fwd == [] && w.back == []
    requires w.sender == StartBatch(job, k)
    ensures Inv(job, w)
  {
    HeldIs(job, w, k);
  }

  lemma SendKeepsInv(job: Job, w: World)
    requires Inv(job, w) && w.sender.Sending?
    ensures Inv(job, Next(job, w, SendChunk).value)
  {
    hide FullPrefix, Holds, DataPayload;
    var k, n := Held(w), w.sender.seqNo;
    NextChunk(job, n);
    DataMsgsSnoc(job, k, n);
  }

  lemma DataMsgsFront(job: Job, k: nat, n: nat)
    requires job.DataMsgs(k, n) != []
    ensures k < n && job.DataMsgs(k, n)[0] == job.DataMsg(k) && job.DataMsgs(k, n)[1..] == job.DataMsgs(k + 1, n)
  {
  }

  lemma ReadsBack(job: Job, k: nat)
    requires job.Sane() && k < job.Total()
    ensures ReadDataPayload(job.codec, job.DataMsg(k).payload, job.zstd) == Some((k, job.ReadAt(k * CHUNK)))
  {
    ChunkBounds(job, k);
    Widths();
    hide ReadDataPayload, DataPayload;
    DataRoundTrip(job.codec, k, job.ReadAt(k * CHUNK), job.zstd);
  }

  /** In a good state the front of the data channel is the very chunk the receiver lacks next. */
  lemma FrontIsNextChunk(job: Job, w: World)
    requires Inv(job, w) && w.receiver.Active? && w.fwd != [] && w.fwd[0].Data?
    ensures var k := Held(w);
            && HoldsNow(job, w, k) && w.part.Some?
            && k < job.Total() && k < w.receiver.session.lastAck + ACK_BATCH
            && (w.sender.Sending? || w.sender.WantAck?) && k < w.sender.seqNo && w.back == []
            && w.fwd == job.DataMsgs(k, w.sender.seqNo) && w.fwd[0] == job.DataMsg(k)
            && w.receiver.session.zstd == job.zstd
  {
    hide FullPrefix, DataPayload;
    DataMsgsFront(job, Held(w), w.sender.seqNo);
  }

  lemma ReceiveOne(job: Job, w: World, k: nat, data: seq<byte>)
    requires w.receiver.Active? && w.part.Some? && w.fwd != [] && w.fwd[0].Data? && w.back == []
    requires ReadDataPayload(job.codec, w.fwd[0].payload, w.receiver.session.zstd) == Some((k, data))
    ensures var r := TakeData(w.receiver.session, w.part.value, k, data);
            DoReceiveData(job, w) ==
            Some(w.(receiver := Active(r.0), part := Some(r.1), fwd := w.fwd[1..],
                    back := if r.2.Some? then [Ack(r.2.value)] else []))
  {
    hide ReadDataPayload, TakeData;
    var r := TakeData(w.receiver.session, w.part.value, k, data);
    assert r.2.Some? ==> w.back + [Ack(r.2.value)] == [Ack(r.2.value)];
  }

  lemma ReceiveShape(job: Job, w: World)
    requires job.Sane() && Inv(job, w) && w.receiver.Active? && w.fwd != [] && w.fwd[0].Data?
    ensures var k := Held(w);
            w.part.Some? &&
            var r := TakeData(w.receiver.session, w.part.value, k, job.ReadAt(k * CHUNK));
            DoReceiveData(job, w) ==
            Some(w.(receiver := Active(r.0), part := Some(r.1), fwd := job.DataMsgs(k + 1, w.sender.seqNo),
                    back := if r.2.Some? then [Ack(r.2.value)] else []))
  {
    hide *;
    FrontIsNextChunk(job, w);
    ReadsBack(job, Held(w));
    DataMsgsFront(job, Held(w), w.sender.seqNo);
    ReceiveOne(job, w, Held(w), job.ReadAt(Held(w) * CHUNK));
  }

  lemma ReceiveKeepsInv(job: Job, w: World)
    requires job.Sane() && Inv(job, w) && w.receiver.Active? && w.fwd != [] && w.fwd[0].Data?
    ensures DoReceiveData(job, w).Some? && Inv(job, DoReceiveData(job, w).value)
  {
    hide *;
    ReceiveShape(job, w);
    FrontIsNextChunk(job, w);
    BatchEndKept(job, w);
    TakeNextNow(job, w, Held(w));
    AfterTake(job, w, DoReceiveData(job, w).value, Held(w),
              TakeData(w.receiver.session, w.part.value, Held(w), job.ReadAt(Held(w) * CHUNK)));
  }

  lemma TakeNextNow(job: Job, w: World, k: nat)
    requires HoldsNow(job, w, k) && k < job.Total() && k < w.receiver.session.lastAck + ACK_BATCH
    ensures var r := TakeData(w.receiver.session, w.part.value, k, job.ReadAt(k * CHUNK));
            && Holds(job, r.0, r.1, k + 1)
            && (if k + 1 == BatchEnd(job, w) then r.2 == Some(k) && r.0.lastAck == k + 1
                else r.2 == None && r.0.lastAck == w.receiver.session.lastAck)
  {
    hide TakeData, Job.ReadAt, Job.Total, Holds;
    TakeNext(job, w.receiver.session, w.part.value, k);
  }

  lemma AfterTake(job: Job, w: World, v: World, k: nat, r: (Session, seq<byte>, Option<nat>))
    requires w.receiver.Active? && k < job.Total() && k < w.receiver.session.lastAck + ACK_BATCH
    requires w.sender.Sending? || w.sender.WantAck?
    requires k < w.sender.seqNo
    requires if w.sender.Sending? then w.sender.batchEnd == BatchEnd(job, w) && w.sender.seqNo < BatchEnd(job, w)
                                       && w.sender.pos == w.sender.seqNo * CHUNK
             else w.sender.seqNo == BatchEnd(job, w)
    requires Holds(job, r.0, r.1, k + 1)
    requires if k + 1 == BatchEnd(job, w) then r.2 == Some(k) && r.0.lastAck == k + 1
             else r.2 == None && r.0.lastAck == w.receiver.session.lastAck
    requires v == w.(receiver := Active(r.0), part := Some(r.1), fwd := job.DataMsgs(k + 1, w.sender.seqNo),
                     back := if r.2.Some? then [Ack(r.2.value)] else [])
    ensures Inv(job, v)
  {
    hide Holds, Job.DataMsgs, Job.Total, FullPrefix;
    HeldIs(job, v, k + 1);
    hide Inv, Held;
    InBatch(job, v, k + 1, BatchEnd(job, w));
  }

  /** Where the batch in progress ends, going by the receiver's last acknowledgement. */
  function BatchEnd(job: Job, w: World): nat
    requires w.receiver.Active?
  {
    Min(w.receiver.session.lastAck + ACK_BATCH, job.Total())
  }

  lemma BatchEndKept(job: Job, w: World)
    requires Inv(job, w) && (w.sender.Sending? || w.sender.WantAck?) && Held(w) < w.sender.seqNo
    ensures w.receiver.Active?
    ensures var end := BatchEnd(job, w);
            if w.sender.Sending? then
              w.sender.batchEnd == end && w.sender.seqNo < end && w.sender.pos == w.sender.seqNo * CHUNK
            else
              w.sender.seqNo == end
  {
    hide FullPrefix, Holds;
  }

  /** The shape of the invariant inside a batch that ends at `end`, when the receiver holds `k` chunks. */
  lemma InBatch(job: Job, v: World, k: nat, end: nat)
    requires HoldsNow(job, v, k) && Held(v) == k
    requires if v.sender.Sending? then
               v.sender.batchEnd == end && k <= v.sender.seqNo < end && v.sender.pos == v.sender.seqNo * CHUNK
             else
               v.sender.WantAck? && k <= v.sender.seqNo == end
    requires v.fwd == job.DataMsgs(k, v.sender.seqNo) && 0 < end <= job.Total()
    requires if k == end then v.back == [Ack(k - 1)] && v.receiver.session.lastAck == k
             else v.back == [] && end == BatchEnd(job, v)
    ensures Inv(job, v)
  {
    hide FullPrefix, Holds;
  }

  lemma FinKeepsInv(job: Job, w: World)
    requires Inv(job, w) && w.sender.WantDone? && Next(job, w, ReceiveFin).Some?
    ensures Inv(job, Next(job, w, ReceiveFin).value)
  {
    AllChunks(job);
  }

  lemma FinMeansDone(job: Job, w: World)
    requires Inv(job, w) && Next(job, w, ReceiveFin).Some?
    ensures w.sender.WantDone?
  {
    if w.sender.Sending? || w.sender.WantAck? {
      DataMsgsFront(job, Held(w), w.sender.seqNo);
    }
  }

  lemma QuietKeepsInv(job: Job, w: World, a: Action)
    requires a.SendInit? || a.SendFin? || a.TakeDone? || a.Reconnect?
    requires Inv(job, w) && Next(job, w, a).Some?
    ensures Inv(job, Next(job, w, a).value)
  {
    hide FullPrefix, Open, TakeData, ReadDataPayload;
  }

  lemma BatchKeepsInv(job: Job, w: World, a: Action)
    requires a.TakeAccept? || a.TakeAck?
    requires Inv(job, w) && Next(job, w, a).Some?
    ensures Inv(job, Next(job, w, a).value)
  {
    hide FullPrefix, Open, TakeData, ReadDataPayload, Holds;
    if w.sender.WantAck? && Held(w) == w.sender.seqNo {
      assert w.fwd == [];
    }
    StartKeepsInv(job, Next(job, w, a).value, Held(w));
  }

  lemma StepKeepsInv(job: Job, w: World, a: Action)
    requires job.Sane() && Inv(job, w) && Next(job, w, a).Some?
    ensures Inv(job, Next(job, w, a).value)
  {
    hide Inv;
    match a
    case OpenSession => OpenKeepsInv(job, w);
    case SendChunk => SendKeepsInv(job, w);
    case ReceiveData => ReceiveKeepsInv(job, w);
    case ReceiveFin => FinMeansDone(job, w); FinKeepsInv(job, w);
    case TakeAccept => BatchKeepsInv(job, w, a);
    case TakeAck => BatchKeepsInv(job, w, a);
    case _ => QuietKeepsInv(job, w, a);
  }

  /** What can be seen at any moment of any run: during a session the part file is the source's first chunks,
      as many as the longest full prefix of the bitmap; the session never fails; a stored file is the source. */
  ghost predicate Safe(job: Job, w: World) {
    && (w.receiver.Active? ==>
          w.part == Some(job.FirstChunks(Held(w))) && w.receiver.session.doneBytes == |w.part.value|)
    && !w.receiver.Failed? && !w.receiver.Crashed?
    && (w.receiver.Stored? || w.sender.SentAll? ==> w.saved == Some(job.source))
  }

  lemma InvIsSafe(job: Job, w: World)
    requires Inv(job, w)
    ensures Safe(job, w)
  {
    if w.receiver.Active? && (w.sender.ReadyFin? || w.sender.WantDone?) {
      HeldIs(job, w, job.Total());
    }
  }

  // ----- whole runs -----

  /** The states reached by a list of actions, all of them possible in turn; None if one is not. */
  function Run(job: Job, w: World, acts: seq<Action>): Option<World>
    decreases |acts|
  {
    if acts == [] then Some(w)
    else
      match Next(job, w, acts[0])
      case None => None
      case Some(v) => Run(job, v, acts[1..])
  }

  lemma {:induction false} RunKeepsInv(job: Job, w: World, acts: seq<Action>)
    requires job.Sane() && Inv(job, w) && Run(job, w, acts).Some?
    ensures Inv(job, Run(job, w, acts).value)
    decreases |acts|
  {
    hide Inv, Next;
    if acts != [] {
      StepKeepsInv(job, w, acts[0]);
      RunKeepsInv(job, Next(job, w, acts[0]).value, acts[1..]);
    }
  }

  lemma BeginInv(job: Job, part: Option<seq<byte>>, saved: Option<seq<byte>>)
    ensures Inv(job, Begin(part, saved))
  {
  }

  /** Safety of the transfer: every reachable state is safe, whatever the interleaving, however often the sender
      reconnects, whether or not the part file survives, and whatever lay at the two paths before. */
  lemma TransferIsSafe(job: Job, part: Option<seq<byte>>, saved: Option<seq<byte>>, acts: seq<Action>)
    requires job.Sane() && Run(job, Begin(part, saved), acts).Some?
    ensures Safe(job, Run(job, Begin(part, saved), acts).value)
  {
    hide Next, Safe, Inv;
    BeginInv(job, part, saved);
    RunKeepsInv(job, Begin(part, saved), acts);
    InvIsSafe(job, Run(job, Begin(part, saved), acts).value);
  }

  /** Lockstep: a waiting sender finds at most one acknowledgement, for the last chunk of the batch it sent, with
      no data left in flight; so its position after the acknowledgement is exactly where the batch ended. */
  lemma AckEndsBatch(job: Job, w: World)
    requires Inv(job, w) && w.sender.WantAck? && w.back != []
    ensures w.back == [Ack(w.sender.seqNo - 1)] && w.fwd == [] && Held(w) == w.sender.seqNo
    ensures w.sender.seqNo > 0 && Next(job, w, TakeAck).Some?
    ensures Next(job, w, TakeAck).value.sender == StartBatch(job, w.sender.seqNo)
  {
    hide FullPrefix, Holds;
  }

  /** A sender that waits for its acknowledgement has exactly one coming: either part of the batch is still in flight
      and no acknowledgement is, or all of it is stored and its one acknowledgement is on the way. */
  ghost predicate Lockstep(job: Job, w: World) {
    w.sender.WantAck? ==>
      var n := w.sender.seqNo;
      if Held(w) < n then w.fwd == job.DataMsgs(Held(w), n) && w.fwd != [] && w.back == []
      else 0 < n == Held(w) && w.fwd == [] && w.back == [Ack(n - 1)]
  }

  lemma InvIsLockstep(job: Job, w: World)
    requires Inv(job, w)
    ensures Lockstep(job, w)
  {
    hide FullPrefix, Holds;
  }

  /** Sender and receiver are in lockstep in every reachable state. */
  lemma WaitIsAnswered(job: Job, part: Option<seq<byte>>, saved: Option<seq<byte>>, acts: seq<Action>)
    requires job.Sane() && Run(job, Begin(part, saved), acts).Some?
    ensures Lockstep(job, Run(job, Begin(part, saved), acts).value)
  {
    hide Next, Lockstep, Inv;
    BeginInv(job, part, saved);
    RunKeepsInv(job, Begin(part, saved), acts);
    InvIsLockstep(job, Run(job, Begin(part, saved), acts).value);
  }

  /** What a reconnection with the part file kept leads to: nothing the receiver holds is lost or sent again. */
  ghost predicate Resumes(job: Job, w: World, v: World) {
    && v.part == w.part && v.saved == w.saved && Held(v) == Held(w)
    && v.sender == StartBatch(job, Held(w)) && v.fwd == [] && v.back == []
  }

  /** From every reachable state in which the sender gives up waiting: it announces where it was, the receiver counts
      the part file, and the transfer goes on with the first chunk that the receiver lacks. */
  lemma ReconnectionResumes(job: Job, part: Option<seq<byte>>, saved: Option<seq<byte>>, acts: seq<Action>)
    requires job.Sane() && Run(job, Begin(part, saved), acts).Some?
    requires Run(job, Begin(part, saved), acts).value.sender.WantAck?
    ensures var w := Run(job, Begin(part, saved), acts).value;
            var v := Run(job, w, [Reconnect(true), SendInit, OpenSession, TakeAccept]);
            v.Some? && Resumes(job, w, v.value)
  {
    hide *;
    BeginInv(job, part, saved);
    RunKeepsInv(job, Begin(part, saved), acts);
    var w := Run(job, Begin(part, saved), acts).value;
    var w1 := Announces(job, w);
    var w2, w3 := Recounts(job, w, w1);
    var v := Accepts(job, w, w3);
    FourActions(job, w, w1, w2, w3, v, [Reconnect(true), SendInit, OpenSession, TakeAccept]);
  }

  lemma Announces(job: Job, w: World) returns (w1: World)
    requires Inv(job, w) && w.sender.WantAck?
    ensures Next(job, w, Reconnect(true)) == Some(w1)
    ensures w1 == World(WantInit(w.sender.seqNo), NoSession, w.part, w.saved, [], []) && w.sender.seqNo > 0
    ensures HoldsNow(job, w, Held(w))
  {
    hide FullPrefix, Holds;
    w1 := Next(job, w, Reconnect(true)).value;
  }

  lemma Recounts(job: Job, w: World, w1: World) returns (w2: World, w3: World)
    requires HoldsNow(job, w, Held(w)) && w.sender.WantAck? && w.sender.seqNo > 0
    requires w1 == World(WantInit(w.sender.seqNo), NoSession, w.part, w.saved, [], [])
    ensures Next(job, w1, SendInit) == Some(w2) && Next(job, w2, OpenSession) == Some(w3)
    ensures w3.part == w.part && w3.saved == w.saved && HoldsNow(job, w3, Held(w))
    ensures w3.sender.WantAccept? && w3.fwd == [] && w3.back == [Accept(Held(w))]
  {
    w2 := Next(job, w1, SendInit).value;
    assert w2.fwd == [job.InitMsg(w.sender.seqNo)];
    OpenCounts(job, w.sender.seqNo, w.part, Held(w));
    hide Open, FullPrefix;
    w3 := Next(job, w2, OpenSession).value;
  }

  lemma OpenCounts(job: Job, offset: nat, part: Option<seq<byte>>, k: nat)
    requires offset > 0 && k <= job.Total() && part == Some(job.FirstChunks(k))
    ensures var (s, file) := Open(job.InitMsg(offset), part);
            s.startSeq == k && Some(file) == part && Holds(job, s, file, k)
  {
    assert PartOk(job, part);
    OpenHolds(job, offset, part);
    PrefixCount(job, k);
    FullPrefixBelow(k, job.Total());
  }

  lemma Accepts(job: Job, w: World, w3: World) returns (v: World)
    requires w3.part == w.part && w3.saved == w.saved && HoldsNow(job, w3, Held(w))
    requires w3.sender.WantAccept? && w3.fwd == [] && w3.back == [Accept(Held(w))]
    ensures Next(job, w3, TakeAccept) == Some(v) && Resumes(job, w, v)
  {
    hide FullPrefix, Holds;
    v := Next(job, w3, TakeAccept).value;
    HeldIs(job, v, Held(w));
  }

  lemma FourActions(job: Job, w: World, a: World, b: World, c: World, d: World, acts: seq<Action>)
    requires |acts| == 4 && Next(job, w, acts[0]) == Some(a) && Next(job, a, acts[1]) == Some(b)
    requires Next(job, b, acts[2]) == Some(c) && Next(job, c, acts[3]) == Some(d)
    ensures Run(job, w, acts) == Some(d)
  {
    hide Next;
    assert acts[1..][1..][1..][1..] == [] && acts[1..][1..][1..][0] == acts[3] && acts[1..][1..][0] == acts[2];
    assert Run(job, c, acts[1..][1..][1..]) == Some(d);
    assert Run(job, b, acts[1..][1..]) == Some(d);
    assert Run(job, a, acts[1..]) == Some(d);
  }

  /** The work left before the sender is done; every action but a reconnection lowers it. */
  function Work(job: Job, w: World): int {
    4 * |w.fwd| + 3 * |w.back| +
    match w.sender
    case WantInit(_) => 6 * job.Total() + 30
    case WantAccept(_) => 6 * job.Total() + 20
    case Sending(n, _, _) => 6 * (job.Total() - n) + 10
    case WantAck(n) => 6 * (job.Total() - n) + 9
    case ReadyFin => 7
    case WantDone => 2
    case SentAll => 0
  }

  lemma WorkIsNatural(job: Job, w: World)
    requires Inv(job, w)
    ensures Work(job, w) >= 0
  {
    hide FullPrefix, Holds;
  }

  lemma SenderLowersWork(job: Job, w: World, a: Action)
    requires a.SendInit? || a.TakeAccept? || a.SendChunk? || a.TakeAck? || a.SendFin? || a.TakeDone?
    requires Inv(job, w) && Next(job, w, a).Some?
    ensures Work(job, Next(job, w, a).value) < Work(job, w)
  {
    hide FullPrefix, Holds, Open, TakeData, DataPayload, Job.DataMsgs;
    if a.SendChunk? {
      NextChunk(job, w.sender.seqNo);
    }
  }

  lemma ReceiverLowersWork(job: Job, w: World, a: Action)
    requires a.OpenSession? || a.ReceiveData? || a.ReceiveFin?
    requires Next(job, w, a).Some?
    ensures Work(job, Next(job, w, a).value) < Work(job, w)
  {
    hide FullPrefix, Open, TakeData, ReadDataPayload;
  }

  /** No deadlock: until the sender is done, some end can always move. */
  lemma SomeoneCanMove(job: Job, w: World) returns (a: Action)
    requires Inv(job, w) && !w.sender.SentAll?
    ensures !a.Reconnect? && Next(job, w, a).Some?
  {
    hide FullPrefix, Holds, Open, TakeData, ReadDataPayload;
    match w.sender
    case WantInit(_) => a := SendInit;
    case WantAccept(_) => a := if w.back == [] then OpenSession else TakeAccept;
    case Sending(_, _, _) => a := SendChunk;
    case WantAck(n) => a := if w.back == [] then ReceiveData else TakeAck;
    case ReadyFin => a := SendFin;
    case WantDone => a := if w.back == [] then ReceiveFin else TakeDone;
  }

  ghost predicate NoReconnects(acts: seq<Action>) {
    forall i :: 0 <= i < |acts| ==> !acts[i].Reconnect?
  }

  lemma {:induction false} RunLowersWork(job: Job, w: World, acts: seq<Action>)
    requires job.Sane() && Inv(job, w) && NoReconnects(acts) && Run(job, w, acts).Some?
    ensures Work(job, Run(job, w, acts).value) + |acts| <= Work(job, w)
    decreases |acts|
  {
    hide Inv, Next, Work;
    if acts != [] {
      var a := acts[0];
      StepKeepsInv(job, w, a);
      StepLowersWork(job, w, a);
      RunLowersWork(job, Next(job, w, a).value, acts[1..]);
    }
  }

  lemma StepLowersWork(job: Job, w: World, a: Action)
    requires Inv(job, w) && !a.Reconnect? && Next(job, w, a).Some?
    ensures Work(job, Next(job, w, a).value) < Work(job, w)
  {
    hide Inv, Next, Work;
    if a.OpenSession? || a.ReceiveData? || a.ReceiveFin? {
      ReceiverLowersWork(job, w, a);
    } else {
      SenderLowersWork(job, w, a);
    }
  }

  /** From every good state the transfer can be finished without reconnecting. */
  lemma {:induction false} FinishFrom(job: Job, w: World) returns (acts: seq<Action>)
    requires job.Sane() && Inv(job, w)
    ensures NoReconnects(acts) && Run(job, w, acts).Some? && Run(job, w, acts).value.sender.SentAll?
    decreases Work(job, w)
  {
    hide Inv, Next, Work;
    acts := [];
    if !w.sender.SentAll? {
      WorkIsNatural(job, w);
      var a := SomeoneCanMove(job, w);
      StepKeepsInv(job, w, a);
      StepLowersWork(job, w, a);
      var rest := FinishFrom(job, Next(job, w, a).value);
      acts := [a] + rest;
      assert acts[1..] == rest;
    }
  }

  function PlainCodec(): Codec { Codec((d: seq<byte>) => d, (d: seq<byte>, n: nat) => Some(d)) }

  /** Every file can be sent: there is a run, for every source and whatever lies at the paths, that ends with the
      source stored and the sender done. */
  lemma SomeTransferEnds(source: seq<byte>, digest: seq<byte> -> seq<byte>, part: Option<seq<byte>>,
                         saved: Option<seq<byte>>) returns (acts: seq<Action>)
    requires |source| < TWO_63
    ensures var job := Job(source, false, PlainCodec(), digest);
            var end := Run(job, Begin(part, saved), acts);
            job.Sane() && end.Some? && end.value.sender.SentAll? && end.value.saved == Some(source)
  {
    var job := Job(source, false, PlainCodec(), digest);
    assert job.codec.Invertible();
    hide Codec.Invertible, Inv, Next;
    BeginInv(job, part, saved);
    acts := FinishFrom(job, Begin(part, saved));
    RunKeepsInv(job, Begin(part, saved), acts);
    InvIsSafe(job, Run(job, Begin(part, saved), acts).value);
  }

  /** Liveness of the transfer. From any reachable state, a run that does not reconnect takes at most `Work` more
      steps, and when it can go no further the sender is done and the stored file is the source, byte for byte. */
  lemma TransferEnds(job: Job, part: Option<seq<byte>>, saved: Option<seq<byte>>, before: seq<Action>,
                     acts: seq<Action>)
    requires job.Sane() && Run(job, Begin(part, saved), before).Some?
    requires NoReconnects(acts) && Run(job, Run(job, Begin(part, saved), before).value, acts).Some?
    ensures |acts| <= Work(job, Run(job, Begin(part, saved), before).value)
    ensures var end := Run(job, Run(job, Begin(part, saved), before).value, acts).value;
            (forall a: Action :: a.Reconnect? || Next(job, end, a).None?) ==>
              end.sender.SentAll? && end.saved == Some(job.source)
  {
    hide Next, Work, Inv;
    BeginInv(job, part, saved);
    var w := Run(job, Begin(part, saved), before).value;
    RunKeepsInv(job, Begin(part, saved), before);
    RunLowersWork(job, w, acts);
    RunKeepsInv(job, w, acts);
    var end := Run(job, w, acts).value;
    WorkIsNatural(job, end);
    InvIsSafe(job, end);
    if !end.sender.SentAll? {
      var _ := SomeoneCanMove(job, end);
    }
  }
}
