/** The receiving end as the object it is: a packed bitmap, an open part file and its counters,
    all updated in place, refining the session of the protocol model. */
module FileSessions {
  import opened Common
  import opened Bytes
  import Bitmap
  import T = FileTransfer

  /** What a DATA frame leads to: perhaps an acknowledgement, or a negative index into the bitmap. */
  datatype DataResult = Handled(ack: Option<nat>) | Panics

  class FileSession {
    const total: nat
    const checksum: seq<byte>
    const zstd: bool
    const bitmap: array<nat>
    const startSeq: nat
    var tmpFile: seq<byte>
    var writeAt: nat
    var doneBytes: nat
    var lastAck: nat

    ghost predicate Valid()
      reads this, bitmap
    {
      && bitmap.Length == (total + 63) / 64
      && forall i :: 0 <= i < bitmap.Length ==> Bitmap.IsWord(bitmap[i])
    }

    ghost function State(): T.Session
      reads this, bitmap
    {
      T.Session(total, checksum, zstd, Bitmap.Members(bitmap[..]), writeAt, doneBytes, lastAck, startSeq)
    }

    constructor (init: T.Msg, part: Option<seq<byte>>)
      requires init.Init? && !T.OpenPanics(init, part)
      ensures Valid() && fresh(bitmap)
      ensures State() == T.Open(init, part).0 && tmpFile == T.Open(init, part).1
    {
      var file, words, start := OpenPart(init, part);
      hide T.ChunksFor, T.FullPrefix, T.Below, Bitmap.Members;
      total, checksum, zstd, bitmap := init.total, init.checksum, init.zstd, words;
      startSeq, lastAck, tmpFile := start, start, file;
      writeAt, doneBytes := start * init.chunkSize, |file|;
    }

    /** A DATA frame, on the packed bitmap and the open file, does what the protocol model says; a number that has no
        word in the bitmap panics before anything has changed. */
    method HandleData(seqNo: int, data: seq<byte>) returns (r: DataResult)
      requires Valid()
      modifies this, bitmap
      ensures Valid()
      ensures r.Panics? <==> seqNo <= -64
      ensures r.Panics? ==> State() == old(State()) && tmpFile == old(tmpFile)
      ensures r.Handled? ==> (State(), tmpFile, r.ack) == T.TakeData(old(State()), old(tmpFile), seqNo, data)
    {
      hide T.StoreChunk, T.Acknowledge, Bitmap.Members;
      if !Bitmap.InRange(seqNo) {
        return Panics;
      }
      Store(seqNo, data);
      var ack := AckPrefix();
      r := Handled(ack);
    }

    method Store(seqNo: int, data: seq<byte>)
      requires Valid() && Bitmap.InRange(seqNo)
      modifies this, bitmap
      ensures Valid()
      ensures (State(), tmpFile) == T.StoreChunk(old(State()), old(tmpFile), seqNo, data)
    {
      hide Bitmap.Members, T.WriteFile, Bitmap.Has;
      ghost var have := Bitmap.Members(bitmap[..]);
      if seqNo >= 0 {
        Bitmap.MembersHas(bitmap[..], seqNo);
      } else {
        Bitmap.NegativeIsNeverThere(bitmap[..], seqNo);
      }
      if !Bitmap.Has(bitmap[..], seqNo) {
        tmpFile := T.WriteFile(tmpFile, writeAt, data);
        writeAt := writeAt + |data|;
        Bitmap.Set(bitmap, seqNo);
        doneBytes := doneBytes + |data|;
        assert have + {} == have;
      }
    }

    method AckPrefix() returns (ack: Option<nat>)
      requires Valid()
      modifies this`lastAck
      ensures Valid() && (State(), ack) == T.Acknowledge(old(State()))
    {
      hide Bitmap.Members, T.FullPrefix;
      ghost var have := Bitmap.Members(bitmap[..]);
      var newSeq := Bitmap.MaxContinuous(bitmap, total);
      Bitmap.FullPrefixIsUnique(have, total, newSeq, T.FullPrefix(have, total));
      ack := None;
      if newSeq - lastAck >= T.ACK_BATCH || newSeq >= total {
        if newSeq > lastAck {
          ack := Some(newSeq - 1);
          lastAck := newSeq;
        }
      }
    }
  }

  /** Accepting an INIT: reuse the part file when a resume is asked for and possible, else truncate it. A chunk size of
      zero is an error only when there is a part file to count. */
  method Accept(init: T.Msg, part: Option<seq<byte>>) returns (s: Option<FileSession>)
    requires init.Init?
    ensures s.None? <==> T.OpenPanics(init, part)
    ensures s.Some? ==> fresh(s.value) && fresh(s.value.bitmap) && s.value.Valid()
    ensures s.Some? ==> (s.value.State(), s.value.tmpFile) == T.Open(init, part)
  {
    hide T.Open;
    if init.offset > 0 && part.Some? && init.chunkSize == 0 {
      return None;
    }
    var session := new FileSession(init, part);
    s := Some(session);
  }

  /** The part file to continue, its chunks marked, and where to continue. */
  method OpenPart(init: T.Msg, part: Option<seq<byte>>) returns (file: seq<byte>, words: array<nat>, start: nat)
    requires init.Init? && !T.OpenPanics(init, part)
    ensures fresh(words) && words.Length == (init.total + 63) / 64
    ensures forall i :: 0 <= i < words.Length ==> Bitmap.IsWord(words[i])
    ensures file == T.Open(init, part).1
    ensures Bitmap.Members(words[..]) == T.Open(init, part).0.have && start == T.Open(init, part).0.startSeq
  {
    hide T.ChunksFor, T.FullPrefix, Bitmap.Members;
    words := new nat[(init.total + 63) / 64](_ => 0);
    var written := 0;
    file := [];
    if init.offset > 0 && part.Some? {
      file := part.value;
      written := CountChunks(|file|, init.chunkSize);
    }
    Bitmap.ZeroWordsAreEmpty(words[..]);
    MarkWritten(words, init.total, written);
    var prefix := Bitmap.MaxContinuous(words, init.total);
    Bitmap.FullPrefixIsUnique(Bitmap.Members(words[..]), init.total, prefix,
                              T.FullPrefix(Bitmap.Members(words[..]), init.total));
    start := if prefix > written then prefix else written;
  }

  method CountChunks(size: nat, chunk: nat) returns (n: nat)
    requires chunk > 0
    ensures n == T.ChunksFor(size, chunk)
  {
    n := size / chunk;
    if size % chunk != 0 {
      n := n + 1;
    }
  }

  /** The resume loop: mark the chunks the part file already holds. */
  method MarkWritten(words: array<nat>, total: nat, written: nat)
    requires words.Length == (total + 63) / 64
    requires forall i :: 0 <= i < words.Length ==> Bitmap.IsWord(words[i])
    requires Bitmap.Members(words[..]) == {}
    modifies words
    ensures forall i :: 0 <= i < words.Length ==> Bitmap.IsWord(words[i])
    ensures Bitmap.Members(words[..]) == T.Below(Min(written, total))
  {
    hide Bitmap.Members;
    var i := 0;
    while i < written && i < total
      invariant i <= Min(written, total)
      invariant forall k :: 0 <= k < words.Length ==> Bitmap.IsWord(words[k])
      invariant Bitmap.Members(words[..]) == T.Below(i)
    {
      Bitmap.Set(words, i);
      i := i + 1;
    }
  }
}
