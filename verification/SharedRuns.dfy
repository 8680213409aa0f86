/** Runs on a shared disk that go wrong: a second session for the same name that writes after the file is stored, and a
    late cleanup of the session before a reconnection. Both follow a transfer of the plain protocol as long as nobody
    meddles. */
module SharedRuns {
  import opened Common
  import opened Bytes
  import opened FileTransfer
  import opened FileGuards

  /** The shared disk shows what the plain protocol has. */
  ghost predicate Tracks(job: Job, s: Shared, w: World) {
    && Guarded(job, s) && s.w == Bare(w) && !s.checked
    && s.disk.Content(s.disk.part) == w.part
    && (w.receiver.Active? ==> s.fd.Some? && s.fd == s.disk.part)
  }

  /** The end of the data takes two moves. */
  function Lift(a: Action): seq<Move> { if a.ReceiveFin? then [CheckHash, StoreFile] else [Ours(a)] }

  function LiftAll(acts: seq<Action>): seq<Move> {
    if acts == [] then [] else Lift(acts[0]) + LiftAll(acts[1..])
  }

  lemma {:induction false} RunAppend(job: Job, s: Shared, a: seq<Move>, b: seq<Move>)
    requires RunShared(job, s, a).Some?
    ensures RunShared(job, s, a + b) == RunShared(job, RunShared(job, s, a).value, b)
    decreases |a|
  {
    hide Step;
    if a == [] {
      assert a + b == b;
    } else {
      assert (a + b)[1..] == a[1..] + b && (a + b)[0] == a[0];
      RunAppend(job, Step(job, s, a[0]).value, a[1..], b);
    }
  }

  /** `t` shows what the protocol has in `v`, nobody else has opened anything since `s`, and the file at the part path
      is the same one, or has become the stored one. */
  ghost predicate Follows(job: Job, s: Shared, t: Shared, v: World) {
    Tracks(job, t, v) && t.held == s.held && (Watched(s).Some? ==> Watched(t) == Watched(s))
  }

  lemma FollowSender(job: Job, s: Shared, w: World, a: Action)
    requires Tracks(job, s, w) && Next(job, w, a).Some?
    requires !a.OpenSession? && !a.ReceiveData? && !a.ReceiveFin? && !a.Reconnect?
    ensures Step(job, s, Ours(a)).Some?
    ensures Follows(job, s, Step(job, s, Ours(a)).value, Next(job, w, a).value)
  {
    SenderIgnoresFiles(job, w, a);
    StepKeepsGuarded(job, s, Ours(a));
  }

  lemma SenderIgnoresFiles(job: Job, w: World, a: Action)
    requires Next(job, w, a).Some? && !a.OpenSession? && !a.ReceiveData? && !a.ReceiveFin? && !a.Reconnect?
    ensures var v := Next(job, w, a).value;
            && Next(job, Bare(w), a) == Some(Bare(v))
            && v.part == w.part && v.receiver == w.receiver
  {
    hide Frames.DataPayload;
  }

  lemma FollowOpen(job: Job, s: Shared, w: World)
    requires Tracks(job, s, w) && Next(job, w, OpenSession).Some? && Next(job, w, OpenSession).value.receiver.Active?
    ensures Step(job, s, Ours(OpenSession)).Some?
    ensures Follows(job, s, Step(job, s, Ours(OpenSession)).value, Next(job, w, OpenSession).value)
  {
    hide Open, Guarded;
    var v := s.w.(part := s.disk.Content(s.disk.part));
    assert v == w.(saved := None);
    OpenIgnoresSaved(job, w);
    StepKeepsGuarded(job, s, Ours(OpenSession));
    NotStored(job, s);
  }

  lemma OpenIgnoresSaved(job: Job, w: World)
    requires Next(job, w, OpenSession).Some? && Next(job, w, OpenSession).value.receiver.Active?
    ensures var v := Next(job, w, OpenSession).value;
            && Next(job, w.(saved := None), OpenSession) == Some(v.(saved := None))
            && v.part.Some? && w.receiver.NoSession?
  {
    hide Open;
  }

  lemma NotStored(job: Job, s: Shared)
    requires Guarded(job, s) && !s.w.receiver.Stored?
    ensures s.stored == None && (s.disk.part.Some? ==> s.disk.part.value in s.disk.data)
    ensures s.disk.next !in s.disk.data
  {
  }

  lemma ReceiveIgnoresSaved(job: Job, w: World)
    requires Next(job, w, ReceiveData).Some? && Next(job, w, ReceiveData).value.receiver.Active?
    ensures var v := Next(job, w, ReceiveData).value;
            && Next(job, w.(saved := None), ReceiveData) == Some(v.(saved := None))
            && v.part.Some? && w.part.Some? && w.receiver.Active?
  {
    hide TakeData, Frames.ReadDataPayload;
  }

  lemma FollowReceive(job: Job, s: Shared, w: World)
    requires Tracks(job, s, w) && Next(job, w, ReceiveData).Some? && Next(job, w, ReceiveData).value.receiver.Active?
    ensures Step(job, s, Ours(ReceiveData)).Some?
    ensures Follows(job, s, Step(job, s, Ours(ReceiveData)).value, Next(job, w, ReceiveData).value)
  {
    hide Guarded, Next;
    ReceiveIgnoresSaved(job, w);
    assert s.w.(part := s.disk.Content(s.fd)) == w.(saved := None);
    StepKeepsGuarded(job, s, Ours(ReceiveData));
    NotStored(job, s);
  }

  lemma FinPasses(job: Job, w: World)
    requires Next(job, w, ReceiveFin).Some? && Next(job, w, ReceiveFin).value.receiver.Stored?
    ensures w.receiver.Active? && w.fwd != [] && w.fwd[0].Fin? && w.part.Some?
    ensures w.fwd[0].checksum == w.receiver.session.checksum == job.digest(w.part.value)
    ensures var v := Next(job, w, ReceiveFin).value;
            v == w.(receiver := Stored, saved := w.part, part := None, fwd := w.fwd[1..], back := w.back + [Done])
  {
  }

  lemma FollowFin(job: Job, s: Shared, w: World)
    requires Tracks(job, s, w) && Next(job, w, ReceiveFin).Some? && Next(job, w, ReceiveFin).value.receiver.Stored?
    ensures RunShared(job, s, Lift(ReceiveFin)).Some?
    ensures Follows(job, s, RunShared(job, s, Lift(ReceiveFin)).value, Next(job, w, ReceiveFin).value)
  {
    FinPasses(job, w);
    hide Next, Guarded;
    NotStored(job, s);
    var c := Step(job, s, CheckHash).value;
    StepKeepsGuarded(job, s, CheckHash);
    StepKeepsGuarded(job, c, StoreFile);
    var moves := Lift(ReceiveFin);
    assert moves[1..] == [StoreFile];
    OneMove(job, c, StoreFile);
  }

  lemma FollowReconnect(job: Job, s: Shared, w: World)
    requires Tracks(job, s, w) && Next(job, w, Reconnect(true)).Some?
    ensures Step(job, s, Ours(Reconnect(true))).Some?
    ensures Tracks(job, Step(job, s, Ours(Reconnect(true))).value, Next(job, w, Reconnect(true)).value)
  {
    StepKeepsGuarded(job, s, Ours(Reconnect(true)));
  }

  lemma LiftOne(job: Job, s: Shared, a: Action)
    requires !a.ReceiveFin?
    ensures RunShared(job, s, Lift(a)) == Step(job, s, Ours(a))
  {
    OneMove(job, s, Ours(a));
  }

  /** As long as nobody meddles, the shared disk follows the plain protocol. */
  lemma FollowStep(job: Job, s: Shared, w: World, a: Action)
    requires job.Sane() && Inv(job, w) && Tracks(job, s, w) && !a.Reconnect? && Next(job, w, a).Some?
    ensures RunShared(job, s, Lift(a)).Some?
    ensures Follows(job, s, RunShared(job, s, Lift(a)).value, Next(job, w, a).value)
  {
    hide *;
    StepKeepsInv(job, w, a);
    NothingFails(job, Next(job, w, a).value);
    ReceiverStays(job, w, a);
    if !a.ReceiveFin? {
      LiftOne(job, s, a);
    }
    match a
    case OpenSession => FollowOpen(job, s, w);
    case ReceiveData => FollowReceive(job, s, w);
    case ReceiveFin => FollowFin(job, s, w);
    case _ => FollowSender(job, s, w, a);
  }

  lemma NothingFails(job: Job, w: World)
    requires Inv(job, w)
    ensures !w.receiver.Failed? && !w.receiver.Crashed?
  {
    hide Inv;
    InvIsSafe(job, w);
  }

  /** Which state the receiver is in after its own steps, nothing having failed. */
  lemma ReceiverStays(job: Job, w: World, a: Action)
    requires Next(job, w, a).Some?
    requires var r := Next(job, w, a).value.receiver; !r.Failed? && !r.Crashed?
    ensures a.OpenSession? || a.ReceiveData? ==> Next(job, w, a).value.receiver.Active? && !w.receiver.Stored?
    ensures a.ReceiveFin? ==> Next(job, w, a).value.receiver.Stored? && !w.receiver.Stored?
  {
    hide Open, TakeData, Frames.ReadDataPayload;
  }

  lemma {:induction false} FollowRun(job: Job, s: Shared, w: World, acts: seq<Action>)
    requires job.Sane() && Inv(job, w) && Tracks(job, s, w) && NoReconnects(acts) && Run(job, w, acts).Some?
    ensures RunShared(job, s, LiftAll(acts)).Some?
    ensures Follows(job, s, RunShared(job, s, LiftAll(acts)).value, Run(job, w, acts).value)
    decreases |acts|
  {
    hide Next, Inv, Tracks, Step, Lift;
    if acts != [] {
      var a := acts[0];
      FollowStep(job, s, w, a);
      StepKeepsInv(job, w, a);
      var t := RunShared(job, s, Lift(a)).value;
      FollowRun(job, t, Next(job, w, a).value, acts[1..]);
      RunAppend(job, s, Lift(a), LiftAll(acts[1..]));
    }
  }

  // ----- two sessions -----

  function EmptyDisk(): Disk { Disk(map[], None, None, 0) }

  ghost predicate AllOurs(moves: seq<Move>) {
    forall i :: 0 <= i < |moves| ==> !moves[i].Theirs?
  }

  lemma {:induction false} LiftedAreOurs(acts: seq<Action>)
    ensures AllOurs(LiftAll(acts))
  {
    if acts != [] {
      LiftedAreOurs(acts[1..]);
    }
  }

  /** The sender is done, and the file it believes stored is another one. */
  ghost predicate Deceived(job: Job, end: Option<Shared>, f: nat, bad: seq<byte>) {
    && end.Some? && end.value.w.sender.SentAll?
    && end.value.stored == Some(f) == end.value.disk.final && end.value.disk.Content(Some(f)) == Some(bad)
    && !StoredWell(job, end.value)
  }

  /** Two peers send a file of the same name. The other session opens the part file first; ours runs to its end without
      being disturbed, its hash is right and its sender is told that the file is stored; then the other session writes
      once more, through its old descriptor, and the stored file is another one. */
  lemma TwoSessions(job: Job, bad: seq<byte>) returns (ours: seq<Move>)
    requires job.Sane() && job.digest(bad) != job.digest(job.source)
    ensures AllOurs(ours)
    ensures var moves := [Theirs(OpenPart(true))] + ours + [Theirs(WriteTo(0, bad))];
            Deceived(job, RunShared(job, BeginShared(0, EmptyDisk(), {}), moves), 0, bad)
  {
    hide *;
    var start, w := BeginShared(0, EmptyDisk(), {}), Begin(Some([]), None);
    var open, write := Theirs(OpenPart(true)), Theirs(WriteTo(0, bad));
    var s := OpenedFirst(job);
    BeginInv(job, Some([]), None);
    var acts := FinishFrom(job, w);
    FollowRun(job, s, w, acts);
    ours := LiftAll(acts);
    LiftedAreOurs(acts);
    var t := RunShared(job, s, ours).value;
    DoneIsStored(job, s, t, Run(job, w, acts).value);
    FinalIsStored(job, s, ours);
    WriteSpoils(job, t, 0, bad);
    OneMove(job, start, open);
    RunAppend(job, start, [open], ours);
    OneMove(job, t, write);
    RunAppend(job, start, [open] + ours, [write]);
  }

  lemma OpenedFirst(job: Job) returns (s: Shared)
    ensures Step(job, BeginShared(0, EmptyDisk(), {}), Theirs(OpenPart(true))) == Some(s)
    ensures Tracks(job, s, Begin(Some([]), None)) && s.disk.part == Some(0) && s.held == {0} && s.stored == None
    ensures Guarded(job, s)
  {
    var start := BeginShared(0, EmptyDisk(), {});
    BeginGuarded(job, 0, EmptyDisk(), {});
    s := Step(job, start, Theirs(OpenPart(true))).value;
    StepKeepsGuarded(job, start, Theirs(OpenPart(true)));
  }

  lemma DoneIsStored(job: Job, s: Shared, t: Shared, v: World)
    requires Follows(job, s, t, v) && v.sender.SentAll? && s.disk.part.Some? && s.stored == None
    ensures t.stored == s.disk.part && t.w.sender.SentAll? && t.held == s.held
  {
  }

  /** Without renames by others, what we stored is what the final path names. */
  lemma {:induction false} FinalIsStored(job: Job, s: Shared, moves: seq<Move>)
    requires Guarded(job, s) && AllOurs(moves) && RunShared(job, s, moves).Some?
    requires s.stored.Some? ==> s.disk.final == s.stored
    ensures var t := RunShared(job, s, moves).value; t.stored.Some? ==> t.disk.final == t.stored
    decreases |moves|
  {
    if moves != [] {
      OurStepStores(job, s, moves[0]);
      StepKeepsGuarded(job, s, moves[0]);
      hide Guarded, Step;
      assert !moves[0].Theirs?;
      assert RunShared(job, s, moves) == RunShared(job, Step(job, s, moves[0]).value, moves[1..]);
      FinalIsStored(job, Step(job, s, moves[0]).value, moves[1..]);
    }
  }

  lemma OurStepStores(job: Job, s: Shared, m: Move)
    requires Guarded(job, s) && !m.Theirs? && Step(job, s, m).Some?
    requires s.stored.Some? ==> s.disk.final == s.stored
    ensures var t := Step(job, s, m).value; t.stored.Some? ==> t.disk.final == t.stored
  {
    hide Next, Orderly;
  }

  lemma WriteSpoils(job: Job, t: Shared, f: nat, bad: seq<byte>)
    requires f in t.held && t.stored == Some(f) == t.disk.final && t.w.sender.SentAll?
    requires job.digest(bad) != job.digest(job.source)
    ensures Deceived(job, Step(job, t, Theirs(WriteTo(f, bad))), f, bad)
  {
  }

  // ----- a late cleanup -----

  /** The session goes on with the file it has open, but the part path is gone. */
  ghost predicate TracksUnlinked(job: Job, s: Shared, w: World) {
    && Guarded(job, s) && s.w == Bare(w) && !s.checked && w.receiver.Active?
    && s.fd.Some? && s.disk.Content(s.fd) == w.part && s.disk.part == None
  }

  lemma UnlinkedReceive(job: Job, s: Shared, w: World)
    requires TracksUnlinked(job, s, w) && Next(job, w, ReceiveData).Some?
    requires Next(job, w, ReceiveData).value.receiver.Active?
    ensures Step(job, s, Ours(ReceiveData)).Some?
    ensures TracksUnlinked(job, Step(job, s, Ours(ReceiveData)).value, Next(job, w, ReceiveData).value)
  {
    hide Guarded, Next;
    ReceiveIgnoresSaved(job, w);
    assert s.w.(part := s.disk.Content(s.fd)) == w.(saved := None);
    StepKeepsGuarded(job, s, Ours(ReceiveData));
  }

  lemma UnlinkedSender(job: Job, s: Shared, w: World, a: Action)
    requires TracksUnlinked(job, s, w) && Next(job, w, a).Some?
    requires !a.OpenSession? && !a.ReceiveData? && !a.ReceiveFin? && !a.Reconnect?
    ensures Step(job, s, Ours(a)).Some? && TracksUnlinked(job, Step(job, s, Ours(a)).value, Next(job, w, a).value)
  {
    hide Guarded, Next;
    SenderIgnoresFiles(job, w, a);
    StepKeepsGuarded(job, s, Ours(a));
  }

  lemma UnlinkedStep(job: Job, s: Shared, w: World, a: Action)
    requires job.Sane() && Inv(job, w) && TracksUnlinked(job, s, w) && Next(job, w, a).Some?
    requires !a.Reconnect? && !a.ReceiveFin?
    ensures Step(job, s, Ours(a)).Some? && TracksUnlinked(job, Step(job, s, Ours(a)).value, Next(job, w, a).value)
  {
    hide Inv, Guarded, Next, Step;
    StepKeepsInv(job, w, a);
    NothingFails(job, Next(job, w, a).value);
    ReceiverStays(job, w, a);
    ActiveOpensNoMore(job, w);
    if a.ReceiveData? {
      UnlinkedReceive(job, s, w);
    } else {
      UnlinkedSender(job, s, w, a);
    }
  }

  lemma ActiveOpensNoMore(job: Job, w: World)
    requires w.receiver.Active?
    ensures Next(job, w, OpenSession) == None
  {
  }

  lemma UnlinkedFin(job: Job, s: Shared, w: World)
    requires TracksUnlinked(job, s, w) && Next(job, w, ReceiveFin).Some?
    ensures Step(job, s, CheckHash).Some? && Step(job, s, CheckHash).value.w.receiver.Failed?
    ensures Step(job, s, CheckHash).value.stored == None
  {
  }

  /** However the plain protocol would end well, this ends with the hash of a file that is not there. */
  lemma {:induction false} UnlinkedFails(job: Job, s: Shared, w: World, acts: seq<Action>) returns (moves: seq<Move>)
    requires job.Sane() && Inv(job, w) && TracksUnlinked(job, s, w)
    requires NoReconnects(acts) && Run(job, w, acts).Some? && Run(job, w, acts).value.sender.SentAll?
    ensures AllOurs(moves) && RunShared(job, s, moves).Some?
    ensures RunShared(job, s, moves).value.w.receiver.Failed? && RunShared(job, s, moves).value.stored == None
    decreases |acts|
  {
    hide *;
    var a := FirstOf(job, s, w, acts);
    if a.ReceiveFin? {
      UnlinkedFin(job, s, w);
      moves := [CheckHash];
      OneMove(job, s, CheckHash);
      OnlyOurs(CheckHash, []);
    } else {
      UnlinkedStep(job, s, w, a);
      StepKeepsInv(job, w, a);
      var rest := UnlinkedFails(job, Step(job, s, Ours(a)).value, Next(job, w, a).value, acts[1..]);
      moves := [Ours(a)] + rest;
      OneMove(job, s, Ours(a));
      RunAppend(job, s, [Ours(a)], rest);
      OnlyOurs(Ours(a), rest);
    }
  }

  lemma OnlyOurs(m: Move, rest: seq<Move>)
    requires !m.Theirs? && AllOurs(rest)
    ensures AllOurs([m] + rest) && AllOurs([m])
  {
  }

  /** A session that is open has not reached the end. */
  lemma FirstOf(job: Job, s: Shared, w: World, acts: seq<Action>) returns (a: Action)
    requires Inv(job, w) && TracksUnlinked(job, s, w) && NoReconnects(acts)
    requires Run(job, w, acts).Some? && Run(job, w, acts).value.sender.SentAll?
    ensures acts != [] && a == acts[0] && !a.Reconnect? && NoReconnects(acts[1..]) && AllOurs([])
    ensures Next(job, w, a).Some? && Run(job, Next(job, w, a).value, acts[1..]) == Run(job, w, acts)
  {
    hide Guarded, Next;
    a := acts[0];
  }

  /** After a reconnection the session before may notice late that its stream is gone, and remove the part file that the
      new session has just opened. From every state in which the sender can give up waiting: nobody does anything
      else, every chunk arrives, and yet the transfer fails at its end. */
  lemma LateCleanupFails(job: Job, s: Shared, w: World) returns (rest: seq<Move>)
    requires job.Sane() && Inv(job, w) && Tracks(job, s, w) && w.sender.WantAck?
    ensures AllOurs(rest)
    ensures var reopen := [Ours(Reconnect(true)), Ours(SendInit), Ours(OpenSession)];
            var end := RunShared(job, s, reopen + [Theirs(RemovePart)] + rest);
            end.Some? && end.value.w.receiver.Failed? && end.value.stored == None
  {
    hide *;
    var s3, w3 := Reopened(job, s, w);
    var s4 := Unlink(job, s3, w3);
    var acts := FinishFrom(job, w3);
    rest := UnlinkedFails(job, s4, w3, acts);
    var reopen := [Ours(Reconnect(true)), Ours(SendInit), Ours(OpenSession)];
    OneMove(job, s3, Theirs(RemovePart));
    RunAppend(job, s, reopen, [Theirs(RemovePart)]);
    RunAppend(job, s, reopen + [Theirs(RemovePart)], rest);
  }

  /** The sender gives up waiting, and a new session opens the part file. */
  lemma Reopened(job: Job, s: Shared, w: World) returns (s3: Shared, w3: World)
    requires job.Sane() && Inv(job, w) && Tracks(job, s, w) && w.sender.WantAck?
    ensures RunShared(job, s, [Ours(Reconnect(true)), Ours(SendInit), Ours(OpenSession)]) == Some(s3)
    ensures Inv(job, w3) && Tracks(job, s3, w3) && w3.receiver.Active?
  {
    hide *;
    var w1 := GivesUp(job, w);
    FollowReconnect(job, s, w);
    var s1 := Step(job, s, Ours(Reconnect(true))).value;
    var w2;
    w2, w3 := Reopens(job, w1);
    FollowSender(job, s1, w1, SendInit);
    var s2 := Step(job, s1, Ours(SendInit)).value;
    FollowsTracks(job, s1, s2, w2);
    FollowOpen(job, s2, w2);
    s3 := Step(job, s2, Ours(OpenSession)).value;
    FollowsTracks(job, s2, s3, w3);
    ThreeMoves(job, s, s1, s2, s3, [Ours(Reconnect(true)), Ours(SendInit), Ours(OpenSession)]);
  }

  lemma FollowsTracks(job: Job, s: Shared, t: Shared, v: World)
    requires Follows(job, s, t, v)
    ensures Tracks(job, t, v)
  {
    hide Tracks;
  }

  lemma GivesUp(job: Job, w: World) returns (w1: World)
    requires job.Sane() && Inv(job, w) && w.sender.WantAck?
    ensures Next(job, w, Reconnect(true)) == Some(w1) && Inv(job, w1) && w1.sender.WantInit?
  {
    hide Inv;
    w1 := Next(job, w, Reconnect(true)).value;
    StepKeepsInv(job, w, Reconnect(true));
  }

  lemma Reopens(job: Job, w1: World) returns (w2: World, w3: World)
    requires job.Sane() && Inv(job, w1) && w1.sender.WantInit?
    ensures Next(job, w1, SendInit) == Some(w2) && Next(job, w2, OpenSession) == Some(w3)
    ensures w3.receiver.Active? && Inv(job, w3)
  {
    w2 := Next(job, w1, SendInit).value;
    assert w1.receiver.NoSession? && w2.fwd == [job.InitMsg(w1.sender.offset)];
    hide Inv, Open;
    StepKeepsInv(job, w1, SendInit);
    w3 := Next(job, w2, OpenSession).value;
    StepKeepsInv(job, w2, OpenSession);
    NothingFails(job, w3);
  }

  lemma Unlink(job: Job, s: Shared, w: World) returns (t: Shared)
    requires Tracks(job, s, w) && w.receiver.Active?
    ensures Step(job, s, Theirs(RemovePart)) == Some(t) && TracksUnlinked(job, t, w)
  {
    hide Orderly;
    t := Step(job, s, Theirs(RemovePart)).value;
    StepKeepsGuarded(job, s, Theirs(RemovePart));
  }

  lemma ThreeMoves(job: Job, s: Shared, s1: Shared, s2: Shared, s3: Shared, moves: seq<Move>)
    requires |moves| == 3 && Step(job, s, moves[0]) == Some(s1) && Step(job, s1, moves[1]) == Some(s2)
    requires Step(job, s2, moves[2]) == Some(s3)
    ensures RunShared(job, s, moves) == Some(s3)
  {
    hide Step;
    assert moves[1..][1..][1..] == [] && moves[1..][1..][0] == moves[2] && moves[1..][0] == moves[1];
    assert RunShared(job, s2, moves[1..][1..]) == Some(s3);
    assert RunShared(job, s1, moves[1..]) == Some(s3);
  }

  // ----- such states exist -----

  lemma {:induction false} SendsBatch(job: Job, w: World) returns (acts: seq<Action>)
    requires job.Sane() && Inv(job, w) && w.sender.Sending?
    ensures NoReconnects(acts) && Run(job, w, acts).Some? && Run(job, w, acts).value.sender.WantAck?
    decreases Work(job, w)
  {
    hide *;
    WorkIsNatural(job, w);
    SendingGoesOn(job, w);
    var v := Next(job, w, SendChunk).value;
    StepKeepsInv(job, w, SendChunk);
    StepLowersWork(job, w, SendChunk);
    var rest: seq<Action> := [];
    NoActions(job, v);
    if v.sender.Sending? {
      rest := SendsBatch(job, v);
    }
    acts := [SendChunk] + rest;
    RunFirst(job, w, SendChunk, rest);
  }

  lemma NoActions(job: Job, w: World)
    ensures Run(job, w, []) == Some(w) && NoReconnects([])
  {
  }

  lemma RunFirst(job: Job, w: World, a: Action, rest: seq<Action>)
    requires Next(job, w, a).Some? && !a.Reconnect? && NoReconnects(rest)
    ensures Run(job, w, [a] + rest) == Run(job, Next(job, w, a).value, rest) && NoReconnects([a] + rest)
  {
    hide Next;
    assert ([a] + rest)[1..] == rest;
  }

  lemma SendingGoesOn(job: Job, w: World)
    requires w.sender.Sending?
    ensures Next(job, w, SendChunk).Some?
    ensures var v := Next(job, w, SendChunk).value; v.sender.Sending? || v.sender.WantAck?
  {
    hide Frames.DataPayload;
  }

  /** The first three steps of a transfer of something lead to the first batch. */
  lemma FirstBatch(job: Job) returns (w: World)
    requires job.Sane() && job.source != []
    ensures Run(job, Begin(None, None), [SendInit, OpenSession, TakeAccept]) == Some(w) && w.sender.Sending?
    ensures Inv(job, w) && NoReconnects([SendInit, OpenSession, TakeAccept])
  {
    hide *;
    var w0 := Begin(None, None);
    BeginInv(job, None, None);
    StartsSo(job);
    var w1, w2 := Reopens(job, w0);
    OpensAtZero(job, w1);
    w := AcceptsAtZero(job, w2);
    StepKeepsInv(job, w2, TakeAccept);
    var acts := [SendInit, OpenSession, TakeAccept];
    NoActions(job, w);
    RunFirst(job, w2, TakeAccept, []);
    RunFirst(job, w1, OpenSession, [TakeAccept] + []);
    RunFirst(job, w0, SendInit, [OpenSession] + ([TakeAccept] + []));
    assert [SendInit] + ([OpenSession] + ([TakeAccept] + [])) == acts;
  }

  lemma StartsSo(job: Job)
    ensures Begin(None, None).sender.WantInit?
    ensures var w1 := Next(job, Begin(None, None), SendInit);
            w1.Some? && w1.value.receiver.NoSession? && w1.value.fwd == [job.InitMsg(0)] && w1.value.back == []
            && w1.value.sender.WantAccept?
  {
  }

  lemma AcceptsAtZero(job: Job, w2: World) returns (w: World)
    requires job.source != [] && w2.sender.WantAccept? && w2.back == [Accept(0)]
    ensures Next(job, w2, TakeAccept) == Some(w) && w.sender.Sending?
  {
    ChunkBounds(job, 0);
    w := Next(job, w2, TakeAccept).value;
  }

  lemma OpensAtZero(job: Job, w: World)
    requires w.receiver.NoSession? && w.fwd == [job.InitMsg(0)] && w.back == []
    ensures Next(job, w, OpenSession).Some? && Next(job, w, OpenSession).value.back == [Accept(0)]
    ensures Next(job, w, OpenSession).value.sender == w.sender
  {
    FullPrefixBelow(0, job.Total());
  }

  /** So for every source that is not empty there is such a run from the very beginning. */
  lemma SomeTransferFails(job: Job) returns (before: seq<Move>, after: seq<Move>)
    requires job.Sane() && job.source != []
    ensures AllOurs(before) && AllOurs(after)
    ensures var end := RunShared(job, BeginShared(0, EmptyDisk(), {}), before + [Theirs(RemovePart)] + after);
            end.Some? && end.value.w.receiver.Failed? && end.value.stored == None
  {
    hide *;
    var start := BeginShared(0, EmptyDisk(), {});
    var sent, s, w := Sent(job);
    after := LateCleanupFails(job, s, w);
    var reopen := [Ours(Reconnect(true)), Ours(SendInit), Ours(OpenSession)];
    before := sent + reopen;
    var tail := reopen + [Theirs(RemovePart)] + after;
    RunAppend(job, start, sent, tail);
    assert before + [Theirs(RemovePart)] + after == sent + tail;
    MoreOurs(sent, Ours(Reconnect(true)), Ours(SendInit), Ours(OpenSession));
  }

  lemma MoreOurs(moves: seq<Move>, a: Move, b: Move, c: Move)
    requires AllOurs(moves) && !a.Theirs? && !b.Theirs? && !c.Theirs?
    ensures AllOurs(moves + [a, b, c])
  {
  }

  lemma BothOurs(a: seq<Move>, b: seq<Move>)
    requires AllOurs(a) && AllOurs(b)
    ensures AllOurs(a + b)
  {
  }

  /** A first batch under way, and the sender waiting. */
  lemma Sent(job: Job) returns (moves: seq<Move>, s: Shared, w: World)
    requires job.Sane() && job.source != []
    ensures AllOurs(moves) && RunShared(job, BeginShared(0, EmptyDisk(), {}), moves) == Some(s)
    ensures Tracks(job, s, w) && Inv(job, w) && w.sender.WantAck?
  {
    hide *;
    var start, w0 := BeginShared(0, EmptyDisk(), {}), Begin(None, None);
    TracksAtFirst(job);
    BeginInv(job, None, None);
    var first := [SendInit, OpenSession, TakeAccept];
    var w1 := FirstBatch(job);
    FollowRun(job, start, w0, first);
    var s1 := RunShared(job, start, LiftAll(first)).value;
    FollowsTracks(job, start, s1, w1);
    var batch := SendsBatch(job, w1);
    FollowRun(job, s1, w1, batch);
    RunKeepsInv(job, w1, batch);
    s, w := RunShared(job, s1, LiftAll(batch)).value, Run(job, w1, batch).value;
    FollowsTracks(job, s1, s, w);
    moves := LiftAll(first) + LiftAll(batch);
    RunAppend(job, start, LiftAll(first), LiftAll(batch));
    LiftedAreOurs(first);
    LiftedAreOurs(batch);
    BothOurs(LiftAll(first), LiftAll(batch));
  }

  lemma TracksAtFirst(job: Job)
    ensures Tracks(job, BeginShared(0, EmptyDisk(), {}), Begin(None, None))
  {
    BeginGuarded(job, 0, EmptyDisk(), {});
  }
}
