/** What the final hash guards when the part file is not ours alone. The part path depends only on the name of the
    file, so sessions that receive the same name share it: they may open, cut, overwrite, remove or rename what lies
    there, and a descriptor they have opened goes on writing to the file after it has been renamed. */
module FileGuards {
  import opened Common
  import opened Bytes
  import opened FileTransfer

  /** Files are numbered; each of the two paths names one or none. A removed or renamed file lives on under its
      number. */
  datatype Disk = Disk(data: map<nat, seq<byte>>, part: Option<nat>, final: Option<nat>, next: nat) {

    function Content(f: Option<nat>): Option<seq<byte>> {
      if f.Some? && f.value in data then Some(data[f.value]) else None
    }

    function Put(f: nat, content: seq<byte>): Disk { this.(data := data[f := content]) }

    /** The part path opened for writing: a new file if there is none. */
    function WithPart(): (d: Disk)
      ensures d.part.Some? && d.final == final
    {
      if part.Some? then this else this.(data := data[next := []], part := Some(next), next := next + 1)
    }
  }

  /** Our transfer on a shared disk. `w` is the protocol without its files; `fd` is the file our session has open,
      `held` those that others have open. The end of the data is handled in two steps: the hash is `checked`, and then
      the file is `stored`. */
  datatype Shared = Shared(
    w: World,
    disk: Disk,
    fd: Option<nat>,
    held: set<nat>,
    checked: bool,
    stored: Option<nat>)

  /** What others do. A late cleanup of an old session of our own is one of these. */
  datatype Op =
    | OpenPart(truncate: bool)
    | WriteTo(file: nat, content: seq<byte>)
    | Close(file: nat)
    | RemovePart
    | RenamePart

  datatype Move = Ours(action: Action) | CheckHash | StoreFile | Theirs(op: Op)

  function Bare(w: World): World { w.(part := None, saved := None) }

  function DoOpen(job: Job, s: Shared): Option<Shared> {
    match Next(job, s.w.(part := s.disk.Content(s.disk.part)), OpenSession)
    case None => None
    case Some(v) =>
      if !v.receiver.Active? || v.part.None? then Some(s.(w := Bare(v)))
      else
        var d := s.disk.WithPart();
        Some(s.(w := Bare(v), disk := d.Put(d.part.value, v.part.value), fd := d.part))
  }

  /** Data goes to the file our session has open, wherever that is now. */
  function DoReceive(job: Job, s: Shared): Option<Shared> {
    match Next(job, s.w.(part := s.disk.Content(s.fd)), ReceiveData)
    case None => None
    case Some(v) =>
      if s.fd.Some? && v.receiver.Active? && v.part.Some? then
        Some(s.(w := Bare(v), disk := s.disk.Put(s.fd.value, v.part.value)))
      else if v.receiver.Crashed? then Some(s.(w := Bare(v)))
      else Some(s.(w := Bare(v), disk := s.disk.(part := None), fd := None))
  }

  /** The old session keeps its descriptor until it notices; it may or may not have removed the part file. */
  function DoReconnect(job: Job, s: Shared, keepPart: bool): Option<Shared> {
    match Next(job, s.w, Reconnect(keepPart))
    case None => None
    case Some(v) =>
      Some(s.(w := Bare(v),
              disk := if keepPart then s.disk else s.disk.(part := None),
              held := if s.fd.Some? then s.held + {s.fd.value} else s.held,
              fd := None))
  }

  function FailFin(s: Shared): Shared
    requires s.w.fwd != []
  {
    s.(w := s.w.(receiver := Failed, fwd := s.w.fwd[1..], back := s.w.back + [Error]),
       disk := s.disk.(part := None), fd := None, checked := false)
  }

  /** The hash of what lies at the part path now. */
  function DoCheck(job: Job, s: Shared): Option<Shared> {
    if !(s.w.receiver.Active? && s.w.fwd != [] && s.w.fwd[0].Fin? && !s.checked) then None
    else
      var c := s.disk.Content(s.disk.part);
      if c.Some? && s.w.fwd[0].checksum == s.w.receiver.session.checksum == job.digest(c.value)
      then Some(s.(checked := true, fd := None))
      else Some(FailFin(s))
  }

  /** The rename takes what lies at the part path then. */
  function DoStore(s: Shared): Option<Shared> {
    if !(s.w.receiver.Active? && s.w.fwd != [] && s.checked) then None
    else if s.disk.part.None? then Some(FailFin(s))
    else Some(s.(w := s.w.(receiver := Stored, fwd := s.w.fwd[1..], back := s.w.back + [Done]),
                 disk := s.disk.(final := s.disk.part, part := None),
                 checked := false, stored := s.disk.part))
  }

  function DoTheirs(s: Shared, op: Op): Option<Shared> {
    match op
    case OpenPart(truncate) =>
      var d := s.disk.WithPart();
      Some(s.(disk := if truncate then d.Put(d.part.value, []) else d, held := s.held + {d.part.value}))
    case WriteTo(f, content) => if f in s.held then Some(s.(disk := s.disk.Put(f, content))) else None
    case Close(f) => Some(s.(held := s.held - {f}))
    case RemovePart => Some(s.(disk := s.disk.(part := None)))
    case RenamePart =>
      if s.disk.part.None? then None else Some(s.(disk := s.disk.(final := s.disk.part, part := None)))
  }

  function Step(job: Job, s: Shared, m: Move): Option<Shared> {
    match m
    case Ours(OpenSession) => DoOpen(job, s)
    case Ours(ReceiveData) => DoReceive(job, s)
    case Ours(ReceiveFin) => None
    case Ours(Reconnect(keepPart)) => DoReconnect(job, s, keepPart)
    case Ours(a) => if Next(job, s.w, a).Some? then Some(s.(w := Bare(Next(job, s.w, a).value))) else None
    case CheckHash => DoCheck(job, s)
    case StoreFile => DoStore(s)
    case Theirs(op) => DoTheirs(s, op)
  }

  function RunShared(job: Job, s: Shared, moves: seq<Move>): Option<Shared>
    decreases |moves|
  {
    if moves == [] then Some(s)
    else
      match Step(job, s, moves[0])
      case None => None
      case Some(t) => RunShared(job, t, moves[1..])
  }

  /** A transfer about to start, fresh or resuming, on whatever disk. */
  function BeginShared(offset: nat, disk: Disk, held: set<nat>): Shared {
    Shared(World(WantInit(offset), NoSession, None, None, [], []), disk, None, held, false, None)
  }

  // ----- what every step keeps -----

  ghost predicate Honest(job: Job, m: Msg) {
    && (m.Init? ==> m.checksum == job.digest(job.source))
    && (m.Fin? ==> m.checksum == job.digest(job.source))
  }

  /** The sender announces the digest of the source only; the end of the data comes last, and is confirmed only when the
      file is stored. */
  ghost predicate Orderly(job: Job, w: World, checked: bool) {
    && (forall i :: 0 <= i < |w.fwd| ==> Honest(job, w.fwd[i]))
    && (w.receiver.Active? ==> w.receiver.session.checksum == job.digest(job.source))
    && (w.receiver.Stored? || checked ==> w.sender.WantDone? || w.sender.SentAll?)
    && (checked ==> w.receiver.Active? && w.fwd != [] && w.fwd[0].Fin?)
    && ((exists i :: 0 <= i < |w.fwd| && w.fwd[i].Fin?) ==> w.sender.WantDone? || w.sender.SentAll?)
    && ((exists i :: 0 <= i < |w.back| && w.back[i].Done?) ==> w.receiver.Stored?)
    && (w.sender.SentAll? ==> w.receiver.Stored?)
  }

  ghost predicate DiskOk(disk: Disk, held: set<nat>) {
    && (forall f :: f in disk.data ==> f < disk.next)
    && (disk.part.Some? ==> disk.part.value in disk.data)
    && (forall f :: f in held ==> f in disk.data)
  }

  /** The file we stored is no longer at the part path, and we have it open no more. */
  ghost predicate Guarded(job: Job, s: Shared) {
    && Orderly(job, s.w, s.checked)
    && DiskOk(s.disk, s.held)
    && (s.fd.Some? ==> s.fd.value in s.disk.data)
    && (s.w.receiver.Stored? <==> s.stored.Some?)
    && (s.stored.Some? ==> s.stored.value in s.disk.data && s.disk.part != s.stored)
    && (s.stored.Some? || s.checked ==> s.fd == None)
  }

  lemma OpenKeepsOrderly(job: Job, w: World, checked: bool)
    requires Orderly(job, w, checked) && Next(job, w, OpenSession).Some?
    ensures Orderly(job, Bare(Next(job, w, OpenSession).value), checked)
    ensures !Next(job, w, OpenSession).value.receiver.Stored? && !w.receiver.Stored? && !checked
  {
    hide FullPrefix, Below, ChunksFor;
  }

  lemma ReceiveKeepsOrderly(job: Job, w: World, checked: bool)
    requires Orderly(job, w, checked) && Next(job, w, ReceiveData).Some?
    ensures Orderly(job, Bare(Next(job, w, ReceiveData).value), checked)
    ensures !Next(job, w, ReceiveData).value.receiver.Stored? && !w.receiver.Stored? && !checked
  {
    hide FullPrefix, WriteFile, Frames.ReadDataPayload;
  }

  lemma SenderKeepsOrderly(job: Job, w: World, a: Action, checked: bool)
    requires !a.OpenSession? && !a.ReceiveData? && !a.ReceiveFin?
    requires Orderly(job, w, checked) && Next(job, w, a).Some?
    ensures Orderly(job, Bare(Next(job, w, a).value), checked)
    ensures Next(job, w, a).value.receiver.Stored? == w.receiver.Stored?
    ensures a.Reconnect? ==> !checked && !w.receiver.Stored?
  {
    hide Frames.DataPayload;
  }

  lemma StepKeepsGuarded(job: Job, s: Shared, m: Move)
    requires Guarded(job, s) && Step(job, s, m).Some?
    ensures Guarded(job, Step(job, s, m).value)
  {
    hide Guarded;
    match m
    case Ours(a) => OursKeepsGuarded(job, s, a);
    case CheckHash => CheckKeepsGuarded(job, s);
    case StoreFile => StoreKeepsGuarded(job, s);
    case Theirs(op) => TheirsKeepsGuarded(job, s, op);
  }

  lemma CheckKeepsGuarded(job: Job, s: Shared)
    requires Guarded(job, s) && DoCheck(job, s).Some?
    ensures Guarded(job, DoCheck(job, s).value)
  {
  }

  lemma StoreKeepsGuarded(job: Job, s: Shared)
    requires Guarded(job, s) && DoStore(s).Some?
    ensures Guarded(job, DoStore(s).value)
  {
  }

  lemma TheirsKeepsGuarded(job: Job, s: Shared, op: Op)
    requires Guarded(job, s) && DoTheirs(s, op).Some?
    ensures Guarded(job, DoTheirs(s, op).value)
  {
    hide Orderly;
  }

  lemma OursKeepsGuarded(job: Job, s: Shared, a: Action)
    requires Guarded(job, s) && Step(job, s, Ours(a)).Some?
    ensures Guarded(job, Step(job, s, Ours(a)).value)
  {
    hide Next, Orderly;
    match a
    case OpenSession =>
      SameOrderly(job, s.w, s.disk.Content(s.disk.part), s.checked);
      OpenKeepsOrderly(job, s.w.(part := s.disk.Content(s.disk.part)), s.checked);
    case ReceiveData =>
      SameOrderly(job, s.w, s.disk.Content(s.fd), s.checked);
      ReceiveKeepsOrderly(job, s.w.(part := s.disk.Content(s.fd)), s.checked);
    case ReceiveFin =>
    case _ => SenderKeepsOrderly(job, s.w, a, s.checked);
  }

  lemma SameOrderly(job: Job, w: World, part: Option<seq<byte>>, checked: bool)
    requires Orderly(job, w, checked)
    ensures Orderly(job, w.(part := part), checked)
  {
  }

  lemma {:induction false} RunKeepsGuarded(job: Job, s: Shared, moves: seq<Move>)
    requires Guarded(job, s) && RunShared(job, s, moves).Some?
    ensures Guarded(job, RunShared(job, s, moves).value)
    decreases |moves|
  {
    hide Guarded, Step;
    if moves != [] {
      StepKeepsGuarded(job, s, moves[0]);
      RunKeepsGuarded(job, Step(job, s, moves[0]).value, moves[1..]);
    }
  }

  lemma BeginGuarded(job: Job, offset: nat, disk: Disk, held: set<nat>)
    requires DiskOk(disk, held)
    ensures Guarded(job, BeginShared(offset, disk, held))
  {
  }

  // ----- enough: nobody meddles from the hash on -----

  /** The file that passed the hash, or was stored, still has the digest of the source. */
  ghost predicate Intact(job: Job, s: Shared) {
    && (s.checked ==> s.disk.part.Some? && s.disk.part.value in s.disk.data
                      && job.digest(s.disk.data[s.disk.part.value]) == job.digest(job.source))
    && (s.stored.Some? ==> s.stored.value in s.disk.data
                           && job.digest(s.disk.data[s.stored.value]) == job.digest(job.source))
  }

  /** A move that changes what will be, or was, stored: between hash and rename anything that changes what lies at the
      part path, after it a write to the stored file. */
  predicate Disturbs(s: Shared, m: Move) {
    m.Theirs? &&
    match m.op
    case OpenPart(truncate) => s.checked && (truncate || s.disk.part.None?)
    case WriteTo(f, _) => (s.checked && s.disk.part == Some(f)) || s.stored == Some(f)
    case Close(_) => false
    case RemovePart => s.checked
    case RenamePart => s.checked
  }

  predicate Undisturbed(job: Job, s: Shared, moves: seq<Move>)
    requires RunShared(job, s, moves).Some?
    decreases |moves|
  {
    moves == [] || (!Disturbs(s, moves[0]) && Undisturbed(job, Step(job, s, moves[0]).value, moves[1..]))
  }

  lemma StepKeepsIntact(job: Job, s: Shared, m: Move)
    requires Guarded(job, s) && Intact(job, s) && Step(job, s, m).Some? && !Disturbs(s, m)
    ensures Intact(job, Step(job, s, m).value)
  {
    match m
    case Ours(a) => OursKeepsIntact(job, s, a);
    case CheckHash =>
    case StoreFile =>
    case Theirs(op) => hide Orderly;
  }

  lemma OursKeepsIntact(job: Job, s: Shared, a: Action)
    requires Guarded(job, s) && Intact(job, s) && Step(job, s, Ours(a)).Some?
    ensures Intact(job, Step(job, s, Ours(a)).value)
  {
    hide Next, Orderly;
    match a
    case OpenSession =>
      SameOrderly(job, s.w, s.disk.Content(s.disk.part), s.checked);
      OpenKeepsOrderly(job, s.w.(part := s.disk.Content(s.disk.part)), s.checked);
    case ReceiveData =>
      SameOrderly(job, s.w, s.disk.Content(s.fd), s.checked);
      ReceiveKeepsOrderly(job, s.w.(part := s.disk.Content(s.fd)), s.checked);
    case ReceiveFin =>
    case _ => SenderKeepsOrderly(job, s.w, a, s.checked);
  }

  lemma {:induction false} RunKeepsIntact(job: Job, s: Shared, moves: seq<Move>)
    requires Guarded(job, s) && Intact(job, s) && RunShared(job, s, moves).Some? && Undisturbed(job, s, moves)
    ensures Intact(job, RunShared(job, s, moves).value)
    decreases |moves|
  {
    hide Guarded, Intact, Step, Disturbs;
    if moves != [] {
      StepKeepsGuarded(job, s, moves[0]);
      StepKeepsIntact(job, s, moves[0]);
      RunKeepsIntact(job, Step(job, s, moves[0]).value, moves[1..]);
    }
  }

  /** Whatever others do to the part file before its hash is taken, and wherever the transfer resumes: if from then on
      nobody disturbs it, what is stored has the digest of the source; and when the sender believes that it is done, a
      file is stored. */
  lemma DigestGuards(job: Job, offset: nat, disk: Disk, held: set<nat>, moves: seq<Move>)
    requires DiskOk(disk, held) && RunShared(job, BeginShared(offset, disk, held), moves).Some?
    ensures var s := RunShared(job, BeginShared(offset, disk, held), moves).value;
            && (s.w.sender.SentAll? ==> s.stored.Some?)
            && (Undisturbed(job, BeginShared(offset, disk, held), moves) ==> Intact(job, s))
  {
    hide Step, Intact;
    var start := BeginShared(offset, disk, held);
    BeginGuarded(job, offset, disk, held);
    RunKeepsGuarded(job, start, moves);
    if Undisturbed(job, start, moves) {
      NothingYet(job, start);
      RunKeepsIntact(job, start, moves);
    }
  }

  lemma NothingYet(job: Job, s: Shared)
    requires !s.checked && s.stored == None
    ensures Intact(job, s)
  {
  }

  /** The hash fails exactly if the part path is empty or what lies there has another digest. */
  lemma CheckFailsIff(job: Job, s: Shared)
    requires Guarded(job, s) && s.w.receiver.Active? && s.w.fwd != [] && s.w.fwd[0].Fin? && !s.checked
    ensures var c := s.disk.Content(s.disk.part);
            var t := Step(job, s, CheckHash);
            && t.Some? && (t.value.checked || t.value.w.receiver.Failed?)
            && (t.value.w.receiver.Failed? <==> c.None? || job.digest(c.value) != job.digest(job.source))
  {
    assert Honest(job, s.w.fwd[0]);
  }

  // ----- necessary: who can still write decides -----

  /** What was stored still has the digest of the source. */
  ghost predicate StoredWell(job: Job, s: Shared) {
    s.stored.Some? ==> s.stored.value in s.disk.data
                       && job.digest(s.disk.data[s.stored.value]) == job.digest(job.source)
  }

  /** Once stored, the file is safe for ever exactly if nobody has it open; between hash and rename it never is. */
  lemma SafeForeverIff(job: Job, s: Shared, bad: seq<byte>)
    requires Guarded(job, s) && Intact(job, s) && (s.checked || s.stored.Some?)
    requires job.digest(bad) != job.digest(job.source)
    ensures (forall moves: seq<Move> :: RunShared(job, s, moves).Some? ==>
               StoredWell(job, RunShared(job, s, moves).value))
            <==> s.stored.Some? && s.stored.value !in s.held
  {
    if s.stored.Some? && s.stored.value !in s.held {
      forall moves: seq<Move> | RunShared(job, s, moves).Some?
        ensures StoredWell(job, RunShared(job, s, moves).value)
      {
        hide Guarded, RunShared;
        FrozenStays(job, s, moves);
      }
    } else {
      hide Guarded, Intact, RunShared;
      var moves := Spoil(job, s, bad);
    }
  }

  /** The file that is stored, or about to be. */
  function Watched(s: Shared): Option<nat> { if s.stored.Some? then s.stored else s.disk.part }

  /** Somebody opens the file if need be, and overwrites it; then it is stored, if it was not yet. */
  lemma Spoil(job: Job, s: Shared, bad: seq<byte>) returns (moves: seq<Move>)
    requires Guarded(job, s) && Intact(job, s) && (s.checked || s.stored.Some?)
    requires s.stored.Some? ==> s.stored.value in s.held
    requires job.digest(bad) != job.digest(job.source)
    ensures RunShared(job, s, moves).Some? && !StoredWell(job, RunShared(job, s, moves).value)
  {
    var f := Watched(s).value;
    var write := Theirs(WriteTo(f, bad));
    if s.stored.Some? {
      moves := [write];
      OneMove(job, s, write);
    } else {
      moves := [Theirs(OpenPart(false)), write, StoreFile];
      var t := Step(job, s, moves[0]).value;
      var u := Step(job, t, write).value;
      assert moves[1..][1..] == [StoreFile];
      OneMove(job, u, StoreFile);
      assert RunShared(job, t, moves[1..]) == RunShared(job, u, [StoreFile]);
    }
  }

  lemma OneMove(job: Job, s: Shared, m: Move)
    ensures RunShared(job, s, [m]) == Step(job, s, m)
  {
    hide Step;
    assert [m][1..] == [];
  }

  lemma FrozenStep(job: Job, s: Shared, m: Move)
    requires Guarded(job, s) && Step(job, s, m).Some? && s.stored.Some? && s.stored.value !in s.held
    ensures var t := Step(job, s, m).value;
            t.stored == s.stored && t.stored.value !in t.held && t.disk.Content(t.stored) == s.disk.Content(s.stored)
  {
    hide Frames.DataPayload, Frames.ReadDataPayload, Open, TakeData;
  }

  lemma {:induction false} FrozenStays(job: Job, s: Shared, moves: seq<Move>)
    requires Guarded(job, s) && Intact(job, s) && s.stored.Some? && s.stored.value !in s.held
    requires RunShared(job, s, moves).Some?
    ensures Intact(job, RunShared(job, s, moves).value)
    decreases |moves|
  {
    hide Step, Guarded;
    if moves != [] {
      var t := Step(job, s, moves[0]).value;
      StepKeepsGuarded(job, s, moves[0]);
      FrozenStep(job, s, moves[0]);
      StoredNotChecked(job, s);
      StoredNotChecked(job, t);
      FrozenStays(job, t, moves[1..]);
    }
  }

  lemma StoredNotChecked(job: Job, s: Shared)
    requires Guarded(job, s) && s.stored.Some?
    ensures !s.checked && s.stored.value in s.disk.data
  {
  }

  // ----- the same of a schedule -----

  /** From the hash on, others open the part file without cutting it, close files, and write to those they hold; we
      store the file and the sender hears of it. */
  predicate Plain(m: Move) {
    || m.StoreFile?
    || m == Ours(TakeDone)
    || (m.Theirs? && (m.op.WriteTo? || m.op.Close? || m.op == OpenPart(false)))
  }

  predicate Writes(m: Move, f: nat) { m.Theirs? && m.op.WriteTo? && m.op.file == f }

  /** The same moves, but what others write is `bad`. */
  function Vary(m: Move, bad: seq<byte>): Move {
    if m.Theirs? && m.op.WriteTo? then Theirs(WriteTo(m.op.file, bad)) else m
  }

  function VaryAll(moves: seq<Move>, bad: seq<byte>): (r: seq<Move>)
    ensures |r| == |moves| && forall i :: 0 <= i < |moves| ==> r[i] == Vary(moves[i], bad)
  {
    seq(|moves|, i requires 0 <= i < |moves| => Vary(moves[i], bad))
  }

  /** What the last write to a file leaves there. */
  function LastWritten(moves: seq<Move>, f: nat, content: seq<byte>): seq<byte> {
    if moves == [] then content
    else LastWritten(moves[1..], f, if Writes(moves[0], f) then moves[0].op.content else content)
  }

  ghost predicate Watching(job: Job, s: Shared, f: nat) {
    Guarded(job, s) && (s.checked || s.stored.Some?) && Watched(s) == Some(f) && f in s.disk.data
  }

  lemma PlainStep(job: Job, s: Shared, m: Move, f: nat)
    requires Watching(job, s, f) && Plain(m) && Step(job, s, m).Some?
    ensures var t := Step(job, s, m).value;
            && Watching(job, t, f)
            && t.disk.data[f] == if Writes(m, f) then m.op.content else s.disk.data[f]
  {
    StepKeepsGuarded(job, s, m);
  }

  lemma {:induction false} PlainRun(job: Job, s: Shared, moves: seq<Move>, f: nat)
    requires Watching(job, s, f) && (forall i :: 0 <= i < |moves| ==> Plain(moves[i]))
    requires RunShared(job, s, moves).Some?
    ensures var t := RunShared(job, s, moves).value;
            Watching(job, t, f) && t.disk.data[f] == LastWritten(moves, f, s.disk.data[f])
    decreases |moves|
  {
    hide Step;
    if moves != [] {
      PlainStep(job, s, moves[0], f);
      PlainRun(job, Step(job, s, moves[0]).value, moves[1..], f);
    }
  }

  /** The same but for the contents of the files. */
  ghost predicate Alike(s: Shared, t: Shared) {
    t == s.(disk := s.disk.(data := t.disk.data)) && s.disk.data.Keys == t.disk.data.Keys
  }

  lemma {:induction false} VaryRuns(job: Job, s: Shared, t: Shared, moves: seq<Move>, bad: seq<byte>)
    requires Alike(s, t) && (forall i :: 0 <= i < |moves| ==> Plain(moves[i]))
    requires RunShared(job, s, moves).Some?
    ensures RunShared(job, t, VaryAll(moves, bad)).Some?
    decreases |moves|
  {
    if moves != [] {
      VaryStep(job, s, t, moves[0], bad);
      hide Step, Alike, Vary;
      assert VaryAll(moves, bad)[1..] == VaryAll(moves[1..], bad);
      VaryRuns(job, Step(job, s, moves[0]).value, Step(job, t, Vary(moves[0], bad)).value, moves[1..], bad);
    }
  }

  lemma VaryStep(job: Job, s: Shared, t: Shared, m: Move, bad: seq<byte>)
    requires Alike(s, t) && Plain(m) && Step(job, s, m).Some?
    ensures Step(job, t, Vary(m, bad)).Some? && Alike(Step(job, s, m).value, Step(job, t, Vary(m, bad)).value)
  {
  }

  lemma {:induction false} LastIfAny(moves: seq<Move>, f: nat, content: seq<byte>, bad: seq<byte>)
    ensures var any := exists i :: 0 <= i < |moves| && Writes(moves[i], f);
            && (!any ==> LastWritten(moves, f, content) == content)
            && LastWritten(VaryAll(moves, bad), f, content) == if any then bad else content
    decreases |moves|
  {
    if moves != [] {
      var rest := moves[1..];
      assert VaryAll(moves, bad)[1..] == VaryAll(rest, bad);
      LastIfAny(rest, f, if Writes(moves[0], f) then moves[0].op.content else content, bad);
      LastIfAny(rest, f, if Writes(moves[0], f) then bad else content, bad);
      if exists i :: 0 <= i < |moves| && Writes(moves[i], f) {
        var i :| 0 <= i < |moves| && Writes(moves[i], f);
        assert i == 0 || Writes(rest[i - 1], f);
      }
      if exists i :: 0 <= i < |rest| && Writes(rest[i], f) {
        var i :| 0 <= i < |rest| && Writes(rest[i], f);
        assert Writes(moves[i + 1], f);
      }
    }
  }

  ghost predicate KeepsDigest(job: Job, s: Shared, f: nat) {
    f in s.disk.data && job.digest(s.disk.data[f]) == job.digest(job.source)
  }

  /** From the hash on, a schedule keeps what is stored, whatever others write, exactly if nobody writes through a
      descriptor of that file. */
  lemma WritesDecide(job: Job, s: Shared, moves: seq<Move>, bad: seq<byte>)
    requires Guarded(job, s) && Intact(job, s) && s.checked && job.digest(bad) != job.digest(job.source)
    requires (forall i :: 0 <= i < |moves| ==> Plain(moves[i])) && RunShared(job, s, moves).Some?
    ensures var f := s.disk.part.value;
            var varied := RunShared(job, s, VaryAll(moves, bad));
            && varied.Some?
            && Watched(RunShared(job, s, moves).value) == Watched(varied.value) == Some(f)
            && (KeepsDigest(job, RunShared(job, s, moves).value, f) && KeepsDigest(job, varied.value, f)
                <==> forall i :: 0 <= i < |moves| ==> !Writes(moves[i], f))
  {
    var f := s.disk.part.value;
    assert Watching(job, s, f);
    var c := s.disk.data[f];
    VaryRuns(job, s, s, moves, bad);
    PlainRun(job, s, moves, f);
    PlainRun(job, s, VaryAll(moves, bad), f);
    LastIfAny(moves, f, c, bad);
  }

  // ----- what we leave alone -----

  /** The final path names a file of its own. */
  ghost predicate Apart(s: Shared) {
    s.disk.final.Some? ==>
      s.disk.final.value in s.disk.data && s.disk.part != s.disk.final && s.fd != s.disk.final
  }

  /** As long as we have not stored our file and others neither rename theirs nor write to what lies at the final path,
      that is what it was. */
  lemma FinalStep(job: Job, s: Shared, m: Move)
    requires Guarded(job, s) && Apart(s) && Step(job, s, m).Some? && m != Theirs(RenamePart)
    requires s.disk.final.Some? ==> !Writes(m, s.disk.final.value)
    ensures var t := Step(job, s, m).value;
            t.stored == None ==>
              Apart(t) && t.disk.final == s.disk.final && t.disk.Content(t.disk.final) == s.disk.Content(s.disk.final)
  {
    hide Orderly, Next;
  }

  lemma StoredStays(job: Job, s: Shared, m: Move)
    requires Guarded(job, s) && Step(job, s, m).Some? && s.stored.Some?
    ensures Step(job, s, m).value.stored.Some?
  {
    hide Next;
    StepKeepsGuarded(job, s, m);
  }

  lemma {:induction false} FinalKept(job: Job, s: Shared, moves: seq<Move>)
    requires Guarded(job, s) && Apart(s) && RunShared(job, s, moves).Some?
    requires forall i :: 0 <= i < |moves| ==> moves[i] != Theirs(RenamePart)
    requires s.disk.final.Some? ==> forall i :: 0 <= i < |moves| ==> !Writes(moves[i], s.disk.final.value)
    ensures var t := RunShared(job, s, moves).value;
            t.stored.Some?
            || (t.disk.final == s.disk.final && t.disk.Content(t.disk.final) == s.disk.Content(s.disk.final))
    decreases |moves|
  {
    hide Guarded, Apart, Step;
    if moves != [] {
      var t := Step(job, s, moves[0]).value;
      StepKeepsGuarded(job, s, moves[0]);
      FinalStep(job, s, moves[0]);
      if t.stored.Some? {
        StoredForGood(job, t, moves[1..]);
      } else {
        FinalKept(job, t, moves[1..]);
      }
    }
  }

  lemma {:induction false} StoredForGood(job: Job, s: Shared, moves: seq<Move>)
    requires Guarded(job, s) && s.stored.Some? && RunShared(job, s, moves).Some?
    ensures RunShared(job, s, moves).value.stored.Some?
    decreases |moves|
  {
    hide Guarded, Step;
    if moves != [] {
      StepKeepsGuarded(job, s, moves[0]);
      StoredStays(job, s, moves[0]);
      StoredForGood(job, Step(job, s, moves[0]).value, moves[1..]);
    }
  }
}
