/** The carriers of one tunnel peer: attached, replaced by direction, marked dead and detached by many threads, while
    writers retry over snapshots of the live ones. */
module CarrierHub {
  import opened Bytes

  datatype Direction = Unknown | Inbound | Outbound

  /** A carrier is named by the order of its attachment: `born[id]` is its direction. `dead` holds the carriers whose
      flag is set, detached ones included. */
  datatype Hub = Hub(born: seq<Direction>, carriers: seq<nat>, dead: set<nat>)

  const MAX_RETRIES := 48
  const DUP_LIMIT := 100

  function Start(): Hub { Hub([], [], {}) }

  predicate Live(h: Hub, id: nat) { id < |h.born| && id !in h.dead }

  /** The list without some carriers, in the same order. */
  function Without(s: seq<nat>, drop: set<nat>): seq<nat> {
    if s == [] then []
    else Without(s[..|s| - 1], drop) + if s[|s| - 1] in drop then [] else [s[|s| - 1]]
  }

  ghost predicate Increasing(s: seq<nat>) { forall i, j :: 0 <= i < j < |s| ==> s[i] < s[j] }

  ghost predicate Inv(h: Hub) {
    && Increasing(h.carriers)
    && (forall i :: 0 <= i < |h.carriers| ==> h.carriers[i] < |h.born|)
    && (forall id :: id in h.dead ==> id < |h.born|)
    // a live carrier is in the list
    && (forall id :: 0 <= id < |h.born| && id !in h.dead ==> id in h.carriers)
    // only the newest carrier of a direction can be live
    && (forall i, j :: 0 <= i < j < |h.born| && h.born[i] == h.born[j] ==> i in h.dead)
  }

  // ----- the atomic steps of all threads -----

  datatype Action =
    | Attach(direction: Direction)
    | Die(id: nat)
    | Remove(id: nat)

  /** Only a carrier that exists has a flag to set, and a carrier is removed only by its own detach, which has set
      the flag. */
  predicate Possible(h: Hub, a: Action) {
    match a
    case Attach(_) => true
    case Die(id) => id < |h.born|
    case Remove(id) => id in h.dead
  }

  function Displaced(h: Hub, direction: Direction): set<nat> {
    set id | id in h.carriers && id < |h.born| && h.born[id] == direction && id !in h.dead
  }

  /** An impossible action does nothing. */
  function Next(h: Hub, a: Action): Hub {
    if !Possible(h, a) then h else
      match a
      case Attach(direction) =>
        var displaced := Displaced(h, direction);
        Hub(h.born + [direction], Without(h.carriers, displaced) + [|h.born|], h.dead + displaced)
      case Die(id) => h.(dead := h.dead + {id})
      case Remove(id) => h.(carriers := Without(h.carriers, {id}))
  }

  function Run(h: Hub, acts: seq<Action>): Hub
    decreases |acts|
  {
    if acts == [] then h else Next(Run(h, acts[..|acts| - 1]), acts[|acts| - 1])
  }

  lemma {:induction false} WithoutMembers(s: seq<nat>, drop: set<nat>)
    ensures forall x :: x in Without(s, drop) <==> x in s && x !in drop
  {
    if s != [] {
      WithoutMembers(s[..|s| - 1], drop);
      assert s == s[..|s| - 1] + [s[|s| - 1]];
    }
  }

  lemma {:induction false} WithoutIncreasing(s: seq<nat>, drop: set<nat>)
    requires Increasing(s)
    ensures Increasing(Without(s, drop))
  {
    if s != [] {
      var t := s[..|s| - 1];
      WithoutIncreasing(t, drop);
      WithoutMembers(t, drop);
      forall i | 0 <= i < |Without(t, drop)| ensures Without(t, drop)[i] < s[|s| - 1] {
        assert Without(t, drop)[i] in t;
      }
    }
  }

  lemma {:induction false} WithoutNone(s: seq<nat>, drop: set<nat>)
    requires forall i :: 0 <= i < |s| ==> s[i] !in drop
    ensures Without(s, drop) == s
  {
    if s != [] {
      WithoutNone(s[..|s| - 1], drop);
      assert s == s[..|s| - 1] + [s[|s| - 1]];
    }
  }

  /** Cutting one carrier out of the list is dropping it. */
  lemma {:induction false} CutIsWithout(s: seq<nat>, i: nat)
    requires Increasing(s) && i < |s|
    ensures Without(s, {s[i]}) == s[..i] + s[i + 1..]
  {
    var n := |s| - 1;
    var t := s[..n];
    if i == n {
      WithoutNone(t, {s[i]});
    } else {
      CutIsWithout(t, i);
      assert t[..i] == s[..i] && t[i + 1..] + [s[n]] == s[i + 1..];
    }
  }

  lemma StepKeepsInv(h: Hub, a: Action)
    requires Inv(h)
    ensures Inv(Next(h, a))
  {
    if Possible(h, a) {
      match a
      case Attach(direction) =>
        AttachKeepsInv(h, direction);
      case Die(id) =>
      case Remove(id) =>
        WithoutMembers(h.carriers, {id});
        WithoutIncreasing(h.carriers, {id});
        var n := Next(h, a);
        forall i | 0 <= i < |n.carriers| ensures n.carriers[i] < |n.born| {
          assert n.carriers[i] in h.carriers;
        }
    }
  }

  lemma AttachKeepsInv(h: Hub, direction: Direction)
    requires Inv(h)
    ensures Inv(Next(h, Attach(direction)))
  {
    var drop := Displaced(h, direction);
    var kept := Without(h.carriers, drop);
    WithoutMembers(h.carriers, drop);
    WithoutIncreasing(h.carriers, drop);
    forall i | 0 <= i < |kept| ensures kept[i] < |h.born| {
      assert kept[i] in h.carriers;
    }
    var n := Next(h, Attach(direction));
    forall id | 0 <= id < |n.born| && id !in n.dead ensures id in n.carriers {
      if id < |h.born| {
        assert id in kept;
      } else {
        assert n.carriers[|kept|] == id;
      }
    }
  }

  /** Attaching makes the new carrier live, kills the live ones of its direction and no other, and takes just those off
      the list; the order of the rest is kept. */
  lemma AttachEffects(h: Hub, direction: Direction)
    requires Inv(h)
    ensures var n := Next(h, Attach(direction));
            && Live(n, |h.born|) && n.born == h.born + [direction]
            && (forall id: nat :: id < |h.born| ==> (Live(n, id) <==> Live(h, id) && h.born[id] != direction))
            && (forall id: nat :: id in n.carriers <==>
                  id == |h.born| || (id in h.carriers && !(Live(h, id) && h.born[id] == direction)))
            && Increasing(n.carriers)
  {
    AttachKeepsInv(h, direction);
    WithoutMembers(h.carriers, Displaced(h, direction));
    forall id: nat | id in h.carriers ensures id < |h.born| {
    }
  }

  /** Marking a carrier dead kills it, detaching takes a dead one off the list, and neither touches another carrier. */
  lemma DeathEffects(h: Hub, a: Action, other: nat)
    requires a.Die? || a.Remove?
    ensures var n := Next(h, a);
            && (Live(n, other) <==> Live(h, other) && !(a.Die? && a.id == other))
            && (other in n.carriers <==> other in h.carriers && !(a.Remove? && a.id == other && other in h.dead))
  {
    if a.Remove? {
      WithoutMembers(h.carriers, {a.id});
    }
  }

  /** `later` is a possible future of `h`: what was attached stays known, what was dead stays dead. */
  ghost predicate Extends(h: Hub, later: Hub) {
    && |h.born| <= |later.born| && later.born[..|h.born|] == h.born
    && h.dead <= later.dead
  }

  lemma ExtendsTrans(a: Hub, b: Hub, c: Hub)
    requires Extends(a, b) && Extends(b, c)
    ensures Extends(a, c)
  {
    assert c.born[..|a.born|] == c.born[..|b.born|][..|a.born|];
  }

  lemma StepExtends(h: Hub, a: Action)
    ensures Extends(h, Next(h, a))
  {
  }

  lemma {:induction false} RunKeepsInv(h: Hub, acts: seq<Action>)
    requires Inv(h)
    ensures Inv(Run(h, acts)) && Extends(h, Run(h, acts))
    decreases |acts|
  {
    hide Inv, Next, Extends;
    if acts != [] {
      var before := Run(h, acts[..|acts| - 1]);
      RunKeepsInv(h, acts[..|acts| - 1]);
      StepKeepsInv(before, acts[|acts| - 1]);
      StepExtends(before, acts[|acts| - 1]);
      ExtendsTrans(h, before, Run(h, acts));
    } else {
      ExtendsRefl(h);
    }
  }

  lemma ExtendsRefl(h: Hub)
    ensures Extends(h, h)
  {
  }

  lemma {:induction false} RunSplits(h: Hub, acts: seq<Action>, more: seq<Action>)
    ensures Run(h, acts + more) == Run(Run(h, acts), more)
    decreases |more|
  {
    if more == [] {
      assert acts + more == acts;
    } else {
      RunSplits(h, acts, more[..|more| - 1]);
      assert (acts + more)[..|acts + more| - 1] == acts + more[..|more| - 1];
    }
  }

  /** In every reachable state a live carrier is in the list, and is the newest ever attached in its direction, so no
      two live carriers share a direction. */
  lemma OneLivePerDirection(acts: seq<Action>, a: nat, b: nat)
    requires Live(Run(Start(), acts), a)
    ensures var h := Run(Start(), acts);
            && a in h.carriers
            && (b < |h.born| && h.born[b] == h.born[a] ==> b <= a)
            && (Live(h, b) && h.born[b] == h.born[a] ==> a == b)
  {
    RunKeepsInv(Start(), acts);
  }

  /** A dead carrier never revives, whatever the threads do next. */
  lemma DeadStaysDead(acts: seq<Action>, more: seq<Action>, id: nat)
    requires id in Run(Start(), acts).dead
    ensures id in Run(Start(), acts + more).dead
    ensures !Live(Run(Start(), acts + more), id)
  {
    RunKeepsInv(Start(), acts);
    RunSplits(Start(), acts, more);
    RunKeepsInv(Run(Start(), acts), more);
  }

  // ----- writing -----

  function Snapshot(h: Hub): seq<nat> { Without(h.carriers, h.dead) }

  function Reversed(s: seq<nat>): (r: seq<nat>)
    ensures |r| == |s| && forall i :: 0 <= i < |s| ==> r[i] == s[|s| - 1 - i]
  {
    seq(|s|, i requires 0 <= i < |s| => s[|s| - 1 - i])
  }

  /** One attempt to write the packet to a carrier. */
  datatype Send = Send(carrier: nat, ok: bool)

  /** One round of a write: the hub at the moment of the snapshot, and the snapshot in the order tried. */
  datatype Round = Round(hub: Hub, live: seq<nat>)

  ghost predicate IsSnapshot(r: Round) {
    Inv(r.hub) && (r.live == Snapshot(r.hub) || r.live == Reversed(Snapshot(r.hub)))
  }

  function Failed(ids: seq<nat>): (r: seq<Send>)
    ensures |r| == |ids| && forall i :: 0 <= i < |ids| ==> r[i] == Send(ids[i], false)
  {
    seq(|ids|, i requires 0 <= i < |ids| => Send(ids[i], false))
  }

  /** All carriers tried in some rounds, in order. */
  function Tried(rounds: seq<Round>): seq<nat> {
    if rounds == [] then [] else Tried(rounds[..|rounds| - 1]) + rounds[|rounds| - 1].live
  }

  /** The rounds of one write: snapshots of successive states, each carrier that a round has tried in vain dead by the
      next round. */
  ghost predicate Rounds(h: Hub, rounds: seq<Round>) {
    && (forall r :: 0 <= r < |rounds| ==> IsSnapshot(rounds[r]) && Extends(h, rounds[r].hub))
    && (forall q, r, i :: 0 <= q < r < |rounds| && 0 <= i < |rounds[q].live| ==>
          rounds[q].live[i] in rounds[r].hub.dead)
  }

  /** The two extra copies of a small packet, when a further carrier is at hand; their outcome is ignored. */
  ghost predicate Copies(len: nat, live: seq<nat>, k: nat, sends: seq<Send>) {
    if len < 100 && k + 1 < |live| then
      |sends| == 2 && sends[0].carrier == live[k] && sends[1].carrier == live[k + 1]
    else
      sends == []
  }

  /** What one write did. It fails only when 48 snapshots have failed entirely; otherwise all went wrong up to the
      first carrier that took the packet. */
  ghost predicate Outcome(len: nat, rounds: seq<Round>, k: nat, sends: seq<Send>, sent: bool) {
    if !sent then
      |rounds| == MAX_RETRIES && sends == Failed(Tried(rounds))
    else
      && 1 <= |rounds| <= MAX_RETRIES
      && Delivered(len, Tried(rounds[..|rounds| - 1]), rounds[|rounds| - 1].live, k, sends)
  }

  /** All carriers tried before, and the first `k` of the last snapshot, refused; the next took the packet. */
  ghost predicate Delivered(len: nat, before: seq<nat>, live: seq<nat>, k: nat, sends: seq<Send>) {
    && k < |live|
    && |sends| > |before| + k
    && sends[..|before| + k] == Failed(before + live[..k])
    && sends[|before| + k] == Send(live[k], true)
    && Copies(len, live, k, sends[|before| + k + 1..])
  }

  lemma SnapshotFacts(r: Round)
    requires IsSnapshot(r)
    ensures forall i :: 0 <= i < |r.live| ==> Live(r.hub, r.live[i]) && r.live[i] in r.hub.carriers
    ensures forall i, j :: 0 <= i < j < |r.live| ==> r.live[i] != r.live[j]
    ensures forall id :: Live(r.hub, id) ==> id in r.live
  {
    var s := Snapshot(r.hub);
    WithoutMembers(r.hub.carriers, r.hub.dead);
    WithoutIncreasing(r.hub.carriers, r.hub.dead);
    forall i | 0 <= i < |s| ensures Live(r.hub, s[i]) && s[i] in r.hub.carriers {
      assert s[i] in s;
    }
    forall id | Live(r.hub, id) ensures id in r.live {
      assert id in s;
      var i :| 0 <= i < |s| && s[i] == id;
      assert Reversed(s)[|s| - 1 - i] == id;
    }
  }

  lemma ThreeDirections(a: Direction, b: Direction, c: Direction, d: Direction)
    ensures a == b || a == c || a == d || b == c || b == d || c == d
  {
  }

  /** There are three directions, so a snapshot holds at most three carriers. */
  lemma SnapshotIsSmall(r: Round)
    requires IsSnapshot(r)
    ensures |r.live| <= 3
  {
    SnapshotFacts(r);
    var b, l := r.hub.born, r.live;
    if |l| > 3 {
      ThreeDirections(b[l[0]], b[l[1]], b[l[2]], b[l[3]]);
    }
    forall i, j | 0 <= i < j < |l| ensures b[l[i]] != b[l[j]] {
      assert l[i] < l[j] || l[j] < l[i];
    }
  }

  lemma {:induction false} TriedSource(rounds: seq<Round>, id: nat)
    requires id in Tried(rounds)
    ensures exists r :: 0 <= r < |rounds| && id in rounds[r].live
  {
    var n := |rounds| - 1;
    if id in Tried(rounds[..n]) {
      TriedSource(rounds[..n], id);
      var r :| 0 <= r < n && id in rounds[..n][r].live;
      assert id in rounds[r].live;
    } else {
      assert id in rounds[n].live;
    }
  }

  /** What earlier rounds tried is dead by the last round. */
  lemma TriedAreDead(h: Hub, rounds: seq<Round>, id: nat)
    requires Rounds(h, rounds) && rounds != [] && id in Tried(rounds[..|rounds| - 1])
    ensures id in rounds[|rounds| - 1].hub.dead
  {
    var front := rounds[..|rounds| - 1];
    TriedSource(front, id);
    var r :| 0 <= r < |front| && id in front[r].live;
    var j :| 0 <= j < |rounds[r].live| && rounds[r].live[j] == id;
  }

  lemma {:induction false} TriedOnce(h: Hub, rounds: seq<Round>)
    requires Rounds(h, rounds)
    ensures |Tried(rounds)| <= 3 * |rounds|
    ensures forall i, j :: 0 <= i < j < |Tried(rounds)| ==> Tried(rounds)[i] != Tried(rounds)[j]
  {
    hide IsSnapshot;
    if rounds != [] {
      var n := |rounds| - 1;
      var front := rounds[..n];
      TriedOnce(h, front);
      SnapshotFacts(rounds[n]);
      SnapshotIsSmall(rounds[n]);
      forall i | 0 <= i < |Tried(front)| ensures Tried(front)[i] !in rounds[n].live {
        TriedAreDead(h, rounds, Tried(front)[i]);
      }
    }
  }

  lemma TriedAppends(rounds: seq<Round>, r: Round)
    ensures Tried(rounds + [r]) == Tried(rounds) + r.live
  {
    assert (rounds + [r])[..|rounds|] == rounds;
  }

  /** A write that reports success has put the packet on a carrier that was live and listed in the snapshot it
      used. */
  lemma SuccessMeansDelivered(h: Hub, len: nat, rounds: seq<Round>, k: nat, sends: seq<Send>)
    requires Rounds(h, rounds) && Outcome(len, rounds, k, sends, true)
    ensures exists i, r :: 0 <= i < |sends| && 0 <= r < |rounds| && sends[i].ok
                           && sends[i].carrier in rounds[r].live && Live(rounds[r].hub, sends[i].carrier)
  {
    var r := |rounds| - 1;
    SnapshotFacts(rounds[r]);
    var i := |Tried(rounds[..r])| + k;
    assert sends[i].carrier == rounds[r].live[k];
  }

  /** A write that reports an error has delivered nothing: in 48 rounds every carrier that was live at the time of a
      snapshot refused the packet, each carrier once. */
  lemma ErrorMeansAllRefused(h: Hub, len: nat, rounds: seq<Round>, k: nat, sends: seq<Send>)
    requires Rounds(h, rounds) && Outcome(len, rounds, k, sends, false)
    ensures |rounds| == 48
    ensures forall i :: 0 <= i < |sends| ==> !sends[i].ok
    ensures forall i, j :: 0 <= i < j < |sends| ==> sends[i].carrier != sends[j].carrier
    ensures forall r, id :: 0 <= r < |rounds| && Live(rounds[r].hub, id) ==> Send(id, false) in sends
  {
    TriedOnce(h, rounds);
    forall r, id | 0 <= r < |rounds| && Live(rounds[r].hub, id) ensures Send(id, false) in sends {
      SnapshotFacts(rounds[r]);
      LiveIsTried(rounds, r, id);
      var i :| 0 <= i < |Tried(rounds)| && Tried(rounds)[i] == id;
      assert sends[i] == Send(id, false);
    }
  }

  lemma {:induction false} LiveIsTried(rounds: seq<Round>, r: nat, id: nat)
    requires r < |rounds| && id in rounds[r].live
    ensures id in Tried(rounds)
  {
    if r < |rounds| - 1 {
      LiveIsTried(rounds[..|rounds| - 1], r, id);
    }
  }

  /** However many carriers come and go meanwhile, one write makes at most 146 attempts. */
  lemma AttemptsAreBounded(h: Hub, len: nat, rounds: seq<Round>, k: nat, sends: seq<Send>, sent: bool)
    requires Rounds(h, rounds) && Outcome(len, rounds, k, sends, sent)
    ensures |sends| <= 3 * |rounds| + 2 <= 146
  {
    hide Rounds, Delivered, Tried;
    TriedOnce(h, rounds);
    if sent {
      var n := |rounds| - 1;
      assert rounds == rounds[..n] + [rounds[n]];
      TriedAppends(rounds[..n], rounds[n]);
      DeliveredSize(len, Tried(rounds[..n]), rounds[n].live, k, sends);
    }
  }

  lemma DeliveredSize(len: nat, before: seq<nat>, live: seq<nat>, k: nat, sends: seq<Send>)
    requires Delivered(len, before, live, k, sends)
    ensures |sends| <= |before| + |live| + 2
  {
    var rest := sends[|before| + k + 1..];
    assert |rest| == |sends| - (|before| + k + 1) && |rest| <= 2;
  }

  // ----- the object -----

  /** The flags when attach has gone through the first `i` carriers. */
  ghost function DeadAfter(h: Hub, drop: set<nat>, i: nat): set<nat>
    requires i <= |h.carriers|
  {
    h.dead + set x | x in drop && x in h.carriers[..i]
  }

  lemma AttachStep(h: Hub, direction: Direction, i: nat)
    requires Inv(h) && i < |h.carriers|
    ensures var c, drop := h.carriers[i], Displaced(h, direction);
            && (c in drop <==> h.born[c] == direction && c !in DeadAfter(h, drop, i))
            && DeadAfter(h, drop, i + 1) == DeadAfter(h, drop, i) + (if c in drop then {c} else {})
            && Without(h.carriers[..i + 1], drop) == Without(h.carriers[..i], drop) + if c in drop then [] else [c]
  {
    assert h.carriers[..i + 1] == h.carriers[..i] + [h.carriers[i]];
    assert h.carriers[..i + 1][..i] == h.carriers[..i];
    assert h.carriers[i] !in h.carriers[..i];
  }

  lemma AttachLoopEnds(h: Hub, direction: Direction)
    ensures DeadAfter(h, Displaced(h, direction), 0) == h.dead
    ensures Without(h.carriers[..0], Displaced(h, direction)) == []
    ensures DeadAfter(h, Displaced(h, direction), |h.carriers|) == h.dead + Displaced(h, direction)
    ensures h.carriers[..|h.carriers|] == h.carriers
  {
    assert h.carriers[..|h.carriers|] == h.carriers;
  }

  class TunnelHub {
    var born: seq<Direction>
    var carriers: seq<nat>
    var dead: set<nat>

    ghost function State(): Hub
      reads this
    {
      Hub(born, carriers, dead)
    }

    constructor ()
      ensures State() == Start() && Inv(State())
    {
      born, carriers, dead := [], [], {};
    }

    /** Replaces the live carriers of the same direction. */
    method HubAttach(direction: Direction) returns (id: nat)
      requires Inv(State())
      modifies this
      ensures State() == Next(old(State()), Attach(direction)) && Inv(State())
      ensures id == |old(born)| && Live(State(), id)
    {
      hide Without, DeadAfter;
      ghost var h := State();
      ghost var drop := Displaced(h, direction);
      AttachKeepsInv(h, direction);
      AttachLoopEnds(h, direction);
      id := |born|;
      var live: seq<nat> := [];
      for i := 0 to |carriers|
        invariant born == h.born && carriers == h.carriers
        invariant live == Without(carriers[..i], drop)
        invariant dead == DeadAfter(h, drop, i)
      {
        var c := carriers[i];
        AttachStep(h, direction, i);
        if born[c] == direction && c !in dead {
          dead := dead + {c};
        } else {
          live := live + [c];
        }
      }
      AttachLoopEnds(h, direction);
      born, carriers := born + [direction], live + [id];
    }

    /** Setting a carrier's flag needs no lock. */
    method MarkDead(id: nat)
      requires Inv(State()) && id < |born|
      modifies this`dead
      ensures dead == old(dead) + {id}
      ensures State() == Next(old(State()), Die(id)) && Inv(State())
    {
      dead := dead + {id};
    }

    method RemoveCarrier(id: nat) returns (found: bool)
      requires Inv(State()) && id in dead
      modifies this`carriers
      ensures State() == Next(old(State()), Remove(id)) && Inv(State())
      ensures found <==> id in old(carriers)
    {
      ghost var h := State();
      StepKeepsInv(h, Remove(id));
      var i := 0;
      while i < |carriers| && carriers[i] != id
        invariant 0 <= i <= |carriers|
        invariant id !in carriers[..i]
      {
        i := i + 1;
      }
      found := i < |carriers|;
      if found {
        CutIsWithout(carriers, i);
        carriers := carriers[..i] + carriers[i + 1..];
      } else {
        assert carriers[..i] == carriers;
        WithoutNone(carriers, {id});
      }
    }

    /** Marks the carrier dead, then takes it off the list; other threads may act in between. */
    method Detach(id: nat, between: seq<Action>) returns (found: bool)
      requires Inv(State()) && id < |born|
      modifies this
      ensures State() == Next(Run(Next(old(State()), Die(id)), between), Remove(id)) && Inv(State())
      ensures id !in carriers
    {
      MarkDead(id);
      ghost var h := State();
      Interfere(between);
      assert id in dead;
      found := RemoveCarrier(id);
      WithoutMembers(Run(h, between).carriers, {id});
    }

    /** What other threads do meanwhile. */
    method Interfere(acts: seq<Action>)
      requires Inv(State())
      modifies this
      ensures State() == Run(old(State()), acts) && Inv(State()) && Extends(old(State()), State())
    {
      ghost var h := State();
      for i := 0 to |acts|
        invariant State() == Run(h, acts[..i]) && Inv(State())
      {
        Act(acts[i]);
        assert acts[..i + 1][..i] == acts[..i];
      }
      assert acts[..|acts|] == acts;
      RunKeepsInv(h, acts);
    }

    method Act(a: Action)
      requires Inv(State())
      modifies this
      ensures State() == Next(old(State()), a) && Inv(State())
    {
      match a
      case Attach(direction) =>
        var _ := HubAttach(direction);
      case Die(id) =>
        if id < |born| {
          MarkDead(id);
        }
      case Remove(id) =>
        if id in dead {
          var _ := RemoveCarrier(id);
        }
    }

    method TakeSnapshot(reverse: bool) returns (live: seq<nat>)
      requires Inv(State())
      ensures IsSnapshot(Round(State(), live))
    {
      live := [];
      for i := 0 to |carriers|
        invariant live == Without(carriers[..i], dead)
      {
        assert carriers[..i + 1][..i] == carriers[..i];
        if carriers[i] !in dead {
          live := live + [carriers[i]];
        }
      }
      assert carriers[..|carriers|] == carriers;
      if reverse {
        live := Reversed(live);
      }
    }

    /** Tries the carriers of one snapshot in turn, marking those that refuse. `meanwhile` and `accepts` say what other
        threads do before, and what comes of, the n-th attempt. */
    method TryRound(len: nat, live: seq<nat>, meanwhile: nat -> seq<Action>, accepts: nat -> bool)
      returns (sent: bool, k: nat, sends: seq<Send>)
      requires Inv(State()) && forall i :: 0 <= i < |live| ==> live[i] < |born|
      modifies this
      ensures Inv(State()) && Extends(old(State()), State())
      ensures !sent ==> sends == Failed(live) && forall i :: 0 <= i < |live| ==> live[i] in dead
      ensures sent ==> k < |live| && |sends| > k && sends[..k] == Failed(live[..k]) && sends[k] == Send(live[k], true)
      ensures sent ==> Copies(len, live, k, sends[k + 1..]) && forall i :: 0 <= i < k ==> live[i] in dead
    {
      hide Inv, Run, Next;
      ghost var h := State();
      ExtendsRefl(h);
      sends, k := [], 0;
      while k < |live|
        invariant k <= |live| && Inv(State()) && Extends(h, State())
        invariant sends == Failed(live[..k]) && forall i :: 0 <= i < k ==> live[i] in dead
      {
        ghost var before := State();
        Interfere(meanwhile(k));
        ExtendsTrans(h, before, State());
        sends := sends + [Send(live[k], accepts(k))];
        if accepts(k) {
          if len < DUP_LIMIT && k + 1 < |live| {
            sends := sends + [Send(live[k], accepts(k + 1)), Send(live[k + 1], accepts(k + 2))];
          }
          return true, k, sends;
        }
        before := State();
        MarkDead(live[k]);
        StepExtends(before, Die(live[k]));
        ExtendsTrans(h, before, State());
        k := k + 1;
      }
      assert live[..k] == live;
      sent := false;
    }

    /** Writes a packet: at most 48 rounds, each on a fresh snapshot, until one carrier takes it. The oracles say, for
        each round, what other threads do (a stream opened by this write included), which order the coin picks, and
        which attempts succeed. */
    method Write(pkt: seq<byte>, pause: nat -> seq<Action>, coin: nat -> bool,
                 meanwhile: nat -> nat -> seq<Action>, accepts: nat -> nat -> bool)
      returns (sent: bool, k: nat, sends: seq<Send>, ghost rounds: seq<Round>)
      requires Inv(State())
      modifies this
      ensures Inv(State()) && Extends(old(State()), State())
      ensures Rounds(old(State()), rounds)
      ensures Outcome(|pkt|, rounds, k, sends, sent)
      ensures !sent ==> forall i :: 0 <= i < |sends| ==> sends[i].carrier in dead
    {
      hide Inv, Run, Next, Live, Rounds, AllDead, Copies, Tried, Failed, IsSnapshot;
      ghost var h := State();
      ExtendsRefl(h);
      sends, rounds, k := [], [], 0;
      NoRounds(h, dead);
      for retries := 0 to MAX_RETRIES
        invariant Inv(State()) && Extends(h, State())
        invariant |rounds| == retries && Rounds(h, rounds)
        invariant sends == Failed(Tried(rounds))
        invariant AllDead(rounds, dead)
      {
        ghost var before := State();
        Interfere(pause(retries));
        ExtendsTrans(h, before, State());
        var live := TakeSnapshot(coin(retries));
        ghost var round := Round(State(), live);
        RoundsExtend(h, rounds, before.dead, round);
        SnapshotExists(round);
        var more;
        sent, k, more := TryRound(|pkt|, live, meanwhile(retries), accepts(retries));
        ExtendsTrans(h, round.hub, State());
        TriedAppends(rounds, round);
        if sent {
          SentOutcome(|pkt|, rounds, round, k, sends, more);
          sends, rounds := sends + more, rounds + [round];
          return;
        }
        StillDead(rounds, before.dead, round, dead);
        JoinFailed(Tried(rounds), live);
        sends, rounds := sends + more, rounds + [round];
      }
      sent := false;
      FailedAreDead(rounds, dead);
    }
  }

  ghost predicate AllDead(rounds: seq<Round>, dead: set<nat>) {
    forall r, i :: 0 <= r < |rounds| && 0 <= i < |rounds[r].live| ==> rounds[r].live[i] in dead
  }

  lemma NoRounds(h: Hub, dead: set<nat>)
    ensures Rounds(h, []) && AllDead([], dead) && Failed(Tried([])) == []
  {
  }

  lemma SnapshotExists(r: Round)
    requires IsSnapshot(r)
    ensures forall i :: 0 <= i < |r.live| ==> r.live[i] < |r.hub.born|
  {
    SnapshotFacts(r);
  }

  lemma RoundsExtend(h: Hub, rounds: seq<Round>, dead: set<nat>, r: Round)
    requires Rounds(h, rounds) && AllDead(rounds, dead) && dead <= r.hub.dead && IsSnapshot(r) && Extends(h, r.hub)
    ensures Rounds(h, rounds + [r])
  {
    hide Inv, Extends, IsSnapshot;
  }

  lemma StillDead(rounds: seq<Round>, was: set<nat>, r: Round, dead: set<nat>)
    requires AllDead(rounds, was) && was <= dead && forall i :: 0 <= i < |r.live| ==> r.live[i] in dead
    ensures AllDead(rounds + [r], dead)
  {
  }

  lemma SentOutcome(len: nat, rounds: seq<Round>, r: Round, k: nat, sends: seq<Send>, more: seq<Send>)
    requires |rounds| < MAX_RETRIES && sends == Failed(Tried(rounds))
    requires k < |r.live| && |more| > k && more[..k] == Failed(r.live[..k]) && more[k] == Send(r.live[k], true)
    requires Copies(len, r.live, k, more[k + 1..])
    ensures Outcome(len, rounds + [r], k, sends + more, true)
  {
    hide Delivered, Tried;
    assert (rounds + [r])[..|rounds|] == rounds;
    JoinDelivered(len, Tried(rounds), r.live, k, sends, more);
  }

  lemma JoinDelivered(len: nat, before: seq<nat>, live: seq<nat>, k: nat, sends: seq<Send>, more: seq<Send>)
    requires sends == Failed(before)
    requires k < |live| && |more| > k && more[..k] == Failed(live[..k]) && more[k] == Send(live[k], true)
    requires Copies(len, live, k, more[k + 1..])
    ensures Delivered(len, before, live, k, sends + more)
  {
    hide Copies, Failed;
    JoinSends(sends, more, k);
    JoinFailed(before, live[..k]);
  }

  lemma JoinSends(a: seq<Send>, b: seq<Send>, k: nat)
    requires k < |b|
    ensures (a + b)[..|a| + k] == a + b[..k] && (a + b)[|a| + k] == b[k] && (a + b)[|a| + k + 1..] == b[k + 1..]
  {
  }

  lemma JoinFailed(a: seq<nat>, b: seq<nat>)
    ensures Failed(a + b) == Failed(a) + Failed(b)
  {
  }

  lemma {:induction false} FailedAreDead(rounds: seq<Round>, dead: set<nat>)
    requires AllDead(rounds, dead)
    ensures forall i :: 0 <= i < |Tried(rounds)| ==> Tried(rounds)[i] in dead
  {
    if rounds != [] {
      FailedAreDead(rounds[..|rounds| - 1], dead);
    }
  }
}
