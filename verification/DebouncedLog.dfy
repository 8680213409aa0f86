/** The debounced, deduplicating logger: calls, timers and late timer callbacks race for one pending entry,
    and a generation counter decides which callback may print it. */
module DebouncedLog {
  import opened Common

  const DEBOUNCE_DELAY: Time := 1.0

  /** A pending entry; `id` stands for the identity of its pointer. */
  datatype Entry = Entry(id: nat, key: string, line: string, count: nat, firstAt: Time)

  /** A closure given to the timer: the generation and entry it captured. */
  datatype Callback = Callback(gen: nat, entry: nat)

  /** The logger with its output, the debounce timer, and callbacks already fired but still waiting for the lock. */
  datatype Logger = Logger(
    curKey: string,
    cur: Option<Entry>,
    gen: nat,
    nextId: nat,
    timer: Option<Callback>,
    inFlight: set<Callback>,
    output: seq<Entry>)

  function Start(): (d: Logger)
    ensures Inv(d)
  {
    Logger("", None, 0, 0, None, {}, [])
  }

  /** The deduplication key is never empty. */
  function Key(file: string, line: string, msg: string): (k: string)
    ensures k != ""
  {
    file + ":" + line + ": " + msg
  }

  /** Calls that differ in just one of file, line and message have different keys. */
  lemma KeysTellApart(file: string, line: string, msg: string, other: string)
    ensures Key(file, line, msg) == Key(file, line, other) <==> msg == other
    ensures Key(file, line, msg) == Key(file, other, msg) <==> line == other
    ensures Key(file, line, msg) == Key(other, line, msg) <==> file == other
  {
    SameEnds(file + ":" + line + ": ", msg, other, "");
    SameEnds(file + ":", line, other, ": " + msg);
    SameEnds("", file, other, ":" + line + ": " + msg);
    assert Key(file, line, msg) == file + ":" + line + ": " + msg + "";
    assert Key(file, line, other) == file + ":" + line + ": " + other + "";
    assert Key(file, line, msg) == file + ":" + line + (": " + msg);
    assert Key(file, other, msg) == file + ":" + other + (": " + msg);
    assert Key(file, line, msg) == "" + file + (":" + line + ": " + msg);
    assert Key(other, line, msg) == "" + other + (":" + line + ": " + msg);
  }

  lemma SameEnds(a: string, x: string, y: string, b: string)
    ensures a + x + b == a + y + b <==> x == y
  {
    if a + x + b == a + y + b {
      assert |x| == |y|;
      assert x == (a + x + b)[|a|..|a| + |x|] == (a + y + b)[|a|..|a| + |y|] == y;
    }
  }

  /** Starting a timer stops the one before it; one that has already fired cannot be stopped. */
  function Arm(d: Logger, entry: nat): Logger {
    d.(gen := d.gen + 1, timer := Some(Callback(d.gen + 1, entry)))
  }

  function PrintPending(d: Logger): Logger {
    if d.cur.Some? then d.(output := d.output + [d.cur.value]) else d
  }

  function Printf(d: Logger, key: string, line: string, now: Time): Logger
    requires key == d.curKey ==> d.cur.Some?
  {
    if key == d.curKey && now - d.cur.value.firstAt < DEBOUNCE_DELAY then
      Arm(d.(cur := Some(d.cur.value.(count := d.cur.value.count + 1))), d.cur.value.id)
    else
      var e := Entry(d.nextId, key, line, 1, now);
      Arm(PrintPending(d).(cur := Some(e), curKey := key, nextId := d.nextId + 1), d.nextId)
  }

  function ExitFlush(d: Logger): Logger {
    if d.cur.Some? then PrintPending(d).(cur := None, curKey := "") else d
  }

  /** A callback that finds itself superseded leaves everything alone. */
  function Flush(d: Logger, c: Callback): Logger {
    if c.gen != d.gen || d.cur.None? || d.cur.value.id != c.entry then d
    else PrintPending(d).(cur := None, curKey := "")
  }

  // ----- the object -----

  class DDLogger {
    var curKey: string
    var cur: Option<Entry>
    var gen: nat
    var nextId: nat
    var timer: Option<Callback>
    var inFlight: set<Callback>
    var output: seq<Entry>

    ghost function State(): Logger
      reads this
    {
      Logger(curKey, cur, gen, nextId, timer, inFlight, output)
    }

    constructor ()
      ensures State() == Start()
    {
      curKey, cur, gen, nextId := "", None, 0, 0;
      timer, inFlight, output := None, {}, [];
    }

    method PrintEntry(e: Entry)
      modifies this`output
      ensures output == old(output) + [e]
    {
      output := output + [e];
    }

    method LogPrintf(key: string, line: string, now: Time)
      requires key == curKey ==> cur.Some?
      modifies this
      ensures State() == Printf(old(State()), key, line, now)
    {
      if key == curKey && now - cur.value.firstAt < DEBOUNCE_DELAY {
        cur := Some(cur.value.(count := cur.value.count + 1));
        gen := gen + 1;
        timer := Some(Callback(gen, cur.value.id));
        return;
      }
      if cur.Some? {
        PrintEntry(cur.value);
      }
      gen := gen + 1;
      cur := Some(Entry(nextId, key, line, 1, now));
      curKey := key;
      timer := Some(Callback(gen, nextId));
      nextId := nextId + 1;
    }

    method LogExitFlush()
      modifies this
      ensures State() == ExitFlush(old(State()))
    {
      if cur.Some? {
        PrintEntry(cur.value);
        cur, curKey := None, "";
      }
    }

    method LogFlush(c: Callback)
      modifies this
      ensures State() == Flush(old(State()), c)
    {
      if c.gen != gen || cur.None? || cur.value.id != c.entry {
        return;
      }
      PrintEntry(cur.value);
      cur, curKey := None, "";
    }
  }

  // ----- every interleaving -----

  datatype Action =
    | Call(key: string, line: string, now: Time)
    | Fire
    | RunCallback(c: Callback)
    | Exit

  ghost predicate Possible(d: Logger, a: Action) {
    match a
    case Call(key, _, _) => key != ""
    case Fire => d.timer.Some?
    case RunCallback(c) => c in d.inFlight
    case Exit => true
  }

  ghost function Next(d: Logger, a: Action): Logger
    requires Inv(d) && Possible(d, a)
  {
    match a
    case Call(key, line, now) => Printf(d, key, line, now)
    case Fire => d.(timer := None, inFlight := d.inFlight + {d.timer.value})
    case RunCallback(c) => Flush(d.(inFlight := d.inFlight - {c}), c)
    case Exit => ExitFlush(d)
  }

  function Armed(d: Logger, c: Callback): bool { d.timer == Some(c) || c in d.inFlight }

  ghost predicate Inv(d: Logger) {
    // nothing pending exactly when there is no key
    && (d.cur.None? <==> d.curKey == "")
    && (d.cur.Some? ==> d.cur.value.key == d.curKey && d.cur.value.count > 0 && d.cur.value.id < d.nextId)
    // a pending entry will be printed: a callback for it, of the current generation, is on its way
    && (d.cur.Some? ==> Armed(d, Callback(d.gen, d.cur.value.id)))
    // the order of output is the order of creation, so no entry is printed twice, nor while pending
    && (forall i, j :: 0 <= i < j < |d.output| ==> d.output[i].id < d.output[j].id)
    && (forall i :: 0 <= i < |d.output| ==> d.output[i].id < if d.cur.Some? then d.cur.value.id else d.nextId)
    && (forall i :: 0 <= i < |d.output| ==> d.output[i].count > 0)
    // no callback is from the future
    && (forall c :: Armed(d, c) ==> c.gen <= d.gen)
  }

  lemma StepKeepsInv(d: Logger, a: Action)
    requires Inv(d) && Possible(d, a)
    ensures Inv(Next(d, a))
  {
  }

  /** A printed or pending entry stands for `count` calls with its key. */
  function Repeat(key: string, n: nat): seq<string> {
    if n == 0 then [] else Repeat(key, n - 1) + [key]
  }

  function Expand(es: seq<Entry>): seq<string> {
    if es == [] then [] else Expand(es[..|es| - 1]) + Repeat(es[|es| - 1].key, es[|es| - 1].count)
  }

  /** All calls accounted for: those printed, then those pending. */
  function Accounted(d: Logger): seq<string> {
    Expand(d.output) + if d.cur.Some? then Repeat(d.cur.value.key, d.cur.value.count) else []
  }

  function CalledBy(a: Action): seq<string> { if a.Call? then [a.key] else [] }

  lemma PrintingAccounts(d: Logger)
    ensures Expand(PrintPending(d).output) == Accounted(d)
  {
    if d.cur.Some? {
      var o := d.output + [d.cur.value];
      assert o[..|o| - 1] == d.output;
    } else {
      assert Expand(d.output) + [] == Expand(d.output);
    }
  }

  /** Each action adds to the account exactly the call it is. */
  lemma StepAccounts(d: Logger, a: Action)
    requires Inv(d) && Possible(d, a)
    ensures Accounted(Next(d, a)) == Accounted(d) + CalledBy(a)
  {
    match a
    case Call(key, line, now) => CallAccounts(d, key, line, now);
    case _ =>
      hide Expand, Repeat, Inv;
      PrintingAccounts(d);
      assert Accounted(d) + [] == Accounted(d);
      assert Expand(Next(d, a).output) + [] == Expand(Next(d, a).output);
  }

  lemma CallAccounts(d: Logger, key: string, line: string, now: Time)
    requires Inv(d) && key != ""
    ensures Accounted(Printf(d, key, line, now)) == Accounted(d) + [key]
  {
    assert key == d.curKey ==> d.cur.Some? && d.cur.value.key == key;
    hide Inv, Expand;
    PrintingAccounts(d);
    if key == d.curKey && now - d.cur.value.firstAt < DEBOUNCE_DELAY {
      var e := d.cur.value;
      assert Repeat(e.key, e.count + 1) == Repeat(e.key, e.count) + [key];
      assert Expand(d.output) + (Repeat(e.key, e.count) + [key]) == Accounted(d) + [key];
    } else {
      assert Repeat(key, 1) == [] + [key];
    }
  }

  ghost predicate PossibleRun(d: Logger, acts: seq<Action>)
    requires Inv(d)
    decreases |acts|
  {
    acts == [] || (Possible(d, acts[0]) && (StepKeepsInv(d, acts[0]); PossibleRun(Next(d, acts[0]), acts[1..])))
  }

  ghost function Run(d: Logger, acts: seq<Action>): (r: Logger)
    requires Inv(d) && PossibleRun(d, acts)
    ensures Inv(r)
    decreases |acts|
  {
    if acts == [] then d else StepKeepsInv(d, acts[0]); Run(Next(d, acts[0]), acts[1..])
  }

  function Calls(acts: seq<Action>): seq<string> {
    if acts == [] then [] else CalledBy(acts[0]) + Calls(acts[1..])
  }

  lemma {:induction false} RunAccounts(d: Logger, acts: seq<Action>)
    requires Inv(d) && PossibleRun(d, acts)
    ensures Accounted(Run(d, acts)) == Accounted(d) + Calls(acts)
    decreases |acts|
  {
    hide Inv, Next, Accounted, Possible;
    if acts == [] {
      assert Accounted(d) + [] == Accounted(d);
    } else {
      StepKeepsInv(d, acts[0]);
      StepAccounts(d, acts[0]);
      RunAccounts(Next(d, acts[0]), acts[1..]);
      var first, rest := CalledBy(acts[0]), Calls(acts[1..]);
      assert Accounted(d) + first + rest == Accounted(d) + (first + rest);
    }
  }

  lemma NothingAtFirst()
    ensures Accounted(Start()) == []
  {
  }

  /** Over every interleaving of calls, timers, late callbacks and exit flushes: the printed entries, each repeated as
      often as its count says, followed by the pending one, are exactly the calls made, in the order made. */
  lemma NoCallLostOrDoubled(acts: seq<Action>)
    requires PossibleRun(Start(), acts)
    ensures Accounted(Run(Start(), acts)) == Calls(acts)
  {
    hide Inv, Next, Possible, Accounted, Run, PossibleRun;
    RunAccounts(Start(), acts);
    NothingAtFirst();
    assert [] + Calls(acts) == Calls(acts);
  }

  /** In every reachable state a pending entry has its callback on the way, and when that callback runs, with no call
      in between, everything called so far has been printed. */
  lemma CurrentCallbackDrains(acts: seq<Action>)
    requires PossibleRun(Start(), acts) && Run(Start(), acts).cur.Some?
    ensures var d := Run(Start(), acts);
            var c := Callback(d.gen, d.cur.value.id);
            && Armed(d, c)
            && Flush(d, c).cur == None && Expand(Flush(d, c).output) == Calls(acts)
  {
    NoCallLostOrDoubled(acts);
    var d := Run(Start(), acts);
    PrintingAccounts(d);
  }

  // ----- merging -----

  /** A call with the pending key within a second of the first is counted and prints nothing; any other call prints what
      was pending, at once, and becomes pending itself. */
  lemma CallMergesOrPrints(d: Logger, key: string, line: string, now: Time)
    requires Inv(d) && key != ""
    ensures var e := Printf(d, key, line, now);
            if d.cur.Some? && key == d.cur.value.key && now - d.cur.value.firstAt < 1.0 then
              e.output == d.output && e.cur == Some(d.cur.value.(count := d.cur.value.count + 1))
            else
              && e.output == d.output + (if d.cur.Some? then [d.cur.value] else [])
              && e.cur == Some(Entry(d.nextId, key, line, 1, now))
  {
  }

  /** A call supersedes every callback under way: none of them prints anything any more. */
  lemma CallSupersedes(d: Logger, key: string, line: string, now: Time, c: Callback)
    requires Inv(d) && key != "" && Armed(d, c)
    ensures var e := Printf(d, key, line, now);
            Flush(e, c) == e && e.timer == Some(Callback(e.gen, e.cur.value.id))
  {
  }

  /** An exit prints what is pending, and leaves nothing. */
  lemma ExitPrints(d: Logger)
    requires Inv(d)
    ensures ExitFlush(d).cur == None && Expand(ExitFlush(d).output) == Accounted(d)
  {
    PrintingAccounts(d);
    assert Expand(d.output) + [] == Expand(d.output);
  }

  /** The same call, again and again. */
  function AfterBurst(d: Logger, key: string, line: string, times: seq<Time>): (r: Logger)
    requires Inv(d) && key != ""
    ensures Inv(r)
  {
    if times == [] then d
    else
      var before := AfterBurst(d, key, line, times[..|times| - 1]);
      StepKeepsInv(before, Call(key, line, times[|times| - 1]));
      Printf(before, key, line, times[|times| - 1])
  }

  /** Equal calls within a second of the first are one entry, however many they are: nothing of them is printed
      meanwhile, and the entry counts them all. */
  lemma {:induction false} BurstIsOneEntry(d: Logger, key: string, line: string, first: Time, times: seq<Time>)
    requires Inv(d) && key != "" && d.cur.Some? && d.cur.value.key == key && d.cur.value.firstAt == first
    requires forall i :: 0 <= i < |times| ==> times[i] - first < 1.0
    ensures var e := AfterBurst(d, key, line, times);
            e.output == d.output && e.cur == Some(d.cur.value.(count := d.cur.value.count + |times|))
    decreases |times|
  {
    if times != [] {
      hide Inv;
      var t := times[|times| - 1];
      var before := AfterBurst(d, key, line, times[..|times| - 1]);
      BurstIsOneEntry(d, key, line, first, times[..|times| - 1]);
      CallMergesOrPrints(before, key, line, t);
    }
  }
}
