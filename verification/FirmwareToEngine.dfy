/** From the firmware's chain to the engine's samples.

    One dispatch call whose chain has drained hangs its first delay off `now`, so its events land, by the
    firmware's reckoning, at now plus the running sum of the delays it sends. The engine applies those
    same words at the strobe it first fetched one plus the running sum of their costs. The two differ
    only by when the first was fetched and by the zero delays, each of which costs a sample. */
module FirmwareToEngine {
  import opened Words
  import opened Schedule
  import opened Timing
  import opened Engine
  import Placement

  /** What an allocator pushes for a command spends the command's delay once: the first word carries it
      and the rest follow on. */
  ghost predicate SpendsOnce<B(!new)>(a: Allocator<B>) {
    forall b, c :: Spent(a.place(b, c).1, c.delay)
  }

  predicate Spent(out: seq<Command>, delay: nat) {
    out != [] ==> out[0].delay == delay && forall i :: 0 < i < |out| ==> out[i].delay == 0
  }

  /** The firmware's allocator does. */
  lemma ApplySpendsOnce()
    ensures SpendsOnce(Placement.ByStamps()) && SpendsOnce(Placement.ByQueues())
  {
  }

  lemma {:induction false} SpentSum(out: seq<Command>, delay: nat)
    requires Spent(out, delay) && out != []
    ensures Sum(out) == delay
  {
    if |out| == 1 {
      assert out[..0] == [];
    } else {
      SpentSum(out[..|out| - 1], delay);
    }
  }

  lemma {:induction false} SumAppend(p: seq<Command>, q: seq<Command>)
    ensures Sum(p + q) == Sum(p) + Sum(q)
  {
    if q == [] {
      assert p + q == p;
    } else {
      assert (p + q)[..|p + q| - 1] == p + q[..|q| - 1];
      SumAppend(p, q[..|q| - 1]);
    }
  }

  /** The words a log pushes. */
  function Pushed(log: seq<Landed>): seq<Command> {
    if log == [] then [] else Pushed(log[..|log| - 1]) + log[|log| - 1].out
  }

  lemma {:induction false} PushedFirst(l: Landed, log: seq<Landed>)
    ensures Pushed([l] + log) == l.out + Pushed(log)
  {
    if log == [] {
      assert [l] + log == [l] && [l][..0] == [];
    } else {
      PushedFirst(l, log[..|log| - 1]);
      assert ([l] + log)[..|log|] == [l] + log[..|log| - 1];
    }
  }

  /** What a call hands back is what its landings push. */
  lemma {:induction false} LandingsPush<B>(a: Allocator<B>, s: State<B>, k: Truth, now: int, n: nat)
    requires |k.times| == |s.queue|
    ensures Pushed(Landings(a, s, k, now, n).1) == Dispatch(a, s, Wrap(now), n).1
    decreases |s.queue|
  {
    if !Stops(s, Wrap(now), n) {
      var (t, out) := Pop(a, s, Wrap(now));
      var p := Past(s, k, now, out != []);
      LandingsPush(a, t, p, now, n + |out|);
      DispatchUnfolds(a, s, Wrap(now), n);
      LandingsUnfolds(a, s, k, now, n);
      PushedFirst(Landed(k.times[0], LandsAt(s, k, now), now, Head(s, Wrap(now)), out), Landings(a, t, p, now, n + |out|).1);
    }
  }

  /** Each landing is the one before it plus the delay sent. */
  ghost predicate Linked(log: seq<Landed>, base: int) {
    log != [] ==> log[0].at == base + log[0].command.delay && Linked(log[1..], log[0].at)
  }

  ghost predicate AllSpent(log: seq<Landed>) { forall i :: 0 <= i < |log| ==> Spent(log[i].out, log[i].command.delay) }

  lemma SpentCons(l: Landed, rest: seq<Landed>)
    requires Spent(l.out, l.command.delay) && AllSpent(rest)
    ensures AllSpent([l] + rest)
  {
  }

  lemma {:induction false} LandingsSpent<B(!new)>(a: Allocator<B>, s: State<B>, k: Truth, now: int, n: nat)
    requires |k.times| == |s.queue| && SpendsOnce(a)
    ensures AllSpent(Landings(a, s, k, now, n).1)
    decreases |s.queue|
  {
    if !Stops(s, Wrap(now), n) {
      var (t, out) := Pop(a, s, Wrap(now));
      LandingsSpent(a, t, Past(s, k, now, out != []), now, n + |out|);
      LandingsUnfolds(a, s, k, now, n);
      SpentCons(Landed(k.times[0], LandsAt(s, k, now), now, Head(s, Wrap(now)), out),
                Landings(a, t, Past(s, k, now, out != []), now, n + |out|).1);
    }
  }

  /** Within a call every delay is counted from the landing before. */
  lemma {:induction false} ChainedIsLinked(log: seq<Landed>, chain: Option<int>, now: int)
    requires Chained(log, chain) && AllEmit(log) && forall i :: 0 <= i < |log| ==> log[i].now == now
    ensures Linked(log, BaseOf(chain, now))
    decreases |log|
  {
    if log != [] {
      assert forall i :: 0 <= i < |log[1..]| ==> log[1..][i] == log[i + 1];
      ChainedIsLinked(log[1..], Some(log[0].at), now);
    }
  }

  lemma {:induction false} LandingsNow<B>(a: Allocator<B>, s: State<B>, k: Truth, now: int, n: nat)
    requires |k.times| == |s.queue|
    ensures forall i :: 0 <= i < |Landings(a, s, k, now, n).1| ==> Landings(a, s, k, now, n).1[i].now == now
    decreases |s.queue|
  {
    if !Stops(s, Wrap(now), n) {
      var (t, out) := Pop(a, s, Wrap(now));
      LandingsNow(a, t, Past(s, k, now, out != []), now, n + |out|);
      LandingsUnfolds(a, s, k, now, n);
    }
  }

  lemma LandingsLinked<B(!new)>(a: Allocator<B>, s: State<B>, k: Truth, now: int, n: nat)
    requires Tells(k, s) && InView(k, now) && Ahead(k.chain, now) && SpendsOnce(a)
    requires AllEmit(Landings(a, s, k, now, n).1)
    ensures Linked(Landings(a, s, k, now, n).1, BaseOf(k.chain, now))
    ensures AllSpent(Landings(a, s, k, now, n).1)
  {
    LandingsSpent(a, s, k, now, n);
    LandingsNow(a, s, k, now, n);
    LandingsSettle(a, s, k, now, n);
    ChainedIsLinked(Landings(a, s, k, now, n).1, k.chain, now);
  }

  /** A landing is the base plus every delay pushed up to its own first word. */
  lemma {:induction false} LandingIsSum(log: seq<Landed>, base: int, j: nat)
    requires Linked(log, base) && AllSpent(log) && AllEmit(log) && j < |log|
    ensures log[j].at == base + Sum(Pushed(log[..j])) + log[j].command.delay
    decreases j
  {
    assert log[..0] == [];
    if j > 0 {
      var rest := log[1..];
      assert forall i :: 0 <= i < |rest| ==> rest[i] == log[i + 1];
      LandingIsSum(rest, log[0].at, j - 1);
      assert log[..j] == [log[0]] + rest[..j - 1];
      PushedFirst(log[0], rest[..j - 1]);
      SumAppend(log[0].out, Pushed(rest[..j - 1]));
      SpentSum(log[0].out, log[0].command.delay);
    }
  }

  lemma {:induction false} PushedPrefix(log: seq<Landed>, j: nat)
    requires j < |log| && log[j].out != []
    ensures |Pushed(log[..j])| < |Pushed(log)|
    ensures Pushed(log)[..|Pushed(log[..j])| + 1] == Pushed(log[..j]) + [log[j].out[0]]
    decreases |log|
  {
    var init := log[..|log| - 1];
    if j == |log| - 1 {
      assert log[..j] == init;
    } else {
      PushedPrefix(init, j);
      assert init[..j] == log[..j];
    }
  }

  /** An event lands at the base plus the sum of the words up to and including its first. */
  lemma LandingOfWord(log: seq<Landed>, base: int, j: nat)
    requires Linked(log, base) && AllSpent(log) && AllEmit(log) && j < |log|
    ensures var w := |Pushed(log[..j])|;
      w < |Pushed(log)| && Pushed(log)[w] == log[j].out[0] && log[j].at == base + Sum(Pushed(log)[..w + 1])
  {
    LandingIsSum(log, base, j);
    PushedPrefix(log, j);
    SumAppend(Pushed(log[..j]), [log[j].out[0]]);
    assert [log[j].out[0]][..0] == [];
    assert Spent(log[j].out, log[j].command.delay);
  }

  lemma EngineOfWord(fifo: seq<Supply>, start: nat, words: seq<Command>, w: nat)
    requires CommandsOf(fifo) == words && KeptSupplied(fifo, start) && w < |words|
    ensures |Law(fifo, start)| == |fifo| && Law(fifo, start)[w].command == words[w]
    ensures Law(fifo, start)[w].at == start + Sum(words[..w + 1]) + Zeros(CommandsOf(fifo[..w + 1]))
  {
    assert CommandsOf(fifo[..w + 1]) == words[..w + 1];
    SuppliedBatch(fifo, start, w);
    CostsAreSumAndZeros(words[..w + 1]);
  }

  /** Each event is applied at its landing, later by the first fetch and by one sample for every zero
      delay so far. */
  ghost predicate AppliedAsLanded(log: seq<Landed>, now: int, fifo: seq<Supply>, start: nat)
    requires AllEmit(log)
  {
    |Law(fifo, start)| == |fifo| == |Pushed(log)| &&
    forall j :: 0 <= j < |log| ==>
      var w := |Pushed(log[..j])|;
      && w < |fifo|
      && Law(fifo, start)[w].command == log[j].out[0]
      && Law(fifo, start)[w].at - log[j].at == start - now + Zeros(CommandsOf(fifo[..w + 1]))
  }

  lemma LogMeetsEngine(log: seq<Landed>, now: int, fifo: seq<Supply>, start: nat)
    requires Linked(log, now) && AllSpent(log) && AllEmit(log)
    requires CommandsOf(fifo) == Pushed(log) && KeptSupplied(fifo, start)
    ensures AppliedAsLanded(log, now, fifo, start)
  {
    if fifo != [] { SuppliedBatch(fifo, start, 0); }
    forall j | 0 <= j < |log|
      ensures var w := |Pushed(log[..j])|;
        && w < |fifo|
        && Law(fifo, start)[w].command == log[j].out[0]
        && Law(fifo, start)[w].at - log[j].at == start - now + Zeros(CommandsOf(fifo[..w + 1]))
    {
      LandingOfWord(log, now, j);
      EngineOfWord(fifo, start, Pushed(log), |Pushed(log[..j])|);
    }
  }

  /** The engine against the firmware. For a call whose chain has drained and whose every event sends
      something, pushed into an idle scheduler that first fetches at strobe `start` and is kept supplied,
      every event is applied at its landing but for the fetch and the zero delays: so it is never early
      once the first fetch is no earlier than the call. */
  lemma FirmwareMeetsEngine<B(!new)>(a: Allocator<B>, s: State<B>, k: Truth, now: int,
                                      fifo: seq<Supply>, start: nat, log: seq<Landed>)
    requires Tells(k, s) && InView(k, now) && SpendsOnce(a)
    requires k.chain.Some? ==> k.chain.value <= now
    requires log == Landings(a, s, k, now, 0).1 && AllEmit(log)
    requires CommandsOf(fifo) == Dispatch(a, s, Wrap(now), 0).1 && KeptSupplied(fifo, start)
    ensures AppliedAsLanded(log, now, fifo, start)
  {
    LandingsPush(a, s, k, now, 0);
    LandingsLinked(a, s, k, now, 0);
    LogMeetsEngine(log, now, fifo, start);
  }

  // ---------- successive calls ----------

  /** Where the chain stands after a log. */
  function LastOf(log: seq<Landed>, base: int): int { if log == [] then base else log[|log| - 1].at }

  lemma {:induction false} LinkedAppend(p: seq<Landed>, q: seq<Landed>, base: int)
    requires Linked(p, base) && Linked(q, LastOf(p, base)) && AllSpent(p) && AllSpent(q)
    ensures Linked(p + q, base) && AllSpent(p + q)
    decreases |p|
  {
    if p == [] {
      assert p + q == q;
    } else {
      assert forall i :: 0 <= i < |p[1..]| ==> p[1..][i] == p[i + 1];
      LinkedAppend(p[1..], q, p[0].at);
      assert (p + q)[1..] == p[1..] + q;
    }
  }

  lemma {:induction false} ChainAfterIsLast(log: seq<Landed>, base: int)
    requires AllEmit(log)
    ensures ChainAfter(log, Some(base)) == Some(LastOf(log, base))
    decreases |log|
  {
    if log != [] {
      assert forall i :: 0 <= i < |log[1..]| ==> log[1..][i] == log[i + 1];
      ChainAfterIsLast(log[1..], log[0].at);
    }
  }

  lemma EmitSplit(p: seq<Landed>, q: seq<Landed>)
    requires AllEmit(p + q)
    ensures AllEmit(p) && AllEmit(q)
  {
    assert forall i :: 0 <= i < |p| ==> p[i] == (p + q)[i];
    assert forall i :: 0 <= i < |q| ==> q[i] == (p + q)[|p| + i];
  }

  /** The chain has not drained when the next call comes. */
  ghost predicate Alive<B>(a: Allocator<B>, s: State<B>, k: Truth, ops: seq<TimedOp>)
    requires |k.times| == |s.queue|
    decreases |ops|
  {
    ops != [] ==>
      && k.chain.Some? && (ops[0].Clock? ==> ops[0].now <= k.chain.value)
      && Alive(a, Next(a, s, k, ops[0]).0, Next(a, s, k, ops[0]).1, ops[1..])
  }

  /** One call whose events all send something leaves its chain at the last of them. */
  lemma CallLinks<B(!new)>(a: Allocator<B>, s: State<B>, k: Truth, now: int)
    requires Tells(k, s) && InView(k, now) && Ahead(k.chain, now) && SpendsOnce(a)
    requires AllEmit(Landings(a, s, k, now, 0).1)
    ensures var (k', log) := Landings(a, s, k, now, 0);
      && Linked(log, BaseOf(k.chain, now)) && AllSpent(log)
      && (log != [] || k.chain.Some? ==> k'.chain.Some?)
      && (log != [] ==> k'.chain == Some(LastOf(log, 0)))
      && (log == [] ==> k'.chain == k.chain)
  {
    LandingsLinked(a, s, k, now, 0);
    LandingsSettle(a, s, k, now, 0);
    var log := Landings(a, s, k, now, 0).1;
    if log != [] {
      assert forall i :: 0 <= i < |log[1..]| ==> log[1..][i] == log[i + 1];
      ChainAfterIsLast(log[1..], log[0].at);
    }
  }

  /** While the chain lives, the landings of all calls are linked as those of one call are. */
  lemma {:induction false} RunLinks<B(!new)>(a: Allocator<B>, s: State<B>, k: Truth, last: int, ops: seq<TimedOp>)
    requires Tells(k, s) && Watched(a, s, k, last, ops) && Ahead(k.chain, last) && SpendsOnce(a)
    requires k.chain.Some? && Alive(a, s, k, ops) && AllEmit(RunLog(a, s, k, ops))
    ensures Linked(RunLog(a, s, k, ops), k.chain.value) && AllSpent(RunLog(a, s, k, ops))
    decreases |ops|
  {
    if ops != [] {
      var (t, k') := Next(a, s, k, ops[0]);
      var rest := RunLog(a, t, k', ops[1..]);
      match ops[0]
      case Host(c, anchor) =>
        ReceiveTells(a, s, k, c, anchor);
        assert [] + rest == rest;
        RunLinks(a, t, k', last, ops[1..]);
      case Clock(now) =>
        var log := Landings(a, s, k, now, 0).1;
        EmitSplit(log, rest);
        LandingsTell(a, s, k, now, 0);
        CallLinks(a, s, k, now);
        RunLinks(a, t, k', now, ops[1..]);
        LinkedAppend(log, rest, k.chain.value);
    }
  }

  /** A call and all those after it, while the chain lives: every event of them is applied at its landing, but
      for the first fetch and the zero delays so far. */
  lemma CallsMeetEngine<B(!new)>(a: Allocator<B>, s: State<B>, k: Truth, now: int, ops: seq<TimedOp>, fifo: seq<Supply>, start: nat)
    requires Tells(k, s) && InView(k, now) && Ahead(k.chain, now) && SpendsOnce(a)
    requires var (k', log) := Landings(a, s, k, now, 0); var t := Dispatch(a, s, Wrap(now), 0).0;
      && log != [] && Watched(a, t, k', now, ops) && Alive(a, t, k', ops)
      && AllEmit(log + RunLog(a, t, k', ops))
      && CommandsOf(fifo) == Pushed(log + RunLog(a, t, k', ops)) && KeptSupplied(fifo, start)
    ensures var (k', log) := Landings(a, s, k, now, 0); var t := Dispatch(a, s, Wrap(now), 0).0;
      AppliedAsLanded(log + RunLog(a, t, k', ops), BaseOf(k.chain, now), fifo, start)
  {
    var (k', log) := Landings(a, s, k, now, 0);
    var t := Dispatch(a, s, Wrap(now), 0).0;
    var rest := RunLog(a, t, k', ops);
    EmitSplit(log, rest);
    CallLinks(a, s, k, now);
    LandingsTell(a, s, k, now, 0);
    RunLinks(a, t, k', now, ops);
    LinkedAppend(log, rest, BaseOf(k.chain, now));
    LogMeetsEngine(log + rest, BaseOf(k.chain, now), fifo, start);
  }

  /** The same of the firmware as it is. */
  lemma FirmwareCallsMeetEngine(s: State<Placement.SaneBank>, k: Truth, now: int, ops: seq<TimedOp>, fifo: seq<Supply>, start: nat)
    requires Tells(k, s) && InView(k, now) && Ahead(k.chain, now)
    requires var (k', log) := Landings(Placement.ByStamps(), s, k, now, 0);
      var t := Dispatch(Placement.ByStamps(), s, Wrap(now), 0).0;
      && log != [] && Watched(Placement.ByStamps(), t, k', now, ops) && Alive(Placement.ByStamps(), t, k', ops)
      && AllEmit(log + RunLog(Placement.ByStamps(), t, k', ops))
      && CommandsOf(fifo) == Pushed(log + RunLog(Placement.ByStamps(), t, k', ops)) && KeptSupplied(fifo, start)
    ensures var (k', log) := Landings(Placement.ByStamps(), s, k, now, 0);
      var t := Dispatch(Placement.ByStamps(), s, Wrap(now), 0).0;
      AppliedAsLanded(log + RunLog(Placement.ByStamps(), t, k', ops), BaseOf(k.chain, now), fifo, start)
  {
    ApplySpendsOnce();
    CallsMeetEngine(Placement.ByStamps(), s, k, now, ops, fifo, start);
  }
}
