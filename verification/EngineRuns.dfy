/** How late the engine is, over any run. The firmware says where each event should land; the engine applies
    it as soon as the FIFO has shown it and the one before it has been applied. Nothing is asked of the FIFO but
    a window: each word shows between `lo` and `hi` strobes after the call that pushed it. */
module EngineRuns {
  import opened Words
  import opened Schedule
  import opened Timing
  import opened Engine
  import opened FirmwareToEngine
  import Placement

  // ---------- the reckoning ----------

  /** How much later than its landing an event is due, `due` being when everything before it is: as far as what
      comes before overruns the base its delay is counted from, and a sample more if the delay is zero. */
  function Slip(l: Landed, due: int): (s: nat) {
    Max(0, due - (l.at - l.command.delay)) + if l.command.delay == 0 then 1 else 0
  }

  /** When an event's last word is due: every word after the first costs a sample. */
  function DueAfter(l: Landed, due: int): int { if l.out == [] then due else l.at + Slip(l, due) + |l.out| - 1 }

  /** The words of a log in the FIFO, each showing within the window after the call that pushed it. */
  ghost predicate Shown(log: seq<Landed>, fifo: seq<Supply>, lo: nat, hi: nat)
    decreases |log|
  {
    if log == [] then fifo == []
    else
      var k := |log[0].out|;
      && k <= |fifo| && ShownAt(log[0].out, fifo[..k], log[0].now, lo, hi)
      && Shown(log[1..], fifo[k..], lo, hi)
  }

  ghost predicate ShownAt(out: seq<Command>, fifo: seq<Supply>, now: int, lo: nat, hi: nat) {
    && |fifo| == |out|
    && forall i :: 0 <= i < |fifo| ==> fifo[i].command == out[i] && now + lo <= fifo[i].from <= now + hi
  }

  /** Each event that sends anything is applied at its landing plus its slip, and as much later as the window
      allows. */
  ghost predicate AppliedWithin(log: seq<Landed>, law: seq<Applied>, due: int, lo: nat, hi: nat)
    decreases |log|
  {
    if log == [] then law == []
    else
      var l := log[0];
      && |l.out| <= |law|
      && (l.out != [] ==> law[0].command == l.out[0] && lo <= law[0].at - (l.at + Slip(l, due)) <= hi)
      && AppliedWithin(log[1..], law[|l.out|..], DueAfter(l, due), lo, hi)
  }

  // ---------- the law, piece by piece ----------

  /** When the scheduler is free after a list of words. */
  function FreeAfter(fifo: seq<Supply>, free: nat): nat
    decreases |fifo|
  {
    if fifo == [] then free else FreeAfter(fifo[1..], Max(free, fifo[0].from) + Cost(fifo[0].command))
  }

  lemma {:induction false} LawSplit(f: seq<Supply>, g: seq<Supply>, free: nat)
    ensures |Law(f, free)| == |f| && Law(f + g, free) == Law(f, free) + Law(g, FreeAfter(f, free))
    decreases |f|
  {
    if f == [] {
      assert f + g == g;
      NothingFirst(Law(g, free));
    } else {
      var at := Max(free, f[0].from) + Cost(f[0].command);
      assert (f + g)[1..] == f[1..] + g;
      LawSplit(f[1..], g, at);
      Associate([Applied(at, f[0].command)], Law(f[1..], at), Law(g, FreeAfter(f[1..], at)));
    }
  }

  /** Words that follow on, each a sample behind the last. */
  lemma {:induction false} FollowersEnd(f: seq<Supply>, free: nat, due: int, now: int, lo: nat, hi: nat)
    requires forall i :: 0 <= i < |f| ==> f[i].command.delay == 0 && now + lo <= f[i].from <= now + hi
    requires now <= due && due + lo <= free <= due + hi
    ensures due + |f| + lo <= FreeAfter(f, free) <= due + |f| + hi
    decreases |f|
  {
    if f != [] {
      FollowersEnd(f[1..], Max(free, f[0].from) + 1, due + 1, now, lo, hi);
    }
  }

  /** The first word of an event. */
  lemma FirstWord(l: Landed, w: Supply, chain: Option<int>, free: nat, due: int, lo: nat, hi: nat)
    requires l.at == BaseOf(chain, l.now) + l.command.delay && (chain.Some? ==> chain.value <= due)
    requires w.command.delay == l.command.delay && l.now + lo <= w.from <= l.now + hi && due + lo <= free <= due + hi
    ensures var at := Max(free, w.from) + Cost(w.command);
      l.at + Slip(l, due) + lo <= at <= l.at + Slip(l, due) + hi
    ensures l.now <= l.at + Slip(l, due)
  {
  }

  lemma EventEnds(l: Landed, f: seq<Supply>, chain: Option<int>, free: nat, due: int, lo: nat, hi: nat)
    requires l.at == BaseOf(chain, l.now) + l.command.delay && (chain.Some? ==> chain.value <= due)
    requires l.out != [] && Spent(l.out, l.command.delay) && ShownAt(l.out, f, l.now, lo, hi) && due + lo <= free <= due + hi
    ensures |Law(f, free)| == |f| && Law(f, free)[0].command == l.out[0]
    ensures lo <= Law(f, free)[0].at - (l.at + Slip(l, due)) <= hi
    ensures DueAfter(l, due) + lo <= FreeAfter(f, free) <= DueAfter(l, due) + hi
  {
    LawLength(f, free);
    FirstWord(l, f[0], chain, free, due, lo, hi);
    FollowersEnd(f[1..], Max(free, f[0].from) + Cost(f[0].command), l.at + Slip(l, due), l.now, lo, hi);
  }

  lemma WithinCons(l: Landed, rest: seq<Landed>, first: seq<Applied>, later: seq<Applied>, due: int, lo: nat, hi: nat)
    requires |first| == |l.out|
    requires l.out != [] ==> first[0].command == l.out[0] && lo <= first[0].at - (l.at + Slip(l, due)) <= hi
    requires AppliedWithin(rest, later, DueAfter(l, due), lo, hi)
    ensures AppliedWithin([l] + rest, first + later, due, lo, hi)
  {
    assert ([l] + rest)[1..] == rest && (first + later)[|l.out|..] == later;
  }

  /** Whatever happens between them, the events of a chained log are applied within the window after they are
      due. */
  lemma {:induction false} LogWithin(log: seq<Landed>, chain: Option<int>, fifo: seq<Supply>, free: nat, due: int, lo: nat, hi: nat)
    requires Chained(log, chain) && AllSpent(log) && Shown(log, fifo, lo, hi)
    requires (chain.Some? ==> chain.value <= due) && due + lo <= free <= due + hi
    ensures AppliedWithin(log, Law(fifo, free), due, lo, hi)
    decreases |log|
  {
    if log != [] {
      var l, rest := log[0], log[1..];
      var f, g := fifo[..|l.out|], fifo[|l.out|..];
      assert forall i :: 0 <= i < |rest| ==> rest[i] == log[i + 1];
      assert fifo == f + g;
      LawSplit(f, g, free);
      if l.out == [] {
        LogWithin(rest, None, g, free, due, lo, hi);
      } else {
        EventEnds(l, f, chain, free, due, lo, hi);
        LogWithin(rest, Some(l.at), g, FreeAfter(f, free), DueAfter(l, due), lo, hi);
      }
      HeadAndRest(log);
      WithinCons(l, rest, Law(f, free), Law(g, FreeAfter(f, free)), due, lo, hi);
    }
  }

  // ---------- whole runs ----------

  lemma {:induction false} RunSpent<B(!new)>(a: Allocator<B>, s: State<B>, k: Truth, ops: seq<TimedOp>)
    requires |k.times| == |s.queue| && SpendsOnce(a)
    ensures AllSpent(RunLog(a, s, k, ops))
    decreases |ops|
  {
    if ops != [] {
      var (t, k') := Next(a, s, k, ops[0]);
      RunSpent(a, t, k', ops[1..]);
      if ops[0].Clock? {
        LandingsSpent(a, s, k, ops[0].now, 0);
      }
    }
  }

  /** Over any run of host commands and dispatches between resets, drained chains and silent events included:
      the engine applies each event no earlier than it is due and as much later as the FIFO's window allows. */
  lemma RunMeetsEngine<B(!new)>(a: Allocator<B>, s: State<B>, k: Truth, last: int, ops: seq<TimedOp>,
                                fifo: seq<Supply>, free: nat, due: int, lo: nat, hi: nat)
    requires Tells(k, s) && Watched(a, s, k, last, ops) && Ahead(k.chain, last) && SpendsOnce(a)
    requires (k.chain.Some? ==> k.chain.value <= due) && due + lo <= free <= due + hi
    requires Shown(RunLog(a, s, k, ops), fifo, lo, hi)
    ensures AppliedWithin(RunLog(a, s, k, ops), Law(fifo, free), due, lo, hi)
  {
    RunLands(a, s, k, last, ops);
    RunSpent(a, s, k, ops);
    LogWithin(RunLog(a, s, k, ops), k.chain, fifo, free, due, lo, hi);
  }

  /** The same of the firmware as it is. */
  lemma FirmwareRunMeetsEngine(s: State<Placement.SaneBank>, k: Truth, last: int, ops: seq<TimedOp>,
                               fifo: seq<Supply>, free: nat, due: int, lo: nat, hi: nat)
    requires Tells(k, s) && Watched(Placement.ByStamps(), s, k, last, ops) && Ahead(k.chain, last)
    requires (k.chain.Some? ==> k.chain.value <= due) && due + lo <= free <= due + hi
    requires Shown(RunLog(Placement.ByStamps(), s, k, ops), fifo, lo, hi)
    ensures AppliedWithin(RunLog(Placement.ByStamps(), s, k, ops), Law(fifo, free), due, lo, hi)
  {
    ApplySpendsOnce();
    RunMeetsEngine(Placement.ByStamps(), s, k, last, ops, fifo, free, due, lo, hi);
  }
}
