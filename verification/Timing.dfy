/** When scheduled events really land.

    The firmware keeps times modulo 2^32 and hands the engine delays relative to a running chain. Here
    every wrapped time is paired with the true sample it stands for, and each event dispatched is shown
    to land on the latest of its own sample, the landing before it and now, across any sequence of
    host commands and dispatch calls whose clock does not go back. */
module Timing {
  import opened Words
  import opened Schedule

  /** The true samples behind a schedule's wrapped times: its events', its anchor's and its chain's. */
  datatype Truth = Truth(times: seq<int>, anchor: int, chain: Option<int>)

  ghost predicate Tells<B>(k: Truth, s: State<B>) {
    && |k.times| == |s.queue|
    && (forall i :: 0 <= i < |k.times| ==> s.queue[i].time == Wrap(k.times[i]))
    && s.anchor == Wrap(k.anchor)
    && s.chained == k.chain.Some?
    && (k.chain.Some? ==> s.chain == Wrap(k.chain.value))
  }

  /** How far back a time may lie and still be told from the future. */
  const PAST := TWO31 - DISPATCH_WINDOW

  /** Every time held is within half a wrap of `now`. */
  ghost predicate InView(k: Truth, now: int) {
    && (forall i :: 0 <= i < |k.times| ==> now - PAST <= k.times[i] < now + TWO31)
    && (k.chain.Some? ==> now - PAST <= k.chain.value)
  }

  /** The chain runs no more than the dispatch window ahead. */
  predicate Ahead(chain: Option<int>, now: int) { chain.Some? ==> chain.value <= now + DISPATCH_WINDOW }

  /** One event sent: its own sample, the sample it lands on, the time of the call, and what was pushed. */
  datatype Landed = Landed(time: int, at: int, now: int, command: Command, out: seq<Command>)

  /** The sample the firmware counts the head's delay from. */
  ghost function TrueBase<B>(s: State<B>, k: Truth, now: int): int {
    if s.chained && k.chain.Some? && Gap(s.chain, Wrap(now)) > 0 then k.chain.value else now
  }

  /** Where the head lands: the base plus the delay actually sent. */
  ghost function LandsAt<B>(s: State<B>, k: Truth, now: int): int
    requires s.queue != []
  {
    TrueBase(s, k, now) + Head(s, Wrap(now)).delay
  }

  /** The latest of an event's own sample, now, and the landing before it. */
  function Due3(time: int, now: int, chain: Option<int>): int {
    var t := Max(time, now);
    if chain.Some? then Max(t, chain.value) else t
  }

  /** The delay sent puts the head exactly where it should be; it needs no clamping, and the chain never
      runs more than the dispatch window ahead. */
  lemma HeadLands<B>(s: State<B>, k: Truth, now: int)
    requires Tells(k, s) && InView(k, now) && Ahead(k.chain, now) && s.queue != [] && Due(s.queue[0], Wrap(now))
    ensures LandsAt(s, k, now) == Due3(k.times[0], now, k.chain)
    ensures now <= LandsAt(s, k, now) <= now + DISPATCH_WINDOW
    ensures Head(s, Wrap(now)).delay <= DISPATCH_WINDOW
    ensures Plus(Base(s, Wrap(now)), Head(s, Wrap(now)).delay) == Wrap(LandsAt(s, k, now))
  {
    var time := k.times[0];
    GapIsDistance(time, now);
    if k.chain.Some? {
      GapIsDistance(k.chain.value, now);
      GapIsDistance(time, k.chain.value);
    }
    WrapPlus(TrueBase(s, k, now), Head(s, Wrap(now)).delay);
  }

  /** The truth after the head has gone. */
  ghost function Past<B>(s: State<B>, k: Truth, now: int, any: bool): Truth
    requires s.queue != [] && k.times != []
  {
    Truth(k.times[1..], k.anchor, if any then Some(LandsAt(s, k, now)) else None)
  }

  lemma PastTells<B>(a: Allocator<B>, s: State<B>, k: Truth, now: int)
    requires Tells(k, s) && InView(k, now) && Ahead(k.chain, now) && s.queue != [] && Due(s.queue[0], Wrap(now))
    ensures var (t, out) := Pop(a, s, Wrap(now));
      var k' := Past(s, k, now, out != []); Tells(k', t) && InView(k', now) && Ahead(k'.chain, now)
  {
    HeadLands(s, k, now);
  }

  /** What one dispatch call sends. */
  ghost function Landings<B>(a: Allocator<B>, s: State<B>, k: Truth, now: int, n: nat): (r: (Truth, seq<Landed>))
    requires |k.times| == |s.queue|
    ensures |r.0.times| == |Dispatch(a, s, Wrap(now), n).0.queue|
    decreases |s.queue|
  {
    if Stops(s, Wrap(now), n) then (k, [])
    else
      var (t, out) := Pop(a, s, Wrap(now));
      var l := Landed(k.times[0], LandsAt(s, k, now), now, Head(s, Wrap(now)), out);
      var (k', rest) := Landings(a, t, Past(s, k, now, out != []), now, n + |out|);
      (k', [l] + rest)
  }

  /** Where a delay is counted from: the landing before it, if the chain lives and has not been passed. */
  function BaseOf(chain: Option<int>, now: int): int { if chain.Some? then Max(chain.value, now) else now }

  lemma TrueBaseIs<B>(s: State<B>, k: Truth, now: int)
    requires Tells(k, s) && InView(k, now) && Ahead(k.chain, now)
    ensures TrueBase(s, k, now) == BaseOf(k.chain, now)
  {
    if k.chain.Some? { GapIsDistance(k.chain.value, now); }
  }

  /** A log in which everything sent landed as it should, `chain` being the landing before its first. */
  ghost predicate Chained(log: seq<Landed>, chain: Option<int>)
    decreases |log|
  {
    log == [] ||
    (&& log[0].at == Due3(log[0].time, log[0].now, chain) == BaseOf(chain, log[0].now) + log[0].command.delay
     && log[0].at <= log[0].now + DISPATCH_WINDOW
     && Chained(log[1..], if log[0].out != [] then Some(log[0].at) else None))
  }

  /** The landing a log leaves behind. */
  ghost function ChainAfter(log: seq<Landed>, chain: Option<int>): Option<int>
    decreases |log|
  {
    if log == [] then chain else ChainAfter(log[1..], if log[0].out != [] then Some(log[0].at) else None)
  }

  lemma LandingsUnfolds<B>(a: Allocator<B>, s: State<B>, k: Truth, now: int, n: nat)
    requires |k.times| == |s.queue| && !Stops(s, Wrap(now), n)
    ensures var (t, out) := Pop(a, s, Wrap(now));
      var l := Landed(k.times[0], LandsAt(s, k, now), now, Head(s, Wrap(now)), out);
      var r := Landings(a, t, Past(s, k, now, out != []), now, n + |out|);
      Landings(a, s, k, now, n) == (r.0, [l] + r.1)
  {
  }

  lemma ChainedCons(l: Landed, rest: seq<Landed>, chain: Option<int>)
    requires l.at == Due3(l.time, l.now, chain) == BaseOf(chain, l.now) + l.command.delay && l.at <= l.now + DISPATCH_WINDOW
    requires Chained(rest, if l.out != [] then Some(l.at) else None)
    ensures Chained([l] + rest, chain)
    ensures ChainAfter([l] + rest, chain) == ChainAfter(rest, if l.out != [] then Some(l.at) else None)
  {
    assert ([l] + rest)[1..] == rest;
  }

  /** The truth goes on being told through a call. */
  lemma {:induction false} LandingsTell<B>(a: Allocator<B>, s: State<B>, k: Truth, now: int, n: nat)
    requires Tells(k, s) && InView(k, now) && Ahead(k.chain, now)
    ensures var k' := Landings(a, s, k, now, n).0;
      Tells(k', Dispatch(a, s, Wrap(now), n).0) && Ahead(k'.chain, now)
    decreases |s.queue|
  {
    if !Stops(s, Wrap(now), n) {
      PastTells(a, s, k, now);
      var (t, out) := Pop(a, s, Wrap(now));
      LandingsTell(a, t, Past(s, k, now, out != []), now, n + |out|);
      DispatchUnfolds(a, s, Wrap(now), n);
    }
  }

  /** What a call sends is chained, and the chain it leaves is the chain known. */
  ghost predicate Settles(r: (Truth, seq<Landed>), chain: Option<int>) {
    Chained(r.1, chain) && r.0.chain == ChainAfter(r.1, chain)
  }

  /** What the call sends after its first event. */
  ghost function Remaining<B>(a: Allocator<B>, s: State<B>, k: Truth, now: int, n: nat): (Truth, seq<Landed>)
    requires |k.times| == |s.queue| && !Stops(s, Wrap(now), n)
  {
    var (t, out) := Pop(a, s, Wrap(now));
    Landings(a, t, Past(s, k, now, out != []), now, n + |out|)
  }

  lemma SettlesStep<B>(a: Allocator<B>, s: State<B>, k: Truth, now: int, n: nat)
    requires Tells(k, s) && InView(k, now) && Ahead(k.chain, now) && !Stops(s, Wrap(now), n)
    requires Settles(Remaining(a, s, k, now, n), Past(s, k, now, Pop(a, s, Wrap(now)).1 != []).chain)
    ensures Settles(Landings(a, s, k, now, n), k.chain)
  {
    var l := Landed(k.times[0], LandsAt(s, k, now), now, Head(s, Wrap(now)), Pop(a, s, Wrap(now)).1);
    HeadLands(s, k, now);
    TrueBaseIs(s, k, now);
    LandingsUnfolds(a, s, k, now, n);
    ChainedCons(l, Remaining(a, s, k, now, n).1, k.chain);
  }

  lemma {:induction false} LandingsSettle<B>(a: Allocator<B>, s: State<B>, k: Truth, now: int, n: nat)
    requires Tells(k, s) && InView(k, now) && Ahead(k.chain, now)
    ensures Settles(Landings(a, s, k, now, n), k.chain)
    decreases |s.queue|
  {
    if !Stops(s, Wrap(now), n) {
      PastTells(a, s, k, now);
      var (t, out) := Pop(a, s, Wrap(now));
      LandingsSettle(a, t, Past(s, k, now, out != []), now, n + |out|);
      SettlesStep(a, s, k, now, n);
    }
  }

  // ---------- whole runs ----------

  /** What can happen to the schedule: a host command, with the true sample an anchor stands for, or a
      dispatch call at a true time. */
  datatype TimedOp = Host(command: Command, anchor: int) | Clock(now: int)

  /** A reset starts afresh, so runs are between resets; an anchor carries the sample it names. */
  predicate Sensible(op: TimedOp) {
    op.Host? ==> op.command.opcode != OP_RESET && (op.command.opcode == OP_SCHEDULE_AT ==> op.command.value == Wrap(op.anchor))
  }

  ghost function Told<B>(a: Allocator<B>, s: State<B>, k: Truth, c: Command, anchor: int): (k': Truth)
    requires |k.times| == |s.queue|
    ensures |k'.times| == |Receive(a, s, c).0.queue|
  {
    if c.opcode == OP_SCHEDULE_AT then k.(anchor := anchor)
    else if c.opcode == OP_CLEAR_SCHEDULE then k.(times := [])
    else if c.opcode == OP_RESET then Truth([], 0, None)
    else if s.anchored then
      var at := k.anchor + c.delay;
      k.(anchor := at, times := if Accepts(s.queue, Plus(s.anchor, c.delay)) then k.times + [at] else k.times)
    else k
  }

  lemma ReceiveTells<B>(a: Allocator<B>, s: State<B>, k: Truth, c: Command, anchor: int)
    requires Tells(k, s) && Sensible(Host(c, anchor))
    ensures Tells(Told(a, s, k, c, anchor), Receive(a, s, c).0)
    ensures Told(a, s, k, c, anchor).chain == k.chain
  {
    WrapPlus(k.anchor, c.delay);
  }

  ghost function Next<B>(a: Allocator<B>, s: State<B>, k: Truth, op: TimedOp): (r: (State<B>, Truth))
    requires |k.times| == |s.queue|
    ensures |r.1.times| == |r.0.queue|
  {
    match op
    case Host(c, anchor) => (Receive(a, s, c).0, Told(a, s, k, c, anchor))
    case Clock(now) => (Dispatch(a, s, Wrap(now), 0).0, Landings(a, s, k, now, 0).0)
  }

  /** Everything a run sends, in order. */
  ghost function RunLog<B>(a: Allocator<B>, s: State<B>, k: Truth, ops: seq<TimedOp>): seq<Landed>
    requires |k.times| == |s.queue|
    decreases |ops|
  {
    if ops == [] then []
    else
      var (t, k') := Next(a, s, k, ops[0]);
      (if ops[0].Clock? then Landings(a, s, k, ops[0].now, 0).1 else []) + RunLog(a, t, k', ops[1..])
  }

  /** A run whose clock never goes back, and whose every time can be told from the future when it is
      looked at. */
  ghost predicate Watched<B>(a: Allocator<B>, s: State<B>, k: Truth, last: int, ops: seq<TimedOp>)
    requires |k.times| == |s.queue|
    decreases |ops|
  {
    ops != [] ==>
      && Sensible(ops[0])
      && (ops[0].Clock? ==> last <= ops[0].now && InView(k, ops[0].now))
      && Watched(a, Next(a, s, k, ops[0]).0, Next(a, s, k, ops[0]).1, if ops[0].Clock? then ops[0].now else last, ops[1..])
  }

  lemma {:induction false} ChainedAppend(p: seq<Landed>, q: seq<Landed>, chain: Option<int>)
    requires Chained(p, chain) && Chained(q, ChainAfter(p, chain))
    ensures Chained(p + q, chain)
    decreases |p|
  {
    if p == [] {
      assert p + q == q;
    } else {
      ChainedAppend(p[1..], q, if p[0].out != [] then Some(p[0].at) else None);
      assert (p + q)[1..] == p[1..] + q;
    }
  }

  /** Across any run of host commands and dispatches, every event lands on the latest of its own sample,
      now, and the landing before it. */
  lemma {:induction false} RunLands<B>(a: Allocator<B>, s: State<B>, k: Truth, last: int, ops: seq<TimedOp>)
    requires Tells(k, s) && Watched(a, s, k, last, ops) && Ahead(k.chain, last)
    ensures Chained(RunLog(a, s, k, ops), k.chain)
    decreases |ops|
  {
    if ops != [] {
      var (t, k') := Next(a, s, k, ops[0]);
      match ops[0]
      case Host(c, anchor) =>
        ReceiveTells(a, s, k, c, anchor);
        RunLands(a, t, k', last, ops[1..]);
        assert [] + RunLog(a, t, k', ops[1..]) == RunLog(a, t, k', ops[1..]);
      case Clock(now) =>
        LandingsTell(a, s, k, now, 0);
        LandingsSettle(a, s, k, now, 0);
        RunLands(a, t, k', now, ops[1..]);
        ChainedAppend(Landings(a, s, k, now, 0).1, RunLog(a, t, k', ops[1..]), k.chain);
    }
  }

  // ---------- what that comes to ----------

  ghost predicate AllEmit(log: seq<Landed>) { forall i :: 0 <= i < |log| ==> log[i].out != [] }

  ghost predicate Sorted(log: seq<Landed>) { forall i :: 0 < i < |log| ==> log[i - 1].time <= log[i].time }

  ghost predicate InTime(log: seq<Landed>) { forall i :: 0 <= i < |log| ==> log[i].now <= log[i].time }

  /** Sorted events that are not late, each of which sends something, land on exactly their own sample,
      however many calls it takes to send them. */
  lemma {:induction false} OnTime(log: seq<Landed>, chain: Option<int>)
    requires Chained(log, chain) && AllEmit(log) && Sorted(log) && InTime(log)
    requires log != [] && chain.Some? ==> chain.value <= log[0].time
    ensures forall i :: 0 <= i < |log| ==> log[i].at == log[i].time
    decreases |log|
  {
    if log != [] {
      var rest := log[1..];
      assert forall i :: 0 <= i < |rest| ==> rest[i] == log[i + 1];
      OnTime(rest, Some(log[0].at));
      forall i | 0 <= i < |log|
        ensures log[i].at == log[i].time
      {
        if i > 0 { assert rest[i - 1].at == rest[i - 1].time; }
      }
    }
  }

  /** The i-th landing while everything emits: never early, and behind the one before it. */
  lemma {:induction false} LandingIs(log: seq<Landed>, chain: Option<int>, i: nat)
    requires Chained(log, chain) && AllEmit(log) && i < |log|
    ensures log[i].at == Due3(log[i].time, log[i].now, if i == 0 then chain else Some(log[i - 1].at))
    ensures log[i].time <= log[i].at <= log[i].now + DISPATCH_WINDOW
    decreases i
  {
    if i > 0 {
      var rest := log[1..];
      assert forall j :: 0 <= j < |rest| ==> rest[j] == log[j + 1];
      LandingIs(rest, Some(log[0].at), i - 1);
    }
  }
}
