/** The schedule as a queue, over whole runs: every event taken is sent or cleared once, in order. */
module Conservation {
  import opened Words
  import opened Schedule
  import opened Simulation

  /** How an event leaves the schedule: sent by a dispatch, or dropped by a clear or a reset. */
  datatype Fate = Dispatched(event: Event) | Dropped(event: Event)

  function Events(fs: seq<Fate>): (es: seq<Event>)
    ensures |es| == |fs| && forall i :: 0 <= i < |fs| ==> es[i] == fs[i].event
  {
    seq(|fs|, i requires 0 <= i < |fs| => fs[i].event)
  }

  function AllDispatched(es: seq<Event>): seq<Fate> { seq(|es|, i requires 0 <= i < |es| => Dispatched(es[i])) }

  function AllDropped(es: seq<Event>): seq<Fate> { seq(|es|, i requires 0 <= i < |es| => Dropped(es[i])) }

  /** The event a host command adds, if it is one to hold and the schedule takes it. */
  function Accepted<B>(s: State<B>, op: Op): seq<Event> {
    match op
    case Clock(_) => []
    case Host(c) =>
      var at := Plus(s.anchor, c.delay);
      if c.opcode != OP_SCHEDULE_AT && c.opcode != OP_CLEAR_SCHEDULE && c.opcode != OP_RESET && s.anchored &&
         Accepts(s.queue, at)
      then [Event(at, c.(delay := 0))] else []
  }

  /** The events that leave in one step. */
  function Leaving<B>(a: Allocator<B>, s: State<B>, op: Op): seq<Fate> {
    match op
    case Clock(now) => AllDispatched(Sent(a, s, now, 0))
    case Host(c) => if c.opcode == OP_CLEAR_SCHEDULE || c.opcode == OP_RESET then AllDropped(s.queue) else []
  }

  lemma StepConserves<B>(a: Allocator<B>, s: State<B>, op: Op)
    ensures s.queue + Accepted(s, op) == Events(Leaving(a, s, op)) + Step(a, s, op).0.queue
  {
    match op
    case Clock(now) =>
      DispatchConserves(a, s, now, 0);
      assert Events(Leaving(a, s, op)) == Sent(a, s, now, 0);
      assert s.queue + [] == s.queue;
    case Host(c) =>
  }

  function RunAccepted<B>(a: Allocator<B>, s: State<B>, ops: seq<Op>): seq<Event>
    decreases |ops|
  {
    if ops == [] then [] else Accepted(s, ops[0]) + RunAccepted(a, Step(a, s, ops[0]).0, ops[1..])
  }

  function RunLeaving<B>(a: Allocator<B>, s: State<B>, ops: seq<Op>): seq<Fate>
    decreases |ops|
  {
    if ops == [] then [] else Leaving(a, s, ops[0]) + RunLeaving(a, Step(a, s, ops[0]).0, ops[1..])
  }

  lemma Regroup(q: seq<Event>, x: seq<Event>, l: seq<Fate>, t: seq<Event>, xs: seq<Event>, ls: seq<Fate>, u: seq<Event>)
    requires q + x == Events(l) + t && t + xs == Events(ls) + u
    ensures q + (x + xs) == Events(l + ls) + u
  {
    assert Events(l + ls) == Events(l) + Events(ls);
    assert q + (x + xs) == (q + x) + xs == (Events(l) + t) + xs == Events(l) + (t + xs);
  }

  /** Over any run, what was held and what was accepted is what left and what is held, in that order. */
  lemma {:induction false} RunConserves<B>(a: Allocator<B>, s: State<B>, ops: seq<Op>)
    ensures s.queue + RunAccepted(a, s, ops) == Events(RunLeaving(a, s, ops)) + Run(a, s, ops).0.queue
    decreases |ops|
  {
    if ops != [] {
      var t := Step(a, s, ops[0]).0;
      StepConserves(a, s, ops[0]);
      RunConserves(a, t, ops[1..]);
      Regroup(s.queue, Accepted(s, ops[0]), Leaving(a, s, ops[0]), t.queue,
              RunAccepted(a, t, ops[1..]), RunLeaving(a, t, ops[1..]), Run(a, t, ops[1..]).0.queue);
    }
  }

  /** Every reachable schedule is within its capacity, holds nothing the firmware must act on itself, and
      is in modular order. */
  lemma {:induction false} RunKeepsInvariant<B>(a: Allocator<B>, s: State<B>, ops: seq<Op>)
    requires Invariant(s.queue)
    ensures Invariant(Run(a, s, ops).0.queue)
    decreases |ops|
  {
    if ops != [] {
      match ops[0] {
        case Host(c) => ReceiveKeepsInvariant(a, s, c);
        case Clock(now) => DispatchKeepsInvariant(a, s, now, 0);
      }
      RunKeepsInvariant(a, Step(a, s, ops[0]).0, ops[1..]);
    }
  }

  /** A refused event does not shift the times of later ones: the anchor runs the same whatever the
      schedules hold, however the voices are allocated and whenever the dispatches come. */
  lemma {:induction false} AnchorIgnoresQueue<B, Q>(a: Allocator<B>, b: Allocator<Q>, s: State<B>, t: State<Q>,
                                                    ops: seq<Op>, ops': seq<Op>)
    requires s.anchor == t.anchor && s.anchored == t.anchored && HostOnly(ops) == HostOnly(ops')
    ensures var u, v := Run(a, s, ops).0, Run(b, t, ops').0;
      u.anchor == v.anchor && u.anchored == v.anchored
    decreases |ops| + |ops'|
  {
    if ops != [] && ops[0].Clock? {
      DispatchConserves(a, s, ops[0].now, 0);
      AnchorIgnoresQueue(a, b, Step(a, s, ops[0]).0, t, ops[1..], ops');
    } else if ops' != [] && ops'[0].Clock? {
      DispatchConserves(b, t, ops'[0].now, 0);
      AnchorIgnoresQueue(a, b, s, Step(b, t, ops'[0]).0, ops, ops'[1..]);
    } else if ops != [] {
      assert HostOnly(ops)[0] == HostOnly(ops')[0] && HostOnly(ops)[1..] == HostOnly(ops')[1..];
      AnchorIgnoresQueue(a, b, Step(a, s, ops[0]).0, Step(b, t, ops'[0]).0, ops[1..], ops'[1..]);
    }
  }

  /** The host commands of a run. */
  function HostOnly(ops: seq<Op>): seq<Command>
    decreases |ops|
  {
    if ops == [] then [] else (if ops[0].Host? then [ops[0].command] else []) + HostOnly(ops[1..])
  }

  // ---------- now or later ----------

  /** The commands that start scheduling or stop it. */
  predicate Marks(c: Command) { c.opcode in {OP_SCHEDULE_AT, OP_CLEAR_SCHEDULE, OP_RESET} }

  ghost predicate LastMark(cs: seq<Command>, i: nat) {
    i < |cs| && Marks(cs[i]) && forall j :: i < j < |cs| ==> !Marks(cs[j])
  }

  function Delays(cs: seq<Command>): nat { if cs == [] then 0 else cs[0].delay + Delays(cs[1..]) }

  lemma OneHost(ops: seq<Op>)
    requires ops != [] && ops[0].Host?
    ensures HostOnly(ops) == [ops[0].command] + HostOnly(ops[1..]) && HostOnly(ops)[1..] == HostOnly(ops[1..])
  {
  }

  lemma NoHost(ops: seq<Op>)
    requires ops != [] && ops[0].Clock?
    ensures HostOnly(ops) == HostOnly(ops[1..])
  {
  }

  lemma WrapAgain(n: nat, k: nat)
    ensures Wrap(Wrap(n) + k) == Wrap(n + k)
  {
  }

  /** The anchor, if there was one and every one of these commands moved it on. */
  ghost predicate MovedOn(anchored: bool, anchor: u32, cs: seq<Command>, anchored': bool, anchor': u32) {
    anchored' == anchored && (anchored ==> anchor' == Wrap(anchor + Delays(cs)))
  }

  lemma MovedOnFirst(anchored: bool, anchor: u32, cs: seq<Command>, anchored': bool, anchor': u32)
    requires cs != [] && MovedOn(anchored, Plus(anchor, cs[0].delay), cs[1..], anchored', anchor')
    ensures MovedOn(anchored, anchor, cs, anchored', anchor')
  {
    WrapPlus(anchor, cs[0].delay);
    WrapAgain(anchor + cs[0].delay, Delays(cs[1..]));
  }

  /** Without such a command, every delay moves the anchor on and nothing else does. */
  lemma {:induction false} AnchorMovesOn<B>(a: Allocator<B>, s: State<B>, ops: seq<Op>)
    requires forall c :: c in HostOnly(ops) ==> !Marks(c)
    ensures var u := Run(a, s, ops).0; MovedOn(s.anchored, s.anchor, HostOnly(ops), u.anchored, u.anchor)
    decreases |ops|
  {
    if ops != [] {
      var t, u := Step(a, s, ops[0]).0, Run(a, s, ops).0;
      if ops[0].Clock? {
        NoHost(ops);
        DispatchConserves(a, s, ops[0].now, 0);
        AnchorMovesOn(a, t, ops[1..]);
      } else {
        OneHost(ops);
        assert !Marks(HostOnly(ops)[0]);
        AnchorMovesOn(a, t, ops[1..]);
        if s.anchored {
          MovedOnFirst(true, s.anchor, HostOnly(ops), u.anchored, u.anchor);
        }
      }
    }
  }

  /** There is an anchor exactly when command `i` named one, and it is the sample named and every delay since. */
  ghost predicate DecidedBy(cs: seq<Command>, i: nat, anchored: bool, anchor: u32) {
    && i < |cs| && (anchored <==> cs[i].opcode == OP_SCHEDULE_AT)
    && (anchored ==> anchor == Wrap(cs[i].value + Delays(cs[i + 1..])))
  }

  lemma DecidedLater(cs: seq<Command>, i: nat, anchored: bool, anchor: u32)
    requires cs != [] && DecidedBy(cs[1..], i, anchored, anchor)
    ensures DecidedBy(cs, i + 1, anchored, anchor)
  {
    assert cs[1..][i + 1..] == cs[i + 2..];
  }

  lemma DecidedNow<B>(a: Allocator<B>, s: State<B>, c: Command, cs: seq<Command>, anchored: bool, anchor: u32)
    requires cs != [] && cs[0] == c && Marks(c)
    requires var t := Step(a, s, Host(c)).0; MovedOn(t.anchored, t.anchor, cs[1..], anchored, anchor)
    ensures DecidedBy(cs, 0, anchored, anchor)
  {
  }

  /** The last of those commands alone decides. */
  lemma {:induction false} LastMarkDecides<B>(a: Allocator<B>, s: State<B>, ops: seq<Op>, i: nat)
    requires LastMark(HostOnly(ops), i)
    ensures var u := Run(a, s, ops).0; DecidedBy(HostOnly(ops), i, u.anchored, u.anchor)
    decreases |ops|
  {
    var t, u, cs := Step(a, s, ops[0]).0, Run(a, s, ops).0, HostOnly(ops);
    if ops[0].Clock? {
      NoHost(ops);
      LastMarkDecides(a, t, ops[1..], i);
    } else {
      OneHost(ops);
      if i == 0 {
        AnchorMovesOn(a, t, ops[1..]);
        DecidedNow(a, s, ops[0].command, cs, u.anchored, u.anchor);
      } else {
        LastMarkDecides(a, t, ops[1..], i - 1);
        DecidedLater(cs, i - 1, u.anchored, u.anchor);
      }
    }
  }

  lemma {:induction false} FindLastMark(cs: seq<Command>) returns (i: int)
    ensures -1 <= i && if i < 0 then forall c :: c in cs ==> !Marks(c) else LastMark(cs, i)
  {
    if cs == [] {
      i := -1;
    } else if Marks(cs[|cs| - 1]) {
      i := |cs| - 1;
    } else {
      i := FindLastMark(cs[..|cs| - 1]);
    }
  }

  /** From power-on, after any run: there is an anchor exactly when the last of the host's anchors, clears and
      resets was an anchor. Any other command is placed in the call that brings it when there is none; when there is
      one it places nothing, and is held for its own sample or refused. */
  lemma HeldOrPlaced<B>(a: Allocator<B>, ops: seq<Op>, c: Command)
    requires !Marks(c)
    ensures var cs, t := HostOnly(ops), Run(a, Start(a), ops).0;
      t.anchored <==> exists i: nat :: LastMark(cs, i) && cs[i].opcode == OP_SCHEDULE_AT
    ensures var t := Run(a, Start(a), ops).0; var (u, out) := Step(a, t, Host(c));
      if t.anchored then
        u.bank == t.bank && out == [] &&
        u.queue in {t.queue, t.queue + [Event(Plus(t.anchor, c.delay), c.(delay := 0))]}
      else
        (u.bank, out) == a.place(t.bank, c) && u.queue == t.queue
  {
    var cs := HostOnly(ops);
    var i := FindLastMark(cs);
    if i < 0 {
      AnchorMovesOn(a, Start(a), ops);
    } else {
      LastMarkDecides(a, Start(a), ops, i);
      assert LastMark(cs, i);
    }
  }

  /** A reset leaves nothing of what was before it: no voice, no event, no anchor and no chain. */
  lemma ResetForgets<B>(a: Allocator<B>, s: State<B>, c: Command, ops: seq<Op>)
    requires c.opcode == OP_RESET
    ensures Run(a, s, [Host(c)] + ops).0 == Run(a, State(a.empty, [], 0, false, 0, false), ops).0
    ensures Run(a, s, [Host(c)] + ops).1 == [c] + Run(a, State(a.empty, [], 0, false, 0, false), ops).1
  {
    assert ([Host(c)] + ops)[1..] == ops;
  }
}
