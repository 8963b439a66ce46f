/** The firmware's schedule, for any way of placing commands on voices.

    Until the host names an anchor, commands are placed as they come. After that each command's delay moves
    the anchor on, and the command waits at that sample in a bounded first-in first-out sequence; a
    dispatch takes events off its front and measures them from the chain. `Allocator` is any way of
    placing one command; the schedule never looks inside it. */
module Schedule {
  import opened Words

  const SCHEDULE_ENTRIES := 256
  const DISPATCH_WINDOW := 64
  const CONTROL_MAX_OUT := 16

  datatype Allocator<!B> = Allocator(empty: B, place: (B, Command) -> (B, seq<Command>))

  datatype Event = Event(time: u32, command: Command)

  datatype State<B> = State(bank: B, queue: seq<Event>, anchor: u32, anchored: bool, chain: u32, chained: bool)

  function Start<B>(a: Allocator<B>): State<B> { State(a.empty, [], 0, false, 0, false) }

  /** Whether the schedule takes an event at `time`: there must be room, and it must not be before the
      last event held. */
  predicate Accepts(q: seq<Event>, time: u32) {
    |q| < SCHEDULE_ENTRIES && (q != [] ==> !Older(time, q[|q| - 1].time))
  }

  function Appended(q: seq<Event>, time: u32, c: Command): seq<Event> {
    if Accepts(q, time) then q + [Event(time, c.(delay := 0))] else q
  }

  /** One command from the host. */
  function Receive<B>(a: Allocator<B>, s: State<B>, c: Command): (State<B>, seq<Command>) {
    if c.opcode == OP_SCHEDULE_AT then (s.(anchor := c.value, anchored := true), [])
    else if c.opcode == OP_CLEAR_SCHEDULE then (s.(queue := [], anchored := false), [])
    else if c.opcode == OP_RESET then (Start(a), [c])
    else if s.anchored then
      var at := Plus(s.anchor, c.delay);
      (s.(anchor := at, queue := Appended(s.queue, at, c)), [])
    else
      var (bank, out) := a.place(s.bank, c);
      (s.(bank := bank), out)
  }

  predicate Due(e: Event, now: u32) { Gap(e.time, now) <= DISPATCH_WINDOW }

  /** The sample the next delay is measured from: the chain while it is still in the future, else now. */
  function Base<B>(s: State<B>, now: u32): u32 {
    if s.chained && Gap(s.chain, now) > 0 then s.chain else now
  }

  function DelayFrom(time: u32, base: u32): u16 {
    var gap := Gap(time, base);
    if gap <= 0 then 0 else if gap > 0xFFFF then 0xFFFF else gap
  }

  /** The command the head of the schedule becomes. */
  function Head<B>(s: State<B>, now: u32): Command
    requires s.queue != []
  {
    s.queue[0].command.(delay := DelayFrom(s.queue[0].time, Base(s, now)))
  }

  /** The state once the head has been placed: if anything was pushed the chain has moved to where it
      lands, and otherwise there is no chain. */
  function HeadGone<B>(s: State<B>, now: u32, bank: B, any: bool): State<B>
    requires s.queue != []
  {
    var t := s.(bank := bank, queue := s.queue[1..], chained := any);
    if any then t.(chain := Plus(Base(s, now), Head(s, now).delay)) else t
  }

  /** Send the event at the head of the schedule. */
  function Pop<B>(a: Allocator<B>, s: State<B>, now: u32): (State<B>, seq<Command>)
    requires s.queue != []
  {
    var (bank, out) := a.place(s.bank, Head(s, now));
    (HeadGone(s, now, bank, out != []), out)
  }

  /** Nothing more is sent in a call that has already handed back `n` words. */
  predicate Stops<B>(s: State<B>, now: u32, n: nat) {
    s.queue == [] || n + VOICE_COUNT > CONTROL_MAX_OUT || !Due(s.queue[0], now)
  }

  /** Everything due at `now`, as long as a whole broadcast still fits after the `n` words already
      handed back. */
  function Dispatch<B>(a: Allocator<B>, s: State<B>, now: u32, n: nat): (State<B>, seq<Command>)
    decreases |s.queue|
  {
    if Stops(s, now, n) then (s, [])
    else
      var (t, out) := Pop(a, s, now);
      var (u, rest) := Dispatch(a, t, now, n + |out|);
      (u, out + rest)
  }

  /** The events one call takes off the schedule, in order. */
  function Sent<B>(a: Allocator<B>, s: State<B>, now: u32, n: nat): seq<Event>
    decreases |s.queue|
  {
    if Stops(s, now, n) then []
    else
      var (t, out) := Pop(a, s, now);
      [s.queue[0]] + Sent(a, t, now, n + |out|)
  }

  /** The commands one call places, in order: the events it takes with their delays filled in. */
  function Placed<B>(a: Allocator<B>, s: State<B>, now: u32, n: nat): seq<Command>
    decreases |s.queue|
  {
    if Stops(s, now, n) then []
    else
      var (t, out) := Pop(a, s, now);
      [Head(s, now)] + Placed(a, t, now, n + |out|)
  }

  /** The bank after placing commands one after another. */
  function PlayAll<B>(a: Allocator<B>, b: B, cs: seq<Command>): B {
    if cs == [] then b else a.place(PlayAll(a, b, cs[..|cs| - 1]), cs[|cs| - 1]).0
  }

  lemma {:induction false} PlayAllFirst<B>(a: Allocator<B>, b: B, c: Command, cs: seq<Command>)
    ensures PlayAll(a, b, [c] + cs) == PlayAll(a, a.place(b, c).0, cs)
  {
    if cs == [] {
      assert [c] + cs == [c] && [c][..0] == [];
    } else {
      PlayAllFirst(a, b, c, cs[..|cs| - 1]);
      assert ([c] + cs)[..|cs|] == [c] + cs[..|cs| - 1];
    }
  }

  lemma {:induction false} PlayAllAppend<B>(a: Allocator<B>, b: B, cs: seq<Command>, ds: seq<Command>)
    ensures PlayAll(a, b, cs + ds) == PlayAll(a, PlayAll(a, b, cs), ds)
  {
    if ds == [] {
      assert cs + ds == cs;
    } else {
      PlayAllAppend(a, b, cs, ds[..|ds| - 1]);
      assert (cs + ds)[..|cs + ds| - 1] == cs + ds[..|ds| - 1];
    }
  }

  /** What a call places makes the bank what it is, and is what it takes off the schedule. */
  lemma {:induction false} PlacedMakesBank<B>(a: Allocator<B>, s: State<B>, now: u32, n: nat)
    ensures Dispatch(a, s, now, n).0.bank == PlayAll(a, s.bank, Placed(a, s, now, n))
    decreases |s.queue|
  {
    if !Stops(s, now, n) {
      var (t, out) := Pop(a, s, now);
      PlacedMakesBank(a, t, now, n + |out|);
      PlayAllFirst(a, s.bank, Head(s, now), Placed(a, t, now, n + |out|));
    }
  }

  lemma {:induction false} PlacedWasSent<B>(a: Allocator<B>, s: State<B>, now: u32, n: nat)
    ensures |Placed(a, s, now, n)| == |Sent(a, s, now, n)|
    ensures forall i :: 0 <= i < |Sent(a, s, now, n)| ==>
              Placed(a, s, now, n)[i] == Sent(a, s, now, n)[i].command.(delay := Placed(a, s, now, n)[i].delay)
    decreases |s.queue|
  {
    if !Stops(s, now, n) {
      var (t, out) := Pop(a, s, now);
      PlacedWasSent(a, t, now, n + |out|);
    }
  }

  // ---------- one call, step by step ----------

  lemma DispatchUnfolds<B>(a: Allocator<B>, s: State<B>, now: u32, n: nat)
    requires !Stops(s, now, n)
    ensures var (t, out) := Pop(a, s, now);
      Dispatch(a, s, now, n) == (Dispatch(a, t, now, n + |out|).0, out + Dispatch(a, t, now, n + |out|).1)
  {
  }

  /** The result of a call that has handed back `done` so far and is in state `s`. */
  function After<B>(a: Allocator<B>, s: State<B>, now: u32, n: nat, done: seq<Command>): (State<B>, seq<Command>) {
    var (u, rest) := Dispatch(a, s, now, n);
    (u, done + rest)
  }

  lemma AfterNothing<B>(a: Allocator<B>, s: State<B>, now: u32)
    ensures After(a, s, now, 0, []) == Dispatch(a, s, now, 0)
  {
    var rest := Dispatch(a, s, now, 0).1;
    assert [] + rest == rest;
  }

  lemma AfterAll<B>(a: Allocator<B>, s: State<B>, now: u32, n: nat, done: seq<Command>)
    requires Stops(s, now, n)
    ensures After(a, s, now, n, done) == (s, done)
  {
    assert done + [] == done;
  }

  lemma AfterOne<B>(a: Allocator<B>, s: State<B>, now: u32, n: nat, done: seq<Command>)
    requires !Stops(s, now, n)
    ensures var (bank, out) := a.place(s.bank, Head(s, now));
      After(a, s, now, n, done) == After(a, HeadGone(s, now, bank, out != []), now, n + |out|, done + out)
  {
    var (t, out) := Pop(a, s, now);
    var rest := Dispatch(a, t, now, n + |out|).1;
    assert done + (out + rest) == (done + out) + rest;
  }

  // ---------- what every reachable schedule keeps ----------

  /** The firmware's own opcodes and a reset are never held for later. */
  predicate Schedulable(c: Command) {
    c.opcode != OP_RESET && c.opcode != OP_SCHEDULE_AT && c.opcode != OP_CLEAR_SCHEDULE && c.delay == 0
  }

  predicate HoldsOnlySchedulable(q: seq<Event>) {
    forall i :: 0 <= i < |q| ==> Schedulable(q[i].command)
  }

  /** Neighbours are in modular order, so the front of the ring is always the next to come due. */
  predicate Ordered(q: seq<Event>) {
    forall i :: 0 < i < |q| ==> !Older(q[i].time, q[i - 1].time)
  }

  predicate Invariant(q: seq<Event>) {
    |q| <= SCHEDULE_ENTRIES && HoldsOnlySchedulable(q) && Ordered(q)
  }

  /** No command is turned into more than a bank's worth. */
  ghost predicate Fits<B(!new)>(a: Allocator<B>) {
    forall b, c :: |a.place(b, c).1| <= VOICE_COUNT
  }

  lemma ReceiveKeepsInvariant<B>(a: Allocator<B>, s: State<B>, c: Command)
    requires Invariant(s.queue)
    ensures Invariant(Receive(a, s, c).0.queue)
  {
  }

  /** One call hands back at most sixteen words, and stops only when nothing is left, when what comes next is more than
      64 samples away, or when fewer than eight slots are left. */
  lemma {:induction false} DispatchFits<B(!new)>(a: Allocator<B>, s: State<B>, now: u32, n: nat)
    requires Fits(a) && n <= CONTROL_MAX_OUT
    ensures var (t, out) := Dispatch(a, s, now, n);
      && n + |out| <= 16
      && (t.queue == [] || Gap(t.queue[0].time, now) > 64 || 16 - (n + |out|) < 8)
    decreases |s.queue|
  {
    if !Stops(s, now, n) {
      var (t, out) := Pop(a, s, now);
      DispatchFits(a, t, now, n + |out|);
    }
  }

  /** One call takes a prefix of the schedule: nothing is lost, repeated or reordered. */
  lemma {:induction false} DispatchConserves<B>(a: Allocator<B>, s: State<B>, now: u32, n: nat)
    ensures var t := Dispatch(a, s, now, n).0;
      s.queue == Sent(a, s, now, n) + t.queue && t.anchor == s.anchor && t.anchored == s.anchored
    decreases |s.queue|
  {
    if !Stops(s, now, n) {
      var (t, out) := Pop(a, s, now);
      DispatchConserves(a, t, now, n + |out|);
      var sent, left := Sent(a, t, now, n + |out|), Dispatch(a, t, now, n + |out|).0.queue;
      HeadThenTail(s.queue, sent, left);
    }
  }

  lemma HeadThenTail(q: seq<Event>, p: seq<Event>, r: seq<Event>)
    requires q != [] && q[1..] == p + r
    ensures q == [q[0]] + p + r
  {
    assert q == [q[0]] + q[1..];
  }

  /** Every event a call takes has been reached or is within 64 samples. */
  lemma {:induction false} SentWereDue<B>(a: Allocator<B>, s: State<B>, now: u32, n: nat)
    ensures forall e :: e in Sent(a, s, now, n) ==> Gap(e.time, now) <= 64
    decreases |s.queue|
  {
    if !Stops(s, now, n) {
      var (t, out) := Pop(a, s, now);
      SentWereDue(a, t, now, n + |out|);
    }
  }

  lemma TailKeepsInvariant(p: seq<Event>, q: seq<Event>)
    requires Invariant(p + q)
    ensures Invariant(q)
  {
    assert forall i :: 0 <= i < |q| ==> q[i] == (p + q)[|p| + i];
  }

  lemma DispatchKeepsInvariant<B>(a: Allocator<B>, s: State<B>, now: u32, n: nat)
    requires Invariant(s.queue)
    ensures Invariant(Dispatch(a, s, now, n).0.queue)
  {
    DispatchConserves(a, s, now, n);
    TailKeepsInvariant(Sent(a, s, now, n), Dispatch(a, s, now, n).0.queue);
  }
}
