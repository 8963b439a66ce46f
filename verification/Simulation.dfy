/** Two schedules over related allocators run alike.

    `rel(b, h, q, k)` relates two banks through what only the proof knows about them, `h`, when `k` of
    the words one call may push have been pushed. If placing one command keeps the relation and pushes
    the same words, so does everything the schedule does with it. */
module Simulation {
  import opened Words
  import opened Schedule

  type Relation<!B, !H, !Q> = (B, H, Q, int) -> bool

  ghost predicate Simulates<B(!new), H(!new), Q(!new)>(
    a: Allocator<B>, b: Allocator<Q>, age: (B, H, Command) -> H, rel: Relation<B, H, Q>)
  {
    forall x, h, y, k, c :: rel(x, h, y, k) && k + VOICE_COUNT <= CONTROL_MAX_OUT ==>
      Matches(a, b, age, rel, x, h, y, k, c)
  }

  ghost predicate Matches<B, H, Q>(
    a: Allocator<B>, b: Allocator<Q>, age: (B, H, Command) -> H, rel: Relation<B, H, Q>, x: B, h: H, y: Q, k: int, c: Command)
  {
    && a.place(x, c).1 == b.place(y, c).1
    && |a.place(x, c).1| <= VOICE_COUNT
    && rel(a.place(x, c).0, age(x, h, c), b.place(y, c).0, k + |a.place(x, c).1|)
  }

  /** The schedules are the same but for the banks, and the banks are related. */
  ghost predicate Alike<B, H, Q>(rel: Relation<B, H, Q>, s: State<B>, h: H, m: State<Q>, k: int) {
    && rel(s.bank, h, m.bank, k)
    && s.queue == m.queue && s.anchor == m.anchor && s.anchored == m.anchored
    && s.chain == m.chain && s.chained == m.chained
  }

  ghost function AgedByDispatch<B, H>(a: Allocator<B>, age: (B, H, Command) -> H, s: State<B>, h: H, now: u32, n: nat): H
    decreases |s.queue|
  {
    if Stops(s, now, n) then h
    else
      var (t, out) := Pop(a, s, now);
      AgedByDispatch(a, age, t, age(s.bank, h, Head(s, now)), now, n + |out|)
  }

  lemma PopSimulates<B(!new), H(!new), Q(!new)>(
    a: Allocator<B>, b: Allocator<Q>, age: (B, H, Command) -> H, rel: Relation<B, H, Q>,
    s: State<B>, h: H, m: State<Q>, now: u32, n: nat)
    requires Simulates(a, b, age, rel) && Alike(rel, s, h, m, n) && n + VOICE_COUNT <= CONTROL_MAX_OUT && s.queue != []
    ensures Pop(a, s, now).1 == Pop(b, m, now).1 && |Pop(a, s, now).1| <= VOICE_COUNT
    ensures Alike(rel, Pop(a, s, now).0, age(s.bank, h, Head(s, now)), Pop(b, m, now).0, n + |Pop(a, s, now).1|)
  {
    assert Matches(a, b, age, rel, s.bank, h, m.bank, n, Head(s, now));
  }

  lemma {:induction false} DispatchSimulates<B(!new), H(!new), Q(!new)>(
    a: Allocator<B>, b: Allocator<Q>, age: (B, H, Command) -> H, rel: Relation<B, H, Q>,
    s: State<B>, h: H, m: State<Q>, now: u32, n: nat) returns (k: nat)
    requires Simulates(a, b, age, rel) && Alike(rel, s, h, m, n) && n <= CONTROL_MAX_OUT
    ensures k <= CONTROL_MAX_OUT
    ensures Dispatch(a, s, now, n).1 == Dispatch(b, m, now, n).1
    ensures Alike(rel, Dispatch(a, s, now, n).0, AgedByDispatch(a, age, s, h, now, n), Dispatch(b, m, now, n).0, k)
    decreases |s.queue|
  {
    k := n;
    if !Stops(s, now, n) {
      PopSimulates(a, b, age, rel, s, h, m, now, n);
      DispatchUnfolds(a, s, now, n);
      DispatchUnfolds(b, m, now, n);
      var (t, out) := Pop(a, s, now);
      var h' := age(s.bank, h, Head(s, now));
      assert AgedByDispatch(a, age, s, h, now, n) == AgedByDispatch(a, age, t, h', now, n + |out|);
      k := DispatchSimulates(a, b, age, rel, t, h', Pop(b, m, now).0, now, n + |out|);
    }
  }

  /** Related banks place the same commands in a call. */
  lemma {:induction false} PlacedSimulates<B(!new), H(!new), Q(!new)>(
    a: Allocator<B>, b: Allocator<Q>, age: (B, H, Command) -> H, rel: Relation<B, H, Q>,
    s: State<B>, h: H, m: State<Q>, now: u32, n: nat)
    requires Simulates(a, b, age, rel) && Alike(rel, s, h, m, n) && n <= CONTROL_MAX_OUT
    ensures Placed(a, s, now, n) == Placed(b, m, now, n)
    decreases |s.queue|
  {
    if !Stops(s, now, n) {
      PopSimulates(a, b, age, rel, s, h, m, now, n);
      var (t, out) := Pop(a, s, now);
      PlacedSimulates(a, b, age, rel, t, age(s.bank, h, Head(s, now)), Pop(b, m, now).0, now, n + |out|);
    }
  }

  /** What the main loop does: hand over a command, or hand over the time. */
  datatype Op = Host(command: Command) | Clock(now: u32)

  function Step<B>(a: Allocator<B>, s: State<B>, op: Op): (State<B>, seq<Command>) {
    match op
    case Host(c) => Receive(a, s, c)
    case Clock(now) => Dispatch(a, s, now, 0)
  }

  /** A run of the firmware and everything it pushes. */
  function Run<B>(a: Allocator<B>, s: State<B>, ops: seq<Op>): (State<B>, seq<Command>)
    decreases |ops|
  {
    if ops == [] then (s, [])
    else
      var (t, out) := Step(a, s, ops[0]);
      var (u, rest) := Run(a, t, ops[1..]);
      (u, out + rest)
  }

  ghost function AgedByStep<B, H>(a: Allocator<B>, age: (B, H, Command) -> H, fresh0: H, s: State<B>, h: H, op: Op): H {
    match op
    case Clock(now) => AgedByDispatch(a, age, s, h, now, 0)
    case Host(c) =>
      if c.opcode == OP_SCHEDULE_AT || c.opcode == OP_CLEAR_SCHEDULE then h
      else if c.opcode == OP_RESET then fresh0
      else if s.anchored then h
      else age(s.bank, h, c)
  }

  lemma StepSimulates<B(!new), H(!new), Q(!new)>(
    a: Allocator<B>, b: Allocator<Q>, age: (B, H, Command) -> H, fresh0: H, rel: Relation<B, H, Q>,
    s: State<B>, h: H, m: State<Q>, op: Op) returns (k: nat)
    requires Simulates(a, b, age, rel) && rel(a.empty, fresh0, b.empty, 0) && Alike(rel, s, h, m, 0)
    ensures k <= CONTROL_MAX_OUT
    ensures Step(a, s, op).1 == Step(b, m, op).1
    ensures Alike(rel, Step(a, s, op).0, AgedByStep(a, age, fresh0, s, h, op), Step(b, m, op).0, k)
  {
    match op
    case Clock(now) => k := DispatchSimulates(a, b, age, rel, s, h, m, now, 0);
    case Host(c) =>
      assert Matches(a, b, age, rel, s.bank, h, m.bank, 0, c);
      k := if c.opcode == OP_SCHEDULE_AT || c.opcode == OP_CLEAR_SCHEDULE || c.opcode == OP_RESET || s.anchored then 0
           else |a.place(s.bank, c).1|;
  }
}
