/** The engine's command scheduler: relative delays turned back into samples.

    A command is fetched on a sample strobe and applied as many strobes later as its delay says, at
    least one; the next is fetched on the strobe that applies it, or on the first strobe after that at
    which the FIFO has one to give. */
module Engine {
  import opened Words

  /** The scheduler's registers. */
  datatype Registers = Registers(holding: Command, delay: nat, valid: bool)

  /** What the delay counter starts from: the fetching strobe is the first of the delay. */
  function Load(c: Command): nat { if c.delay == 0 then 0 else c.delay - 1 }

  /** A strobe on which the slot is free, or becomes free. */
  predicate Takes(r: Registers) { !r.valid || r.delay == 0 }

  /** One strobe, `head` being the FIFO's head if it shows one: the registers after it. */
  function Strobe(r: Registers, head: Option<Command>): Registers {
    if !Takes(r) then r.(delay := r.delay - 1)
    else if head.Some? then Registers(head.value, Load(head.value), true)
    else r.(valid := false)
  }

  class CommandScheduler {
    var holding: Command
    var delay: nat
    var valid: bool
    var apply: bool        // high the clock after the strobe that applies `command`
    var command: Command

    ghost function State(): Registers
      reads this
    {
      Registers(holding, delay, valid)
    }

    constructor ()
      ensures State() == IDLE && !apply
    {
      holding, command := Command(0, 0, 0, 0), Command(0, 0, 0, 0);
      delay, valid, apply := 0, false, false;
    }

    /** One clock. The FIFO's head is popped on the very strobe that fetches it. */
    method Clock(strobe: bool, empty: bool, data: Command) returns (pop: bool)
      modifies this
      ensures State() == if strobe then Strobe(old(State()), if empty then None else Some(data)) else old(State())
      ensures apply <==> strobe && old(valid && delay == 0)
      ensures apply ==> command == old(holding)
      ensures pop <==> strobe && !empty && old(Takes(State()))
    {
      pop := strobe && !empty && (!valid || delay == 0);
      apply := false;
      if strobe {
        if valid && delay != 0 {
          delay := delay - 1;
        } else {
          if valid {
            apply, command, valid := true, holding, false;
          }
          if !empty {
            holding := data;
            delay := if data.delay == 0 then 0 else data.delay - 1;
            valid := true;
          }
        }
      }
    }
  }

  // ---------- when commands are applied ----------

  /** A command applied on a strobe. */
  datatype Applied = Applied(at: nat, command: Command)

  function Cost(c: Command): nat { if c.delay == 0 then 1 else c.delay }

  /** The commands a FIFO gives, each with the strobe from which it can be seen. */
  datatype Supply = Supply(command: Command, from: nat)

  function Showing(fifo: seq<Supply>, at: nat): Option<Command> {
    if fifo != [] && fifo[0].from <= at then Some(fifo[0].command) else None
  }

  /** What the scheduler applies on the `n` strobes from `at`. */
  function Run(r: Registers, fifo: seq<Supply>, at: nat, n: nat): seq<Applied>
    decreases n
  {
    if n == 0 then []
    else
      var head := Showing(fifo, at);
      var rest := if Takes(r) && head.Some? then fifo[1..] else fifo;
      (if r.valid && r.delay == 0 then [Applied(at, r.holding)] else []) + Run(Strobe(r, head), rest, at + 1, n - 1)
  }

  /** The law: each command is fetched when the one before it is applied or when it can first be seen,
      whichever is later, and applied its cost after that. */
  function Law(fifo: seq<Supply>, free: nat): seq<Applied> {
    if fifo == [] then []
    else
      var at := Max(free, fifo[0].from) + Cost(fifo[0].command);
      [Applied(at, fifo[0].command)] + Law(fifo[1..], at)
  }

  /** What falls before a strobe. */
  function Before(log: seq<Applied>, end: nat): seq<Applied> {
    if log == [] || log[0].at >= end then [] else [log[0]] + Before(log[1..], end)
  }

  /** What remains for a scheduler in any state: the command it holds, then the law. */
  function Pending(r: Registers, fifo: seq<Supply>, at: nat): seq<Applied> {
    if r.valid then [Applied(at + r.delay, r.holding)] + Law(fifo, at + r.delay) else Law(fifo, at)
  }

  lemma LawLater(fifo: seq<Supply>, at: nat)
    requires Showing(fifo, at).None?
    ensures Law(fifo, at) == Law(fifo, at + 1)
  {
  }

  /** One strobe turns what is pending into what is applied now and what is pending after. */
  lemma StrobeFollowsLaw(r: Registers, fifo: seq<Supply>, at: nat)
    ensures var head := Showing(fifo, at);
      var rest := if Takes(r) && head.Some? then fifo[1..] else fifo;
      Pending(r, fifo, at) ==
        (if r.valid && r.delay == 0 then [Applied(at, r.holding)] else []) + Pending(Strobe(r, head), rest, at + 1)
  {
    if Takes(r) {
      var head := Showing(fifo, at);
      if head.None? { LawLater(fifo, at); }
    }
  }

  /** Whatever the arrivals, the scheduler applies exactly the commands the law says, when it says. */
  lemma {:induction false} RunFollowsLaw(r: Registers, fifo: seq<Supply>, at: nat, n: nat)
    ensures Run(r, fifo, at, n) == Before(Pending(r, fifo, at), at + n)
    decreases n
  {
    if n == 0 {
    } else {
      var head := Showing(fifo, at);
      var rest := if Takes(r) && head.Some? then fifo[1..] else fifo;
      var next := Pending(Strobe(r, head), rest, at + 1);
      StrobeFollowsLaw(r, fifo, at);
      RunFollowsLaw(Strobe(r, head), rest, at + 1, n - 1);
      if r.valid && r.delay == 0 {
        assert Pending(r, fifo, at)[1..] == next;
      } else {
        assert [] + next == next;
      }
    }
  }

  // ---------- strobe after strobe ----------

  /** A scheduler some strobes after power-on: its registers, how many commands it has fetched, and what it has
      applied. */
  datatype Progress = Progress(registers: Registers, fetched: nat, applied: seq<Applied>)

  const IDLE := Registers(Command(0, 0, 0, 0), 0, false)

  /** The command it would fetch on strobe `at`. */
  function Offered(p: Progress, fifo: seq<Supply>, at: nat): Option<Command> {
    if p.fetched < |fifo| then Showing(fifo[p.fetched..], at) else None
  }

  function Onward(p: Progress, head: Option<Command>, at: nat): Progress {
    Progress(Strobe(p.registers, head), p.fetched + (if Takes(p.registers) && head.Some? then 1 else 0),
             p.applied + if p.registers.valid && p.registers.delay == 0 then [Applied(at, p.registers.holding)] else [])
  }

  function After(fifo: seq<Supply>, n: nat): (p: Progress)
    ensures p.fetched <= |fifo|
  {
    if n == 0 then Progress(IDLE, 0, [])
    else
      var p := After(fifo, n - 1);
      Onward(p, Offered(p, fifo, n - 1), n - 1)
  }

  /** One strobe of a run from any point on. */
  lemma OnwardRuns(p: Progress, fifo: seq<Supply>, at: nat, n: nat)
    requires p.fetched <= |fifo|
    ensures var q := Onward(p, Offered(p, fifo, at), at);
      q.fetched <= |fifo| &&
      p.applied + Run(p.registers, fifo[p.fetched..], at, n + 1) == q.applied + Run(q.registers, fifo[q.fetched..], at + 1, n)
  {
    var head := Offered(p, fifo, at);
    var q := Onward(p, head, at);
    var now := if p.registers.valid && p.registers.delay == 0 then [Applied(at, p.registers.holding)] else [];
    assert Showing(fifo[p.fetched..], at) == head;
    if p.fetched < q.fetched {
      assert fifo[p.fetched..][1..] == fifo[q.fetched..];
    }
    Associate(p.applied, now, Run(q.registers, fifo[q.fetched..], at + 1, n));
  }

  /** Such a run is the run from the front. */
  lemma {:induction false} AfterRuns(fifo: seq<Supply>, m: nat, n: nat)
    ensures var p := After(fifo, m);
      Run(IDLE, fifo, 0, m + n) == p.applied + Run(p.registers, fifo[p.fetched..], m, n)
    decreases m
  {
    if m == 0 {
      assert fifo[0..] == fifo;
      NothingFirst(Run(IDLE, fifo, 0, n));
    } else {
      AfterRuns(fifo, m - 1, n + 1);
      OnwardRuns(After(fifo, m - 1), fifo, m - 1, n);
    }
  }

  /** So what it has applied by strobe `n` is what the law says falls before it. */
  lemma AfterFollowsLaw(fifo: seq<Supply>, n: nat)
    ensures After(fifo, n).applied == Before(Law(fifo, 0), n)
  {
    var p := After(fifo, n);
    AfterRuns(fifo, n, 0);
    assert p.applied + [] == p.applied;
    RunFollowsLaw(IDLE, fifo, 0, n);
  }

  /** What can only be seen later makes no difference yet. */
  lemma {:induction false} LaterUnseen(fifo: seq<Supply>, more: seq<Supply>, n: nat)
    requires forall i :: 0 <= i < |more| ==> more[i].from >= n
    ensures After(fifo + more, n) == After(fifo, n)
    decreases n
  {
    if n > 0 {
      LaterUnseen(fifo, more, n - 1);
      var k := After(fifo, n - 1).fetched;
      if k < |fifo| {
        assert (fifo + more)[k..][0] == fifo[k..][0];
      } else if k < |fifo + more| {
        assert (fifo + more)[k..][0] == more[0];
      }
    }
  }

  // ---------- a batch kept supplied ----------

  function Sum(cs: seq<Command>): nat {
    if cs == [] then 0 else Sum(cs[..|cs| - 1]) + cs[|cs| - 1].delay
  }

  function Costs(cs: seq<Command>): nat {
    if cs == [] then 0 else Costs(cs[..|cs| - 1]) + Cost(cs[|cs| - 1])
  }

  function Zeros(cs: seq<Command>): nat {
    if cs == [] then 0 else Zeros(cs[..|cs| - 1]) + if cs[|cs| - 1].delay == 0 then 1 else 0
  }

  lemma {:induction false} CostsAreSumAndZeros(cs: seq<Command>)
    ensures Costs(cs) == Sum(cs) + Zeros(cs)
  {
    if cs != [] { CostsAreSumAndZeros(cs[..|cs| - 1]); }
  }

  lemma {:induction false} CostsFirst(c: Command, cs: seq<Command>)
    ensures Costs([c] + cs) == Cost(c) + Costs(cs)
  {
    if cs == [] {
      assert [c] + cs == [c] && [c][..0] == [];
    } else {
      assert ([c] + cs)[..|cs|] == [c] + cs[..|cs| - 1];
      CostsFirst(c, cs[..|cs| - 1]);
    }
  }

  function CommandsOf(fifo: seq<Supply>): (cs: seq<Command>)
    ensures |cs| == |fifo| && forall i :: 0 <= i < |fifo| ==> cs[i] == fifo[i].command
  {
    seq(|fifo|, i requires 0 <= i < |fifo| => fifo[i].command)
  }

  /** What the first `j` commands cost. */
  function CostTo(fifo: seq<Supply>, j: nat): nat
    requires j <= |fifo|
  {
    Costs(CommandsOf(fifo[..j]))
  }

  /** Each command can be seen by the time the one before it is applied. */
  predicate KeptSupplied(fifo: seq<Supply>, start: nat) {
    forall i :: 0 <= i < |fifo| ==> fifo[i].from <= start + CostTo(fifo, i)
  }

  lemma CostOfNone(fifo: seq<Supply>)
    ensures CostTo(fifo, 0) == 0
  {
    assert CommandsOf(fifo[..0]) == [];
  }

  lemma CostOfMore(fifo: seq<Supply>, j: nat)
    requires j < |fifo|
    ensures CostTo(fifo, j + 1) == Cost(fifo[0].command) + CostTo(fifo[1..], j)
  {
    assert CommandsOf(fifo[..j + 1]) == [fifo[0].command] + CommandsOf(fifo[1..][..j]);
    CostsFirst(fifo[0].command, CommandsOf(fifo[1..][..j]));
  }

  lemma RestKeptSupplied(fifo: seq<Supply>, start: nat)
    requires KeptSupplied(fifo, start) && fifo != []
    ensures fifo[0].from <= start
    ensures KeptSupplied(fifo[1..], start + Cost(fifo[0].command))
  {
    CostOfNone(fifo);
    forall i | 0 <= i < |fifo[1..]|
      ensures fifo[1..][i].from <= start + Cost(fifo[0].command) + CostTo(fifo[1..], i)
    {
      CostOfMore(fifo, i);
      assert fifo[i + 1].from <= start + CostTo(fifo, i + 1);
    }
  }

  lemma {:induction false} LawLength(fifo: seq<Supply>, free: nat)
    ensures |Law(fifo, free)| == |fifo|
    decreases |fifo|
  {
    if fifo != [] {
      LawLength(fifo[1..], Max(free, fifo[0].from) + Cost(fifo[0].command));
    }
  }

  lemma LawOfFirst(fifo: seq<Supply>, start: nat)
    requires fifo != [] && fifo[0].from <= start
    ensures var at := start + Cost(fifo[0].command); Law(fifo, start) == [Applied(at, fifo[0].command)] + Law(fifo[1..], at)
  {
  }

  lemma LawAfter(fifo: seq<Supply>, start: nat, j: nat)
    requires 0 < j < |fifo| && fifo[0].from <= start && |Law(fifo, start)| == |fifo|
    ensures var rest := Law(fifo[1..], start + Cost(fifo[0].command)); j <= |rest| && Law(fifo, start)[j] == rest[j - 1]
  {
    LawOfFirst(fifo, start);
  }

  /** A batch first fetched at `start` and kept supplied is applied at the running sums of its costs. */
  lemma {:induction false} SuppliedBatch(fifo: seq<Supply>, start: nat, j: nat)
    requires KeptSupplied(fifo, start) && j < |fifo|
    ensures |Law(fifo, start)| == |fifo|
    ensures Law(fifo, start)[j] == Applied(start + CostTo(fifo, j + 1), fifo[j].command)
    decreases |fifo|
  {
    var at := start + Cost(fifo[0].command);
    LawLength(fifo, start);
    RestKeptSupplied(fifo, start);
    CostOfMore(fifo, j);
    if j == 0 {
      LawOfFirst(fifo, start);
      CostOfNone(fifo[1..]);
    } else {
      SuppliedBatch(fifo[1..], at, j - 1);
      LawAfter(fifo, start, j);
    }
  }

  /** Never early, and late by one sample for every zero delay so far. */
  lemma Lateness(fifo: seq<Supply>, start: nat, j: nat)
    requires KeptSupplied(fifo, start) && j < |fifo|
    ensures |Law(fifo, start)| == |fifo|
    ensures Law(fifo, start)[j].at == start + Sum(CommandsOf(fifo[..j + 1])) + Zeros(CommandsOf(fifo[..j + 1]))
  {
    SuppliedBatch(fifo, start, j);
    CostsAreSumAndZeros(CommandsOf(fifo[..j + 1]));
  }
}
