/** The firmware's stamps and the queues they stand for run alike.

    Over any run of host commands and dispatches, as long as no live stamp grows half a wrap old, the
    stamped firmware hands back exactly the commands the queue machine does, and its bank goes on
    standing for the queues. The tick itself may wrap any number of times. */
module FirmwareRefines {
  import opened Words
  import opened Voices
  import opened Ages
  import opened Placement
  import opened Schedule
  import opened Simulation

  // ---------- how old the voices are ----------

  /** A command renews the stamp of the voice it starts or releases. */
  function Aged(b: SaneBank, h: History, c: Command): History {
    var v := Target(b, c);
    if b.Stamped? && |h.born| == VOICE_COUNT && IsNote(c) && v.Some? &&
       (c.opcode == OP_NOTE_ON || b.voices[v.value].phase == Sounding)
    then Later(h, v.value) else h
  }

  // ---------- one command ----------

  lemma TargetAgrees(b: SaneBank, h: History, q: SaneBank, c: Command)
    requires Represents(b, h, q) && Within(b, h, TWO31)
    ensures Target(b, c) == Target(q, c)
  {
    ChooseAgrees(b, h, q);
    FindAgrees(b, h, q, c.value);
  }

  lemma GoneAgrees(b: SaneBank, h: History, q: SaneBank, voice: nat)
    requires Represents(b, h, q) && voice < VOICE_COUNT
    ensures Represents(Gone(b, voice), if b.voices[voice].phase == Sounding then Later(h, voice) else h, Gone(q, voice))
  {
    if b.voices[voice].phase == Sounding {
      LetGoRepresents(b, h, q, voice);
    } else {
      LetGoOfOther(b, h, q, voice);
    }
  }

  /** One command is placed alike, and the pictures stay related. */
  lemma ApplyAgrees(b: SaneBank, h: History, q: SaneBank, c: Command)
    requires Represents(b, h, q) && Within(b, h, TWO31)
    ensures Apply(b, c).1 == Apply(q, c).1
    ensures Represents(Apply(b, c).0, Aged(b, h, c), Apply(q, c).0)
  {
    if IsNote(c) {
      TargetAgrees(b, h, q, c);
      NoteGoesToTarget(b, c);
      NoteGoesToTarget(q, c);
      var v := Target(b, c);
      if v.Some? && c.opcode == OP_NOTE_ON {
        TakeRepresents(b, h, q, c.value, v.value);
      } else if v.Some? {
        GoneAgrees(b, h, q, v.value);
      }
    } else {
      OtherLeavesBank(b, q, c);
      OtherLeavesBank(q, b, c);
    }
  }

  /** Each word pushed ages the voices by one tick at most. */
  lemma ApplyAges(b: SaneBank, h: History, c: Command, span: int)
    requires b.Stamped? && |h.born| == VOICE_COUNT && Within(b, h, span) && span > 0
    ensures Apply(b, c).0.Stamped?
    ensures Within(Apply(b, c).0, Aged(b, h, c), span + |Apply(b, c).1|)
  {
    if IsNote(c) {
      NoteGoesToTarget(b, c);
    } else {
      OtherLeavesBank(b, b, c);
    }
  }

  // ---------- whole runs ----------

  const WINDOW := TWO31 - CONTROL_MAX_OUT

  /** The stamps stand for the queues, and no live one is `span` ticks old. */
  ghost predicate StandsFor(b: SaneBank, h: History, q: SaneBank, span: int) {
    0 < span <= TWO31 && Represents(b, h, q) && Within(b, h, span)
  }

  /** The relation between the two banks once `k` words of a call have been pushed: each may be a tick. */
  ghost function StandsAfter(span: int): Relation<SaneBank, History, SaneBank> {
    (b: SaneBank, h: History, q: SaneBank, k: int) => StandsFor(b, h, q, span + k)
  }

  lemma StandsAfterIs(span: int, b: SaneBank, h: History, q: SaneBank, k: int)
    ensures StandsAfter(span)(b, h, q, k) <==> StandsFor(b, h, q, span + k)
  {
  }

  lemma CommandMatches(span: int, b: SaneBank, h: History, q: SaneBank, k: int, c: Command)
    requires span <= WINDOW && StandsFor(b, h, q, span + k) && k + VOICE_COUNT <= CONTROL_MAX_OUT
    ensures Matches(ByStamps(), ByQueues(), Aged, StandsAfter(span), b, h, q, k, c)
  {
    ApplyAgrees(b, h, q, c);
    ApplyAges(b, h, c, span + k);
    StandsAfterIs(span, Apply(b, c).0, Aged(b, h, c), Apply(q, c).0, k + |Apply(b, c).1|);
  }

  lemma StampsSimulateQueues(span: int)
    requires span <= WINDOW
    ensures Simulates(ByStamps(), ByQueues(), Aged, StandsAfter(span))
  {
    var rel := StandsAfter(span);
    forall b: SaneBank, h, q: SaneBank, k, c | rel(b, h, q, k) && k + VOICE_COUNT <= CONTROL_MAX_OUT
      ensures Matches(ByStamps(), ByQueues(), Aged, rel, b, h, q, k, c)
    {
      StandsAfterIs(span, b, h, q, k);
      CommandMatches(span, b, h, q, k, c);
    }
  }

  const POWER_ON := History(0, seq(VOICE_COUNT, _ => 0))

  lemma StartStandsAfter(span: int)
    requires 0 < span <= TWO31
    ensures StandsAfter(span)(ByStamps().empty, POWER_ON, ByQueues().empty, 0)
  {
    BlankRepresents();
    StandsAfterIs(span, Blank(), POWER_ON, SILENT, 0);
  }

  ghost function AgedBy(s: State<SaneBank>, h: History, op: Op): History {
    AgedByStep(ByStamps(), Aged, POWER_ON, s, h, op)
  }

  /** Stamps can be told apart throughout a run: before every step, no live stamp is (but for the
      sixteen words one call may push) half a wrap behind the tick. */
  ghost predicate StaysInWindow(s: State<SaneBank>, h: History, ops: seq<Op>)
    decreases |ops|
  {
    ops != [] ==>
      && s.bank.Stamped? && |h.born| == VOICE_COUNT && Within(s.bank, h, WINDOW)
      && StaysInWindow(Step(ByStamps(), s, ops[0]).0, AgedBy(s, h, ops[0]), ops[1..])
  }

  /** The stamped firmware and the queue machine push the same commands, whatever the run. */
  lemma {:induction false} RunAgrees(s: State<SaneBank>, h: History, m: State<SaneBank>, ops: seq<Op>)
    requires Represents(s.bank, h, m.bank) && m == s.(bank := m.bank) && StaysInWindow(s, h, ops)
    ensures Run(ByStamps(), s, ops).1 == Run(ByQueues(), m, ops).1
    decreases |ops|
  {
    if ops != [] {
      StampsSimulateQueues(WINDOW);
      StartStandsAfter(WINDOW);
      StandsAfterIs(WINDOW, s.bank, h, m.bank, 0);
      var t, h', u := Step(ByStamps(), s, ops[0]).0, AgedBy(s, h, ops[0]), Step(ByQueues(), m, ops[0]).0;
      var k := StepSimulates(ByStamps(), ByQueues(), Aged, POWER_ON, StandsAfter(WINDOW), s, h, m, ops[0]);
      StandsAfterIs(WINDOW, t.bank, h', u.bank, k);
      RunAgrees(t, h', u, ops[1..]);
    }
  }

  // ---------- how fast the stamps age ----------

  lemma AgedByOne(b: SaneBank, h: History, c: Command)
    ensures Aged(b, h, c).clock <= h.clock + 1
  {
  }

  /** A call moves the tick at most once for each event it takes: an idle call does not move it at all. */
  lemma {:induction false} DispatchAges(s: State<SaneBank>, h: History, now: u32, n: nat)
    ensures AgedByDispatch(ByStamps(), Aged, s, h, now, n).clock + |Dispatch(ByStamps(), s, now, n).0.queue|
         <= h.clock + |s.queue|
    decreases |s.queue|
  {
    if !Stops(s, now, n) {
      var (t, out) := Pop(ByStamps(), s, now);
      AgedByOne(s.bank, h, Head(s, now));
      DispatchUnfolds(ByStamps(), s, now, n);
      DispatchAges(t, Aged(s.bank, h, Head(s, now)), now, n + |out|);
    }
  }

  /** A command the firmware may sooner or later place. */
  function Counted(op: Op): nat { if op.Host? && op.command.opcode != OP_SCHEDULE_AT then 1 else 0 }

  /** Whatever moves the tick came from the host, one command for one tick. */
  lemma StepAges(s: State<SaneBank>, h: History, op: Op)
    ensures AgedBy(s, h, op).clock + |Step(ByStamps(), s, op).0.queue| <= h.clock + |s.queue| + Counted(op)
  {
    match op
    case Clock(now) => DispatchAges(s, h, now, 0);
    case Host(c) => AgedByOne(s.bank, h, c);
  }

  function Hosted(ops: seq<Op>): nat {
    if ops == [] then 0 else Counted(ops[0]) + Hosted(ops[1..])
  }

  /** While the tick itself has not gone half a wrap, no stamp is that old. */
  lemma YoungIsWithin(b: Bank, h: History, q: Bank)
    requires Represents(b, h, q) && h.clock < WINDOW
    ensures StandsFor(b, h, q, WINDOW)
  {
  }

  /** One step of the two machines, from banks still young. */
  lemma YoungStep(s: State<SaneBank>, h: History, m: State<SaneBank>, op: Op)
    requires Represents(s.bank, h, m.bank) && m == s.(bank := m.bank) && h.clock < WINDOW
    ensures var t, u := Step(ByStamps(), s, op).0, Step(ByQueues(), m, op).0;
      && Represents(t.bank, AgedBy(s, h, op), u.bank) && u == t.(bank := u.bank)
      && Step(ByStamps(), s, op).1 == Step(ByQueues(), m, op).1
  {
    YoungIsWithin(s.bank, h, m.bank);
    StampsSimulateQueues(WINDOW);
    StartStandsAfter(WINDOW);
    StandsAfterIs(WINDOW, s.bank, h, m.bank, 0);
    var t, u := Step(ByStamps(), s, op).0, Step(ByQueues(), m, op).0;
    var k := StepSimulates(ByStamps(), ByQueues(), Aged, POWER_ON, StandsAfter(WINDOW), s, h, m, op);
    StandsAfterIs(WINDOW, t.bank, AgedBy(s, h, op), u.bank, k);
  }

  /** A run with fewer than some two thousand million commands for the firmware to place stays in the
      window, however often the firmware is asked to dispatch and however long it lasts. */
  lemma {:induction false} FewCommandsStayInWindow(s: State<SaneBank>, h: History, m: State<SaneBank>, ops: seq<Op>)
    requires Represents(s.bank, h, m.bank) && m == s.(bank := m.bank)
    requires h.clock + |s.queue| + Hosted(ops) < WINDOW
    ensures StaysInWindow(s, h, ops)
    decreases |ops|
  {
    if ops != [] {
      YoungIsWithin(s.bank, h, m.bank);
      YoungStep(s, h, m, ops[0]);
      StepAges(s, h, ops[0]);
      FewCommandsStayInWindow(Step(ByStamps(), s, ops[0]).0, AgedBy(s, h, ops[0]), Step(ByQueues(), m, ops[0]).0, ops[1..]);
    }
  }

  /** From power-on the firmware simply is the queue machine until that many commands have come. */
  lemma FreshRunAgrees(ops: seq<Op>)
    requires Hosted(ops) < WINDOW
    ensures Run(ByStamps(), Start(ByStamps()), ops).1 == Run(ByQueues(), Start(ByQueues()), ops).1
  {
    BlankRepresents();
    var s, m := Start(ByStamps()), Start(ByQueues());
    FewCommandsStayInWindow(s, POWER_ON, m, ops);
    RunAgrees(s, POWER_ON, m, ops);
  }

  // ---------- and beyond it ----------

  const EARLIER := Command(OP_NOTE_ON, 1, 7, 0)
  const LATER := Command(OP_NOTE_ON, 0, 7, 0)
  const RELEASE := Command(OP_NOTE_OFF, VOICE_ANY, 7, 0)

  /** A note on voice 1, then one of the same step on voice 0, started `n` times over. */
  function Retriggered(n: nat): seq<Command> {
    if n == 0 then [EARLIER] else Retriggered(n - 1) + [LATER]
  }

  /** The bank after that: the stamps, and ... */
  function StampsAfter(n: nat): (b: SaneBank)
    ensures b.Stamped?
  {
    Stamped([if n == 0 then OFF else Voice(7, Sounding, Wrap(n)), EARLY, OFF, OFF, OFF, OFF, OFF, OFF], Wrap(n + 1))
  }

  /** ... the queues. */
  function QueuesAfter(n: nat): (b: SaneBank)
    ensures b.Queued?
  {
    if n == 0 then Queued([Entry(1, 7)], []) else Queued([Entry(1, 7), Entry(0, 7)], [])
  }

  lemma FirstIsStarted()
    ensures Apply(Blank(), EARLIER).0 == StampsAfter(0) && Apply(SILENT, EARLIER).0 == QueuesAfter(0)
  {
  }

  lemma StampsMoveOn(n: nat)
    ensures Apply(StampsAfter(n), LATER).0 == StampsAfter(n + 1)
  {
    WrapPlus(n + 1, 1);
  }

  lemma QueuesMoveOn(n: nat)
    ensures Apply(QueuesAfter(n), LATER).0 == QueuesAfter(n + 1)
  {
    var q := QueuesAfter(n).sounding;
    assert Without(q, 0) == [Entry(1, 7)];
  }

  lemma {:induction false} RetriggeredSteps<B>(a: Allocator<B>, blank: B, after: nat -> B, n: nat)
    requires a.place(blank, EARLIER).0 == after(0) && forall k: nat :: a.place(after(k), LATER).0 == after(k + 1)
    ensures PlayAll(a, blank, Retriggered(n)) == after(n)
  {
    var cs := Retriggered(n);
    if n == 0 {
      assert cs[..0] == [];
    } else {
      RetriggeredSteps(a, blank, after, n - 1);
      assert cs[..|cs| - 1] == Retriggered(n - 1);
    }
  }

  lemma RetriggeredStamps(n: nat)
    ensures PlayAll(ByStamps(), Blank(), Retriggered(n)) == StampsAfter(n)
  {
    FirstIsStarted();
    forall k: nat
      ensures ByStamps().place(StampsAfter(k), LATER).0 == StampsAfter(k + 1)
    {
      StampsMoveOn(k);
    }
    RetriggeredSteps(ByStamps(), Blank(), StampsAfter, n);
  }

  lemma RetriggeredQueues(n: nat)
    ensures PlayAll(ByQueues(), SILENT, Retriggered(n)) == QueuesAfter(n)
  {
    FirstIsStarted();
    forall k: nat
      ensures ByQueues().place(QueuesAfter(k), LATER).0 == QueuesAfter(k + 1)
    {
      QueuesMoveOn(k);
    }
    RetriggeredSteps(ByQueues(), SILENT, QueuesAfter, n);
  }

  lemma ReleaseFinds(b: SaneBank)
    requires Find(b, 7).Some?
    ensures Apply(b, RELEASE).1 == [RELEASE.(voice := 1)] <==> Find(b, 7) == Some(1)
  {
  }

  lemma QueuesReleaseFirst(n: nat)
    ensures Find(QueuesAfter(n), 7) == Some(1)
  {
  }

  lemma StampsReleaseFirstIff(n: nat)
    requires 0 < n < TWO32
    ensures Find(StampsAfter(n), 7).Some? && (Find(StampsAfter(n), 7) == Some(1) <==> n <= TWO31)
  {
    var vs := StampsAfter(n).voices;
    assert forall i :: 0 <= i < |vs| ==> (Wanted(vs[i], Sounding, Some(7)) <==> i == 0 || i == 1);
    OldestOfTwo(vs, 7, 0, 1, VOICE_COUNT);
    GapIsDistance(0, n);
  }

  /** From a blank bank, by commands alone: the note on voice 1 is the one to release, and the firmware releases
      it exactly when voice 0 has been started no more than half a wrap of times since. */
  lemma RightReleaseIff(n: nat)
    requires 0 < n < TWO32
    ensures Apply(PlayAll(ByQueues(), SILENT, Retriggered(n)), RELEASE).1 == [RELEASE.(voice := 1)]
    ensures Apply(PlayAll(ByStamps(), Blank(), Retriggered(n)), RELEASE).1 == [RELEASE.(voice := 1)] <==> n <= TWO31
  {
    RetriggeredStamps(n);
    RetriggeredQueues(n);
    QueuesReleaseFirst(n);
    StampsReleaseFirstIff(n);
    ReleaseFinds(QueuesAfter(n));
    ReleaseFinds(StampsAfter(n));
  }

  lemma SkewedIsOne(n: nat)
    requires n == TWO31 + 1
    ensures StampsAfter(n) == SKEWED && QueuesAfter(n) == SKEWED_QUEUES
  {
    assert Wrap(n) == n && Wrap(n + 1) == n + 1;
  }

  /** The bank in which the stamps name the wrong voice is one of these. */
  lemma SkewedIsReached(n: nat)
    requires n == TWO31 + 1
    ensures PlayAll(ByStamps(), Blank(), Retriggered(n)) == SKEWED && PlayAll(ByQueues(), SILENT, Retriggered(n)) == SKEWED_QUEUES
  {
    RetriggeredStamps(n);
    RetriggeredQueues(n);
    SkewedIsOne(n);
  }
}
