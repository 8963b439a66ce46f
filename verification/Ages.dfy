/** The stamps stand for the queues.

    Stamps are 32-bit and wrap, so the proof carries what the firmware cannot: the true, unbounded
    tick and the true tick of each voice's last change. As long as no live voice is half a wrap old,
    comparing stamps compares ages and every choice the firmware makes is the one the queues make. */
module Ages {
  import opened Words
  import opened Voices

  /** The tick and the births, had they never wrapped. */
  datatype History = History(clock: nat, born: seq<int>)

  /** Oldest first. */
  ghost predicate InOrder(q: seq<Entry>, born: seq<int>) {
    forall i, j :: 0 <= i < j < |q| && q[i].voice < |born| && q[j].voice < |born| ==>
      born[q[i].voice] < born[q[j].voice]
  }

  /** Every entry is a voice in `phase` playing that step, and ... */
  ghost predicate Sound(q: seq<Entry>, vs: seq<Voice>, phase: Phase) {
    forall e :: e in q ==> e.voice < |vs| && vs[e.voice].phase == phase && vs[e.voice].step == e.step
  }

  /** ... every voice in `phase` has an entry. */
  ghost predicate Complete(q: seq<Entry>, vs: seq<Voice>, phase: Phase) {
    forall v :: 0 <= v < |vs| && vs[v].phase == phase ==> Holds(q, v)
  }

  ghost predicate Lists(q: seq<Entry>, vs: seq<Voice>, born: seq<int>, phase: Phase) {
    Sound(q, vs, phase) && Complete(q, vs, phase) && InOrder(q, born)
  }

  /** Every live stamp is the wrapped birth of its voice, and births are in the past. */
  ghost predicate Stamps(vs: seq<Voice>, h: History) {
    && |vs| == |h.born| == VOICE_COUNT
    && forall v :: 0 <= v < VOICE_COUNT && vs[v].phase != Idle ==>
         0 <= h.born[v] < h.clock && vs[v].stamp == Wrap(h.born[v])
  }

  ghost predicate Represents(b: Bank, h: History, q: Bank) {
    && b.Stamped? && q.Queued? && b.Proper()
    && b.tick == Wrap(h.clock)
    && Stamps(b.voices, h)
    && Lists(q.sounding, b.voices, h.born, Sounding)
    && Lists(q.releasing, b.voices, h.born, Releasing)
  }

  /** No live voice is `span` or more ticks old. */
  ghost predicate Within(b: Bank, h: History, span: int)
    requires b.Stamped? && |b.voices| == |h.born|
  {
    forall v :: 0 <= v < |b.voices| && b.voices[v].phase != Idle ==> h.clock - h.born[v] < span
  }

  /** The history after the voices change at the tick: `voice` is reborn. */
  function Later(h: History, voice: nat): History
    requires voice < |h.born|
  {
    History(h.clock + 1, h.born[voice := h.clock])
  }

  lemma BlankRepresents()
    ensures Represents(Blank(), History(0, seq(VOICE_COUNT, _ => 0)), SILENT)
  {
  }

  lemma OrderIsDistinct(q: seq<Entry>, vs: seq<Voice>, born: seq<int>, phase: Phase)
    requires |vs| == |born| && Sound(q, vs, phase) && InOrder(q, born)
    ensures Distinct(q)
  {
    forall i, j | 0 <= i < j < |q|
      ensures q[i].voice != q[j].voice
    {
      assert q[i] in q && q[j] in q;
    }
  }

  lemma HeldInPhase(q: seq<Entry>, vs: seq<Voice>, phase: Phase)
    requires Sound(q, vs, phase)
    ensures forall v: nat :: Holds(q, v) ==> v < |vs| && vs[v].phase == phase
  {
    forall v: nat | Holds(q, v)
      ensures v < |vs| && vs[v].phase == phase
    {
      var i :| 0 <= i < |q| && q[i].voice == v;
      assert q[i] in q;
    }
  }

  lemma RepresentedIsWellFormed(b: Bank, h: History, q: Bank)
    requires Represents(b, h, q)
    ensures WellFormed(q)
    ensures forall v :: 0 <= v < VOICE_COUNT ==> (IsIdle(b, v) <==> IsIdle(q, v))
    ensures forall v :: 0 <= v < VOICE_COUNT ==> (b.voices[v].phase == Sounding <==> Holds(q.sounding, v))
  {
    OrderIsDistinct(q.sounding, b.voices, h.born, Sounding);
    OrderIsDistinct(q.releasing, b.voices, h.born, Releasing);
    HeldInPhase(q.sounding, b.voices, Sounding);
    HeldInPhase(q.releasing, b.voices, Releasing);
    assert forall i :: 0 <= i < |q.sounding| ==> q.sounding[i] in q.sounding;
    assert forall i :: 0 <= i < |q.releasing| ==> q.releasing[i] in q.releasing;
  }

  // ---------- the operations keep the two pictures together ----------

  lemma RemovalKeepsOrder(q: seq<Entry>, born: seq<int>, voice: nat, now: int)
    requires InOrder(q, born) && Distinct(q) && voice < |born|
    ensures InOrder(Without(q, voice), born[voice := now])
  {
    var p, w := Position(q, voice), Without(q, voice);
    forall i, j | 0 <= i < j < |w| && w[i].voice < |born| && w[j].voice < |born|
      ensures born[voice := now][w[i].voice] < born[voice := now][w[j].voice]
    {
      var i', j' := if i < p then i else i + 1, if j < p then j else j + 1;
      assert w[i] == q[i'] && w[j] == q[j'];
      assert q[i'].voice != voice && q[j'].voice != voice;
    }
  }

  /** A voice that leaves `phase` is the only one its queue loses. */
  lemma RemovalKeepsSound(q: seq<Entry>, vs: seq<Voice>, phase: Phase, voice: nat, v': Voice)
    requires voice < |vs| && Distinct(q) && Sound(q, vs, phase)
    ensures Sound(Without(q, voice), vs[voice := v'], phase)
  {
    WithoutElements(q, voice);
  }

  lemma RemovalKeepsComplete(q: seq<Entry>, vs: seq<Voice>, phase: Phase, voice: nat, v': Voice)
    requires voice < |vs| && Complete(q, vs, phase) && v'.phase != phase
    ensures Complete(Without(q, voice), vs[voice := v'], phase)
  {
    OthersHeld(q, voice);
  }

  lemma RemovedFromList(q: seq<Entry>, vs: seq<Voice>, born: seq<int>, phase: Phase, voice: nat, v': Voice, now: int)
    requires |vs| == |born| && voice < |vs|
    requires Lists(q, vs, born, phase) && v'.phase != phase
    ensures Lists(Without(q, voice), vs[voice := v'], born[voice := now], phase)
  {
    OrderIsDistinct(q, vs, born, phase);
    RemovalKeepsOrder(q, born, voice, now);
    RemovalKeepsSound(q, vs, phase, voice, v');
    RemovalKeepsComplete(q, vs, phase, voice, v');
  }

  lemma AppendKeepsOrder(q: seq<Entry>, born: seq<int>, e: Entry, now: int)
    requires InOrder(q, born) && Distinct(q) && e.voice < |born|
    requires forall x :: x in q && x.voice < |born| ==> born[x.voice] < now
    ensures InOrder(Without(q, e.voice) + [e], born[e.voice := now])
  {
    RemovalKeepsOrder(q, born, e.voice, now);
    WithoutElements(q, e.voice);
    var w := Without(q, e.voice);
    forall i | 0 <= i < |w| && w[i].voice < |born|
      ensures born[e.voice := now][w[i].voice] < now
    {
      assert w[i] in w;
    }
  }

  lemma AppendKeepsComplete(q: seq<Entry>, vs: seq<Voice>, phase: Phase, voice: nat, v': Voice)
    requires Complete(q, vs, phase) && voice < |vs|
    ensures Complete(Without(q, voice) + [Entry(voice, v'.step)], vs[voice := v'], phase)
  {
    OthersHeld(q, voice);
    HoldsAppended(Without(q, voice), Entry(voice, v'.step));
  }

  lemma AppendKeepsSound(q: seq<Entry>, vs: seq<Voice>, phase: Phase, voice: nat, v': Voice)
    requires Sound(q, vs, phase) && Distinct(q) && voice < |vs| && v'.phase == phase
    ensures Sound(Without(q, voice) + [Entry(voice, v'.step)], vs[voice := v'], phase)
  {
    WithoutElements(q, voice);
  }

  /** A voice that enters `phase` now joins the young end of its queue. */
  lemma AppendedToList(q: seq<Entry>, vs: seq<Voice>, born: seq<int>, phase: Phase, voice: nat, v': Voice, now: int)
    requires |vs| == |born| && voice < |vs|
    requires Lists(q, vs, born, phase) && v'.phase == phase
    requires forall v :: 0 <= v < |vs| && vs[v].phase == phase ==> born[v] < now
    ensures Lists(Without(q, voice) + [Entry(voice, v'.step)], vs[voice := v'], born[voice := now], phase)
  {
    var e := Entry(voice, v'.step);
    OrderIsDistinct(q, vs, born, phase);
    AppendKeepsSound(q, vs, phase, voice, v');
    AppendKeepsComplete(q, vs, phase, voice, v');
    AppendKeepsOrder(q, born, e, now);
  }

  lemma StampedNow(vs: seq<Voice>, h: History, voice: nat, v': Voice)
    requires Stamps(vs, h) && voice < VOICE_COUNT && v'.stamp == Wrap(h.clock)
    ensures Stamps(vs[voice := v'], Later(h, voice))
  {
  }

  /** What it takes for a bank after a change at the tick to stand for two queues. */
  lemma ChangeRelates(b: Bank, h: History, vs: seq<Voice>, voice: nat, sounding: seq<Entry>, releasing: seq<Entry>)
    requires b.Stamped? && b.tick == Wrap(h.clock) && |h.born| == VOICE_COUNT && voice < VOICE_COUNT
    requires Stamps(vs, Later(h, voice))
    requires Lists(sounding, vs, Later(h, voice).born, Sounding) && Lists(releasing, vs, Later(h, voice).born, Releasing)
    ensures Represents(Stamped(vs, Plus(b.tick, 1)), Later(h, voice), Queued(sounding, releasing))
  {
    WrapPlus(h.clock, 1);
  }

  lemma TakenRelates(b: Bank, h: History, q: Bank, voice: nat, v': Voice)
    requires Represents(b, h, q) && voice < VOICE_COUNT && v'.phase == Sounding && v'.stamp == b.tick
    ensures Represents(Stamped(b.voices[voice := v'], Plus(b.tick, 1)), Later(h, voice),
                       Queued(Without(q.sounding, voice) + [Entry(voice, v'.step)], Without(q.releasing, voice)))
  {
    StampedNow(b.voices, h, voice, v');
    AppendedToList(q.sounding, b.voices, h.born, Sounding, voice, v', h.clock);
    RemovedFromList(q.releasing, b.voices, h.born, Releasing, voice, v', h.clock);
    ChangeRelates(b, h, b.voices[voice := v'], voice, Without(q.sounding, voice) + [Entry(voice, v'.step)],
                  Without(q.releasing, voice));
  }

  /** Starting a note keeps the two pictures related, whatever the chosen voice was doing. */
  lemma TakeRepresents(b: Bank, h: History, q: Bank, step: u32, voice: nat)
    requires Represents(b, h, q) && voice < VOICE_COUNT
    ensures Represents(Take(b, step, voice), Later(h, voice), Take(q, step, voice))
  {
    TakenRelates(b, h, q, voice, Voice(step, Sounding, b.tick));
  }

  /** What letting go of a sounding voice does to the queues. */
  lemma LetGoOfSounding(b: Bank, h: History, q: Bank, voice: nat)
    requires Represents(b, h, q) && voice < VOICE_COUNT && b.voices[voice].phase == Sounding
    ensures LetGo(q, voice) ==
            Queued(Without(q.sounding, voice), Without(q.releasing, voice) + [Entry(voice, b.voices[voice].step)])
  {
    RepresentedIsWellFormed(b, h, q);
    assert Holds(q.sounding, voice) && !Holds(q.releasing, voice);
    assert q.sounding[Position(q.sounding, voice)] in q.sounding;
  }

  lemma LetGoRelates(b: Bank, h: History, q: Bank, voice: nat, v': Voice)
    requires Represents(b, h, q) && voice < VOICE_COUNT && v'.phase == Releasing && v'.stamp == b.tick
    ensures Represents(Stamped(b.voices[voice := v'], Plus(b.tick, 1)), Later(h, voice),
                       Queued(Without(q.sounding, voice), Without(q.releasing, voice) + [Entry(voice, v'.step)]))
  {
    StampedNow(b.voices, h, voice, v');
    RemovedFromList(q.sounding, b.voices, h.born, Sounding, voice, v', h.clock);
    AppendedToList(q.releasing, b.voices, h.born, Releasing, voice, v', h.clock);
    ChangeRelates(b, h, b.voices[voice := v'], voice, Without(q.sounding, voice),
                  Without(q.releasing, voice) + [Entry(voice, v'.step)]);
  }

  /** Letting go keeps the two pictures related. */
  lemma LetGoRepresents(b: Bank, h: History, q: Bank, voice: nat)
    requires Represents(b, h, q) && voice < VOICE_COUNT && b.voices[voice].phase == Sounding
    ensures Represents(LetGo(b, voice), Later(h, voice), LetGo(q, voice))
  {
    LetGoOfSounding(b, h, q, voice);
    LetGoRelates(b, h, q, voice, Voice(b.voices[voice].step, Releasing, b.tick));
  }

  lemma LetGoOfOther(b: Bank, h: History, q: Bank, voice: nat)
    requires Represents(b, h, q) && voice < VOICE_COUNT && b.voices[voice].phase != Sounding
    ensures LetGo(b, voice) == b && LetGo(q, voice) == q
  {
    HeldInPhase(q.sounding, b.voices, Sounding);
  }

  // ---------- the choices agree ----------

  /** The scan by stamps finds the first birth, in the window where stamps can be compared. */
  lemma {:induction false} OldestIsFirstBorn(b: Bank, h: History, phase: Phase, step: Option<u32>, n: nat)
    requires b.Stamped? && Stamps(b.voices, h) && Within(b, h, TWO31)
    requires phase != Idle && n <= VOICE_COUNT
    ensures var best := Oldest(b.voices, phase, step, n);
      forall v :: 0 <= v < n && Wanted(b.voices[v], phase, step) ==> best >= 0 && h.born[best] <= h.born[v]
  {
    if n > 0 {
      OldestIsFirstBorn(b, h, phase, step, n - 1);
      var best := Oldest(b.voices, phase, step, n - 1);
      if best >= 0 && Wanted(b.voices[n - 1], phase, step) {
        OlderIsOrder(h.born[n - 1], h.born[best]);
      }
    }
  }

  /** The head of a queue is the voice the scan finds. */
  lemma HeadIsOldest(b: Bank, h: History, q: seq<Entry>, phase: Phase)
    requires b.Stamped? && Stamps(b.voices, h) && Within(b, h, TWO31)
    requires phase != Idle && Lists(q, b.voices, h.born, phase)
    ensures var best := Oldest(b.voices, phase, None, VOICE_COUNT);
      if q == [] then best == -1 else best == q[0].voice
  {
    OldestIsFirstBorn(b, h, phase, None, VOICE_COUNT);
    var best := Oldest(b.voices, phase, None, VOICE_COUNT);
    if best >= 0 {
      assert Holds(q, best);
      var i :| 0 <= i < |q| && q[i].voice == best;
    }
    if q != [] {
      assert q[0] in q;
      assert Wanted(b.voices[q[0].voice], phase, None);
    }
  }

  /** The first entry of a step is the voice the scan for that step finds. */
  lemma FirstIsOldest(b: Bank, h: History, q: seq<Entry>, phase: Phase, step: u32)
    requires b.Stamped? && Stamps(b.voices, h) && Within(b, h, TWO31)
    requires phase != Idle && Lists(q, b.voices, h.born, phase)
    ensures var best, f := Oldest(b.voices, phase, Some(step), VOICE_COUNT), FirstOf(q, step);
      if f == |q| then best == -1 else best == q[f].voice
  {
    OldestIsFirstBorn(b, h, phase, Some(step), VOICE_COUNT);
    var best, f := Oldest(b.voices, phase, Some(step), VOICE_COUNT), FirstOf(q, step);
    if best >= 0 {
      assert Holds(q, best);
      var i :| 0 <= i < |q| && q[i].voice == best;
      assert q[i] in q && f <= i;
    }
    if f < |q| {
      assert q[f] in q;
      assert Wanted(b.voices[q[f].voice], phase, Some(step));
    }
  }

  lemma {:induction false} LowestIdleAgrees(b: Bank, q: Bank, from: nat)
    requires b.Proper() && q.Proper() && from <= VOICE_COUNT
    requires forall v :: 0 <= v < VOICE_COUNT ==> (IsIdle(b, v) <==> IsIdle(q, v))
    ensures LowestIdle(b, from) == LowestIdle(q, from)
    decreases VOICE_COUNT - from
  {
    if from < VOICE_COUNT { LowestIdleAgrees(b, q, from + 1); }
  }

  /** A note is given the same voice by the stamps and by the queues. */
  lemma ChooseAgrees(b: Bank, h: History, q: Bank)
    requires Represents(b, h, q) && Within(b, h, TWO31) && WellFormed(q)
    ensures Choose(b) == Choose(q)
  {
    RepresentedIsWellFormed(b, h, q);
    LowestIdleAgrees(b, q, 0);
    HeadIsOldest(b, h, q.sounding, Sounding);
    HeadIsOldest(b, h, q.releasing, Releasing);
  }

  /** A note-off means the same voice to the stamps and to the queues. */
  lemma FindAgrees(b: Bank, h: History, q: Bank, step: u32)
    requires Represents(b, h, q) && Within(b, h, TWO31) && WellFormed(q)
    ensures Find(b, step) == Find(q, step)
  {
    FirstIsOldest(b, h, q.sounding, Sounding, step);
    FirstIsOldest(b, h, q.releasing, Releasing, step);
  }

  // ---------- what the choices are ----------

  /** The voice a note is given: the lowest idle one; when none is idle, of those letting go the one that has done so
      longest; and when all sound, the one that has sounded longest. */
  lemma ChosenIs(b: Bank, h: History, u: nat)
    requires b.Stamped? && b.Proper() && Stamps(b.voices, h) && Within(b, h, TWO31) && u < VOICE_COUNT
    ensures var v, vs := Choose(b), b.voices;
      match vs[v].phase
      case Idle => vs[u].phase == Idle ==> v <= u
      case Releasing => vs[u].phase != Idle && (vs[u].phase == Releasing ==> h.born[v] <= h.born[u])
      case Sounding => vs[u].phase == Sounding && h.born[v] <= h.born[u]
  {
    OldestIsFirstBorn(b, h, Releasing, None, VOICE_COUNT);
    OldestIsFirstBorn(b, h, Sounding, None, VOICE_COUNT);
    assert forall w :: 0 <= w < VOICE_COUNT ==> (IsIdle(b, w) <==> b.voices[w].phase == Idle);
  }

  /** The voice a release goes to: of those sounding its step, the one that has longest; when none sounds it, of those
      letting it go the one that has done so longest; and when there is neither, no voice. */
  lemma FoundIs(b: Bank, h: History, step: u32, u: nat)
    requires b.Stamped? && b.Proper() && Stamps(b.voices, h) && Within(b, h, TWO31) && u < VOICE_COUNT
    ensures var vs := b.voices;
      match Find(b, step)
      case None => vs[u].step != step || vs[u].phase == Idle
      case Some(v) =>
        && v < VOICE_COUNT && vs[v].step == step && vs[v].phase != Idle
        && (vs[u].step == step && vs[u].phase == vs[v].phase ==> h.born[v] <= h.born[u])
        && (vs[u].step == step && vs[u].phase == Sounding ==> vs[v].phase == Sounding)
  {
    OldestIsFirstBorn(b, h, Sounding, Some(step), VOICE_COUNT);
    OldestIsFirstBorn(b, h, Releasing, Some(step), VOICE_COUNT);
    ScanFails(b, step);
  }

  // ---------- two notes of a step ----------

  /** Of the first `n` voices exactly `u` and `v` sound a step. */
  ghost predicate OnlyThese(vs: seq<Voice>, step: u32, u: nat, v: nat) {
    forall i :: 0 <= i < |vs| ==> (Wanted(vs[i], Sounding, Some(step)) <==> i == u || i == v)
  }

  /** The scan settles on the lower of the two unless the higher one's stamp is older. */
  lemma {:induction false} OldestOfTwo(vs: seq<Voice>, step: u32, u: nat, v: nat, n: nat)
    requires u < v < |vs| && OnlyThese(vs, step, u, v) && n <= |vs|
    ensures Oldest(vs, Sounding, Some(step), n) ==
            if n <= u then -1 else if n <= v || !Older(vs[v].stamp, vs[u].stamp) then u else v
  {
    if n > 0 {
      OldestOfTwo(vs, step, u, v, n - 1);
    }
  }

  /** Two notes of a step, less than a whole wrap apart: a release goes to the earlier one exactly when they
      are less than half a wrap apart, or just half a wrap when the later one is on the lower voice. */
  lemma EarlierReleasedIff(b: Bank, h: History, step: u32, u: nat, v: nat)
    requires b.Stamped? && b.Proper() && Stamps(b.voices, h)
    requires u < VOICE_COUNT && v < VOICE_COUNT && u != v && OnlyThese(b.voices, step, u, v)
    requires h.born[u] < h.born[v] < h.born[u] + TWO32
    ensures Find(b, step) == Some(u) <==> h.born[v] - h.born[u] < TWO31 + if v < u then 1 else 0
  {
    assert Wanted(b.voices[u], Sounding, Some(step)) && Wanted(b.voices[v], Sounding, Some(step));
    GapIsDistance(h.born[v], h.born[u]);
    GapIsDistance(h.born[u], h.born[v]);
    if u < v {
      OldestOfTwo(b.voices, step, u, v, VOICE_COUNT);
    } else {
      OldestOfTwo(b.voices, step, v, u, VOICE_COUNT);
    }
  }

  // ---------- the window is needed ----------

  const LATE: Voice := Voice(7, Sounding, TWO31 + 1)
  const EARLY: Voice := Voice(7, Sounding, 0)
  const OFF := Voice(0, Idle, 0)
  const SKEWED := Stamped([LATE, EARLY, OFF, OFF, OFF, OFF, OFF, OFF], TWO31 + 2)
  const SKEWED_HISTORY := History(TWO31 + 2, [TWO31 + 1, 0, 0, 0, 0, 0, 0, 0])
  const SKEWED_QUEUES := Queued([Entry(1, 7), Entry(0, 7)], [])

  lemma SkewedRepresents()
    ensures Represents(SKEWED, SKEWED_HISTORY, SKEWED_QUEUES)
  {
    var q := SKEWED_QUEUES.sounding;
    assert q[0].voice == 1 && q[1].voice == 0;
  }

  /** Outside the window the firmware really does release the wrong note: here voice 1 has sounded the
      step longest, by more than half a wrap, and the stamps name voice 0. */
  lemma WindowIsNeeded()
    ensures Represents(SKEWED, SKEWED_HISTORY, SKEWED_QUEUES) && Within(SKEWED, SKEWED_HISTORY, TWO31 + 3)
    ensures WellFormed(SKEWED_QUEUES) && Find(SKEWED, 7) == Some(0) && Find(SKEWED_QUEUES, 7) == Some(1)
  {
    SkewedRepresents();
    RepresentedIsWellFormed(SKEWED, SKEWED_HISTORY, SKEWED_QUEUES);
    EarlierReleasedIff(SKEWED, SKEWED_HISTORY, 7, 1, 0);
    OldestOfTwo(SKEWED.voices, 7, 0, 1, VOICE_COUNT);
  }
}
