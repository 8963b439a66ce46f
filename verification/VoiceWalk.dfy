/** The engine as it is built: one voice at a time, two clocks each, all through the same table port, the
    same multiplier and the same accumulator. A whole walk is one sample of the engine as it is meant. */
module VoiceWalk {
  import opened Words
  import opened Envelope
  import opened Mix
  import opened Voicing

  /** The walk's registers: `data` is the table port's output, `hold` the level kept for the multiplier,
      `pending` the command waiting for its voice. */
  datatype Walk = Walk(busy: bool, start: bool, slot: nat, sub: nat, acc: int, hold: nat, data: int, pending: Option<Command>)

  datatype Bank = Bank(engine: Engine, walk: Walk)

  predicate Runnable(b: Bank) { Fits(b.engine) && b.walk.slot < |b.engine.voices| && b.walk.sub < 2 }

  /** One clock. Each register takes its new value from the old ones; where the source assigns one twice,
      the later assignment holds. */
  function Clocked(b: Bank, tables: Tables, strobe: bool, apply: Option<Command>): Bank
    requires Runnable(b)
  {
    var e, w := b.engine, b.walk;
    var v := e.voices[w.slot];
    var vs, g := VoicesFor(e, apply), PanelFor(e, apply);
    var parked := if apply.Some? then apply else w.pending;
    var w' := w.(data := Entry(tables, v), pending := parked, start := w.start || strobe);
    if !w.busy then
      Bank(e.(voices := vs, panel := g),
           if w.start then w'.(busy := true, start := false, slot := 0, sub := 0, acc := 0) else w')
    else if w.sub == 0 then
      var hit := w.pending.Some? && w.pending.value.voice == w.slot;
      Bank(e.(voices := vs[w.slot := Heard(vs[w.slot], w.slot, w.pending)], panel := g),
           w'.(sub := 1, hold := Level(v), pending := if hit then None else parked))
    else
      var scaled := Scaled(w.data, w.hold);
      var moved := vs[w.slot].(phase := Plus(v.phase, v.step), env := Stepped(v.env, v.level, e.panel));
      var w'' := w'.(sub := 0, acc := Accumulated(w.acc, scaled));
      if w.slot == |e.voices| - 1 then
        Bank(Engine(vs[w.slot := moved], g, Clipped(w.acc, scaled, e.panel.master)), w''.(busy := false, pending := None))
      else
        Bank(e.(voices := vs[w.slot := moved], panel := g), w''.(slot := w.slot + 1))
  }

  // ---------- along the walk ----------

  /** Before the first half of slot `s`: the voices before it are done, and their sum is in hand. */
  ghost predicate First(b: Bank, tables: Tables, vs: seq<Voice>, g: Panel, c: Option<Command>, sample: int, s: nat) {
    && s < |vs| < MAX_VOICES && AllFit(vs) && PanelFits(g)
    && b.engine == Engine(Walked(vs, s, c, g), g, sample)
    && b.walk.busy && !b.walk.start && b.walk.slot == s && b.walk.sub == 0
    && b.walk.acc == Chord(tables, vs[..s])
    && b.walk.pending == (if c.Some? && c.value.voice >= s then c else None)
  }

  /** Before the second: the voice has heard its command, but is sounded as it stood before. */
  ghost predicate Second(b: Bank, tables: Tables, vs: seq<Voice>, g: Panel, c: Option<Command>, sample: int, s: nat) {
    && s < |vs| < MAX_VOICES && AllFit(vs) && PanelFits(g)
    && b.engine == Engine(Walked(vs, s, c, g)[s := Heard(vs[s], s, c)], g, sample)
    && b.walk.busy && !b.walk.start && b.walk.slot == s && b.walk.sub == 1
    && b.walk.acc == Chord(tables, vs[..s])
    && b.walk.hold == Level(vs[s]) && b.walk.data == Entry(tables, vs[s])
    && b.walk.pending == (if c.Some? && c.value.voice > s then c else None)
  }

  predicate Quiet(b: Bank) { !b.walk.busy && !b.walk.start && b.walk.pending == None }

  lemma FirstHalf(b: Bank, tables: Tables, vs: seq<Voice>, g: Panel, c: Option<Command>, sample: int, s: nat)
    requires First(b, tables, vs, g, c, sample, s) && Runnable(b)
    ensures Second(Clocked(b, tables, false, None), tables, vs, g, c, sample, s)
  {
  }

  lemma ChordGrows(tables: Tables, vs: seq<Voice>, s: nat)
    requires AllFit(vs) && s < |vs|
    ensures Chord(tables, vs[..s + 1]) == Chord(tables, vs[..s]) + Contribution(Entry(tables, vs[s]), Level(vs[s]))
  {
    assert vs[..s + 1][..s] == vs[..s];
  }

  /** The arithmetic of a second half is exact. */
  lemma SecondIsExact(tables: Tables, vs: seq<Voice>, s: nat, master: nat)
    requires AllFit(vs) && s < |vs| < MAX_VOICES && master <= PEAK
    ensures var acc, scaled := Chord(tables, vs[..s]), Scaled(Entry(tables, vs[s]), Level(vs[s]));
      && Accumulated(acc, scaled) == Chord(tables, vs[..s + 1])
      && Clipped(acc, scaled, master) == Output(Chord(tables, vs[..s + 1]), master)
  {
    var entry, level := Entry(tables, vs[s]), Level(vs[s]);
    ScaledIsExact(entry, level);
    ProductBound(entry, level);
    ChordBound(tables, vs[..s]);
    AccumulatedIsExact(Chord(tables, vs[..s]), Scaled(entry, level), s);
    ClippedIsExact(Chord(tables, vs[..s]), Scaled(entry, level), master, s);
    ChordGrows(tables, vs, s);
  }

  lemma SecondHalf(b: Bank, tables: Tables, vs: seq<Voice>, g: Panel, c: Option<Command>, sample: int, s: nat)
    requires Second(b, tables, vs, g, c, sample, s) && Runnable(b) && s + 1 < |vs|
    ensures First(Clocked(b, tables, false, None), tables, vs, g, c, sample, s + 1)
  {
    SecondIsExact(tables, vs, s, g.master);
    WalkedMore(vs, s, c, g);
  }

  lemma WalkedMore(vs: seq<Voice>, s: nat, c: Option<Command>, g: Panel)
    requires s < |vs|
    ensures var w := Walked(vs, s, c, g)[s := Heard(vs[s], s, c)];
      w[s := Played(w[s], g)] == Walked(vs, s + 1, c, g)
  {
  }

  /** The last clock of the walk. */
  lemma LastHalf(b: Bank, tables: Tables, vs: seq<Voice>, g: Panel, c: Option<Command>, sample: int, s: nat)
    requires Second(b, tables, vs, g, c, sample, s) && Runnable(b) && s + 1 == |vs|
    ensures var b' := Clocked(b, tables, false, None);
      Quiet(b') && b'.engine == Engine(Walked(vs, |vs|, c, g), g, Output(Chord(tables, vs), g.master))
  {
    SecondIsExact(tables, vs, s, g.master);
    WalkedMore(vs, s, c, g);
    assert vs[..s + 1] == vs;
  }

  // ---------- whatever happens ----------

  lemma VoiceClockFits(v: Voice, w: Voice, g: Panel, i: nat, c: Option<Command>)
    requires VoiceFits(v) && VoiceFits(w) && PanelFits(g)
    ensures VoiceFits(Heard(v, i, c))
    ensures VoiceFits(v.(phase := Plus(w.phase, w.step), env := Stepped(w.env, w.level, g)))
  {
    StepStaysBelowSummit(w.env, w.level, g);
  }

  /** At any clock, with strobes and commands at any moment, every register stays within its width. */
  lemma ClockKeepsRunnable(b: Bank, tables: Tables, strobe: bool, apply: Option<Command>)
    requires Runnable(b)
    ensures Runnable(Clocked(b, tables, strobe, apply))
  {
    var e, w := b.engine, b.walk;
    var vs := VoicesFor(e, apply);
    VoicesForFit(e, apply);
    VoiceClockFits(vs[w.slot], e.voices[w.slot], e.panel, w.slot, w.pending);
  }

  /** A clock that would bring a voice back from a reset: the second half of its slot writes back what its
      envelope was becoming, and the first half applies a note command parked for it. */
  predicate Revives(b: Bank)
    requires Runnable(b)
  {
    var w, v := b.walk, b.engine.voices[b.walk.slot];
    w.busy &&
    if w.sub == 1 then Stepped(v.env, v.level, b.engine.panel) != Env(0, IDLE)
    else w.pending.Some? && w.pending.value.voice == w.slot && w.pending.value.opcode in {OP_NOTE_ON, OP_NOTE_OFF}
  }

  lemma OthersSilenced(b: Bank, tables: Tables, strobe: bool, c: Command, i: nat)
    requires Runnable(b) && c.opcode == OP_RESET && i < |b.engine.voices| && (i != b.walk.slot || !b.walk.busy)
    ensures Clocked(b, tables, strobe, Some(c)).engine.voices[i] == Silenced(b.engine.voices[i])
  {
  }

  lemma SlotSilencedIff(b: Bank, tables: Tables, strobe: bool, c: Command)
    requires Runnable(b) && c.opcode == OP_RESET && b.walk.busy
    ensures Clocked(b, tables, strobe, Some(c)).engine.voices[b.walk.slot].env == Env(0, IDLE) <==> !Revives(b)
  {
  }

  /** A reset leaves every voice idle exactly when it does not come on such a clock. In a period it comes on
      the clock after the strobe, before the walk has begun, so there it always does. */
  lemma ResetSilencesIff(b: Bank, tables: Tables, strobe: bool, c: Command)
    requires Runnable(b) && c.opcode == OP_RESET
    ensures (forall i :: 0 <= i < |b.engine.voices| ==> Clocked(b, tables, strobe, Some(c)).engine.voices[i].env == Env(0, IDLE))
            <==> !Revives(b)
  {
    var vs := Clocked(b, tables, strobe, Some(c)).engine.voices;
    forall i | 0 <= i < |vs| && (i != b.walk.slot || !b.walk.busy)
      ensures vs[i].env == Env(0, IDLE)
    {
      OthersSilenced(b, tables, strobe, c, i);
    }
    if b.walk.busy {
      SlotSilencedIff(b, tables, strobe, c);
    }
  }

  /** A bank as it is at power-on. */
  function PoweredOn(voices: nat): (b: Bank)
    requires 0 < voices < MAX_VOICES
    ensures Runnable(b) && Quiet(b)
  {
    Bank(Fresh(voices), Walk(false, false, 0, 0, 0, 0, 0, None))
  }

  /** A bank of one voice after a strobe, a note for its voice and one more clock: the note has been heard, and its
      voice is about to be written back. */
  function MidWalk(tables: Tables): (b: Bank)
    ensures Runnable(b)
  {
    var b1 := Clocked(PoweredOn(1), tables, true, None);
    ClockKeepsRunnable(PoweredOn(1), tables, true, None);
    var b2 := Clocked(b1, tables, false, Sent(OP_NOTE_ON, 1));
    ClockKeepsRunnable(b1, tables, false, Sent(OP_NOTE_ON, 1));
    ClockKeepsRunnable(b2, tables, false, None);
    Clocked(b2, tables, false, None)
  }

  /** A reset that comes on the next clock leaves the voice at its loudest. */
  lemma ResetRevives(tables: Tables)
    ensures Revives(MidWalk(tables))
    ensures Clocked(MidWalk(tables), tables, false, Sent(OP_RESET, 0)).engine.voices[0].env == Env(SUMMIT, DECAY)
  {
    StepIs(Env(0, ATTACK), PEAK, Fresh(1).panel);
    assert MidWalk(tables).walk.sub == 1 && MidWalk(tables).engine.voices[0].env == Env(0, ATTACK);
  }

  // ---------- a whole walk ----------

  /** `k` clocks without a strobe or a command. */
  function Run(b: Bank, tables: Tables, k: nat): (r: Bank)
    requires Runnable(b)
    ensures Runnable(r)
    decreases k
  {
    if k == 0 then b
    else
      ClockKeepsRunnable(b, tables, false, None);
      Run(Clocked(b, tables, false, None), tables, k - 1)
  }

  lemma {:induction false} RunSplit(b: Bank, tables: Tables, j: nat, k: nat)
    requires Runnable(b)
    ensures Run(b, tables, j + k) == Run(Run(b, tables, j), tables, k)
    decreases j
  {
    if j > 0 {
      ClockKeepsRunnable(b, tables, false, None);
      RunSplit(Clocked(b, tables, false, None), tables, j - 1, k);
    }
  }

  lemma {:induction false} QuietStays(b: Bank, tables: Tables, k: nat)
    requires Runnable(b) && Quiet(b)
    ensures Quiet(Run(b, tables, k)) && Run(b, tables, k).engine == b.engine
    decreases k
  {
    if k > 0 {
      ClockKeepsRunnable(b, tables, false, None);
      QuietStays(Clocked(b, tables, false, None), tables, k - 1);
    }
  }

  lemma TwoClocks(b: Bank, tables: Tables)
    requires Runnable(b)
    ensures Runnable(Clocked(b, tables, false, None))
    ensures Run(b, tables, 2) == Clocked(Clocked(b, tables, false, None), tables, false, None)
  {
    var b1 := Clocked(b, tables, false, None);
    ClockKeepsRunnable(b, tables, false, None);
    ClockKeepsRunnable(b1, tables, false, None);
    assert Run(b, tables, 2) == Run(b1, tables, 1);
    assert Run(b1, tables, 1) == Run(Clocked(b1, tables, false, None), tables, 0);
  }

  /** The walk is over: every voice has heard the command and been sounded. */
  ghost predicate WalkOver(b: Bank, tables: Tables, vs: seq<Voice>, g: Panel, c: Option<Command>) {
    Quiet(b) && AllFit(vs) && b.engine == Engine(Walked(vs, |vs|, c, g), g, Output(Chord(tables, vs), g.master))
  }

  lemma SlotDone(b: Bank, tables: Tables, vs: seq<Voice>, g: Panel, c: Option<Command>, sample: int, s: nat)
    requires First(b, tables, vs, g, c, sample, s) && Runnable(b)
    ensures Runnable(Run(b, tables, 2))
    ensures s + 1 < |vs| ==> First(Run(b, tables, 2), tables, vs, g, c, sample, s + 1)
    ensures s + 1 == |vs| ==> WalkOver(Run(b, tables, 2), tables, vs, g, c)
  {
    var b1 := Clocked(b, tables, false, None);
    TwoClocks(b, tables);
    ClockKeepsRunnable(b1, tables, false, None);
    FirstHalf(b, tables, vs, g, c, sample, s);
    if s + 1 == |vs| {
      LastHalf(b1, tables, vs, g, c, sample, s);
    } else {
      SecondHalf(b1, tables, vs, g, c, sample, s);
    }
  }

  lemma {:induction false} WalkFinishes(b: Bank, tables: Tables, vs: seq<Voice>, g: Panel, c: Option<Command>,
                                         sample: int, s: nat)
    requires First(b, tables, vs, g, c, sample, s) && Runnable(b)
    ensures WalkOver(Run(b, tables, 2 * (|vs| - s)), tables, vs, g, c)
    decreases |vs| - s
  {
    SlotDone(b, tables, vs, g, c, sample, s);
    RunSplit(b, tables, 2, 2 * (|vs| - s - 1));
    if s + 1 < |vs| {
      WalkFinishes(Run(b, tables, 2), tables, vs, g, c, sample, s + 1);
    }
  }

  /** A strobe, the command it brings, and the clocks until the next strobe. */
  function Period(b: Bank, tables: Tables, c: Option<Command>, k: nat): (r: Bank)
    requires Runnable(b)
    ensures Runnable(r)
  {
    ClockKeepsRunnable(b, tables, true, None);
    var b1 := Clocked(b, tables, true, None);
    ClockKeepsRunnable(b1, tables, false, c);
    Run(Clocked(b1, tables, false, c), tables, k)
  }

  lemma WalkBegins(b: Bank, tables: Tables, c: Option<Command>)
    requires Runnable(b) && Quiet(b)
    ensures Runnable(Clocked(b, tables, true, None))
    ensures First(Clocked(Clocked(b, tables, true, None), tables, false, c), tables,
                  VoicesFor(b.engine, c), PanelFor(b.engine, c), c, b.engine.sample, 0)
  {
    ClockKeepsRunnable(b, tables, true, None);
    VoicesForFit(b.engine, c);
    var vs, g := VoicesFor(b.engine, c), PanelFor(b.engine, c);
    assert Walked(vs, 0, c, g) == vs && vs[..0] == [];
  }

  /** For any number of voices, and strobes at least two clocks a voice and two more apart, a walk is one
      sample of the engine as it is meant, and the engine is ready for the next. */
  lemma PeriodIsSample(b: Bank, tables: Tables, c: Option<Command>, k: nat)
    requires Runnable(b) && Quiet(b) && k >= 2 * |b.engine.voices|
    ensures Quiet(Period(b, tables, c, k)) && Period(b, tables, c, k).engine == PerSample(b.engine, tables, c)
  {
    var vs, g := VoicesFor(b.engine, c), PanelFor(b.engine, c);
    var b1 := Clocked(b, tables, true, None);
    WalkBegins(b, tables, c);
    ClockKeepsRunnable(b1, tables, false, c);
    var b2 := Clocked(b1, tables, false, c);
    WalkFinishes(b2, tables, vs, g, c, b.engine.sample, 0);
    RunSplit(b2, tables, 2 * |vs|, k - 2 * |vs|);
    QuietStays(Run(b2, tables, 2 * |vs|), tables, k - 2 * |vs|);
  }

  // ---------- whole performances ----------

  /** What a strobe brings, and how long until the next. */
  datatype Beat = Beat(command: Option<Command>, clocks: nat)

  function Performed(b: Bank, tables: Tables, beats: seq<Beat>): Bank
    requires Runnable(b)
    decreases |beats|
  {
    if beats == [] then b else Performed(Period(b, tables, beats[0].command, beats[0].clocks), tables, beats[1..])
  }

  function Meant(e: Engine, tables: Tables, beats: seq<Beat>): Engine
    requires Fits(e)
    decreases |beats|
  {
    if beats == [] then e
    else
      PerSampleFits(e, tables, beats[0].command);
      Meant(PerSample(e, tables, beats[0].command), tables, beats[1..])
  }

  /** Sample for sample, the engine as it is built is the engine as it is meant. */
  lemma {:induction false} PerformanceIsMeant(b: Bank, tables: Tables, beats: seq<Beat>)
    requires Runnable(b) && Quiet(b) && forall t :: t in beats ==> t.clocks >= 2 * |b.engine.voices|
    ensures Quiet(Performed(b, tables, beats)) && Performed(b, tables, beats).engine == Meant(b.engine, tables, beats)
    decreases |beats|
  {
    if beats != [] {
      PeriodIsSample(b, tables, beats[0].command, beats[0].clocks);
      PerSampleFits(b.engine, tables, beats[0].command);
      PerformanceIsMeant(Period(b, tables, beats[0].command, beats[0].clocks), tables, beats[1..]);
    }
  }

  class VoiceBank {
    const tables: Tables
    var bank: Bank

    constructor (voices: nat, tables: Tables)
      requires 0 < voices < MAX_VOICES
      ensures bank == PoweredOn(voices) && this.tables == tables
    {
      this.tables := tables;
      bank := PoweredOn(voices);
    }

    /** One clock of the domain. */
    method Clock(strobe: bool, apply: Option<Command>)
      requires Runnable(bank)
      modifies this
      ensures Runnable(bank) && bank == Clocked(old(bank), tables, strobe, apply)
    {
      ClockKeepsRunnable(bank, tables, strobe, apply);
      var e, w := bank.engine, bank.walk;   // the registers as they stood
      var current := e.voices[w.slot];
      var e', w' := e, w.(data := Entry(tables, current));
      if apply.Some? {
        w' := w'.(pending := apply);
        e' := e'.(panel := Turned(e.panel, apply.value), voices := Reset(e.voices, apply.value));
      }
      if strobe {
        w' := w'.(start := true);
      }
      if !w.busy && w.start {
        w' := w'.(busy := true, start := false, slot := 0, sub := 0, acc := 0);
      }
      if w.busy {
        if w.sub == 0 {
          w' := w'.(sub := 1, hold := Level(current));
          if w.pending.Some? && w.pending.value.voice == w.slot {
            w' := w'.(pending := None);
            e' := e'.(voices := e'.voices[w.slot := Commanded(e'.voices[w.slot], w.pending.value)]);
          }
        } else {
          var scaled := Scaled(w.data, w.hold);
          w' := w'.(sub := 0, acc := Accumulated(w.acc, scaled));
          var moved := e'.voices[w.slot].(phase := Plus(current.phase, current.step),
                                          env := Stepped(current.env, current.level, e.panel));
          e' := e'.(voices := e'.voices[w.slot := moved]);
          if w.slot == |e.voices| - 1 {
            w' := w'.(busy := false, pending := None);
            e' := e'.(sample := Clipped(w.acc, scaled, e.panel.master));
          } else {
            w' := w'.(slot := w.slot + 1);
          }
        }
      }
      bank := Bank(e', w');
    }
  }
}
