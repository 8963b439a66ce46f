/** The voices as the engine is meant to play them, a sample at a time. */
module Voicing {
  import opened Words
  import opened Envelope
  import opened Mix

  const WAVES := 4
  const TABLE_SIZE := 0x800
  const PER_ENTRY := TWO32 / TABLE_SIZE

  datatype Voice = Voice(phase: u32, step: u32, wave: nat, env: Env, level: nat)

  /** What lasts from sample to sample. */
  datatype Engine = Engine(voices: seq<Voice>, panel: Panel, sample: int)

  type Tables = t: seq<int> |
    |t| == WAVES * TABLE_SIZE && forall i :: 0 <= i < |t| ==> -PEAK <= t[i] <= PEAK
    witness seq(WAVES * TABLE_SIZE, _ => 0)

  predicate VoiceFits(v: Voice) { v.wave < WAVES && v.env.value <= SUMMIT && v.level <= PEAK }

  predicate AllFit(vs: seq<Voice>) { forall i :: 0 <= i < |vs| ==> VoiceFits(vs[i]) }

  predicate Fits(e: Engine) { 0 < |e.voices| < MAX_VOICES && AllFit(e.voices) && PanelFits(e.panel) }

  /** Where a voice reads the tables. */
  function Address(v: Voice): nat { v.wave * TABLE_SIZE + v.phase / PER_ENTRY }

  function Entry(tables: Tables, v: Voice): (e: int)
    requires v.wave < WAVES
    ensures -PEAK <= e <= PEAK
  {
    tables[Address(v)]
  }

  function Level(v: Voice): nat { v.env.value / SHIFT }

  /** The sum of the voices as they sound. */
  function Chord(tables: Tables, vs: seq<Voice>): int
    requires AllFit(vs)
  {
    if vs == [] then 0
    else Chord(tables, vs[..|vs| - 1]) + Contribution(Entry(tables, vs[|vs| - 1]), Level(vs[|vs| - 1]))
  }

  lemma {:induction false} ChordBound(tables: Tables, vs: seq<Voice>)
    requires AllFit(vs)
    ensures -PEAK * |vs| <= Chord(tables, vs) <= PEAK * |vs|
    decreases |vs|
  {
    if vs != [] {
      var v := vs[|vs| - 1];
      ChordBound(tables, vs[..|vs| - 1]);
      ProductBound(Entry(tables, v), Level(v));
    }
  }

  // ---------- commands ----------

  function Capped(value: u32): nat { if value % TWO16 > PEAK then PEAK else value % TWO16 }

  /** The settings a command changes as it arrives. */
  function Turned(g: Panel, c: Command): Panel {
    if c.opcode == OP_SET_ATTACK then g.(attack := c.value % TWO24)
    else if c.opcode == OP_SET_DECAY then g.(decay := c.value % TWO24)
    else if c.opcode == OP_SET_RELEASE then g.(release := c.value % TWO24)
    else if c.opcode == OP_SET_SUSTAIN then g.(sustain := Capped(c.value))
    else if c.opcode == OP_SET_MASTER then g.(master := Capped(c.value))
    else g
  }

  /** A reset silences a voice; it keeps its phase and its level. */
  function Silenced(v: Voice): Voice { v.(step := 0, wave := 0, env := Env(0, IDLE)) }

  function Reset(vs: seq<Voice>, c: Command): (r: seq<Voice>)
    ensures |r| == |vs|
  {
    if c.opcode == OP_RESET then seq(|vs|, i requires 0 <= i < |vs| => Silenced(vs[i])) else vs
  }

  /** A command applied to the voice it names. */
  function Commanded(v: Voice, c: Command): Voice {
    if c.opcode == OP_NOTE_ON then v.(step := c.value, env := Env(0, ATTACK))
    else if c.opcode == OP_NOTE_OFF then v.(env := v.env.(stage := RELEASE))
    else if c.opcode == OP_SET_FREQ then v.(step := c.value)
    else if c.opcode == OP_SET_WAVE then v.(wave := c.value % WAVES)
    else if c.opcode == OP_SET_AMP then v.(level := Capped(c.value))
    else v
  }

  /** The command as the voice at place `i` sees it. */
  function Heard(v: Voice, i: nat, c: Option<Command>): Voice {
    if c.Some? && c.value.voice == i then Commanded(v, c.value) else v
  }

  /** A voice moved on by one sample. */
  function Played(v: Voice, g: Panel): Voice {
    v.(phase := Plus(v.phase, v.step), env := Stepped(v.env, v.level, g))
  }

  function Done(v: Voice, i: nat, c: Option<Command>, g: Panel): Voice { Played(Heard(v, i, c), g) }

  // ---------- a sample ----------

  function PanelFor(e: Engine, c: Option<Command>): Panel { if c.Some? then Turned(e.panel, c.value) else e.panel }

  function VoicesFor(e: Engine, c: Option<Command>): (vs: seq<Voice>)
    ensures |vs| == |e.voices|
  {
    if c.Some? then Reset(e.voices, c.value) else e.voices
  }

  /** The first `s` voices done, the rest to come. */
  function Walked(vs: seq<Voice>, s: nat, c: Option<Command>, g: Panel): (r: seq<Voice>)
    ensures |r| == |vs|
    ensures forall i :: 0 <= i < |vs| ==> r[i] == if i < s then Done(vs[i], i, c, g) else vs[i]
  {
    seq(|vs|, i requires 0 <= i < |vs| => if i < s then Done(vs[i], i, c, g) else vs[i])
  }

  /** One sample: settings and a reset take effect, every voice sounds as it stood, the one command reaches
      the one voice it names, and every voice moves on. */
  function PerSample(e: Engine, tables: Tables, c: Option<Command>): Engine
    requires Fits(e)
  {
    var vs, g := VoicesFor(e, c), PanelFor(e, c);
    VoicesForFit(e, c);
    Engine(Walked(vs, |vs|, c, g), g, Output(Chord(tables, vs), g.master))
  }

  lemma VoicesForFit(e: Engine, c: Option<Command>)
    requires Fits(e)
    ensures AllFit(VoicesFor(e, c)) && PanelFits(PanelFor(e, c))
  {
  }

  lemma DoneFits(v: Voice, i: nat, c: Option<Command>, g: Panel)
    requires VoiceFits(v) && PanelFits(g)
    ensures VoiceFits(Done(v, i, c, g))
  {
    var h := Heard(v, i, c);
    StepStaysBelowSummit(h.env, h.level, g);
  }

  /** Every reachable state fits its registers. */
  lemma PerSampleFits(e: Engine, tables: Tables, c: Option<Command>)
    requires Fits(e)
    ensures Fits(PerSample(e, tables, c)) && -0x8000 <= PerSample(e, tables, c).sample < 0x8000
  {
    var vs, g := VoicesFor(e, c), PanelFor(e, c);
    VoicesForFit(e, c);
    forall i | 0 <= i < |vs|
      ensures VoiceFits(Walked(vs, |vs|, c, g)[i])
    {
      DoneFits(vs[i], i, c, g);
    }
    OutputIsSample(Chord(tables, vs), g.master);
  }

  /** A command reaches at most the one voice it names; one that names no voice reaches none. */
  lemma OthersUntouched(e: Engine, tables: Tables, c: Command, i: nat)
    requires Fits(e) && i < |e.voices| && c.opcode != OP_RESET && c.voice != i
    ensures PerSample(e, tables, Some(c)).voices[i] == Played(e.voices[i], Turned(e.panel, c))
  {
  }

  // ---------- an attack that falls ----------

  /** The engine as it starts: every voice idle, every rate at its fastest, every level at its highest. */
  function Fresh(voices: nat): (e: Engine)
    requires 0 < voices < MAX_VOICES
    ensures Fits(e) && |e.voices| == voices
    ensures forall i :: 0 <= i < voices ==> e.voices[i] == Voice(0, 0, 0, Env(0, IDLE), PEAK)
    ensures e.panel == Panel(0xFF_FFFF, 0xFF_FFFF, 0xFF_FFFF, 0x7FFF, 0x7FFF)
  {
    Engine(seq(voices, _ => Voice(0, 0, 0, Env(0, IDLE), PEAK)), Panel(TWO24 - 1, TWO24 - 1, TWO24 - 1, PEAK, PEAK), 0)
  }

  function Sent(opcode: u8, value: u32): Option<Command> { Some(Command(opcode, 0, value, 1)) }

  lemma OneVoice(e: Engine, tables: Tables, c: Option<Command>)
    requires Fits(e) && |e.voices| == 1 && (c.Some? ==> c.value.opcode != OP_RESET)
    ensures var e' := PerSample(e, tables, c);
      |e'.voices| == 1 && e'.panel == PanelFor(e, c) && e'.voices[0] == Played(Heard(e.voices[0], 0, c), e'.panel)
  {
  }

  /** A note one sample into a slow attack. */
  function Rising(tables: Tables): (e: Engine)
    ensures Fits(e)
  {
    PerSampleFits(Fresh(1), tables, Sent(OP_SET_ATTACK, 0x1000));
    var e := PerSample(Fresh(1), tables, Sent(OP_SET_ATTACK, 0x1000));
    PerSampleFits(e, tables, Sent(OP_NOTE_ON, 1));
    PerSample(e, tables, Sent(OP_NOTE_ON, 1))
  }

  function Slow(): Panel { Panel(0x1000, TWO24 - 1, TWO24 - 1, PEAK, PEAK) }

  lemma RisingIs(tables: Tables)
    ensures var e := Rising(tables);
      |e.voices| == 1 && e.panel == Slow() && e.voices[0].env == Env(0x1000, ATTACK) && e.voices[0].level == PEAK
  {
    var e1 := PerSample(Fresh(1), tables, Sent(OP_SET_ATTACK, 0x1000));
    PerSampleFits(Fresh(1), tables, Sent(OP_SET_ATTACK, 0x1000));
    OneVoice(Fresh(1), tables, Sent(OP_SET_ATTACK, 0x1000));
    OneVoice(e1, tables, Sent(OP_NOTE_ON, 1));
    StepIs(Env(0, ATTACK), PEAK, Slow());
  }

  /** Raising the rate to its highest wraps the sum, and the note falls. */
  lemma AttackFallsByRate(tables: Tables)
    ensures PerSample(Rising(tables), tables, Sent(OP_SET_ATTACK, TWO24 - 1)).voices[0].env == Env(0xFFF, ATTACK)
  {
    RisingIs(tables);
    OneVoice(Rising(tables), tables, Sent(OP_SET_ATTACK, TWO24 - 1));
    StepIs(Env(0x1000, ATTACK), PEAK, Slow().(attack := TWO24 - 1));
  }

  /** Lowering the note's level below what it has reached cuts it to the new peak. */
  lemma AttackFallsByLevel(tables: Tables)
    ensures PerSample(Rising(tables), tables, Sent(OP_SET_AMP, 1)).voices[0].env == Env(SHIFT, DECAY)
  {
    RisingIs(tables);
    OneVoice(Rising(tables), tables, Sent(OP_SET_AMP, 1));
    StepIs(Env(0x1000, ATTACK), 1, Slow());
  }
}
