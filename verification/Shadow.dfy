/** The firmware's picture of the voices against the voices themselves. The firmware never hears back from the
    engine; still, once the engine has been given every word the firmware pushed, each voice is in the phase the
    firmware has it in. */
module Shadow {
  import opened Words
  import opened Placement
  import opened Schedule
  import opened Simulation
  import V = Voices
  import Env = Envelope
  import Voicing
  import W = VoiceWalk

  // ---------- what the words alone say ----------

  /** A voice as the firmware pictures it, but for the stamp. */
  datatype Shade = Shade(phase: V.Phase, step: u32)

  const BLANK := Shade(V.Idle, 0)
  const QUIET := [BLANK, BLANK, BLANK, BLANK, BLANK, BLANK, BLANK, BLANK]

  type Shades = ps: seq<Shade> | |ps| == VOICE_COUNT witness QUIET

  /** The voices after one word: a note names its voice, and a reset is for all of them. */
  function Told(ps: Shades, w: Command): Shades {
    if w.opcode == OP_RESET then QUIET
    else if w.voice >= VOICE_COUNT then ps
    else if w.opcode == OP_NOTE_ON then ps[w.voice := Shade(V.Sounding, w.value)]
    else if w.opcode == OP_NOTE_OFF && ps[w.voice].phase == V.Sounding then ps[w.voice := ps[w.voice].(phase := V.Releasing)]
    else ps
  }

  function AllTold(ps: Shades, ws: seq<Command>): Shades
    decreases |ws|
  {
    if ws == [] then ps else AllTold(Told(ps, ws[0]), ws[1..])
  }

  lemma {:induction false} ToldAppend(ps: Shades, p: seq<Command>, q: seq<Command>)
    ensures AllTold(ps, p + q) == AllTold(AllTold(ps, p), q)
    decreases |p|
  {
    if p == [] {
      assert p + q == q;
    } else {
      assert (p + q)[1..] == p[1..] + q;
      ToldAppend(Told(ps, p[0]), p[1..], q);
    }
  }

  lemma ToldOne(ps: Shades, w: Command)
    ensures AllTold(ps, [w]) == Told(ps, w)
  {
    assert [w][1..] == [];
  }

  // ---------- the firmware pushes what it believes ----------

  function ShadesOf(b: SaneBank): Shades
    requires b.Stamped?
  {
    seq(VOICE_COUNT, v requires 0 <= v < VOICE_COUNT => Shade(b.voices[v].phase, b.voices[v].step))
  }

  lemma {:induction false} OthersTellNothing(ps: Shades, ws: seq<Command>)
    requires forall i :: 0 <= i < |ws| ==> !IsNote(ws[i]) && ws[i].opcode != OP_RESET
    ensures AllTold(ps, ws) == ps
    decreases |ws|
  {
    if ws != [] { OthersTellNothing(ps, ws[1..]); }
  }

  /** One command: the words pushed for it change the phases as the bank changes. */
  lemma PlacedIsTold(b: SaneBank, c: Command)
    requires b.Stamped? && c.opcode != OP_RESET
    ensures Apply(b, c).0.Stamped? && ShadesOf(Apply(b, c).0) == AllTold(ShadesOf(b), Apply(b, c).1)
  {
    if IsNote(c) {
      NoteGoesToTarget(b, c);
      if Target(b, c).Some? {
        var v := Target(b, c).value;
        StampedNoteMovesOne(b, c, v);
        ToldOne(ShadesOf(b), c.(voice := v));
      }
    } else {
      OtherLeavesBank(b, b, c);
      OthersTellNothing(ShadesOf(b), Apply(b, c).1);
    }
  }

  /** A bank goes from one to another as the words pushed on the way say. */
  ghost predicate Pictures(b: SaneBank, out: seq<Command>, b': SaneBank) {
    b.Stamped? && b'.Stamped? && ShadesOf(b') == AllTold(ShadesOf(b), out)
  }

  lemma PicturesOn(b: SaneBank, p: seq<Command>, b': SaneBank, q: seq<Command>, b'': SaneBank)
    requires Pictures(b, p, b') && Pictures(b', q, b'')
    ensures Pictures(b, p + q, b'')
  {
    ToldAppend(ShadesOf(b), p, q);
  }

  lemma {:induction false} DispatchIsTold(s: State<SaneBank>, now: u32, n: nat)
    requires s.bank.Stamped? && HoldsOnlySchedulable(s.queue)
    ensures var (t, out) := Dispatch(ByStamps(), s, now, n); Pictures(s.bank, out, t.bank)
    decreases |s.queue|
  {
    if !Stops(s, now, n) {
      var (t, out) := Pop(ByStamps(), s, now);
      var (u, rest) := Dispatch(ByStamps(), t, now, n + |out|);
      PlacedIsTold(s.bank, Head(s, now));
      DispatchIsTold(t, now, n + |out|);
      PicturesOn(s.bank, out, t.bank, rest, u.bank);
    }
  }

  lemma StepIsTold(s: State<SaneBank>, op: Op)
    requires s.bank.Stamped? && Invariant(s.queue)
    ensures var (t, out) := Step(ByStamps(), s, op); Invariant(t.queue) && Pictures(s.bank, out, t.bank)
  {
    match op
    case Clock(now) =>
      DispatchIsTold(s, now, 0);
      DispatchKeepsInvariant(ByStamps(), s, now, 0);
    case Host(c) =>
      ReceiveKeepsInvariant(ByStamps(), s, c);
      if c.opcode == OP_RESET {
        ToldOne(ShadesOf(s.bank), c);
        assert ShadesOf(V.Blank()) == QUIET;
      } else {
        PlacedIsTold(s.bank, c);
      }
  }

  /** Over any run, resets included, the firmware's picture is what the words it has pushed say. */
  lemma {:induction false} RunIsTold(s: State<SaneBank>, ops: seq<Op>)
    requires s.bank.Stamped? && Invariant(s.queue)
    ensures var (t, out) := Run(ByStamps(), s, ops); Pictures(s.bank, out, t.bank)
    decreases |ops|
  {
    if ops != [] {
      var (t, out) := Step(ByStamps(), s, ops[0]);
      var (u, rest) := Run(ByStamps(), t, ops[1..]);
      StepIsTold(s, ops[0]);
      RunIsTold(t, ops[1..]);
      PicturesOn(s.bank, out, t.bank, rest, u.bank);
    }
  }

  // ---------- the engine does what it is told ----------

  /** An envelope as a phase would have it. */
  predicate Agrees(p: V.Phase, e: Env.Env) {
    match p
    case Sounding => e.stage in {Env.ATTACK, Env.DECAY, Env.SUSTAIN}
    case Releasing => e.stage in {Env.RELEASE, Env.IDLE}
    case Idle => e == Env.Env(0, Env.IDLE)
  }

  ghost predicate Mirrors(ps: Shades, e: Voicing.Engine) {
    && Voicing.Fits(e) && |e.voices| == VOICE_COUNT
    && forall v :: 0 <= v < VOICE_COUNT ==> Agrees(ps[v].phase, e.voices[v].env)
  }

  /** At power-on nothing sounds. */
  lemma PoweredOnMirrors()
    ensures Mirrors(QUIET, W.PoweredOn(VOICE_COUNT).engine) && InTune(QUIET, W.PoweredOn(VOICE_COUNT).engine)
  {
  }

  function AfterBeat(ps: Shades, c: Option<Command>): Shades { if c.Some? then Told(ps, c.value) else ps }

  lemma StepAgrees(p: V.Phase, e: Env.Env, level: nat, g: Env.Panel)
    requires e.value <= Env.SUMMIT && level <= Env.PEAK && Env.PanelFits(g)
    requires Agrees(p, e) || (p == V.Idle && e.value == 0 && e.stage == Env.RELEASE)
    ensures Agrees(p, Env.Stepped(e, level, g))
  {
    Env.StepIs(e, level, g);
  }

  /** One voice through one sample. */
  lemma VoiceMirrors(ps: Shades, v: nat, w: Voicing.Voice, c: Option<Command>, g: Env.Panel)
    requires v < VOICE_COUNT && Voicing.VoiceFits(w) && Env.PanelFits(g) && Agrees(ps[v].phase, w.env)
    requires c.Some? ==> c.value.opcode != OP_RESET
    ensures Agrees(AfterBeat(ps, c)[v].phase, Voicing.Done(w, v, c, g).env)
  {
    var h := Voicing.Heard(w, v, c);
    StepAgrees(AfterBeat(ps, c)[v].phase, h.env, h.level, g);
  }

  lemma SilencedMirrors(ps: Shades, v: nat, w: Voicing.Voice, c: Command, g: Env.Panel)
    requires v < VOICE_COUNT && Voicing.VoiceFits(w) && Env.PanelFits(g) && c.opcode == OP_RESET
    ensures Agrees(Told(ps, c)[v].phase, Voicing.Done(Voicing.Silenced(w), v, Some(c), g).env)
  {
    StepAgrees(V.Idle, Env.Env(0, Env.IDLE), w.level, g);
  }

  lemma SampleMirrors(ps: Shades, e: Voicing.Engine, tables: Voicing.Tables, c: Option<Command>)
    requires Mirrors(ps, e)
    ensures Mirrors(AfterBeat(ps, c), Voicing.PerSample(e, tables, c))
  {
    Voicing.PerSampleFits(e, tables, c);
    Voicing.VoicesForFit(e, c);
    var g := Voicing.PanelFor(e, c);
    forall v | 0 <= v < VOICE_COUNT
      ensures Agrees(AfterBeat(ps, c)[v].phase, Voicing.PerSample(e, tables, c).voices[v].env)
    {
      if c.Some? && c.value.opcode == OP_RESET {
        SilencedMirrors(ps, v, e.voices[v], c.value, g);
      } else {
        VoiceMirrors(ps, v, e.voices[v], c, g);
      }
    }
  }

  /** The commands a performance brings. */
  function Brought(beats: seq<W.Beat>): seq<Command> {
    if beats == [] then [] else (if beats[0].command.Some? then [beats[0].command.value] else []) + Brought(beats[1..])
  }

  /** However the words are spread over samples, the engine ends in the phases they say. */
  lemma {:induction false} MeantMirrors(ps: Shades, e: Voicing.Engine, tables: Voicing.Tables, beats: seq<W.Beat>)
    requires Mirrors(ps, e)
    ensures Mirrors(AllTold(ps, Brought(beats)), W.Meant(e, tables, beats))
    decreases |beats|
  {
    if beats != [] {
      var c := beats[0].command;
      SampleMirrors(ps, e, tables, c);
      MeantMirrors(AfterBeat(ps, c), Voicing.PerSample(e, tables, c), tables, beats[1..]);
      if c.Some? {
        assert ([c.value] + Brought(beats[1..]))[1..] == Brought(beats[1..]);
      } else {
        NothingFirst(Brought(beats[1..]));
      }
    }
  }

  /** And at the steps they say, as long as none of them retunes a voice. */
  predicate InTune(ps: Shades, e: Voicing.Engine) {
    |e.voices| == VOICE_COUNT && forall v :: 0 <= v < VOICE_COUNT ==> e.voices[v].step == ps[v].step
  }

  lemma SampleInTune(ps: Shades, e: Voicing.Engine, tables: Voicing.Tables, c: Option<Command>)
    requires Voicing.Fits(e) && InTune(ps, e) && (c.Some? ==> c.value.opcode != OP_SET_FREQ)
    ensures InTune(AfterBeat(ps, c), Voicing.PerSample(e, tables, c))
  {
  }

  lemma {:induction false} MeantInTune(ps: Shades, e: Voicing.Engine, tables: Voicing.Tables, beats: seq<W.Beat>)
    requires Voicing.Fits(e) && InTune(ps, e) && forall w :: w in Brought(beats) ==> w.opcode != OP_SET_FREQ
    ensures InTune(AllTold(ps, Brought(beats)), W.Meant(e, tables, beats))
    decreases |beats|
  {
    if beats != [] {
      var c, rest := beats[0].command, Brought(beats[1..]);
      assert forall w :: w in rest ==> w in Brought(beats);
      assert c.Some? ==> c.value in Brought(beats);
      Voicing.PerSampleFits(e, tables, c);
      SampleInTune(ps, e, tables, c);
      MeantInTune(AfterBeat(ps, c), Voicing.PerSample(e, tables, c), tables, beats[1..]);
      if c.Some? {
        assert ([c.value] + rest)[1..] == rest;
      } else {
        NothingFirst(rest);
      }
    }
  }

  /** From power-on, once the words of any run of the firmware have been applied in order, each at its own sample:
      every voice of the engine is in the phase in which the firmware has it. */
  lemma ShadowIsTrue(ops: seq<Op>, e: Voicing.Engine, tables: Voicing.Tables, beats: seq<W.Beat>)
    requires Mirrors(QUIET, e) && Brought(beats) == Run(ByStamps(), Start(ByStamps()), ops).1
    ensures Run(ByStamps(), Start(ByStamps()), ops).0.bank.Stamped?
    ensures Mirrors(ShadesOf(Run(ByStamps(), Start(ByStamps()), ops).0.bank), W.Meant(e, tables, beats))
  {
    assert ShadesOf(V.Blank()) == QUIET;
    RunIsTold(Start(ByStamps()), ops);
    MeantMirrors(QUIET, e, tables, beats);
  }
}
