/** What each command does to the sound, of the engine as it is built: which setting of the panel it turns and what that
    does to a note, what it does to the voice it names, and which sample is heard.

    Everything is said of whole performances, in terms of the registers before and after. */
module Settings {
  import opened Words
  import opened Envelope
  import Mix
  import opened Voicing
  import opened VoiceWalk

  /** A command that is neither for the whole engine nor for voice `i`. */
  predicate LeavesAlone(c: Option<Command>, i: nat) {
    c.Some? ==>
      && c.value.voice != i
      && c.value.opcode !in {OP_RESET, OP_SET_ATTACK, OP_SET_DECAY, OP_SET_SUSTAIN, OP_SET_RELEASE, OP_SET_MASTER}
  }

  predicate Undisturbed(beats: seq<Beat>, i: nat) { forall t :: t in beats ==> LeavesAlone(t.command, i) }

  /** Strobes no closer than a walk takes. */
  predicate Apart(beats: seq<Beat>, voices: nat) { forall t :: t in beats ==> t.clocks >= 2 * voices }

  /** Between two samples. */
  predicate Ready(b: Bank) { Runnable(b) && Quiet(b) }

  // ---------- a voice left alone ----------

  lemma SampleLeft(e: Engine, tables: Tables, c: Option<Command>, i: nat)
    requires Fits(e) && i < |e.voices| && LeavesAlone(c, i)
    ensures var e' := PerSample(e, tables, c);
      Fits(e') && |e'.voices| == |e.voices| && e'.panel == e.panel && e'.voices[i] == Played(e.voices[i], e.panel)
  {
    PerSampleFits(e, tables, c);
  }

  /** A phase that moves on by its step each sample. */
  lemma PhaseMovesOn(phase: u32, step: u32, n: nat)
    ensures (Plus(phase, step) + n * step) % TWO32 == (phase + (n + 1) * step) % TWO32
  {
    Distribute(n, step);
    var far: int := phase + (n + 1) * step;
    if phase + step >= TWO32 {
      assert Plus(phase, step) + n * step == far - TWO32;
      assert (far - TWO32) % TWO32 == far % TWO32;
    }
  }

  /** A voice some samples on. */
  ghost predicate WentOn(v: Voice, v': Voice, g: Panel, n: nat) {
    && v'.step == v.step && v'.wave == v.wave && v'.level == v.level
    && v'.phase == (v.phase + n * v.step) % TWO32
    && v'.env == Steps(v.env, v.level, g, n)
  }

  lemma WentOnFirst(v: Voice, v': Voice, g: Panel, n: nat)
    requires WentOn(Played(v, g), v', g, n)
    ensures WentOn(v, v', g, n + 1)
  {
    PhaseMovesOn(v.phase, v.step, n);
  }

  ghost predicate LeftTo(e: Engine, e': Engine, n: nat, i: nat) {
    && |e'.voices| == |e.voices| && e'.panel == e.panel
    && (i < |e.voices| ==> WentOn(e.voices[i], e'.voices[i], e.panel, n))
  }

  lemma LeftFirst(e: Engine, e1: Engine, e': Engine, n: nat, i: nat)
    requires |e1.voices| == |e.voices| && e1.panel == e.panel
    requires i < |e.voices| && e1.voices[i] == Played(e.voices[i], e.panel)
    requires LeftTo(e1, e', n, i)
    ensures LeftTo(e, e', n + 1, i)
  {
    WentOnFirst(e.voices[i], e'.voices[i], e.panel, n);
  }

  lemma {:induction false} MeantLeft(e: Engine, tables: Tables, beats: seq<Beat>, i: nat)
    requires Fits(e) && i < |e.voices| && Undisturbed(beats, i)
    ensures LeftTo(e, Meant(e, tables, beats), |beats|, i)
    decreases |beats|
  {
    if beats != [] {
      assert beats[0] in beats;
      SampleLeft(e, tables, beats[0].command, i);
      MeantLeft(PerSample(e, tables, beats[0].command), tables, beats[1..], i);
      LeftFirst(e, PerSample(e, tables, beats[0].command), Meant(e, tables, beats), |beats| - 1, i);
    }
  }

  /** After one beat, left alone. */
  lemma MeantFrom(e: Engine, tables: Tables, first: Beat, beats: seq<Beat>, i: nat)
    requires Fits(e) && i < |e.voices| && Undisturbed(beats, i)
    ensures var e1, e' := PerSample(e, tables, first.command), Meant(e, tables, [first] + beats);
      && |e'.voices| == |e1.voices| == |e.voices| && e'.panel == e1.panel
      && WentOn(e1.voices[i], e'.voices[i], e1.panel, |beats|)
  {
    PerSampleFits(e, tables, first.command);
    assert ([first] + beats)[1..] == beats;
    MeantLeft(PerSample(e, tables, first.command), tables, beats, i);
  }

  // ---------- envelopes, at any sample ----------

  lemma {:induction false} DecayCurve(from: nat, level: nat, g: Panel, n: nat)
    requires from <= SUMMIT && level <= PEAK && PanelFits(g) && n > 0
    ensures var floor := SHIFT * Min(level, g.sustain);
      Steps(Env(from, DECAY), level, g, n) ==
      if from - n * g.decay > floor then Env(from - n * g.decay, DECAY) else Env(floor, SUSTAIN)
    decreases n
  {
    var floor := SHIFT * Min(level, g.sustain);
    StepIs(Env(from, DECAY), level, g);
    Distribute(n - 1, g.decay);
    Monotone(0, n - 1, g.decay);
    if from - g.decay <= floor {
      Sustains(level, g, n - 1);
    } else if n > 1 {
      DecayCurve(from - g.decay, level, g, n - 1);
    }
  }

  lemma {:induction false} IdleStays(level: nat, g: Panel, n: nat)
    ensures Steps(Env(0, IDLE), level, g, n) == Env(0, IDLE)
    decreases n
  {
    if n > 0 {
      IdleStays(level, g, n - 1);
    }
  }

  lemma {:induction false} ReleaseCurve(from: nat, level: nat, g: Panel, n: nat)
    requires from <= SUMMIT && level <= PEAK && PanelFits(g) && n > 0
    ensures Steps(Env(from, RELEASE), level, g, n) ==
            if from > n * g.release then Env(from - n * g.release, RELEASE) else Env(0, IDLE)
    decreases n
  {
    StepIs(Env(from, RELEASE), level, g);
    Distribute(n - 1, g.release);
    Monotone(0, n - 1, g.release);
    if from <= g.release {
      IdleStays(level, g, n - 1);
    } else if n > 1 {
      ReleaseCurve(from - g.release, level, g, n - 1);
    }
  }

  lemma AttackCurve(level: nat, g: Panel, n: nat)
    requires level <= PEAK && PanelFits(g) && n > 0
    ensures n * g.attack < SHIFT * level ==> Steps(Env(0, ATTACK), level, g, n) == Env(n * g.attack, ATTACK)
    ensures (n == 1 || (n - 1) * g.attack < SHIFT * level) && SHIFT * level <= n * g.attack ==>
              Steps(Env(0, ATTACK), level, g, n) == Env(SHIFT * level, DECAY)
  {
    var top := SHIFT * level;
    Distribute(n - 1, g.attack);
    if n * g.attack < top {
      AttackRises(0, n, level, g);
    } else if n == 1 || (n - 1) * g.attack < top {
      if n > 1 {
        RateIsLess(n, g.attack, top);
      }
      AttackRises(0, n - 1, level, g);
      StepsSplit(Env(0, ATTACK), level, g, n - 1, 1);
      LastRise((n - 1) * g.attack, level, g);
    }
  }

  // ---------- the panel ----------

  /** A setting turned: what a note does from then on is what it does at the new setting. */
  lemma SampleTurned(e: Engine, tables: Tables, c: Command, i: nat)
    requires Fits(e) && i < |e.voices|
    requires c.opcode in {OP_SET_ATTACK, OP_SET_DECAY, OP_SET_SUSTAIN, OP_SET_RELEASE, OP_SET_MASTER}
    ensures var e' := PerSample(e, tables, Some(c));
      e'.panel == Turned(e.panel, c) && e'.voices[i] == Played(e.voices[i], e'.panel)
  {
  }

  lemma LeftSteps(v: Voice, v': Voice, g: Panel, n: nat)
    requires WentOn(Played(v, g), v', g, n)
    ensures v'.env == Steps(v.env, v.level, g, n + 1) && v'.level == v.level
  {
    WentOnFirst(v, v', g, n);
  }

  /** A command, and a performance in which nothing after it concerns voice `i`. */
  ghost predicate Heeds(b: Bank, c: Command, k: nat, beats: seq<Beat>, i: nat) {
    Ready(b) && i < |b.engine.voices| && Apart([Beat(Some(c), k)] + beats, |b.engine.voices|) && Undisturbed(beats, i)
  }

  function After(b: Bank, tables: Tables, c: Command, k: nat, beats: seq<Beat>): Engine
    requires Runnable(b)
  {
    Performed(b, tables, [Beat(Some(c), k)] + beats).engine
  }

  lemma TurnedAndLeft(b: Bank, tables: Tables, c: Command, k: nat, beats: seq<Beat>, i: nat)
    requires Heeds(b, c, k, beats, i)
    requires c.opcode in {OP_SET_ATTACK, OP_SET_DECAY, OP_SET_SUSTAIN, OP_SET_RELEASE, OP_SET_MASTER}
    ensures var e, e' := b.engine, After(b, tables, c, k, beats);
      && |e'.voices| == |e.voices| && e'.panel == Turned(e.panel, c) && PanelFits(e'.panel) && VoiceFits(e.voices[i])
      && e'.voices[i].env == Steps(e.voices[i].env, e.voices[i].level, e'.panel, |beats| + 1)
  {
    var first := Beat(Some(c), k);
    PerformanceIsMeant(b, tables, [first] + beats);
    SampleTurned(b.engine, tables, c, i);
    PerSampleFits(b.engine, tables, Some(c));
    MeantFrom(b.engine, tables, first, beats, i);
    var v' := Meant(b.engine, tables, [first] + beats).voices[i];
    LeftSteps(b.engine.voices[i], v', Turned(b.engine.panel, c), |beats|);
  }

  /** The decay rate: a note past its peak falls by it every sample, to the panel's sustain level or its own peak,
      whichever is lower. No other setting moves. */
  lemma DecayIsSet(b: Bank, tables: Tables, c: Command, k: nat, beats: seq<Beat>, i: nat)
    requires Heeds(b, c, k, beats, i) && c.opcode == OP_SET_DECAY
    ensures var g, g' := b.engine.panel, After(b, tables, c, k, beats).panel;
      g' == Panel(g.attack, c.value % 0x100_0000, g.release, g.sustain, g.master)
    ensures var v, vs, n := b.engine.voices[i], After(b, tables, c, k, beats).voices, |beats| + 1;
      var rate, floor := c.value % 0x100_0000, 0x100 * Min(v.level, b.engine.panel.sustain);
      i < |vs| && (v.env.stage == DECAY ==>
        vs[i].env == if v.env.value - n * rate > floor then Env(v.env.value - n * rate, DECAY) else Env(floor, SUSTAIN))
  {
    var v := b.engine.voices[i];
    TurnedAndLeft(b, tables, c, k, beats, i);
    DecayCurve(v.env.value, v.level, After(b, tables, c, k, beats).panel, |beats| + 1);
  }

  /** The sustain level: a held note rests at it, or at its own peak when that is lower, and one still in its decay
      falls there. */
  lemma SustainIsSet(b: Bank, tables: Tables, c: Command, k: nat, beats: seq<Beat>, i: nat)
    requires Heeds(b, c, k, beats, i) && c.opcode == OP_SET_SUSTAIN
    ensures var g, g' := b.engine.panel, After(b, tables, c, k, beats).panel;
      g' == Panel(g.attack, g.decay, g.release, Min(c.value % 0x1_0000, 0x7FFF), g.master)
    ensures var v, vs, n := b.engine.voices[i], After(b, tables, c, k, beats).voices, |beats| + 1;
      var rate, floor := b.engine.panel.decay, 0x100 * Min(v.level, Min(c.value % 0x1_0000, 0x7FFF));
      && i < |vs|
      && (v.env.stage == SUSTAIN ==> vs[i].env == Env(floor, SUSTAIN))
      && (v.env.stage == DECAY ==>
        vs[i].env == if v.env.value - n * rate > floor then Env(v.env.value - n * rate, DECAY) else Env(floor, SUSTAIN))
  {
    var v, g' := b.engine.voices[i], After(b, tables, c, k, beats).panel;
    TurnedAndLeft(b, tables, c, k, beats, i);
    DecayCurve(v.env.value, v.level, g', |beats| + 1);
    Sustains(v.level, g', |beats|);
  }

  /** What the panel is turned to, one setting at a time. */
  lemma ReleaseTurned(b: Bank, tables: Tables, c: Command, k: nat, beats: seq<Beat>, i: nat)
    requires Heeds(b, c, k, beats, i) && c.opcode == OP_SET_RELEASE
    ensures var g, g' := b.engine.panel, After(b, tables, c, k, beats).panel;
      g' == Panel(g.attack, g.decay, c.value % 0x100_0000, g.sustain, g.master)
  {
    TurnedAndLeft(b, tables, c, k, beats, i);
  }

  lemma AttackTurned(b: Bank, tables: Tables, c: Command, k: nat, beats: seq<Beat>, i: nat)
    requires Heeds(b, c, k, beats, i) && c.opcode == OP_SET_ATTACK
    ensures var g, g' := b.engine.panel, After(b, tables, c, k, beats).panel;
      g' == Panel(c.value % 0x100_0000, g.decay, g.release, g.sustain, g.master)
  {
    TurnedAndLeft(b, tables, c, k, beats, i);
  }

  lemma MasterTurned(b: Bank, tables: Tables, c: Command, k: nat, beats: seq<Beat>, i: nat)
    requires Heeds(b, c, k, beats, i) && c.opcode == OP_SET_MASTER
    ensures var g, g' := b.engine.panel, After(b, tables, c, k, beats).panel;
      g' == Panel(g.attack, g.decay, g.release, g.sustain, Min(c.value % 0x1_0000, 0x7FFF))
  {
    TurnedAndLeft(b, tables, c, k, beats, i);
  }

  // ---------- the voice a command names ----------

  lemma NamedAndLeft(b: Bank, tables: Tables, c: Command, k: nat, beats: seq<Beat>, i: nat)
    requires Heeds(b, c, k, beats, i) && c.voice == i
    requires c.opcode !in {OP_RESET, OP_SET_ATTACK, OP_SET_DECAY, OP_SET_SUSTAIN, OP_SET_RELEASE, OP_SET_MASTER}
    ensures var e, e' := b.engine, After(b, tables, c, k, beats);
      && |e'.voices| == |e.voices| && e'.panel == e.panel && PanelFits(e.panel) && VoiceFits(e.voices[i])
      && WentOn(Commanded(e.voices[i], c), e'.voices[i], e.panel, |beats| + 1)
  {
    var first, e := Beat(Some(c), k), b.engine;
    PerformanceIsMeant(b, tables, [first] + beats);
    MeantFrom(e, tables, first, beats, i);
    assert PerSample(e, tables, Some(c)).voices[i] == Played(Commanded(e.voices[i], c), e.panel);
    WentOnFirst(Commanded(e.voices[i], c), Meant(e, tables, [first] + beats).voices[i], e.panel, |beats|);
  }

  /** A voice's pitch, wave and peak after some samples. */
  predicate HasRegisters(v: Voice, phase: int, step: u32, wave: nat, level: nat) {
    v.phase == phase % 0x1_0000_0000 && v.step == step && v.wave == wave && v.level == level
  }

  /** A note-on: the voice runs from where it was at the new step, its envelope from silence at the attack rate to
      its own peak. */
  lemma NoteBegins(b: Bank, tables: Tables, c: Command, k: nat, beats: seq<Beat>, i: nat)
    requires Heeds(b, c, k, beats, i) && c.opcode == OP_NOTE_ON && c.voice == i
    ensures var v, e', n := b.engine.voices[i], After(b, tables, c, k, beats), |beats| + 1;
      var rate, peak := b.engine.panel.attack, 0x100 * v.level;
      && i < |e'.voices| && e'.panel == b.engine.panel
      && HasRegisters(e'.voices[i], v.phase + n * c.value, c.value, v.wave, v.level)
      && (n * rate < peak ==> e'.voices[i].env == Env(n * rate, ATTACK))
      && ((n == 1 || (n - 1) * rate < peak) && peak <= n * rate ==> e'.voices[i].env == Env(peak, DECAY))
  {
    NamedAndLeft(b, tables, c, k, beats, i);
    AttackCurve(b.engine.voices[i].level, b.engine.panel, |beats| + 1);
  }

  /** A note-off: whatever the envelope was doing, it falls by the release rate to silence. */
  lemma NoteEnds(b: Bank, tables: Tables, c: Command, k: nat, beats: seq<Beat>, i: nat)
    requires Heeds(b, c, k, beats, i) && c.opcode == OP_NOTE_OFF && c.voice == i
    ensures var v, e', n := b.engine.voices[i], After(b, tables, c, k, beats), |beats| + 1;
      var fallen := n * b.engine.panel.release;
      && i < |e'.voices| && e'.panel == b.engine.panel
      && HasRegisters(e'.voices[i], v.phase + n * v.step, v.step, v.wave, v.level)
      && e'.voices[i].env == if v.env.value > fallen then Env(v.env.value - fallen, RELEASE) else Env(0, IDLE)
  {
    var v := b.engine.voices[i];
    NamedAndLeft(b, tables, c, k, beats, i);
    ReleaseCurve(v.env.value, v.level, b.engine.panel, |beats| + 1);
  }

  /** The other three change one register each, and the envelope goes on as it was. */
  lemma VoiceIsSet(b: Bank, tables: Tables, c: Command, k: nat, beats: seq<Beat>, i: nat)
    requires Heeds(b, c, k, beats, i) && c.voice == i && c.opcode in {OP_SET_FREQ, OP_SET_WAVE, OP_SET_AMP}
    ensures var v, e', n := b.engine.voices[i], After(b, tables, c, k, beats), |beats| + 1;
      && i < |e'.voices| && e'.panel == b.engine.panel
      && (c.opcode == OP_SET_FREQ ==> HasRegisters(e'.voices[i], v.phase + n * c.value, c.value, v.wave, v.level))
      && (c.opcode == OP_SET_WAVE ==> HasRegisters(e'.voices[i], v.phase + n * v.step, v.step, c.value % 4, v.level))
      && (c.opcode == OP_SET_AMP ==>
            HasRegisters(e'.voices[i], v.phase + n * v.step, v.step, v.wave, Min(c.value % 0x1_0000, 0x7FFF)))
      && e'.voices[i].env == Steps(v.env, e'.voices[i].level, b.engine.panel, n)
  {
    NamedAndLeft(b, tables, c, k, beats, i);
  }

  // ---------- rates, from the knob to the note ----------

  /** The attack rate: turned, then a note, and the note rises by it every sample. */
  lemma AttackIsSet(b: Bank, tables: Tables, c: Command, k: nat, on: Command, k': nat, beats: seq<Beat>, i: nat)
    requires Heeds(b, c, k, [], i) && c.opcode == OP_SET_ATTACK && on.opcode == OP_NOTE_ON && on.voice == i
    requires var b1 := Performed(b, tables, [Beat(Some(c), k)]); Heeds(b1, on, k', beats, i)
    ensures var b1 := Performed(b, tables, [Beat(Some(c), k)]);
      var v, vs, n := b1.engine.voices[i], After(b1, tables, on, k', beats).voices, |beats| + 1;
      var rate, peak := c.value % 0x100_0000, 0x100 * v.level;
      && i < |vs|
      && (n * rate < peak ==> vs[i].env == Env(n * rate, ATTACK))
      && ((n == 1 || (n - 1) * rate < peak) && peak <= n * rate ==> vs[i].env == Env(peak, DECAY))
  {
    assert [Beat(Some(c), k)] + [] == [Beat(Some(c), k)];
    AttackTurned(b, tables, c, k, [], i);
    NoteBegins(Performed(b, tables, [Beat(Some(c), k)]), tables, on, k', beats, i);
  }

  /** The release rate: turned, then a note let go, and it is idle once the rate has covered what it stood at, and
      not before. */
  lemma ReleaseIsSet(b: Bank, tables: Tables, c: Command, k: nat, off: Command, k': nat, beats: seq<Beat>, i: nat)
    requires Heeds(b, c, k, [], i) && c.opcode == OP_SET_RELEASE && off.opcode == OP_NOTE_OFF && off.voice == i
    requires var b1 := Performed(b, tables, [Beat(Some(c), k)]); Heeds(b1, off, k', beats, i)
    ensures var b1 := Performed(b, tables, [Beat(Some(c), k)]);
      var v, vs := b1.engine.voices[i], After(b1, tables, off, k', beats).voices;
      var fallen := (|beats| + 1) * (c.value % 0x100_0000);
      i < |vs| && vs[i].env == if v.env.value > fallen then Env(v.env.value - fallen, RELEASE) else Env(0, IDLE)
  {
    assert [Beat(Some(c), k)] + [] == [Beat(Some(c), k)];
    ReleaseTurned(b, tables, c, k, [], i);
    NoteEnds(Performed(b, tables, [Beat(Some(c), k)]), tables, off, k', beats, i);
  }

  // ---------- the sample heard ----------

  function Total(terms: seq<int>): int { if terms == [] then 0 else Total(terms[..|terms| - 1]) + terms[|terms| - 1] }

  function Distance(x: int, y: int): nat { if x >= y then x - y else y - x }

  /** A value of sixteen signed bits, and none of them closer. */
  ghost predicate Nearest(sample: int, x: int) {
    -0x8000 <= sample < 0x8000 && forall y :: -0x8000 <= y < 0x8000 ==> Distance(x, sample) <= Distance(x, y)
  }

  /** What a voice adds: the entry of its own wave's table under the top eleven bits of its phase, at the top sixteen
      bits of its envelope. */
  predicate Adds(term: int, tables: Tables, v: Voice) {
    var place := 0x800 * v.wave + v.phase / 0x20_0000;
    place < |tables| && term == tables[place] * (v.env.value / 0x100) / 0x8000
  }

  ghost predicate AllAdd(terms: seq<int>, tables: Tables, vs: seq<Voice>) {
    |terms| == |vs| && forall i :: 0 <= i < |vs| ==> Adds(terms[i], tables, vs[i])
  }

  lemma ContributionAdds(tables: Tables, v: Voice)
    requires VoiceFits(v)
    ensures Adds(Mix.Contribution(Entry(tables, v), Level(v)), tables, v)
  {
  }

  lemma {:induction false} ChordIsTotal(tables: Tables, vs: seq<Voice>) returns (terms: seq<int>)
    requires AllFit(vs)
    ensures AllAdd(terms, tables, vs) && Chord(tables, vs) == Total(terms)
    decreases |vs|
  {
    if vs == [] {
      terms := [];
    } else {
      var v := vs[|vs| - 1];
      var before := ChordIsTotal(tables, vs[..|vs| - 1]);
      ContributionAdds(tables, v);
      terms := before + [Mix.Contribution(Entry(tables, v), Level(v))];
      assert terms[..|terms| - 1] == before;
    }
  }

  lemma ClampIsNearest(x: int)
    ensures Nearest(Mix.Clamp(x), x)
  {
  }

  lemma OutputHeard(tables: Tables, vs: seq<Voice>, master: nat) returns (terms: seq<int>)
    requires AllFit(vs)
    ensures AllAdd(terms, tables, vs) && Nearest(Mix.Output(Chord(tables, vs), master), Total(terms) * master / 0x8000)
  {
    terms := ChordIsTotal(tables, vs);
    ClampIsNearest(Total(terms) * master / 0x8000);
  }

  /** The master level a sample is heard at. */
  lemma MasterFor(e: Engine, c: Option<Command>)
    ensures PanelFor(e, c).master ==
            if c.Some? && c.value.opcode == OP_SET_MASTER then Min(c.value.value % 0x1_0000, 0x7FFF) else e.panel.master
  {
  }

  /** The sample a strobe brings: every voice as it stood when the strobe came, whatever the command does to it, at the
      master level the command leaves, kept within sixteen bits. */
  lemma SampleHeard(b: Bank, tables: Tables, c: Option<Command>, k: nat) returns (terms: seq<int>)
    requires Ready(b) && k >= 2 * |b.engine.voices| && (c.Some? ==> c.value.opcode != OP_RESET)
    ensures AllAdd(terms, tables, b.engine.voices)
    ensures var turned := c.Some? && c.value.opcode == OP_SET_MASTER;
      var master := if turned then Min(c.value.value % 0x1_0000, 0x7FFF) else b.engine.panel.master;
      Nearest(Period(b, tables, c, k).engine.sample, Total(terms) * master / 0x8000)
  {
    PeriodIsSample(b, tables, c, k);
    MasterFor(b.engine, c);
    terms := OutputHeard(tables, b.engine.voices, PanelFor(b.engine, c).master);
    assert VoicesFor(b.engine, c) == b.engine.voices;
  }

  // ---------- reset ----------

  lemma {:induction false} SilenceIsZero(tables: Tables, vs: seq<Voice>)
    requires AllFit(vs) && forall i :: 0 <= i < |vs| ==> vs[i].env.value == 0
    ensures Chord(tables, vs) == 0
    decreases |vs|
  {
    if vs != [] {
      SilenceIsZero(tables, vs[..|vs| - 1]);
      assert Entry(tables, vs[|vs| - 1]) * 0 == 0;
    }
  }

  /** A reset: nothing is heard, every voice is idle with no step on the first wave, and phases, peaks and settings
      are kept. */
  lemma ResetHeard(b: Bank, tables: Tables, c: Command, k: nat)
    requires Ready(b) && k >= 2 * |b.engine.voices| && c.opcode == OP_RESET
    ensures var e, e' := b.engine, Period(b, tables, Some(c), k).engine;
      && e'.sample == 0 && e'.panel == e.panel && |e'.voices| == |e.voices|
      && forall i :: 0 <= i < |e.voices| ==>
           e'.voices[i] == Voice(e.voices[i].phase, 0, 0, Env(0, IDLE), e.voices[i].level)
  {
    PeriodIsSample(b, tables, Some(c), k);
    var vs := VoicesFor(b.engine, Some(c));
    SilenceIsZero(tables, vs);
    assert 0 * b.engine.panel.master == 0;
    forall i | 0 <= i < |vs|
      ensures Done(vs[i], i, Some(c), b.engine.panel) ==
              Voice(b.engine.voices[i].phase, 0, 0, Env(0, IDLE), b.engine.voices[i].level)
    {
      StepIs(Env(0, IDLE), vs[i].level, b.engine.panel);
    }
  }
}
