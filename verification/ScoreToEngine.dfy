/** From a score to the engine's own voices. `Streaming` and `FirmwarePlays` end at the words the firmware pushes;
    here those words go on through the FIFO's delay, the scheduler and the voices. */
module ScoreToEngine {
  import opened Words
  import opened Placement
  import opened NoStuckNotes
  import opened Score
  import opened Engine
  import opened EngineRuns
  import opened FirmwarePlays
  import opened Shadow
  import Schedule
  import F = FirmwareToEngine
  import R = FirmwareRefines
  import Polyphony
  import Punctual
  import T = Timing
  import S = Streaming
  import Env = Envelope
  import V = Voices
  import Voicing
  import W = VoiceWalk
  import Synth

  // ---------- the words of the cues placed ----------

  /** The words pushed in placing commands one after another. */
  function Pushes<B>(a: Schedule.Allocator<B>, b: B, cs: seq<Command>): seq<Command> {
    if cs == [] then []
    else
      var init := cs[..|cs| - 1];
      Pushes(a, b, init) + a.place(Schedule.PlayAll(a, b, init), cs[|cs| - 1]).1
  }

  lemma {:induction false} PushesAreTold(b: SaneBank, cs: seq<Command>)
    requires b.Stamped? && forall c :: c in cs ==> c.opcode != OP_RESET
    ensures Schedule.PlayAll(ByStamps(), b, cs).Stamped?
    ensures ShadesOf(Schedule.PlayAll(ByStamps(), b, cs)) == AllTold(ShadesOf(b), Pushes(ByStamps(), b, cs))
  {
    if cs != [] {
      var init, c := cs[..|cs| - 1], cs[|cs| - 1];
      PushesAreTold(b, init);
      var before := Schedule.PlayAll(ByStamps(), b, init);
      PlacedIsTold(before, c);
      ToldAppend(ShadesOf(b), Pushes(ByStamps(), b, init), Apply(before, c).1);
    }
  }

  lemma {:induction false} PushesAreNotes(b: SaneBank, cs: seq<Command>)
    requires forall c :: c in cs ==> IsNote(c)
    ensures forall w :: w in Pushes(ByStamps(), b, cs) ==> IsNote(w)
  {
    if cs != [] {
      var init, c := cs[..|cs| - 1], cs[|cs| - 1];
      PushesAreNotes(b, init);
      NoteGoesToTarget(Schedule.PlayAll(ByStamps(), b, init), c);
    }
  }

  // ---------- what sounds ----------

  /** The engine's voices that hold a note of a step. */
  function Holding(e: Voicing.Engine, step: u32): set<nat> {
    set v: nat | v < |e.voices| && Held(e.voices[v]) && e.voices[v].step == step
  }

  predicate Held(v: Voicing.Voice) { v.env.stage !in {Env.RELEASE, Env.IDLE} }

  lemma HoldingIsOn(b: SaneBank, e: Voicing.Engine, step: u32)
    requires b.Stamped? && Mirrors(ShadesOf(b), e) && InTune(ShadesOf(b), e)
    ensures Holding(e, step) == FirmwarePlays.On(b, step)
  {
  }

  /** The engine as the words have left it. */
  ghost predicate Hears(e: Voicing.Engine, beats: seq<W.Beat>, placed: seq<Command>) {
    && Mirrors(QUIET, e) && InTune(QUIET, e)
    && Brought(beats) == Pushes(ByStamps(), V.Blank(), placed)
  }

  lemma EngineHolds(e: Voicing.Engine, tables: Voicing.Tables, beats: seq<W.Beat>, placed: seq<Command>, step: u32)
    requires Hears(e, beats, placed) && forall c :: c in placed ==> IsNote(c)
    ensures var b := Schedule.PlayAll(ByStamps(), V.Blank(), placed);
      var end := W.Meant(e, tables, beats);
      && b.Stamped? && |end.voices| == VOICE_COUNT && Holding(end, step) == FirmwarePlays.On(b, step)
      && forall v :: 0 <= v < VOICE_COUNT ==> (Held(end.voices[v]) <==> b.voices[v].phase == V.Sounding)
  {
    assert ShadesOf(V.Blank()) == QUIET;
    PushesAreTold(V.Blank(), placed);
    PushesAreNotes(V.Blank(), placed);
    MeantMirrors(QUIET, e, tables, beats);
    MeantInTune(QUIET, e, tables, beats);
    HoldingIsOn(Schedule.PlayAll(ByStamps(), V.Blank(), placed), W.Meant(e, tables, beats), step);
  }

  /** What a run has placed made the bank, and is notes. */
  lemma PlayedIsNotes(notes: seq<Note>, origin: u32, now: int, limit: int, lookahead: int, moves: seq<S.Move>)
    requires S.Carried(notes, origin) && EndsAfterBeginnings(notes, origin)
    requires 0 <= limit <= Schedule.SCHEDULE_ENTRIES && 0 <= lookahead < TWO31
    requires S.Possible(ByStamps(), S.Begin(ByStamps(), notes, origin, now), limit, lookahead, moves)
    ensures var sys := Played(notes, origin, now, limit, lookahead, moves);
      sys.fw.bank == Schedule.PlayAll(ByStamps(), V.Blank(), sys.placed) && forall c :: c in sys.placed ==> IsNote(c)
  {
    var begin := S.Begin(ByStamps(), notes, origin, now);
    S.BeginHolds(ByStamps(), notes, origin, now, limit, lookahead);
    S.RunKeepsInv(ByStamps(), begin, limit, lookahead, moves);
    S.PlacedScore(notes, origin, Played(notes, origin, now, limit, lookahead, moves).placed);
  }

  /** `FirmwareNeverSticks` of the engine's own voices: once it has been given what was pushed, no step is held on
      more of them than the cues played so far ask for, and when everything has been played every one of them is
      releasing or silent. */
  lemma EngineNeverSticks(notes: seq<Note>, origin: u32, now: int, limit: int, lookahead: int, moves: seq<S.Move>, step: u32,
                          e: Voicing.Engine, tables: Voicing.Tables, beats: seq<W.Beat>)
    requires S.Carried(notes, origin) && EndsAfterBeginnings(notes, origin) && 2 * |notes| < R.WINDOW
    requires 0 <= limit <= Schedule.SCHEDULE_ENTRIES && 0 <= lookahead < TWO31
    requires S.Possible(ByStamps(), S.Begin(ByStamps(), notes, origin, now), limit, lookahead, moves)
    requires Hears(e, beats, Played(notes, origin, now, limit, lookahead, moves).placed)
    ensures var sys := Played(notes, origin, now, limit, lookahead, moves); var end := W.Meant(e, tables, beats);
      && |Holding(end, step)| <= Ons(sys.placed, step) - Offs(sys.placed, step)
      && (|sys.placed| == |sys.feed.cues| ==> forall v :: 0 <= v < |end.voices| ==> !Held(end.voices[v]))
  {
    FirmwareNeverSticks(notes, origin, now, limit, lookahead, moves, step);
    PlayedIsNotes(notes, origin, now, limit, lookahead, moves);
    EngineHolds(e, tables, beats, Played(notes, origin, now, limit, lookahead, moves).placed, step);
  }

  /** And with no more than eight notes overlapping, every step is held on exactly the voices asked for. */
  lemma EnginePlaysEveryNote(notes: seq<Note>, origin: u32, now: int, limit: int, lookahead: int, moves: seq<S.Move>, step: u32,
                             e: Voicing.Engine, tables: Voicing.Tables, beats: seq<W.Beat>)
    requires S.Carried(notes, origin) && EndsAfterBeginnings(notes, origin) && 2 * |notes| < R.WINDOW
    requires (forall n :: n in notes ==> n.start <= n.end) && Polyphony.FitsVoices(notes)
    requires 0 <= limit <= Schedule.SCHEDULE_ENTRIES && 0 <= lookahead < TWO31
    requires S.Possible(ByStamps(), S.Begin(ByStamps(), notes, origin, now), limit, lookahead, moves)
    requires Hears(e, beats, Played(notes, origin, now, limit, lookahead, moves).placed)
    ensures var sys := Played(notes, origin, now, limit, lookahead, moves);
      |Holding(W.Meant(e, tables, beats), step)| == Ons(sys.placed, step) - Offs(sys.placed, step)
  {
    FirmwarePlaysEveryNote(notes, origin, now, limit, lookahead, moves, step);
    PlayedIsNotes(notes, origin, now, limit, lookahead, moves);
    EngineHolds(e, tables, beats, Played(notes, origin, now, limit, lookahead, moves).placed, step);
  }

  // ---------- when it sounds ----------

  /** A log each of whose events sends one word. */
  ghost predicate Single(log: seq<T.Landed>) { forall i :: 0 <= i < |log| ==> |log[i].out| == 1 }

  /** When everything before the i-th event is due. */
  function DueBefore(log: seq<T.Landed>, i: nat, due: int): int
    requires i <= |log|
    decreases i
  {
    if i == 0 then due else DueBefore(log[1..], i - 1, DueAfter(log[0], due))
  }

  /** Word by word, for such a log. */
  lemma {:induction false} WithinAt(log: seq<T.Landed>, law: seq<Applied>, due: int, lo: nat, hi: nat, i: nat)
    requires AppliedWithin(log, law, due, lo, hi) && Single(log) && i < |log|
    ensures |law| == |log| && law[i].command == log[i].out[0]
    ensures lo <= law[i].at - (log[i].at + Slip(log[i], DueBefore(log, i, due))) <= hi
    decreases |log|
  {
    SingleLength(log, law, due, lo, hi);
    if i > 0 {
      assert forall j :: 0 <= j < |log[1..]| ==> log[1..][j] == log[j + 1];
      WithinAt(log[1..], law[1..], DueAfter(log[0], due), lo, hi, i - 1);
    }
  }

  lemma {:induction false} SingleLength(log: seq<T.Landed>, law: seq<Applied>, due: int, lo: nat, hi: nat)
    requires AppliedWithin(log, law, due, lo, hi) && Single(log)
    ensures |law| == |log|
    decreases |log|
  {
    if log != [] {
      assert forall j :: 0 <= j < |log[1..]| ==> log[1..][j] == log[j + 1];
      SingleLength(log[1..], law[1..], DueAfter(log[0], due), lo, hi);
    }
  }

  /** The zero delays of a log. */
  function Chords(log: seq<T.Landed>): nat {
    if log == [] then 0 else (if log[0].command.delay == 0 then 1 else 0) + Chords(log[1..])
  }

  /** The slip is what the engine was behind at first, and a sample for every zero delay since, at most. */
  lemma {:induction false} SlipIsZeros(log: seq<T.Landed>, chain: Option<int>, due: int, i: nat)
    requires T.Chained(log, chain) && Single(log) && i < |log|
    ensures Slip(log[i], DueBefore(log, i, due)) <= Max(0, due - T.BaseOf(chain, log[0].now)) + Chords(log[..i + 1])
    decreases i
  {
    assert log[..i + 1][1..] == log[1..][..i];
    if i > 0 {
      assert forall j :: 0 <= j < |log[1..]| ==> log[1..][j] == log[j + 1];
      SlipIsZeros(log[1..], Some(log[0].at), DueAfter(log[0], due), i - 1);
    }
  }

  ghost function Sends(notes: seq<Note>, origin: u32, now: int, limit: int, lookahead: int, moves: seq<S.Move>): seq<T.Landed>
    requires S.Carried(notes, origin)
    requires S.Possible(ByStamps(), S.Begin(ByStamps(), notes, origin, now), limit, lookahead, moves)
  {
    Punctual.Log(ByStamps(), S.Begin(ByStamps(), notes, origin, now), Punctual.Anchored(origin), limit, lookahead, moves)
  }

  lemma SingleSpent(log: seq<T.Landed>)
    requires Single(log) && forall i :: 0 <= i < |log| ==> log[i].out[0].delay == log[i].command.delay
    ensures F.AllSpent(log)
  {
  }

  /** What a log of single words comes to in an engine that is idle when the first is pushed. */
  lemma LogIsHeard(log: seq<T.Landed>, fifo: seq<Supply>, free: nat, lo: nat, hi: nat, i: nat)
    requires T.Chained(log, None) && Single(log) && F.AllSpent(log) && Shown(log, fifo, lo, hi) && lo <= hi
    requires i < |log| && free <= log[0].now + lo
    ensures |Law(fifo, free)| == |log| && Law(fifo, free)[i].command == log[i].out[0]
    ensures log[i].at + lo <= Law(fifo, free)[i].at <= log[i].at + hi + Chords(log[..i + 1])
  {
    LogWithin(log, None, fifo, free, free - lo, lo, hi);
    WithinAt(log, Law(fifo, free), free - lo, lo, hi, i);
    SlipIsZeros(log, None, free - lo, i);
  }

  /** For any such score and any run in which no cue is overdue at a dispatch, and a FIFO that shows each word
      between `lo` and `hi` strobes after it is pushed: the engine applies every cue, in order, no earlier than
      `lo` samples after its own, and no later than `hi` after it and one more for every zero delay so far. */
  lemma EveryCueIsApplied(notes: seq<Note>, origin: u32, now: int, limit: int, lookahead: int, last: int, moves: seq<S.Move>,
                          fifo: seq<Supply>, free: nat, lo: nat, hi: nat)
    requires S.Carried(notes, origin) && EndsAfterBeginnings(notes, origin) && 2 * |notes| < R.WINDOW
    requires (forall n :: n in notes ==> n.start <= n.end) && Polyphony.FitsVoices(notes)
    requires 0 <= limit <= Schedule.SCHEDULE_ENTRIES && 0 <= lookahead < TWO31
    requires S.Possible(ByStamps(), S.Begin(ByStamps(), notes, origin, now), limit, lookahead, moves)
    requires Punctual.Timely(ByStamps(), S.Begin(ByStamps(), notes, origin, now), Punctual.Anchored(origin), limit, lookahead, last, moves)
    requires var log := Sends(notes, origin, now, limit, lookahead, moves);
      Shown(log, fifo, lo, hi) && lo <= hi && (log != [] ==> free <= log[0].now + lo)
    ensures var log := Sends(notes, origin, now, limit, lookahead, moves);
      var placed := Played(notes, origin, now, limit, lookahead, moves).placed;
      var cues, law := Sort(Built(notes, origin)), Law(fifo, free);
      && |law| == |log| == |placed| <= |cues|
      && forall i :: 0 <= i < |law| ==>
           && law[i].command == placed[i].(voice := law[i].command.voice)
           && cues[i].sample + lo <= law[i].at <= cues[i].sample + hi + Chords(log[..i + 1])
  {
    var log := Sends(notes, origin, now, limit, lookahead, moves);
    FirmwareIsPunctual(notes, origin, now, limit, lookahead, last, moves);
    SingleSpent(log);
    if log == [] {
    } else {
      LogIsHeard(log, fifo, free, lo, hi, 0);
      forall i | 0 <= i < |log|
        ensures Law(fifo, free)[i].command == log[i].out[0]
        ensures log[i].at + lo <= Law(fifo, free)[i].at <= log[i].at + hi + Chords(log[..i + 1])
      {
        LogIsHeard(log, fifo, free, lo, hi, i);
      }
    }
  }

  // ---------- from the score to the clocked engine ----------

  lemma {:induction false} PushesFirst<B>(a: Schedule.Allocator<B>, b: B, c: Command, cs: seq<Command>)
    ensures Pushes(a, b, [c] + cs) == a.place(b, c).1 + Pushes(a, a.place(b, c).0, cs)
  {
    var out := a.place(b, c).1;
    if cs == [] {
      assert [c] + cs == [c] && [c][..0] == [];
      assert Pushes(a, b, []) + out == out + [];
    } else {
      var init, next := cs[..|cs| - 1], a.place(b, c).0;
      assert ([c] + cs)[..|cs|] == [c] + init;
      PushesFirst(a, b, c, init);
      Schedule.PlayAllFirst(a, b, c, init);
      Associate(out, Pushes(a, next, init), a.place(Schedule.PlayAll(a, next, init), cs[|cs| - 1]).1);
    }
  }

  /** The words of a log are those pushed for what it placed ... */
  lemma {:induction false} PlacingPushes<B>(a: Schedule.Allocator<B>, log: seq<T.Landed>, times: seq<int>, placed: seq<Command>, bank: B)
    requires Punctual.Placing(a, log, times, placed, bank)
    ensures F.Pushed(log) == Pushes(a, bank, placed)
    decreases |log|
  {
    if log != [] {
      HeadAndRest(log);
      HeadAndRest(placed);
      PlacingPushes(a, log[1..], times[1..], placed[1..], a.place(bank, placed[0]).0);
      PushesFirst(a, bank, placed[0], placed[1..]);
      F.PushedFirst(log[0], log[1..]);
    }
  }

  /** ... and the words in the FIFO are the words of the log. */
  lemma {:induction false} ShownWords(log: seq<T.Landed>, fifo: seq<Supply>, lo: nat, hi: nat)
    requires Shown(log, fifo, lo, hi)
    ensures CommandsOf(fifo) == F.Pushed(log)
    decreases |log|
  {
    if log != [] {
      var k := |log[0].out|;
      ShownWords(log[1..], fifo[k..], lo, hi);
      HeadAndRest(log);
      F.PushedFirst(log[0], log[1..]);
      assert CommandsOf(fifo) == CommandsOf(fifo[..k]) + CommandsOf(fifo[k..]);
      assert CommandsOf(fifo[..k]) == log[0].out;
    }
  }

  lemma SentIsPushed(notes: seq<Note>, origin: u32, now: int, limit: int, lookahead: int, last: int, moves: seq<S.Move>)
    requires S.Carried(notes, origin) && 0 <= limit <= Schedule.SCHEDULE_ENTRIES && 0 <= lookahead < TWO31
    requires S.Possible(ByStamps(), S.Begin(ByStamps(), notes, origin, now), limit, lookahead, moves)
    requires Punctual.Timely(ByStamps(), S.Begin(ByStamps(), notes, origin, now), Punctual.Anchored(origin), limit, lookahead, last, moves)
    ensures F.Pushed(Sends(notes, origin, now, limit, lookahead, moves))
         == Pushes(ByStamps(), V.Blank(), Played(notes, origin, now, limit, lookahead, moves).placed)
  {
    var begin := S.Begin(ByStamps(), notes, origin, now);
    var log, placed := Sends(notes, origin, now, limit, lookahead, moves), Played(notes, origin, now, limit, lookahead, moves).placed;
    Punctual.LogIsTracked(ByStamps(), notes, origin, now, limit, lookahead, last, moves);
    PlacingPushes(ByStamps(), log, Punctual.Samples(begin.feed.cues), placed, V.Blank());
  }

  /** Applied one after another, none before `from`. */
  predicate Rising(law: seq<Applied>, from: nat)
    decreases |law|
  {
    law == [] || (from <= law[0].at && Rising(law[1..], law[0].at + 1))
  }

  lemma {:induction false} RisingEarlier(law: seq<Applied>, from: nat, earlier: nat)
    requires Rising(law, from) && earlier <= from
    ensures Rising(law, earlier)
  {
  }

  lemma {:induction false} LawRises(fifo: seq<Supply>, free: nat)
    ensures Rising(Law(fifo, free), free + 1)
    decreases |fifo|
  {
    if fifo != [] {
      var at := Max(free, fifo[0].from) + Cost(fifo[0].command);
      LawRises(fifo[1..], at);
      assert Law(fifo, free)[1..] == Law(fifo[1..], at);
    }
  }

  function WordsIn(law: seq<Applied>): seq<Command> { if law == [] then [] else [law[0].command] + WordsIn(law[1..]) }

  lemma {:induction false} LawIsWords(fifo: seq<Supply>, free: nat)
    ensures WordsIn(Law(fifo, free)) == CommandsOf(fifo)
    decreases |fifo|
  {
    if fifo != [] {
      var at := Max(free, fifo[0].from) + Cost(fifo[0].command);
      LawIsWords(fifo[1..], at);
      assert Law(fifo, free)[1..] == Law(fifo[1..], at);
      assert CommandsOf(fifo) == [fifo[0].command] + CommandsOf(fifo[1..]);
    }
  }

  /** Laid out strobe by strobe, with strobes enough, every word is brought once and in order. */
  lemma {:induction false} TimelineBrings(law: seq<Applied>, at: nat, gaps: seq<nat>)
    requires Rising(law, at) && forall a :: a in law ==> a.at < at + |gaps|
    ensures Brought(Synth.Timeline(law, at, gaps)) == WordsIn(law)
    decreases |gaps|
  {
    if law != [] { assert law[0] in law; }
    if gaps != [] {
      if law != [] && law[0].at == at {
        var later := Synth.Timeline(law[1..], at + 1, gaps[1..]);
        TimelineBrings(law[1..], at + 1, gaps[1..]);
        assert ([W.Beat(Some(law[0].command), gaps[0])] + later)[1..] == later;
      } else {
        var later := Synth.Timeline(law, at + 1, gaps[1..]);
        TimelineBrings(law, at + 1, gaps[1..]);
        assert ([W.Beat(None, gaps[0])] + later)[1..] == later;
        NothingFirst(Brought(later));
      }
    }
  }

  /** What a bank of clocked voices has been given by its scheduler from power-on. */
  lemma ClockedHears(r: Registers, fifo: seq<Supply>, b: W.Bank, tables: Voicing.Tables, gaps: seq<nat>, placed: seq<Command>)
    requires !r.valid && W.Runnable(b) && W.Quiet(b) && Mirrors(QUIET, b.engine) && InTune(QUIET, b.engine)
    requires CommandsOf(fifo) == Pushes(ByStamps(), V.Blank(), placed)
    requires (forall k :: k in gaps ==> k >= 2 * |b.engine.voices|) && forall a :: a in Law(fifo, 0) ==> a.at < |gaps|
    ensures var beats := Synth.Timeline(Law(fifo, 0), 0, gaps);
      && Hears(b.engine, beats, placed)
      && W.Performed(b, tables, Synth.Beats(r, fifo, 0, gaps)).engine == W.Meant(b.engine, tables, beats)
  {
    LawRises(fifo, 0);
    RisingEarlier(Law(fifo, 0), 1, 0);
    LawIsWords(fifo, 0);
    TimelineBrings(Law(fifo, 0), 0, gaps);
    Synth.SynthPlaysTheLaw(r, fifo, b, tables, gaps);
  }

  /** The whole path, from a score to the engine as it is built, clock by clock: with no more than eight notes
      overlapping, no cue overdue at a dispatch, strobes far enough apart and enough of them, every step is held on
      exactly as many of the engine's voices as the cues played ask for. */
  lemma ScoreIsPlayed(notes: seq<Note>, origin: u32, now: int, limit: int, lookahead: int, last: int, moves: seq<S.Move>, step: u32,
                      r: Registers, fifo: seq<Supply>, lo: nat, hi: nat, b: W.Bank, tables: Voicing.Tables, gaps: seq<nat>)
    requires S.Carried(notes, origin) && EndsAfterBeginnings(notes, origin) && 2 * |notes| < R.WINDOW
    requires (forall n :: n in notes ==> n.start <= n.end) && Polyphony.FitsVoices(notes)
    requires 0 <= limit <= Schedule.SCHEDULE_ENTRIES && 0 <= lookahead < TWO31
    requires S.Possible(ByStamps(), S.Begin(ByStamps(), notes, origin, now), limit, lookahead, moves)
    requires Punctual.Timely(ByStamps(), S.Begin(ByStamps(), notes, origin, now), Punctual.Anchored(origin), limit, lookahead, last, moves)
    requires Shown(Sends(notes, origin, now, limit, lookahead, moves), fifo, lo, hi)
    requires !r.valid && W.Runnable(b) && W.Quiet(b) && Mirrors(QUIET, b.engine) && InTune(QUIET, b.engine)
    requires (forall k :: k in gaps ==> k >= 2 * VOICE_COUNT) && forall a :: a in Law(fifo, 0) ==> a.at < |gaps|
    ensures var placed := Played(notes, origin, now, limit, lookahead, moves).placed;
      |Holding(W.Performed(b, tables, Synth.Beats(r, fifo, 0, gaps)).engine, step)| == Ons(placed, step) - Offs(placed, step)
  {
    var placed := Played(notes, origin, now, limit, lookahead, moves).placed;
    SentIsPushed(notes, origin, now, limit, lookahead, last, moves);
    ShownWords(Sends(notes, origin, now, limit, lookahead, moves), fifo, lo, hi);
    ClockedHears(r, fifo, b, tables, gaps, placed);
    EnginePlaysEveryNote(notes, origin, now, limit, lookahead, moves, step, b.engine, tables, Synth.Timeline(Law(fifo, 0), 0, gaps));
  }
}
