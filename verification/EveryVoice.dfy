/** A pitch, a wave or a level from the host to the voices: the firmware gives the engine a word for each voice meant,
    and once they have been applied those voices have it and no other register of any voice has changed. */
module EveryVoice {
  import opened Words
  import opened Placement
  import opened Schedule
  import opened Shadow
  import opened VoiceWalk
  import Settings
  import Voicing

  /** A voice whose step, wave and level are as before but for the one that `c` sets, if it was told. */
  predicate TookUp(v: Voicing.Voice, v': Voicing.Voice, c: Command, told: bool) {
    && v'.step == (if told && c.opcode == OP_SET_FREQ then c.value else v.step)
    && v'.wave == (if told && c.opcode == OP_SET_WAVE then c.value % 4 else v.wave)
    && v'.level == (if told && c.opcode == OP_SET_AMP then Min(c.value % 0x1_0000, 0x7FFF) else v.level)
  }

  predicate Names(ws: seq<Command>, i: nat) { exists k :: 0 <= k < |ws| && ws[k].voice == i }

  /** Each of these words says what `c` says, to some voice. */
  predicate AllSay(ws: seq<Command>, c: Command) {
    forall k :: 0 <= k < |ws| ==> ws[k].opcode == c.opcode && ws[k].value == c.value
  }

  predicate Sets(c: Command) { c.opcode in {OP_SET_FREQ, OP_SET_WAVE, OP_SET_AMP} }

  lemma SampleTakesUp(e: Voicing.Engine, tables: Voicing.Tables, w: Option<Command>, c: Command, i: nat)
    requires Voicing.Fits(e) && i < |e.voices| && Sets(c)
    requires w.Some? ==> w.value.opcode == c.opcode && w.value.value == c.value
    ensures var e' := Voicing.PerSample(e, tables, w);
      |e'.voices| == |e.voices| && TookUp(e.voices[i], e'.voices[i], c, w.Some? && w.value.voice == i)
  {
  }

  lemma NamesFirst(w: Command, ws: seq<Command>, i: nat)
    ensures Names([w] + ws, i) <==> w.voice == i || Names(ws, i)
  {
    var all := [w] + ws;
    if w.voice == i {
      assert all[0].voice == i;
    } else if Names(ws, i) {
      var k :| 0 <= k < |ws| && ws[k].voice == i;
      assert all[k + 1].voice == i;
    }
  }

  lemma SayRest(w: Command, ws: seq<Command>, c: Command)
    requires AllSay([w] + ws, c)
    ensures w.opcode == c.opcode && w.value == c.value && AllSay(ws, c)
  {
    var all := [w] + ws;
    assert all[0] == w && forall k :: 0 <= k < |ws| ==> ws[k] == all[k + 1];
  }

  lemma {:induction false} MeantTakesUp(e: Voicing.Engine, tables: Voicing.Tables, beats: seq<Beat>, c: Command, i: nat)
    requires Voicing.Fits(e) && i < |e.voices| && Sets(c) && AllSay(Brought(beats), c)
    ensures var e' := Meant(e, tables, beats);
      |e'.voices| == |e.voices| && TookUp(e.voices[i], e'.voices[i], c, Names(Brought(beats), i))
    decreases |beats|
  {
    if beats != [] {
      var w, rest := beats[0].command, Brought(beats[1..]);
      if w.Some? {
        SayRest(w.value, rest, c);
        NamesFirst(w.value, rest, i);
      } else {
        NothingFirst(rest);
      }
      Voicing.PerSampleFits(e, tables, w);
      SampleTakesUp(e, tables, w, c, i);
      MeantTakesUp(Voicing.PerSample(e, tables, w), tables, beats[1..], c, i);
    }
  }

  /** The words name every voice when the command is for any, and otherwise the one it is for. */
  lemma WordsName(c: Command, out: seq<Command>, i: nat)
    requires Sets(c) && GoesOut(c, out) && i < 8
    ensures AllSay(out, c) && (Names(out, i) <==> c.voice == VOICE_ANY || c.voice == i)
  {
    if c.voice == VOICE_ANY {
      assert out[i].voice == i;
    } else if c.voice == i {
      assert out[0].voice == i;
    }
  }

  lemma PushedName(s: State<SaneBank>, c: Command, i: nat)
    requires !s.anchored && Sets(c) && i < 8
    ensures var out := Receive(ByStamps(), s, c).1;
      AllSay(out, c) && (Names(out, i) <==> c.voice == VOICE_ANY || c.voice == i)
  {
    ApplyGoesOut(s.bank, c);
    WordsName(c, Receive(ByStamps(), s, c).1, i);
  }

  /** With no anchor: once the engine has been given what the firmware pushed for such a command, every voice has the
      pitch, wave or level if it was for any; the one it was for has it if it was for one; and nothing else has
      changed. */
  lemma SettingArrives(s: State<SaneBank>, c: Command, b: Bank, tables: Voicing.Tables, beats: seq<Beat>, i: nat)
    requires Settings.Ready(b) && |b.engine.voices| == 8 && Settings.Apart(beats, 8) && i < 8
    requires !s.anchored && Sets(c) && Brought(beats) == Receive(ByStamps(), s, c).1
    ensures var vs := Performed(b, tables, beats).engine.voices;
      |vs| == 8 && TookUp(b.engine.voices[i], vs[i], c, c.voice == VOICE_ANY || c.voice == i)
  {
    PerformanceIsMeant(b, tables, beats);
    PushedName(s, c, i);
    MeantTakesUp(b.engine, tables, beats, c, i);
  }
}
