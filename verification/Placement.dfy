/** How one command is placed on voices: the firmware's allocator, in either picture of the bank. */
module Placement {
  import opened Words
  import opened Voices
  import Schedule

  type SaneBank = b: Bank | b.Proper() && WellFormed(b) ghost witness SILENT

  function Taken(b: SaneBank, step: u32, voice: nat): (b': SaneBank)
    requires voice < VOICE_COUNT
    ensures b' == Take(b, step, voice)
  {
    if b.Queued? then TakeKeepsWellFormed(b, step, voice); Take(b, step, voice) else Take(b, step, voice)
  }

  function Gone(b: SaneBank, voice: nat): (b': SaneBank)
    requires voice < VOICE_COUNT
    ensures b' == LetGo(b, voice)
  {
    if b.Queued? then LetGoKeepsWellFormed(b, voice); LetGo(b, voice) else LetGo(b, voice)
  }

  /** The copy of a broadcast that goes to `voice`: the first keeps the delay, the rest follow it. */
  function Copy(c: Command, voice: u8): Command { c.(voice := voice, delay := if voice == 0 then c.delay else 0) }

  /** The same command sent to every voice. */
  function Broadcast(c: Command): (out: seq<Command>)
    ensures |out| == VOICE_COUNT
    ensures forall i :: 0 <= i < VOICE_COUNT ==> out[i] == Copy(c, i)
  {
    seq(VOICE_COUNT, i requires 0 <= i < VOICE_COUNT => Copy(c, i))
  }

  /** One command other than a reset, turned into the commands to push. */
  function Apply(b: SaneBank, c: Command): (r: (SaneBank, seq<Command>))
    ensures |r.1| <= VOICE_COUNT
  {
    if !PerVoice(c.opcode) then (b, [c])
    else if c.voice != VOICE_ANY then
      if c.voice >= VOICE_COUNT then (b, [])
      else if c.opcode == OP_NOTE_ON then (Taken(b, c.value, c.voice), [c])
      else if c.opcode == OP_NOTE_OFF then (Gone(b, c.voice), [c])
      else (b, [c])
    else if c.opcode == OP_NOTE_ON then
      var v := Choose(b);
      (Taken(b, c.value, v), [c.(voice := v)])
    else if c.opcode == OP_NOTE_OFF then
      match Find(b, c.value)
      case None => (b, [])
      case Some(v) => (Gone(b, v), [c.(voice := v)])
    else (b, Broadcast(c))
  }

  /** The voice a note-on or a note-off acts on, if there is one. */
  function Target(b: SaneBank, c: Command): (v: Option<nat>)
    ensures v.Some? ==> v.value < VOICE_COUNT
  {
    if c.voice != VOICE_ANY then (if c.voice < VOICE_COUNT then Some(c.voice) else None)
    else if c.opcode == OP_NOTE_ON then Some(Choose(b))
    else Find(b, c.value)
  }

  predicate IsNote(c: Command) { c.opcode == OP_NOTE_ON || c.opcode == OP_NOTE_OFF }

  /** A note goes to its target, under that voice's own number, and to nothing else. */
  lemma NoteGoesToTarget(b: SaneBank, c: Command)
    requires IsNote(c)
    ensures Apply(b, c) ==
            match Target(b, c)
            case None => (b, [])
            case Some(v) => (if c.opcode == OP_NOTE_ON then Taken(b, c.value, v) else Gone(b, v), [c.(voice := v)])
  {
  }

  lemma StampedNoteMovesOne(b: SaneBank, c: Command, v: nat)
    requires b.Stamped? && IsNote(c) && Target(b, c) == Some(v)
    ensures var b' := Apply(b, c).0; var was := b.voices[v].phase;
      && b'.Stamped?
      && (forall u :: 0 <= u < VOICE_COUNT && u != v ==> b'.voices[u] == b.voices[u])
      && b'.voices[v].phase == (if c.opcode == OP_NOTE_ON then Sounding else if was == Sounding then Releasing else was)
      && b'.voices[v].step == if c.opcode == OP_NOTE_ON then c.value else b.voices[v].step
  {
  }

  /** A queue, but for one voice. */
  lemma AppendedThenWithout(q: seq<Entry>, e: Entry)
    requires !Holds(q, e.voice)
    ensures Without(q + [e], e.voice) == q
  {
    assert (q + [e])[|q|] == e;
  }

  lemma WithoutTwice(q: seq<Entry>, voice: nat)
    requires Distinct(q)
    ensures !Holds(Without(q, voice), voice) && Without(Without(q, voice), voice) == Without(q, voice)
  {
    WithoutElements(q, voice);
  }

  lemma QueuedNoteMovesOne(b: SaneBank, c: Command, v: nat)
    requires b.Queued? && IsNote(c) && Target(b, c) == Some(v)
    ensures var b' := Apply(b, c).0;
      && b'.Queued?
      && Without(b'.sounding, v) == Without(b.sounding, v)
      && Without(b'.releasing, v) == Without(b.releasing, v)
  {
    NoteGoesToTarget(b, c);
    WithoutTwice(b.sounding, v);
    WithoutTwice(b.releasing, v);
    var i := Position(b.sounding, v);
    if c.opcode == OP_NOTE_ON {
      AppendedThenWithout(Without(b.sounding, v), Entry(v, c.value));
    } else if i < |b.sounding| {
      assert Holds(b.sounding, v);
      assert Position(b.releasing, v) == |b.releasing|;
      AppendedThenWithout(b.releasing, Entry(v, b.sounding[i].step));
    }
  }

  /** A note is placed on its target and nowhere else. Without a target nothing changes and nothing is
      pushed. With one, a single word is pushed under that voice's number; every other voice keeps its
      phase, its step and its stamp, and the others keep their order in both queues. */
  lemma NoteMovesOneVoice(b: SaneBank, c: Command)
    requires IsNote(c)
    ensures var (b', out) := Apply(b, c);
      match Target(b, c)
      case None => b' == b && out == []
      case Some(v) =>
        && out == [c.(voice := v)]
        && (b.Stamped? ==> b'.Stamped? && forall u :: 0 <= u < VOICE_COUNT && u != v ==> b'.voices[u] == b.voices[u])
        && (b.Queued? ==> b'.Queued? && Without(b'.sounding, v) == Without(b.sounding, v) &&
                          Without(b'.releasing, v) == Without(b.releasing, v))
  {
    NoteGoesToTarget(b, c);
    if Target(b, c).Some? {
      var v := Target(b, c).value;
      if b.Stamped? {
        StampedNoteMovesOne(b, c, v);
      } else {
        QueuedNoteMovesOne(b, c, v);
      }
    }
  }

  /** Anything else leaves the bank alone and is sent the same way whatever the bank holds. */
  lemma OtherLeavesBank(b: SaneBank, q: SaneBank, c: Command)
    requires !IsNote(c)
    ensures Apply(b, c).0 == b && Apply(b, c).1 == Apply(q, c).1
  {
  }

  /** What becomes of a command, opcode by opcode. A pitch, a wave or a level for any voice goes to all eight, the first
      copy with the delay and the rest right after it; anything for one voice goes to it alone if it exists; a note for
      any voice goes to one; a release for any voice to one or none; and whatever is not for a voice goes out as it
      is. */
  ghost predicate GoesOut(c: Command, out: seq<Command>) {
    if c.voice == VOICE_ANY && c.opcode in {OP_SET_FREQ, OP_SET_WAVE, OP_SET_AMP} then
      |out| == 8 && forall i :: 0 <= i < 8 ==> out[i] == Command(c.opcode, i, c.value, if i == 0 then c.delay else 0)
    else if c.voice == VOICE_ANY && c.opcode in {OP_NOTE_ON, OP_NOTE_OFF} then
      |out| <= 1 && (c.opcode == OP_NOTE_ON ==> |out| == 1) &&
      forall i :: 0 <= i < |out| ==> out[i].voice < 8 && out[i] == Command(c.opcode, out[i].voice, c.value, c.delay)
    else if c.opcode in {OP_NOTE_ON, OP_NOTE_OFF, OP_SET_FREQ, OP_SET_WAVE, OP_SET_AMP} then
      out == if c.voice < 8 then [c] else []
    else out == [c]
  }

  lemma ApplyGoesOut(b: SaneBank, c: Command)
    ensures GoesOut(c, Apply(b, c).1)
  {
  }

  /** The firmware's allocator, and the queues it stands for. */
  function ByStamps(): Schedule.Allocator<SaneBank> { From(Blank()) }
  function ByQueues(): Schedule.Allocator<SaneBank> { From(SILENT) }

  function From(empty: SaneBank): Schedule.Allocator<SaneBank> { Schedule.Allocator(empty, Apply) }

  lemma ApplyFits()
    ensures Schedule.Fits(ByStamps()) && Schedule.Fits(ByQueues())
  {
  }
}
