/** No note is left sounding.

    Whatever the firmware steals, the number of voices sounding a step never exceeds the note-ons for
    it less the note-offs, so once every note-on has had its note-off nothing sounds. While no more
    than eight notes overlap nothing is stolen and the two are equal. */
module NoStuckNotes {
  import opened Words
  import opened Voices
  import opened Placement

  /** A note-on or note-off that names no voice. */
  predicate Unplaced(c: Command) { IsNote(c) && c.voice == VOICE_ANY }

  /** How many of the commands are `opcode` for `step`. */
  function Tally(cs: seq<Command>, opcode: u8, step: u32): nat {
    if cs == [] then 0
    else Tally(cs[..|cs| - 1], opcode, step) + (if cs[|cs| - 1].opcode == opcode && cs[|cs| - 1].value == step then 1 else 0)
  }

  function Ons(cs: seq<Command>, step: u32): nat { Tally(cs, OP_NOTE_ON, step) }

  function Offs(cs: seq<Command>, step: u32): nat { Tally(cs, OP_NOTE_OFF, step) }

  /** No prefix has more note-offs than note-ons for any step. */
  ghost predicate Balanced(cs: seq<Command>) {
    forall n :: 0 <= n <= |cs| ==> Covered(cs[..n])
  }

  ghost predicate Covered(cs: seq<Command>) { forall step :: Offs(cs, step) <= Ons(cs, step) }

  /** How many entries play `step`. */
  function Playing(q: seq<Entry>, step: u32): nat {
    if q == [] then 0 else (if q[0].step == step then 1 else 0) + Playing(q[1..], step)
  }

  /** The bank after the commands, in order. */
  function Play(b: SaneBank, cs: seq<Command>): SaneBank {
    if cs == [] then b else Apply(Play(b, cs[..|cs| - 1]), cs[|cs| - 1]).0
  }

  // ---------- counting ----------

  lemma {:induction false} PlayingAppend(p: seq<Entry>, q: seq<Entry>, step: u32)
    ensures Playing(p + q, step) == Playing(p, step) + Playing(q, step)
  {
    if p == [] {
      assert p + q == q;
    } else {
      assert (p + q)[1..] == p[1..] + q;
      PlayingAppend(p[1..], q, step);
    }
  }

  /** Taking a voice out of a queue takes out one entry of its step. */
  lemma PlayingWithout(q: seq<Entry>, voice: nat, step: u32)
    ensures var i := Position(q, voice);
      Playing(Without(q, voice), step) == Playing(q, step) - if i < |q| && q[i].step == step then 1 else 0
  {
    var i := Position(q, voice);
    if i < |q| {
      var p, r := q[..i], q[i + 1..];
      assert q == p + ([q[i]] + r);
      PlayingAppend(p, [q[i]] + r, step);
      PlayingAppend(p, r, step);
      assert ([q[i]] + r)[1..] == r;
    }
  }

  lemma {:induction false} PlayingNone(q: seq<Entry>, step: u32)
    requires FirstOf(q, step) == |q|
    ensures Playing(q, step) == 0
  {
    if q != [] {
      assert q[0].step != step;
      PlayingNone(q[1..], step);
    }
  }

  lemma {:induction false} PlayingNothing(q: seq<Entry>)
    requires forall step :: Playing(q, step) == 0
    ensures q == []
  {
    assert q != [] ==> Playing(q, q[0].step) >= 1;
  }

  // ---------- one command ----------

  /** A note-on adds one of its step and, by stealing, may take away one of another. */
  lemma OnAddsOne(b: SaneBank, c: Command, step: u32)
    requires b.Queued? && Unplaced(c) && c.opcode == OP_NOTE_ON
    ensures Apply(b, c).0.Queued?
    ensures var voice := Choose(b);
      var steals := if Holds(b.sounding, voice) && b.sounding[Position(b.sounding, voice)].step == step then 1 else 0;
      Playing(Apply(b, c).0.sounding, step) == Playing(b.sounding, step) + (if c.value == step then 1 else 0) - steals
  {
    NoteGoesToTarget(b, c);
    var v := Choose(b);
    PlayingWithout(b.sounding, v, step);
    PlayingAppend(Without(b.sounding, v), [Entry(v, c.value)], step);
  }

  /** A note-off takes away one of its step if any is sounding, and changes nothing else. */
  lemma OffTakesOne(b: SaneBank, c: Command, step: u32)
    requires b.Queued? && Unplaced(c) && c.opcode == OP_NOTE_OFF
    ensures Apply(b, c).0.Queued?
    ensures Playing(Apply(b, c).0.sounding, step) ==
            if c.value == step && Playing(b.sounding, step) > 0 then Playing(b.sounding, step) - 1 else Playing(b.sounding, step)
  {
    NoteGoesToTarget(b, c);
    var f := FirstOf(b.sounding, c.value);
    if f < |b.sounding| {
      var v := b.sounding[f].voice;
      FirstIsItsPosition(b.sounding, f);
      PlayingWithout(b.sounding, v, step);
      if c.value == step { PlayingWithout(b.sounding, v, step); }
    } else {
      PlayingNone(b.sounding, c.value);
      var r := FirstOf(b.releasing, c.value);
      if r < |b.releasing| {
        assert Holds(b.releasing, b.releasing[r].voice);
        assert Position(b.sounding, b.releasing[r].voice) == |b.sounding|;
      }
    }
  }

  lemma FirstIsItsPosition(q: seq<Entry>, i: nat)
    requires Distinct(q) && i < |q|
    ensures Position(q, q[i].voice) == i
  {
  }

  // ---------- never more than asked for ----------

  lemma BalancedPrefix(cs: seq<Command>)
    requires Balanced(cs) && cs != []
    ensures Balanced(cs[..|cs| - 1])
  {
    var p := cs[..|cs| - 1];
    forall n | 0 <= n <= |p|
      ensures Covered(p[..n])
    {
      assert p[..n] == cs[..n];
    }
  }

  /** Whatever is stolen, no step sounds on more voices than its note-ons less its note-offs. */
  lemma {:induction false} NeverMoreThanAsked(cs: seq<Command>, step: u32)
    requires Balanced(cs) && forall c :: c in cs ==> Unplaced(c)
    ensures Play(SILENT, cs).Queued?
    ensures Playing(Play(SILENT, cs).sounding, step) <= Ons(cs, step) - Offs(cs, step)
  {
    assert cs[..|cs|] == cs;
    if cs != [] {
      var before, c := cs[..|cs| - 1], cs[|cs| - 1];
      BalancedPrefix(cs);
      NeverMoreThanAsked(before, step);
      var b := Play(SILENT, before);
      if c.opcode == OP_NOTE_ON {
        OnAddsOne(b, c, step);
      } else {
        OffTakesOne(b, c, step);
      }
    }
  }

  /** Once every note-on has had its note-off, nothing is sounding. */
  lemma NothingLeftSounding(cs: seq<Command>)
    requires Balanced(cs) && forall c :: c in cs ==> Unplaced(c)
    requires forall step :: Ons(cs, step) == Offs(cs, step)
    ensures Play(SILENT, cs).Queued? && Play(SILENT, cs).sounding == []
  {
    NeverMoreThanAsked(cs, 0);
    var q := Play(SILENT, cs).sounding;
    forall step
      ensures Playing(q, step) == 0
    {
      NeverMoreThanAsked(cs, step);
    }
    PlayingNothing(q);
  }

  // ---------- exactly as asked for, while eight are enough ----------

  /** Note-ons less note-offs, of any step. */
  function Held(cs: seq<Command>): int {
    if cs == [] then 0
    else Held(cs[..|cs| - 1]) + (if cs[|cs| - 1].opcode == OP_NOTE_ON then 1 else -1)
  }

  /** No more than eight notes ever overlap. */
  ghost predicate Roomy(cs: seq<Command>) {
    forall n :: 0 <= n <= |cs| ==> Held(cs[..n]) <= VOICE_COUNT
  }

  lemma RoomyPrefix(cs: seq<Command>)
    requires Roomy(cs) && cs != []
    ensures Roomy(cs[..|cs| - 1])
  {
    var p := cs[..|cs| - 1];
    forall n | 0 <= n <= |p|
      ensures Held(p[..n]) <= VOICE_COUNT
    {
      assert p[..n] == cs[..n];
    }
  }

  function VoicesOf(q: seq<Entry>): set<nat> {
    if q == [] then {} else {q[0].voice} + VoicesOf(q[1..])
  }

  lemma {:induction false} VoicesOfHolds(q: seq<Entry>)
    ensures |VoicesOf(q)| <= |q|
    ensures forall v: nat :: Holds(q, v) ==> v in VoicesOf(q)
  {
    if q != [] {
      VoicesOfHolds(q[1..]);
      forall v: nat | Holds(q, v)
        ensures v in VoicesOf(q)
      {
        var i :| 0 <= i < |q| && q[i].voice == v;
        if i > 0 { assert q[1..][i - 1].voice == v; }
      }
    }
  }

  lemma {:induction false} Below(n: nat, s: set<nat>)
    requires forall v :: 0 <= v < n ==> v in s
    ensures |s| >= n
  {
    if n > 0 {
      Below(n - 1, s - {n - 1});
    }
  }

  /** With fewer than eight voices sounding, a new note interrupts none of them. */
  lemma NoteInterruptsNothing(b: SaneBank)
    requires b.Queued? && |b.sounding| < VOICE_COUNT
    ensures !Holds(b.sounding, Choose(b))
  {
    if LowestIdle(b, 0) == VOICE_COUNT {
      assert b.releasing != [] by {
        if b.releasing == [] {
          forall v | 0 <= v < VOICE_COUNT
            ensures v in VoicesOf(b.sounding)
          {
            assert !IsIdle(b, v);
            VoicesOfHolds(b.sounding);
          }
          VoicesOfHolds(b.sounding);
          Below(VOICE_COUNT, VoicesOf(b.sounding));
        }
      }
      assert Holds(b.releasing, b.releasing[0].voice);
    }
  }

  /** While no more than eight notes overlap, each step sounds on exactly as many voices as it has notes
      held, and no note is cut short: the voice each new note is given was not sounding. */
  lemma {:induction false} ExactlyAsAsked(cs: seq<Command>, step: u32)
    requires Balanced(cs) && Roomy(cs) && forall c :: c in cs ==> Unplaced(c)
    ensures var b := Play(SILENT, cs);
      && b.Queued?
      && Playing(b.sounding, step) == Ons(cs, step) - Offs(cs, step)
      && |b.sounding| == Held(cs)
    ensures cs != [] && cs[|cs| - 1].opcode == OP_NOTE_ON ==>
              var b := Play(SILENT, cs[..|cs| - 1]);
              b.Queued? && !Holds(b.sounding, Choose(b))
    decreases |cs|
  {
    assert cs[..|cs|] == cs;
    if cs != [] {
      var before, c := cs[..|cs| - 1], cs[|cs| - 1];
      BalancedPrefix(cs);
      RoomyPrefix(cs);
      ExactlyAsAsked(before, step);
      var b := Play(SILENT, before);
      if c.opcode == OP_NOTE_ON {
        NoteInterruptsNothing(b);
        OnAddsOne(b, c, step);
        NoteGoesToTarget(b, c);
        WithoutElements(b.sounding, Choose(b));
      } else {
        ExactlyAsAsked(before, c.value);
        assert Covered(cs[..|cs|]) && Offs(cs, c.value) <= Ons(cs, c.value);
        OffTakesOne(b, c, step);
        OffShortens(b, c);
      }
    }
  }

  lemma OffShortens(b: SaneBank, c: Command)
    requires b.Queued? && Unplaced(c) && c.opcode == OP_NOTE_OFF && Playing(b.sounding, c.value) > 0
    ensures |Apply(b, c).0.sounding| == |b.sounding| - 1
  {
    NoteGoesToTarget(b, c);
    var f := FirstOf(b.sounding, c.value);
    if f == |b.sounding| {
      PlayingNone(b.sounding, c.value);
    } else {
      FirstIsItsPosition(b.sounding, f);
      WithoutElements(b.sounding, b.sounding[f].voice);
      assert Holds(b.sounding, b.sounding[f].voice);
    }
  }

  // ---------- whatever is asked for, while eight are enough ----------

  /** The notes of a step that are held when a release with none to end is ignored. */
  function Live(cs: seq<Command>, step: u32): nat {
    if cs == [] then 0
    else
      var c, before := cs[|cs| - 1], Live(cs[..|cs| - 1], step);
      if c.value != step then before
      else if c.opcode == OP_NOTE_ON then before + 1
      else if before > 0 then before - 1
      else 0
  }

  /** The same of all steps together. */
  function Crowd(cs: seq<Command>): int {
    if cs == [] then 0
    else
      var c, init := cs[|cs| - 1], cs[..|cs| - 1];
      if c.opcode == OP_NOTE_ON then Crowd(init) + 1 else Crowd(init) - if Live(init, c.value) > 0 then 1 else 0
  }

  ghost predicate Uncrowded(cs: seq<Command>) {
    forall n :: 0 <= n <= |cs| ==> Crowd(cs[..n]) <= VOICE_COUNT
  }

  lemma UncrowdedPrefix(cs: seq<Command>)
    requires Uncrowded(cs) && cs != []
    ensures Uncrowded(cs[..|cs| - 1]) && Crowd(cs) <= VOICE_COUNT
  {
    var p := cs[..|cs| - 1];
    assert cs[..|cs|] == cs;
    forall n | 0 <= n <= |p|
      ensures Crowd(p[..n]) <= VOICE_COUNT
    {
      assert p[..n] == cs[..n];
    }
  }

  /** A release with nothing to end leaves the sounding voices alone. */
  lemma OffMisses(b: SaneBank, c: Command)
    requires b.Queued? && Unplaced(c) && c.opcode == OP_NOTE_OFF && Playing(b.sounding, c.value) == 0
    ensures Apply(b, c).0.Queued? && Apply(b, c).0.sounding == b.sounding
  {
    NoteGoesToTarget(b, c);
    PlayingSome(b.sounding, c.value);
    var v := Target(b, c);
    if v.Some? {
      var j := FirstOf(b.releasing, c.value);
      assert b.releasing[j].voice == v.value;
      assert Holds(b.releasing, v.value);
    }
  }

  lemma {:induction false} PlayingSome(q: seq<Entry>, step: u32)
    ensures FirstOf(q, step) < |q| ==> Playing(q, step) > 0
  {
    if q != [] {
      PlayingSome(q[1..], step);
    }
  }

  /** Balanced or not: while no more than eight notes are held at once, each step sounds on exactly as many
      voices as it has notes held. */
  lemma {:induction false} SoundsWhatIsHeld(cs: seq<Command>, step: u32)
    requires Uncrowded(cs) && forall c :: c in cs ==> Unplaced(c)
    ensures var b := Play(SILENT, cs);
      b.Queued? && Playing(b.sounding, step) == Live(cs, step) && |b.sounding| == Crowd(cs)
    decreases |cs|
  {
    if cs != [] {
      var c, before := cs[|cs| - 1], cs[..|cs| - 1];
      UncrowdedPrefix(cs);
      SoundsWhatIsHeld(before, step);
      SoundsWhatIsHeld(before, c.value);
      var b := Play(SILENT, before);
      if c.opcode == OP_NOTE_ON {
        NoteInterruptsNothing(b);
        OnAddsOne(b, c, step);
        NoteGoesToTarget(b, c);
        WithoutElements(b.sounding, Choose(b));
      } else {
        OffTakesOne(b, c, step);
        if Live(before, c.value) > 0 {
          OffShortens(b, c);
        } else {
          OffMisses(b, c);
        }
      }
    }
  }

  /** What came after a prefix can take no more than what was held there and what was started since. */
  lemma {:induction false} LiveSince(cs: seq<Command>, n: nat, step: u32)
    requires n <= |cs| && forall c :: c in cs ==> IsNote(c)
    ensures Live(cs, step) >= (Ons(cs, step) - Ons(cs[..n], step)) - (Offs(cs, step) - Offs(cs[..n], step))
    decreases |cs|
  {
    if n == |cs| {
      assert cs[..n] == cs;
    } else {
      var init, c := cs[..|cs| - 1], cs[|cs| - 1];
      assert c in cs && forall x :: x in init ==> x in cs;
      LiveSince(init, n, step);
      assert init[..n] == cs[..n];
    }
  }

  /** If as many releases as starts of every step leave nothing held, no release was wasted: at no point
      had more been released than started. */
  lemma NothingHeldIsBalanced(cs: seq<Command>)
    requires forall c :: c in cs ==> IsNote(c)
    requires forall step :: Ons(cs, step) == Offs(cs, step)
    requires forall step :: Live(cs, step) == 0
    ensures Balanced(cs)
  {
    forall n | 0 <= n <= |cs|
      ensures Covered(cs[..n])
    {
      forall step
        ensures Offs(cs[..n], step) <= Ons(cs[..n], step)
      {
        LiveSince(cs, n, step);
        assert Ons(cs, step) == Offs(cs, step) && Live(cs, step) == 0;
      }
    }
  }
}
