/** The firmware's logic as it really runs: an array of stamped voices, a ring of events and a few
    wrapping counters, all updated in place. Words come in and words are written to a caller's buffer;
    `Meanings` reads them as commands, and every method is proved to do what `Schedule` says, with the stamped allocator. */
module Control {
  import opened Words
  import opened Voices
  import opened Placement
  import S = Schedule

  const SCHEDULE_ENTRIES := S.SCHEDULE_ENTRIES
  const CONTROL_MAX_OUT := S.CONTROL_MAX_OUT
  const DISPATCH_WINDOW := S.DISPATCH_WINDOW

  datatype Slot = Slot(time: u32, lo: u32, hi: u32)

  function Meanings(ws: seq<Word>): (cs: seq<Command>)
    ensures |cs| == |ws|
    ensures forall i :: 0 <= i < |ws| ==> cs[i] == Meaning(ws[i])
  {
    seq(|ws|, i requires 0 <= i < |ws| => Meaning(ws[i]))
  }

  function EventOf(e: Slot): S.Event { S.Event(e.time, Meaning(Word(e.lo, e.hi))) }

  function RingIndex(head: nat, i: nat): nat { (head + i) % SCHEDULE_ENTRIES }

  /** The ring's `count` events from `head` on are the queue. */
  ghost predicate RingHolds(ring: seq<Slot>, head: nat, count: nat, queue: seq<S.Event>) {
    && |ring| == SCHEDULE_ENTRIES && head < SCHEDULE_ENTRIES
    && count == |queue| <= SCHEDULE_ENTRIES
    && forall i :: 0 <= i < count ==> EventOf(ring[RingIndex(head, i)]) == queue[i]
  }

  lemma RingAppends(ring: seq<Slot>, head: nat, count: nat, queue: seq<S.Event>, e: Slot)
    requires RingHolds(ring, head, count, queue) && count < SCHEDULE_ENTRIES
    ensures RingHolds(ring[RingIndex(head, count) := e], head, count + 1, queue + [EventOf(e)])
  {
    assert forall i :: 0 <= i < count ==> RingIndex(head, i) != RingIndex(head, count);
  }

  lemma RingEnds(ring: seq<Slot>, head: nat, count: nat, queue: seq<S.Event>)
    requires RingHolds(ring, head, count, queue) && count > 0
    ensures EventOf(ring[head]) == queue[0] && EventOf(ring[(head + count - 1) % SCHEDULE_ENTRIES]) == queue[count - 1]
  {
    assert RingIndex(head, 0) == head;
    assert RingIndex(head, count - 1) == (head + count - 1) % SCHEDULE_ENTRIES;
  }

  lemma RingPops(ring: seq<Slot>, head: nat, count: nat, queue: seq<S.Event>)
    requires RingHolds(ring, head, count, queue) && count > 0
    ensures RingHolds(ring, RingIndex(head, 1), count - 1, queue[1..])
  {
    assert forall i :: 0 <= i < count - 1 ==> RingIndex(RingIndex(head, 1), i) == RingIndex(head, i + 1);
  }

  lemma HeldEvent(time: u32, w: Word)
    ensures EventOf(Slot(time, WithDelay(w.lo, 0), w.hi)) == S.Event(time, Meaning(w).(delay := 0))
  {
    FieldUpdates(w, 0, 0);
  }

  class ControlState {
    const voices: array<Voice>
    const events: array<Slot>
    var head: nat
    var count: nat
    var tick: u32
    var anchor: u32
    var anchored: bool
    var chain: u32
    var chained: bool

    ghost var queue: seq<S.Event>  // the events in the ring, oldest first

    ghost predicate Valid()
      reads this, voices, events
    {
      && voices.Length == VOICE_COUNT
      && events.Length == SCHEDULE_ENTRIES
      && RingHolds(events[..], head, count, queue)
      && S.HoldsOnlySchedulable(queue)
    }

    ghost function Bank(): SaneBank
      requires voices.Length == VOICE_COUNT
      reads this, voices
    {
      Stamped(voices[..], tick)
    }

    /** The abstract state this object holds. */
    ghost function State(): S.State<SaneBank>
      requires voices.Length == VOICE_COUNT
      reads this, voices
    {
      S.State(Bank(), queue, anchor, anchored, chain, chained)
    }

    constructor ()
      ensures Valid() && fresh(voices) && fresh(events)
      ensures State() == S.Start(ByStamps())
    {
      voices := new Voice[VOICE_COUNT](_ => Voice(0, Idle, 0));
      events := new Slot[SCHEDULE_ENTRIES](_ => Slot(0, 0, 0));
      head, count, tick, anchor, anchored, chain, chained := 0, 0, 0, 0, false, 0, false;
      queue := [];
      new;
      assert voices[..] == Blank().voices;
    }

    /** Back to the state of `Schedule.Start`. */
    method Reset()
      requires Valid()
      modifies this, voices
      ensures Valid()
      ensures State() == S.Start(ByStamps())
    {
      for i := 0 to VOICE_COUNT
        invariant forall v :: 0 <= v < i ==> voices[v] == Voice(0, Idle, 0)
      {
        voices[i] := Voice(0, Idle, 0);
      }
      head, count, tick, anchor, anchored, chain, chained := 0, 0, 0, 0, false, 0, false;
      queue := [];
      assert voices[..] == Blank().voices;
    }

    // ---------- the allocator ----------

    /** Give a voice to a note: it becomes the youngest sounding one. */
    method Start(step: u32, voice: nat)
      requires voices.Length == VOICE_COUNT && voice < VOICE_COUNT
      modifies this`tick, voices
      ensures Bank() == Take(old(Bank()), step, voice)
    {
      voices[voice] := Voice(step, Sounding, tick);
      tick := Plus(tick, 1);
    }

    /** Let a voice go. Only a sounding one changes; the answer is whether it was not idle. */
    method Release(voice: nat) returns (playing: bool)
      requires voices.Length == VOICE_COUNT && voice < VOICE_COUNT
      modifies this`tick, voices
      ensures Bank() == LetGo(old(Bank()), voice)
      ensures playing <==> old(voices[voice].phase) != Idle
    {
      if voices[voice].phase == Idle {
        return false;
      }
      if voices[voice].phase == Sounding {
        voices[voice] := Voice(voices[voice].step, Releasing, tick);
        tick := Plus(tick, 1);
      }
      return true;
    }

    /** Choose a voice by scanning the array, and give it to the note. */
    method Allocate(step: u32) returns (voice: nat)
      requires voices.Length == VOICE_COUNT
      modifies this`tick, voices
      ensures voice == Choose(old(Bank()))
      ensures Bank() == Take(old(Bank()), step, voice)
    {
      ghost var vs := voices[..];
      voice := 0;
      while voice < VOICE_COUNT && voices[voice].phase != Idle
        invariant voice <= VOICE_COUNT
        invariant forall v :: 0 <= v < voice ==> !IsIdle(Bank(), v) && vs[v].phase != Idle
      {
        voice := voice + 1;
      }
      IdleFrom(Bank(), voice, 0);
      if voice == VOICE_COUNT {
        var best := -1;
        for i := 0 to VOICE_COUNT
          invariant best == Oldest(vs, Releasing, None, i)
        {
          if voices[i].phase == Releasing {
            if best < 0 || Older(voices[i].stamp, voices[best].stamp) {
              best := i;
            }
          }
        }
        if best < 0 {
          AllSounding(vs, VOICE_COUNT);
          best := 0;
          OldestOfOne(vs);
          for i := 1 to VOICE_COUNT
            invariant best == Oldest(vs, Sounding, None, i) >= 0
          {
            if Older(voices[i].stamp, voices[best].stamp) {
              best := i;
            }
          }
        }
        voice := best;
      }
      Start(step, voice);
    }

    /** Two scans of the array for a step: over sounding voices, and over releasing ones if that fails. */
    method Search(step: u32) returns (found: Option<nat>)
      requires voices.Length == VOICE_COUNT
      ensures found == Find(Bank(), step)
    {
      var best := -1;
      for i := 0 to VOICE_COUNT
        invariant best == Oldest(voices[..], Sounding, Some(step), i)
      {
        if voices[i].phase == Sounding && voices[i].step == step {
          if best < 0 || Older(voices[i].stamp, voices[best].stamp) {
            best := i;
          }
        }
      }
      if best >= 0 {
        return Some(best);
      }
      for i := 0 to VOICE_COUNT
        invariant best == Oldest(voices[..], Releasing, Some(step), i)
      {
        if voices[i].phase == Releasing && voices[i].step == step {
          if best < 0 || Older(voices[i].stamp, voices[best].stamp) {
            best := i;
          }
        }
      }
      return if best >= 0 then Some(best) else None;
    }

    // ---------- one command ----------

    /** Apply a command to the voices, and write the words it pushes into the buffer from `at` on. */
    method Place(w: Word, out: array<Word>, at: nat) returns (emitted: nat)
      requires voices.Length == VOICE_COUNT && at + VOICE_COUNT <= out.Length
      modifies this`tick, voices, out
      ensures emitted <= VOICE_COUNT
      ensures out[..at] == old(out[..at])
      ensures (Bank(), Meanings(out[at..at + emitted])) == Apply(old(Bank()), Meaning(w))
      ensures GoesOut(Meaning(w), Meanings(out[at..at + emitted]))
    {
      ApplyGoesOut(Bank(), Meaning(w));
      var opcode, voice := OpcodeOf(w.hi), VoiceOf(w.hi);
      if !PerVoice(opcode) {
        out[at] := w;
        assert Meanings(out[at..at + 1]) == [Meaning(w)];
        return 1;
      }
      if voice != VOICE_ANY {
        if voice >= VOICE_COUNT {
          return 0;
        }
        if opcode == OP_NOTE_ON {
          Start(ValueOf(w), voice);
        } else if opcode == OP_NOTE_OFF {
          var _ := Release(voice);
        }
        out[at] := w;
        assert Meanings(out[at..at + 1]) == [Meaning(w)];
        return 1;
      }
      if opcode == OP_NOTE_ON {
        var chosen := Allocate(ValueOf(w));
        FieldUpdates(w, chosen, 0);
        out[at] := Word(w.lo, WithVoice(w.hi, chosen));
        assert Meanings(out[at..at + 1]) == [Meaning(w).(voice := chosen)];
        return 1;
      }
      if opcode == OP_NOTE_OFF {
        var found := Search(ValueOf(w));
        if found.None? {
          return 0;
        }
        var _ := Release(found.value);
        FieldUpdates(w, found.value, 0);
        out[at] := Word(w.lo, WithVoice(w.hi, found.value));
        assert Meanings(out[at..at + 1]) == [Meaning(w).(voice := found.value)];
        return 1;
      }
      for i := 0 to VOICE_COUNT
        invariant out[..at] == old(out[..at])
        invariant Bank() == old(Bank())
        invariant forall k :: at <= k < at + i ==> Meaning(out[k]) == Copy(Meaning(w), k - at)
      {
        FieldUpdates(w, i, 0);
        FieldUpdates(Word(w.lo, WithVoice(w.hi, i)), i, 0);
        out[at + i] := Word(if i == 0 then w.lo else WithDelay(w.lo, 0), WithVoice(w.hi, i));
      }
      assert Meanings(out[at..at + VOICE_COUNT]) == Broadcast(Meaning(w));
      return VOICE_COUNT;
    }

    /** Whether an event is refused: for want of room, or because its time goes back. */
    method Refuses(time: u32) returns (refused: bool)
      requires Valid()
      ensures refused <==> !S.Accepts(queue, time)
    {
      if count == SCHEDULE_ENTRIES {
        return true;
      }
      if count > 0 {
        var last := (head + count - 1) % SCHEDULE_ENTRIES;
        RingEnds(events[..], head, count, queue);
        if Older(time, events[last].time) {
          return true;
        }
      }
      return false;
    }

    /** Hold an event for later, or refuse it. */
    method Append(time: u32, w: Word)
      requires Valid() && S.Schedulable(Meaning(w).(delay := 0))
      modifies this`count, this`queue, events
      ensures Valid()
      ensures queue == S.Appended(old(queue), time, Meaning(w))
    {
      var refused := Refuses(time);
      if refused {
        return;
      }
      var slot, e := (head + count) % SCHEDULE_ENTRIES, Slot(time, WithDelay(w.lo, 0), w.hi);
      RingAppends(events[..], head, count, queue, e);
      HeldEvent(time, w);
      events[slot] := e;
      queue := queue + [EventOf(e)];
      count := count + 1;
    }

    /** A command arrives; the answer is the number of words written for the engine. */
    method Command(w: Word, out: array<Word>) returns (emitted: nat)
      requires Valid() && VOICE_COUNT <= out.Length
      modifies this, voices, events, out
      ensures Valid()
      ensures emitted <= VOICE_COUNT
      ensures (State(), Meanings(out[..emitted])) == S.Receive(ByStamps(), old(State()), Meaning(w))
    {
      var opcode := OpcodeOf(w.hi);
      if opcode == OP_SCHEDULE_AT {
        anchor, anchored := ValueOf(w), true;
        return 0;
      }
      if opcode == OP_CLEAR_SCHEDULE {
        head, count, anchored, queue := 0, 0, false, [];
        return 0;
      }
      if opcode == OP_RESET {
        Reset();
        out[0] := w;
        assert Meanings(out[..1]) == [Meaning(w)];
        return 1;
      }
      if anchored {
        anchor := Plus(anchor, DelayOf(w.lo));
        Append(anchor, w);
        return 0;
      }
      emitted := Place(w, out, 0);
    }

    /** Take the event at the head of the ring, hanging its delay off the chain, or off now once the
        chain has drained. */
    method Next(now: u32) returns (w: Word, base: u32)
      requires Valid() && count > 0
      modifies this`head, this`count, this`queue
      ensures Valid() && queue == old(queue)[1..]
      ensures base == S.Base(old(State()), now)
      ensures Meaning(w) == S.Head(old(State()), now)
    {
      RingEnds(events[..], head, count, queue);
      RingPops(events[..], head, count, queue);
      var event := events[head];
      base := if chained && Gap(chain, now) > 0 then chain else now;
      var gap := Gap(event.time, base);
      var delay := if gap > 0 then gap else 0;
      if delay > 0xFFFF {
        delay := 0xFFFF;
      }
      FieldUpdates(Word(event.lo, event.hi), 0, delay);
      head := (head + 1) % SCHEDULE_ENTRIES;
      count := count - 1;
      queue := queue[1..];
      w := Word(WithDelay(event.lo, delay), event.hi);
    }

    /** One pass of the draining loop: place the head event's command and move the chain to where it
        lands. */
    method Send(now: u32, out: array<Word>, n: nat, ghost done: seq<Command>) returns (emitted: nat)
      requires Valid() && n + VOICE_COUNT <= out.Length
      requires !S.Stops(State(), now, n) && done == Meanings(out[..n])
      modifies this, voices, out
      ensures Valid() && count < old(count)
      ensures emitted <= VOICE_COUNT
      ensures S.After(ByStamps(), old(State()), now, n, done) ==
              S.After(ByStamps(), State(), now, n + emitted, Meanings(out[..n + emitted]))
    {
      ghost var was := State();
      var w, base := Next(now);
      emitted := Place(w, out, n);
      chained := emitted > 0;
      if chained {
        chain := Plus(base, DelayOf(w.lo));
      }
      MeaningsSplit(out[..], n, emitted);
      assert State() == S.HeadGone(was, now, Bank(), emitted > 0);
      S.AfterOne(ByStamps(), was, now, n, done);
    }

    /** Drain the ring's due events into the buffer; the answer is the number of words written. */
    method Dispatch(now: u32, out: array<Word>) returns (n: nat)
      requires Valid() && CONTROL_MAX_OUT <= out.Length
      modifies this, voices, out
      ensures Valid()
      ensures n <= CONTROL_MAX_OUT
      ensures (State(), Meanings(out[..n])) == S.Dispatch(ByStamps(), old(State()), now, 0)
    {
      n := 0;
      S.AfterNothing(ByStamps(), State(), now);
      while count > 0 && n + VOICE_COUNT <= CONTROL_MAX_OUT
        invariant Valid() && n <= CONTROL_MAX_OUT
        invariant S.Dispatch(ByStamps(), old(State()), now, 0) == S.After(ByStamps(), State(), now, n, Meanings(out[..n]))
        decreases count
      {
        RingEnds(events[..], head, count, queue);
        if Gap(events[head].time, now) > DISPATCH_WINDOW {
          break;
        }
        var emitted := Send(now, out, n, Meanings(out[..n]));
        n := n + emitted;
      }
      S.AfterAll(ByStamps(), State(), now, n, Meanings(out[..n]));
    }
  }

  lemma MeaningsSplit(ws: seq<Word>, n: nat, k: nat)
    requires n + k <= |ws|
    ensures Meanings(ws[..n + k]) == Meanings(ws[..n]) + Meanings(ws[n..n + k])
  {
  }

  /** A scan for an idle voice finds the lowest. */
  lemma {:induction false} IdleFrom(b: Bank, voice: nat, from: nat)
    requires b.Proper() && from <= voice <= VOICE_COUNT
    requires forall v :: from <= v < voice ==> !IsIdle(b, v)
    requires voice < VOICE_COUNT ==> IsIdle(b, voice)
    ensures LowestIdle(b, from) == voice
    decreases voice - from
  {
    if from < voice { IdleFrom(b, voice, from + 1); }
  }

  /** With no voice idle and none releasing, all are sounding. */
  lemma {:induction false} AllSounding(vs: seq<Voice>, n: nat)
    requires n <= |vs| && Oldest(vs, Releasing, None, n) < 0
    requires forall v :: 0 <= v < n ==> vs[v].phase != Idle
    ensures forall v :: 0 <= v < n ==> vs[v].phase == Sounding
  {
    if n > 0 { AllSounding(vs, n - 1); }
  }

  lemma OldestOfOne(vs: seq<Voice>)
    requires |vs| > 0 && vs[0].phase == Sounding
    ensures Oldest(vs, Sounding, None, 1) == 0
  {
    assert Oldest(vs, Sounding, None, 0) == -1;
  }
}
