/** The allocator's two pictures of the voice bank.

    `Stamped` is what the firmware keeps: a phase and a 32-bit stamp per voice, the stamp being the
    tick of the voice's last change. `Queued` is what it means: the notes sounding, oldest first, and
    the notes releasing, longest-released first, every other voice idle. Each operation is defined on
    both; the lemmas here are about the queues. That the stamps stand for them is shown in `Ages`. */
module Voices {
  import opened Words


  datatype Phase = Idle | Sounding | Releasing
  datatype Voice = Voice(step: u32, phase: Phase, stamp: u32)
  datatype Entry = Entry(voice: nat, step: u32)

  datatype Bank =
    | Stamped(voices: seq<Voice>, tick: u32)
    | Queued(sounding: seq<Entry>, releasing: seq<Entry>)
  {
    predicate Proper() { Stamped? ==> |voices| == VOICE_COUNT }
  }

  const SILENT := Queued([], [])

  function Blank(): (b: Bank)
    ensures b.Stamped? && b.Proper()
  {
    Stamped(seq(VOICE_COUNT, _ => Voice(0, Idle, 0)), 0)
  }

  // ---------- queues ----------

  /** The index of the entry for `voice`, or the length when there is none. */
  function Position(q: seq<Entry>, voice: nat): (i: nat)
    ensures i <= |q|
    ensures i < |q| ==> q[i].voice == voice
    ensures forall j :: 0 <= j < i ==> q[j].voice != voice
  {
    if q == [] then 0 else if q[0].voice == voice then 0 else 1 + Position(q[1..], voice)
  }

  predicate Holds(q: seq<Entry>, voice: nat) { exists i :: 0 <= i < |q| && q[i].voice == voice }

  function Without(q: seq<Entry>, voice: nat): seq<Entry> {
    var i := Position(q, voice);
    if i < |q| then q[..i] + q[i + 1..] else q
  }

  /** The index of the first entry playing `step`, or the length when there is none. */
  function FirstOf(q: seq<Entry>, step: u32): (i: nat)
    ensures i <= |q|
    ensures i < |q| ==> q[i].step == step
    ensures forall j :: 0 <= j < i ==> q[j].step != step
  {
    if q == [] then 0 else if q[0].step == step then 0 else 1 + FirstOf(q[1..], step)
  }

  // ---------- stamps ----------

  /** The voices in `phase`, and playing `step` if one is asked for. */
  predicate Wanted(v: Voice, phase: Phase, step: Option<u32>) {
    v.phase == phase && (step.None? || v.step == step.value)
  }

  /** The wanted voice with the oldest stamp among the first `n`, the lower voice winning a tie; -1 if
      there is none. */
  function Oldest(vs: seq<Voice>, phase: Phase, step: Option<u32>, n: nat): (best: int)
    requires n <= |vs|
    ensures -1 <= best < n
    ensures best >= 0 ==> Wanted(vs[best], phase, step)
  {
    if n == 0 then -1
    else
      var best := Oldest(vs, phase, step, n - 1);
      if Wanted(vs[n - 1], phase, step) && (best < 0 || Older(vs[n - 1].stamp, vs[best].stamp)) then n - 1 else best
  }

  // ---------- the operations ----------

  predicate IsIdle(b: Bank, voice: nat)
    requires b.Proper() && voice < VOICE_COUNT
  {
    match b
    case Stamped(vs, _) => vs[voice].phase == Idle
    case Queued(sounding, releasing) => !Holds(sounding, voice) && !Holds(releasing, voice)
  }

  /** The lowest idle voice from `from` on, or the number of voices. */
  function LowestIdle(b: Bank, from: nat): (v: nat)
    requires b.Proper() && from <= VOICE_COUNT
    ensures from <= v <= VOICE_COUNT
    ensures forall u :: from <= u < v ==> !IsIdle(b, u)
    ensures v < VOICE_COUNT ==> IsIdle(b, v)
    decreases b, VOICE_COUNT - from
  {
    if from == VOICE_COUNT || IsIdle(b, from) then from else LowestIdle(b, from + 1)
  }

  /** A note starts on `voice`: whatever that voice was doing ends, and the note is the youngest. */
  function Take(b: Bank, step: u32, voice: nat): (b': Bank)
    requires b.Proper() && voice < VOICE_COUNT
    ensures b'.Proper() && b'.Stamped? == b.Stamped?
  {
    match b
    case Stamped(vs, tick) => Stamped(vs[voice := Voice(step, Sounding, tick)], Plus(tick, 1))
    case Queued(sounding, releasing) =>
      Queued(Without(sounding, voice) + [Entry(voice, step)], Without(releasing, voice))
  }

  /** The note on `voice` lets go: only a sounding note moves, to the young end of the releases. */
  function LetGo(b: Bank, voice: nat): (b': Bank)
    requires b.Proper() && voice < VOICE_COUNT
    ensures b'.Proper() && b'.Stamped? == b.Stamped?
  {
    match b
    case Stamped(vs, tick) =>
      if vs[voice].phase == Sounding then
        Stamped(vs[voice := Voice(vs[voice].step, Releasing, tick)], Plus(tick, 1))
      else b
    case Queued(sounding, releasing) =>
      var i := Position(sounding, voice);
      if i < |sounding| then Queued(Without(sounding, voice), releasing + [Entry(voice, sounding[i].step)]) else b
  }

  /** The voice a new note is given: the lowest idle one, else the longest release, else the oldest
      note sounding. */
  function Choose(b: Bank): (voice: nat)
    requires b.Proper() && WellFormed(b)
    ensures voice < VOICE_COUNT
  {
    var idle := LowestIdle(b, 0);
    if idle < VOICE_COUNT then idle
    else
      match b
      case Stamped(vs, _) =>
        var release := Oldest(vs, Releasing, None, VOICE_COUNT);
        var note := Oldest(vs, Sounding, None, VOICE_COUNT);
        if release >= 0 then release else if note >= 0 then note else 0
      case Queued(sounding, releasing) =>
        if releasing != [] then releasing[0].voice else if sounding != [] then sounding[0].voice else 0
  }

  /** Whom a note-off reaches: the oldest sounding `step`, else the longest-released one. */
  function Find(b: Bank, step: u32): (found: Option<nat>)
    requires b.Proper() && WellFormed(b)
    ensures found.Some? ==> found.value < VOICE_COUNT
  {
    match b
    case Stamped(vs, _) =>
      var note := Oldest(vs, Sounding, Some(step), VOICE_COUNT);
      var release := Oldest(vs, Releasing, Some(step), VOICE_COUNT);
      if note >= 0 then Some(note) else if release >= 0 then Some(release) else None
    case Queued(sounding, releasing) =>
      var i, j := FirstOf(sounding, step), FirstOf(releasing, step);
      if i < |sounding| then Some(sounding[i].voice)
      else if j < |releasing| then Some(releasing[j].voice)
      else None
  }

  // ---------- what a bank of queues keeps ----------

  predicate Distinct(q: seq<Entry>) {
    forall i, j :: 0 <= i < j < |q| ==> q[i].voice != q[j].voice
  }

  predicate InBank(q: seq<Entry>) { forall i :: 0 <= i < |q| ==> q[i].voice < VOICE_COUNT }

  /** No voice is in two places and every voice named exists: the two queues and the idle voices
      partition the bank. */
  ghost predicate WellFormed(b: Bank) {
    b.Queued? ==>
      && Distinct(b.sounding) && InBank(b.sounding)
      && Distinct(b.releasing) && InBank(b.releasing)
      && forall v: nat :: Holds(b.sounding, v) ==> !Holds(b.releasing, v)
  }

  /** Taking a voice out of a queue takes out no other. */
  lemma OthersHeld(q: seq<Entry>, voice: nat)
    ensures forall u :: u != voice ==> (Holds(Without(q, voice), u) <==> Holds(q, u))
  {
    var i := Position(q, voice);
    var w := Without(q, voice);
    if i < |q| {
      forall u | u != voice && Holds(q, u)
        ensures Holds(w, u)
      {
        var p :| 0 <= p < |q| && q[p].voice == u;
        assert w[if p < i then p else p - 1].voice == u;
      }
      forall u | u != voice && Holds(w, u)
        ensures Holds(q, u)
      {
        var r :| 0 <= r < |w| && w[r].voice == u;
        assert q[if r < i then r else r + 1].voice == u;
      }
    }
  }

  /** Of a distinct queue, the voice itself is gone altogether. */
  lemma WithoutElements(q: seq<Entry>, voice: nat)
    ensures |Without(q, voice)| == if Holds(q, voice) then |q| - 1 else |q|
    ensures Distinct(q) ==> Distinct(Without(q, voice)) && !Holds(Without(q, voice), voice)
    ensures InBank(q) ==> InBank(Without(q, voice))
    ensures forall e :: e in Without(q, voice) ==> e in q && (Distinct(q) ==> e.voice != voice)
  {
    var i, w := Position(q, voice), Without(q, voice);
    assert forall k :: 0 <= k < |w| ==> w[k] == q[if k < i then k else k + 1];
  }

  lemma HoldsAppended(q: seq<Entry>, e: Entry)
    ensures forall v :: Holds(q + [e], v) <==> Holds(q, v) || v == e.voice
  {
    var r := q + [e];
    assert r[|q|] == e;
    forall v | Holds(q, v)
      ensures Holds(r, v)
    {
      var i :| 0 <= i < |q| && q[i].voice == v;
      assert r[i].voice == v;
    }
  }

  lemma AppendKeepsDistinct(q: seq<Entry>, e: Entry)
    requires Distinct(q) && !Holds(q, e.voice)
    ensures Distinct(q + [e])
  {
  }

  lemma TakeKeepsWellFormed(b: Bank, step: u32, voice: nat)
    requires b.Queued? && WellFormed(b) && voice < VOICE_COUNT
    ensures WellFormed(Take(b, step, voice))
  {
    var s := Without(b.sounding, voice);
    WithoutElements(b.sounding, voice);
    WithoutElements(b.releasing, voice);
    OthersHeld(b.sounding, voice);
    OthersHeld(b.releasing, voice);
    AppendKeepsDistinct(s, Entry(voice, step));
    HoldsAppended(s, Entry(voice, step));
  }

  lemma LetGoKeepsWellFormed(b: Bank, voice: nat)
    requires b.Queued? && WellFormed(b) && voice < VOICE_COUNT
    ensures WellFormed(LetGo(b, voice))
  {
    var i := Position(b.sounding, voice);
    if i < |b.sounding| {
      assert Holds(b.sounding, voice);
      WithoutElements(b.sounding, voice);
      OthersHeld(b.sounding, voice);
      var e := Entry(voice, b.sounding[i].step);
      AppendKeepsDistinct(b.releasing, e);
      HoldsAppended(b.releasing, e);
    }
  }

  lemma {:induction false} OldestIsAny(vs: seq<Voice>, phase: Phase, step: Option<u32>, n: nat)
    requires n <= |vs|
    ensures Oldest(vs, phase, step, n) >= 0 <==> exists v :: 0 <= v < n && Wanted(vs[v], phase, step)
  {
    if n > 0 {
      OldestIsAny(vs, phase, step, n - 1);
    }
  }

  /** The scan by stamps finds nothing exactly when no voice sounds or releases the step: for that much
      the stamps themselves do not matter. */
  lemma ScanFails(b: Bank, step: u32)
    requires b.Stamped? && b.Proper()
    ensures Find(b, step).None? <==>
            forall v :: 0 <= v < VOICE_COUNT ==> b.voices[v].step != step || b.voices[v].phase == Idle
  {
    OldestIsAny(b.voices, Sounding, Some(step), VOICE_COUNT);
    OldestIsAny(b.voices, Releasing, Some(step), VOICE_COUNT);
    forall v | 0 <= v < VOICE_COUNT && b.voices[v].step == step && b.voices[v].phase != Idle
      ensures Wanted(b.voices[v], Sounding, Some(step)) || Wanted(b.voices[v], Releasing, Some(step))
    {
    }
  }

  /** And so does the search of the queues. */
  lemma FindFails(b: Bank, step: u32)
    requires b.Queued? && WellFormed(b)
    ensures Find(b, step).None? <==>
            (forall e :: e in b.sounding ==> e.step != step) && (forall e :: e in b.releasing ==> e.step != step)
  {
    var i, j := FirstOf(b.sounding, step), FirstOf(b.releasing, step);
    assert i < |b.sounding| ==> b.sounding[i] in b.sounding;
    assert j < |b.releasing| ==> b.releasing[j] in b.releasing;
  }

  /** A repeated note-off moves nothing: once a voice has let go, letting go again is the identity. */
  lemma LetGoTwice(b: Bank, voice: nat)
    requires b.Proper() && WellFormed(b) && voice < VOICE_COUNT
    ensures LetGo(LetGo(b, voice), voice) == LetGo(b, voice)
  {
    if b.Queued? {
      WithoutElements(b.sounding, voice);
    }
  }
}
