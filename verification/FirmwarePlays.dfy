/** The firmware itself, stamps and all, at the end of the whole path: what `Streaming` and `Polyphony`
    prove of the queue machine holds of the voices the firmware keeps. */
module FirmwarePlays {
  import opened Words
  import opened Voices
  import opened Ages
  import opened Placement
  import opened NoStuckNotes
  import opened Score
  import opened FirmwareRefines
  import Schedule
  import M = Simulation
  import P = Player
  import Polyphony
  import Punctual
  import T = Timing
  import S = Streaming

  type Firmware = Schedule.State<SaneBank>
  type System = S.Sys<SaneBank>

  // ---------- the two systems side by side ----------

  /** Everything is the same but the voices, the stamps stand for the queues, and the tick has moved no
      more often than there were cues to place. */
  ghost predicate Twin(x: System, h: History, y: System) {
    && x == y.(fw := x.fw) && x.fw == y.fw.(bank := x.fw.bank)
    && Represents(x.fw.bank, h, y.fw.bank) && h.clock + |x.fw.queue| <= x.taken
  }

  lemma PlacedAlike(u: Firmware, h: History, m: Firmware, now: u32)
    requires Represents(u.bank, h, m.bank) && u == m.(bank := u.bank) && h.clock < WINDOW
    ensures Schedule.Placed(ByStamps(), u, now, 0) == Schedule.Placed(ByQueues(), m, now, 0)
  {
    YoungIsWithin(u.bank, h, m.bank);
    StampsSimulateQueues(WINDOW);
    StandsAfterIs(WINDOW, u.bank, h, m.bank, 0);
    M.PlacedSimulates(ByStamps(), ByQueues(), Aged, StandsAfter(WINDOW), u, h, m, now, 0);
  }

  lemma MoveKeepsTwin(x: System, h: History, y: System, limit: int, lookahead: int, move: S.Move) returns (h': History)
    requires Twin(x, h, y) && x.taken < WINDOW && P.Playable(x.feed) && S.Enabled(x, move)
    ensures S.Enabled(y, move)
    ensures Twin(S.Step(ByStamps(), x, limit, lookahead, move), h', S.Step(ByQueues(), y, limit, lookahead, move))
  {
    h' := h;
    match move
    case Poll(now) =>
    case Deliver =>
      h' := AgedBy(x.fw, h, M.Host(x.wire[0]));
      YoungStep(x.fw, h, y.fw, M.Host(x.wire[0]));
      StepAges(x.fw, h, M.Host(x.wire[0]));
    case Clock(now) =>
      h' := AgedBy(x.fw, h, M.Clock(now));
      PlacedAlike(x.fw, h, y.fw, now);
      YoungStep(x.fw, h, y.fw, M.Clock(now));
      StepAges(x.fw, h, M.Clock(now));
  }

  /** Over any run at all, with any number of idle moves: the two systems stay twins for as long as the
      score has fewer cues than it takes to age a stamp by half a wrap. */
  lemma {:induction false} RunKeepsTwin(x: System, h: History, y: System, limit: int, lookahead: int,
                                        moves: seq<S.Move>) returns (h': History)
    requires Twin(x, h, y) && |x.feed.cues| < WINDOW
    requires S.Inv(ByStamps(), x, limit, lookahead) && S.Possible(ByStamps(), x, limit, lookahead, moves)
    requires limit <= Schedule.SCHEDULE_ENTRIES && 0 <= lookahead < TWO31
    ensures S.Possible(ByQueues(), y, limit, lookahead, moves)
    ensures Twin(S.Run(ByStamps(), x, limit, lookahead, moves), h', S.Run(ByQueues(), y, limit, lookahead, moves))
    decreases |moves|
  {
    h' := h;
    if moves != [] {
      var h1 := MoveKeepsTwin(x, h, y, limit, lookahead, moves[0]);
      var x1, y1 := S.Step(ByStamps(), x, limit, lookahead, moves[0]), S.Step(ByQueues(), y, limit, lookahead, moves[0]);
      S.MoveKeepsInv(ByStamps(), x, limit, lookahead, moves[0]);
      h' := RunKeepsTwin(x1, h1, y1, limit, lookahead, moves[1..]);
    }
  }

  // ---------- counting voices ----------

  /** The voices that sound a step. */
  function On(b: Bank, step: u32): set<nat>
    requires b.Stamped?
  {
    set v: nat | v < |b.voices| && b.voices[v].phase == Sounding && b.voices[v].step == step
  }

  /** The voices of the entries that play a step. */
  function VoicesOn(q: seq<Entry>, step: u32): set<nat> {
    if q == [] then {} else (if q[0].step == step then {q[0].voice} else {}) + VoicesOn(q[1..], step)
  }

  lemma {:induction false} VoicesOnIs(q: seq<Entry>, step: u32)
    ensures forall v: nat :: v in VoicesOn(q, step) <==> exists e :: e in q && e.voice == v && e.step == step
  {
    if q != [] {
      VoicesOnIs(q[1..], step);
      assert forall e :: e in q <==> e == q[0] || e in q[1..];
    }
  }

  lemma {:induction false} VoicesOnCount(q: seq<Entry>, step: u32)
    requires Distinct(q)
    ensures |VoicesOn(q, step)| == Playing(q, step)
  {
    if q != [] {
      VoicesOnCount(q[1..], step);
      VoicesOnIs(q[1..], step);
      assert forall e :: e in q[1..] ==> e.voice != q[0].voice;
    }
  }

  /** The queue machine's count is the number of the firmware's voices. */
  lemma OnIsPlaying(b: Bank, h: History, q: Bank, step: u32)
    requires Represents(b, h, q)
    ensures |On(b, step)| == Playing(q.sounding, step)
  {
    RepresentedIsWellFormed(b, h, q);
    VoicesOnIs(q.sounding, step);
    VoicesOnCount(q.sounding, step);
    forall v: nat
      ensures v in On(b, step) <==> v in VoicesOn(q.sounding, step)
    {
      if v in On(b, step) {
        var i :| 0 <= i < |q.sounding| && q.sounding[i].voice == v;
        assert q.sounding[i] in q.sounding;
      }
    }
    assert On(b, step) == VoicesOn(q.sounding, step);
  }

  lemma NoneOn(b: Bank, h: History, q: Bank)
    requires Represents(b, h, q) && q.sounding == []
    ensures forall v :: 0 <= v < |b.voices| ==> b.voices[v].phase != Sounding
  {
  }

  // ---------- the firmware at the end of the path ----------

  ghost function Played(notes: seq<Note>, origin: u32, now: int, limit: int, lookahead: int, moves: seq<S.Move>): System
    requires S.Carried(notes, origin)
    requires S.Possible(ByStamps(), S.Begin(ByStamps(), notes, origin, now), limit, lookahead, moves)
  {
    S.Run(ByStamps(), S.Begin(ByStamps(), notes, origin, now), limit, lookahead, moves)
  }

  /** Two cues a note. */
  lemma {:induction false} BuiltCounted(notes: seq<Note>, origin: int)
    ensures |Built(notes, origin)| == 2 * |notes|
  {
    if notes != [] {
      BuiltCounted(notes[..|notes| - 1], origin);
    }
  }

  lemma CuesCounted(notes: seq<Note>, origin: int)
    ensures |Sort(Built(notes, origin))| == 2 * |notes|
  {
    BuiltCounted(notes, origin);
    SortIsPermutation(Built(notes, origin));
    assert |multiset(Sort(Built(notes, origin)))| == |multiset(Built(notes, origin))|;
  }

  lemma PlayedIsTwin(notes: seq<Note>, origin: u32, now: int, limit: int, lookahead: int, moves: seq<S.Move>)
    returns (h: History, y: System)
    requires S.Carried(notes, origin) && 2 * |notes| < WINDOW
    requires 0 <= limit <= Schedule.SCHEDULE_ENTRIES && 0 <= lookahead < TWO31
    requires S.Possible(ByStamps(), S.Begin(ByStamps(), notes, origin, now), limit, lookahead, moves)
    ensures S.Possible(ByQueues(), S.Begin(ByQueues(), notes, origin, now), limit, lookahead, moves)
    ensures y == S.Run(ByQueues(), S.Begin(ByQueues(), notes, origin, now), limit, lookahead, moves)
    ensures Twin(Played(notes, origin, now, limit, lookahead, moves), h, y)
  {
    BlankRepresents();
    CuesCounted(notes, origin);
    S.BeginHolds(ByStamps(), notes, origin, now, limit, lookahead);
    var x0, y0 := S.Begin(ByStamps(), notes, origin, now), S.Begin(ByQueues(), notes, origin, now);
    h := RunKeepsTwin(x0, POWER_ON, y0, limit, lookahead, moves);
    y := S.Run(ByQueues(), y0, limit, lookahead, moves);
  }

  /** For any score of up to a thousand million notes in which no release comes before its start, under
      every interleaving of player, link and firmware, however long it lasts: no step sounds on more of the
      firmware's voices than the cues played so far ask for, whatever was stolen, and once everything has
      been played none of its voices is sounding. */
  lemma FirmwareNeverSticks(notes: seq<Note>, origin: u32, now: int, limit: int, lookahead: int, moves: seq<S.Move>, step: u32)
    requires S.Carried(notes, origin) && EndsAfterBeginnings(notes, origin) && 2 * |notes| < WINDOW
    requires 0 <= limit <= Schedule.SCHEDULE_ENTRIES && 0 <= lookahead < TWO31
    requires S.Possible(ByStamps(), S.Begin(ByStamps(), notes, origin, now), limit, lookahead, moves)
    ensures var sys := Played(notes, origin, now, limit, lookahead, moves); var b := sys.fw.bank;
      && b.Stamped? && |On(b, step)| <= Ons(sys.placed, step) - Offs(sys.placed, step)
      && (|sys.placed| == |sys.feed.cues| ==> forall v :: 0 <= v < |b.voices| ==> b.voices[v].phase != Sounding)
  {
    var h, y := PlayedIsTwin(notes, origin, now, limit, lookahead, moves);
    var x := Played(notes, origin, now, limit, lookahead, moves);
    S.NoStuckNotesEndToEnd(notes, origin, now, limit, lookahead, moves, step);
    OnIsPlaying(x.fw.bank, h, y.fw.bank, step);
    if |x.placed| == |x.feed.cues| {
      NoneOn(x.fw.bank, h, y.fw.bank);
    }
  }

  /** And if no more than eight notes ever overlap, each step sounds on exactly the voices asked for. */
  lemma FirmwarePlaysEveryNote(notes: seq<Note>, origin: u32, now: int, limit: int, lookahead: int, moves: seq<S.Move>, step: u32)
    requires S.Carried(notes, origin) && EndsAfterBeginnings(notes, origin) && 2 * |notes| < WINDOW
    requires (forall n :: n in notes ==> n.start <= n.end) && Polyphony.FitsVoices(notes)
    requires 0 <= limit <= Schedule.SCHEDULE_ENTRIES && 0 <= lookahead < TWO31
    requires S.Possible(ByStamps(), S.Begin(ByStamps(), notes, origin, now), limit, lookahead, moves)
    ensures var sys := Played(notes, origin, now, limit, lookahead, moves);
      sys.fw.bank.Stamped? && |On(sys.fw.bank, step)| == Ons(sys.placed, step) - Offs(sys.placed, step)
  {
    var h, y := PlayedIsTwin(notes, origin, now, limit, lookahead, moves);
    Polyphony.NotesSoundEndToEnd(notes, origin, now, limit, lookahead, moves, step);
    OnIsPlaying(Played(notes, origin, now, limit, lookahead, moves).fw.bank, h, y.fw.bank, step);
  }

  // ---------- where the firmware's cues land ----------

  /** Where the head lands is no matter of the banks. */
  lemma SameHead<B, Q>(s: Schedule.State<B>, m: Schedule.State<Q>, k: T.Truth, now: int, any: bool)
    requires s.queue == m.queue != [] && s.chain == m.chain && s.chained == m.chained && |k.times| == |s.queue|
    ensures Schedule.Head(s, Wrap(now)) == Schedule.Head(m, Wrap(now))
    ensures T.LandsAt(s, k, now) == T.LandsAt(m, k, now) && T.Past(s, k, now, any) == T.Past(m, k, now, any)
  {
  }

  /** A call's landings, once its first event has been placed. */
  ghost function Onward(l: T.Landed, r: (T.Truth, seq<T.Landed>)): (T.Truth, seq<T.Landed>) { (r.0, [l] + r.1) }

  lemma LandingsStep<B>(a: Schedule.Allocator<B>, s: Schedule.State<B>, t: Schedule.State<B>, out: seq<Command>,
                        k: T.Truth, p: T.Truth, now: int, n: nat)
    requires |k.times| == |s.queue| && !Schedule.Stops(s, Wrap(now), n) && Schedule.Pop(a, s, Wrap(now)) == (t, out)
    requires p == T.Past(s, k, now, out != []) && |p.times| == |t.queue|
    ensures T.Landings(a, s, k, now, n) ==
      Onward(T.Landed(k.times[0], T.LandsAt(s, k, now), now, Schedule.Head(s, Wrap(now)), out), T.Landings(a, t, p, now, n + |out|))
  {
    T.LandingsUnfolds(a, s, k, now, n);
  }

  /** The same, with the first landing and the rest by name. */
  lemma LandingsAre<B>(a: Schedule.Allocator<B>, s: Schedule.State<B>, t: Schedule.State<B>, out: seq<Command>, k: T.Truth,
                       p: T.Truth, now: int, n: nat, l: T.Landed, r: (T.Truth, seq<T.Landed>))
    requires |k.times| == |s.queue| && !Schedule.Stops(s, Wrap(now), n) && Schedule.Pop(a, s, Wrap(now)) == (t, out)
    requires p == T.Past(s, k, now, out != []) && |p.times| == |t.queue| && r == T.Landings(a, t, p, now, n + |out|)
    requires l == T.Landed(k.times[0], T.LandsAt(s, k, now), now, Schedule.Head(s, Wrap(now)), out)
    ensures T.Landings(a, s, k, now, n) == Onward(l, r)
  {
    LandingsStep(a, s, t, out, k, p, now, n);
  }

  /** Related banks land the same commands at the same samples. */
  lemma {:induction false} LandingsSimulate<B(!new), H(!new), Q(!new)>(
    a: Schedule.Allocator<B>, b: Schedule.Allocator<Q>, age: (B, H, Command) -> H, rel: M.Relation<B, H, Q>,
    s: Schedule.State<B>, h: H, m: Schedule.State<Q>, k: T.Truth, now: int, n: nat)
    requires M.Simulates(a, b, age, rel) && M.Alike(rel, s, h, m, n) && n <= Schedule.CONTROL_MAX_OUT
    requires |k.times| == |s.queue|
    ensures T.Landings(a, s, k, now, n) == T.Landings(b, m, k, now, n)
    decreases |s.queue|
  {
    if !Schedule.Stops(s, Wrap(now), n) {
      M.PopSimulates(a, b, age, rel, s, h, m, Wrap(now), n);
      var (t, out) := Schedule.Pop(a, s, Wrap(now));
      var u, p := Schedule.Pop(b, m, Wrap(now)).0, T.Past(s, k, now, out != []);
      LandingsSimulate(a, b, age, rel, t, age(s.bank, h, Schedule.Head(s, Wrap(now))), u, p, now, n + |out|);
      SameHead(s, m, k, now, out != []);
      var l := T.Landed(k.times[0], T.LandsAt(s, k, now), now, Schedule.Head(s, Wrap(now)), out);
      var r := T.Landings(a, t, p, now, n + |out|);
      LandingsAre(a, s, t, out, k, p, now, n, l, r);
      LandingsAre(b, m, u, out, k, p, now, n, l, r);
    }
  }

  /** One move of the twins is known alike and sends alike. */
  lemma MoveLandsAlike(x: System, h: History, y: System, k: T.Truth, move: S.Move)
    requires Twin(x, h, y) && x.taken < WINDOW && P.Playable(x.feed) && S.Enabled(x, move) && |k.times| == |x.fw.queue|
    ensures S.Enabled(y, move) && Punctual.Known(ByStamps(), x, k, move) == Punctual.Known(ByQueues(), y, k, move)
    ensures Punctual.Sends(ByStamps(), x, k, move) == Punctual.Sends(ByQueues(), y, k, move)
  {
    if move.Clock? {
      YoungIsWithin(x.fw.bank, h, y.fw.bank);
      StampsSimulateQueues(WINDOW);
      StandsAfterIs(WINDOW, x.fw.bank, h, y.fw.bank, 0);
      LandingsSimulate(ByStamps(), ByQueues(), Aged, StandsAfter(WINDOW), x.fw, h, y.fw, k, move.now, 0);
    }
  }

  lemma {:induction false} RunLandsAlike(x: System, h: History, y: System, k: T.Truth, limit: int, lookahead: int, last: int,
                                         moves: seq<S.Move>)
    requires Twin(x, h, y) && |x.feed.cues| < WINDOW && |k.times| == |x.fw.queue|
    requires S.Inv(ByStamps(), x, limit, lookahead) && S.Possible(ByStamps(), x, limit, lookahead, moves)
    requires S.Possible(ByQueues(), y, limit, lookahead, moves)
    requires limit <= Schedule.SCHEDULE_ENTRIES && 0 <= lookahead < TWO31
    ensures Punctual.Log(ByStamps(), x, k, limit, lookahead, moves) == Punctual.Log(ByQueues(), y, k, limit, lookahead, moves)
    ensures Punctual.Timely(ByStamps(), x, k, limit, lookahead, last, moves) ==>
            Punctual.Timely(ByQueues(), y, k, limit, lookahead, last, moves)
    decreases |moves|
  {
    if moves != [] {
      var h1 := MoveKeepsTwin(x, h, y, limit, lookahead, moves[0]);
      var x1, y1 := S.Step(ByStamps(), x, limit, lookahead, moves[0]), S.Step(ByQueues(), y, limit, lookahead, moves[0]);
      S.MoveKeepsInv(ByStamps(), x, limit, lookahead, moves[0]);
      MoveLandsAlike(x, h, y, k, moves[0]);
      RunLandsAlike(x1, h1, y1, Punctual.Known(ByStamps(), x, k, moves[0]), limit, lookahead, Punctual.Latest(last, moves[0]), moves[1..]);
    }
  }

  /** The firmware puts every cue of such a score on one of its voices and on exactly its own sample. */
  lemma FirmwareIsPunctual(notes: seq<Note>, origin: u32, now: int, limit: int, lookahead: int, last: int, moves: seq<S.Move>)
    requires S.Carried(notes, origin) && EndsAfterBeginnings(notes, origin) && 2 * |notes| < WINDOW
    requires (forall n :: n in notes ==> n.start <= n.end) && Polyphony.FitsVoices(notes)
    requires 0 <= limit <= Schedule.SCHEDULE_ENTRIES && 0 <= lookahead < TWO31
    requires S.Possible(ByStamps(), S.Begin(ByStamps(), notes, origin, now), limit, lookahead, moves)
    requires Punctual.Timely(ByStamps(), S.Begin(ByStamps(), notes, origin, now), Punctual.Anchored(origin), limit, lookahead, last, moves)
    ensures var begin := S.Begin(ByStamps(), notes, origin, now);
      var placed := Played(notes, origin, now, limit, lookahead, moves).placed;
      var log := Punctual.Log(ByStamps(), begin, Punctual.Anchored(origin), limit, lookahead, moves);
      && T.Chained(log, None) && |log| == |placed| <= |begin.feed.cues|
      && forall i :: 0 <= i < |log| ==>
           && log[i].at == begin.feed.cues[i].sample && log[i].command == placed[i]
           && |log[i].out| == 1 && log[i].out[0] == placed[i].(voice := log[i].out[0].voice)
  {
    BlankRepresents();
    CuesCounted(notes, origin);
    var x, y := S.Begin(ByStamps(), notes, origin, now), S.Begin(ByQueues(), notes, origin, now);
    S.BeginHolds(ByStamps(), notes, origin, now, limit, lookahead);
    var h, end := PlayedIsTwin(notes, origin, now, limit, lookahead, moves);
    RunLandsAlike(x, POWER_ON, y, Punctual.Anchored(origin), limit, lookahead, last, moves);
    Punctual.EveryCueOnItsSample(notes, origin, now, limit, lookahead, last, moves);
  }
}
