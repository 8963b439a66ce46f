/** Where a streamed score lands. `Streaming` says which commands are placed and in what order, `Timing`
    where each dispatched event lands; together they put every cue on its own sample. */
module Punctual {
  import opened Words
  import opened Schedule
  import opened Score
  import opened Player
  import opened NoStuckNotes
  import opened Placement
  import opened Voices
  import Polyphony
  import T = Timing
  import S = Streaming

  // ---------- the true samples behind the ring ----------

  /** A list of times is the samples of the cues from one place on. */
  predicate AreSamples(times: seq<int>, cues: seq<Cue>, from: nat) {
    from + |times| <= |cues| && forall i :: 0 <= i < |times| ==> times[i] == cues[from + i].sample
  }

  lemma RestAreSamples(times: seq<int>, cues: seq<Cue>, from: nat, n: nat)
    requires AreSamples(times, cues, from) && n <= |times|
    ensures AreSamples(times[n..], cues, from + n)
  {
  }

  /** The samples the ring's events stand for are those of the cues it holds. */
  ghost predicate Cued<B>(k: T.Truth, sys: S.Sys<B>) {
    && |k.times| == |sys.fw.queue| && AreSamples(k.times, sys.feed.cues, |sys.placed|)
    && k.anchor == sys.fw.anchor && sys.fw.chained == k.chain.Some?
    && (k.chain.Some? ==> sys.fw.chain == Wrap(k.chain.value))
  }

  lemma CuedTells<B>(a: Allocator<B>, sys: S.Sys<B>, k: T.Truth, limit: int, lookahead: int)
    requires S.Inv(a, sys, limit, lookahead) && Cued(k, sys)
    ensures T.Tells(k, sys.fw)
  {
    forall i | 0 <= i < |k.times|
      ensures sys.fw.queue[i].time == Wrap(k.times[i])
    {
      assert sys.fw.queue[i].time == sys.feed.cues[|sys.placed| + i].sample;
    }
  }

  /** What is known of the true samples after a move. */
  ghost function Known<B>(a: Allocator<B>, sys: S.Sys<B>, k: T.Truth, move: S.Move): (k': T.Truth)
    requires |k.times| == |sys.fw.queue| && S.Enabled(sys, move)
    ensures !move.Poll? && move.Deliver? ==> |k'.times| == |Receive(a, sys.fw, sys.wire[0]).0.queue|
    ensures move.Clock? ==> |k'.times| == |Dispatch(a, sys.fw, move.now, 0).0.queue|
    ensures move.Poll? ==> k' == k
  {
    match move
    case Poll(_) => k
    case Deliver => T.Told(a, sys.fw, k, sys.wire[0], sys.wire[0].value)
    case Clock(now) => assert Wrap(now) == now; T.Landings(a, sys.fw, k, now, 0).0
  }

  /** What one move sends. */
  ghost function Sends<B>(a: Allocator<B>, sys: S.Sys<B>, k: T.Truth, move: S.Move): seq<T.Landed>
    requires |k.times| == |sys.fw.queue|
  {
    if move.Clock? then T.Landings(a, sys.fw, k, move.now, 0).1 else []
  }

  /** Everything a run sends, each with where it lands. */
  ghost function Log<B>(a: Allocator<B>, sys: S.Sys<B>, k: T.Truth, limit: int, lookahead: int, moves: seq<S.Move>): seq<T.Landed>
    requires Playable(sys.feed) && S.Possible(a, sys, limit, lookahead, moves) && |k.times| == |sys.fw.queue|
    decreases |moves|
  {
    if moves == [] then []
    else
      Sends(a, sys, k, moves[0])
      + Log(a, S.Step(a, sys, limit, lookahead, moves[0]), Known(a, sys, k, moves[0]), limit, lookahead, moves[1..])
  }

  // ---------- what a log holds ----------

  /** A log of commands placed one after another from a bank on, each at its own sample. */
  ghost predicate Placing<B>(a: Allocator<B>, log: seq<T.Landed>, times: seq<int>, placed: seq<Command>, bank: B)
    decreases |log|
  {
    if log == [] then placed == []
    else
      && placed != [] && times != []
      && log[0].time == times[0] && log[0].command == placed[0] && log[0].out == a.place(bank, placed[0]).1
      && Placing(a, log[1..], times[1..], placed[1..], a.place(bank, placed[0]).0)
  }

  lemma PlacingCons<B>(a: Allocator<B>, l: T.Landed, rest: seq<T.Landed>, times: seq<int>, c: Command, placed: seq<Command>, bank: B)
    requires times != [] && l.time == times[0] && l.command == c && l.out == a.place(bank, c).1
    requires Placing(a, rest, times[1..], placed, a.place(bank, c).0)
    ensures Placing(a, [l] + rest, times, [c] + placed, bank)
  {
    assert ([l] + rest)[1..] == rest && ([c] + placed)[1..] == placed;
  }

  lemma {:induction false} PlacingAppend<B>(a: Allocator<B>, p: seq<T.Landed>, q: seq<T.Landed>, times: seq<int>,
                                            cs: seq<Command>, ds: seq<Command>, bank: B)
    requires Placing(a, p, times, cs, bank) && |p| <= |times|
    requires Placing(a, q, times[|p|..], ds, PlayAll(a, bank, cs))
    ensures Placing(a, p + q, times, cs + ds, bank)
    decreases |p|
  {
    if p == [] {
      assert p + q == q && cs + ds == ds && times[0..] == times;
    } else {
      var next := a.place(bank, cs[0]).0;
      assert cs == [cs[0]] + cs[1..] && (p + q)[1..] == p[1..] + q && (cs + ds)[1..] == cs[1..] + ds;
      PlayAllFirst(a, bank, cs[0], cs[1..]);
      assert times[1..][|p| - 1..] == times[|p|..];
      PlacingAppend(a, p[1..], q, times[1..], cs[1..], ds, next);
    }
  }

  lemma {:induction false} PlacingLengths<B>(a: Allocator<B>, log: seq<T.Landed>, times: seq<int>, placed: seq<Command>, bank: B)
    requires Placing(a, log, times, placed, bank)
    ensures |log| == |placed| <= |times|
    decreases |log|
  {
    if log != [] {
      PlacingLengths(a, log[1..], times[1..], placed[1..], a.place(bank, placed[0]).0);
    }
  }

  /** One entry of such a log. */
  lemma {:induction false} PlacingAt<B>(a: Allocator<B>, log: seq<T.Landed>, times: seq<int>, placed: seq<Command>, bank: B, i: nat)
    requires Placing(a, log, times, placed, bank) && i < |log|
    ensures |log| == |placed| <= |times|
    ensures log[i].time == times[i] && log[i].command == placed[i]
    ensures log[i].out == a.place(PlayAll(a, bank, placed[..i]), placed[i]).1
    decreases i
  {
    PlacingLengths(a, log, times, placed, bank);
    if i > 0 {
      PlacingAt(a, log[1..], times[1..], placed[1..], a.place(bank, placed[0]).0, i - 1);
      assert placed[..i] == [placed[0]] + placed[1..][..i - 1];
      PlayAllFirst(a, bank, placed[0], placed[1..][..i - 1]);
    }
  }

  // ---------- one dispatch ----------

  lemma PlacedUnfolds<B>(a: Allocator<B>, s: State<B>, now: u32, n: nat)
    requires !Stops(s, now, n)
    ensures var (t, out) := Pop(a, s, now);
      Placed(a, s, now, n) == [Head(s, now)] + Placed(a, t, now, n + |out|)
  {
  }

  /** The landings of a call are its placed commands, each with its own sample. */
  lemma {:induction false} LandingsArePlaced<B>(a: Allocator<B>, s: State<B>, k: T.Truth, now: int, n: nat)
    requires |k.times| == |s.queue|
    ensures Placing(a, T.Landings(a, s, k, now, n).1, k.times, Placed(a, s, Wrap(now), n), s.bank)
    decreases |s.queue|
  {
    if !Stops(s, Wrap(now), n) {
      var (t, out) := Pop(a, s, Wrap(now));
      var p := T.Past(s, k, now, out != []);
      LandingsArePlaced(a, t, p, now, n + |out|);
      T.LandingsUnfolds(a, s, k, now, n);
      PlacedUnfolds(a, s, Wrap(now), n);
      var l := T.Landed(k.times[0], T.LandsAt(s, k, now), now, Head(s, Wrap(now)), out);
      PlacingCons(a, l, T.Landings(a, t, p, now, n + |out|).1, k.times, Head(s, Wrap(now)), Placed(a, t, Wrap(now), n + |out|), s.bank);
    }
  }

  predicate Tail(rest: seq<int>, times: seq<int>) {
    |rest| <= |times| && rest == times[|times| - |rest|..]
  }

  lemma TailOfRest(rest: seq<int>, times: seq<int>)
    requires times != [] && Tail(rest, times[1..])
    ensures Tail(rest, times)
  {
  }

  /** And what is left is what was not taken. */
  lemma {:induction false} LandingsLeave<B>(a: Allocator<B>, s: State<B>, k: T.Truth, now: int, n: nat)
    requires |k.times| == |s.queue|
    ensures Tail(T.Landings(a, s, k, now, n).0.times, k.times) && T.Landings(a, s, k, now, n).0.anchor == k.anchor
    decreases |s.queue|
  {
    if !Stops(s, Wrap(now), n) {
      var (t, out) := Pop(a, s, Wrap(now));
      var p := T.Past(s, k, now, out != []);
      LandingsLeave(a, t, p, now, n + |out|);
      T.LandingsUnfolds(a, s, k, now, n);
      TailOfRest(T.Landings(a, t, p, now, n + |out|).0.times, k.times);
    }
  }

  lemma InTimeAppend(p: seq<T.Landed>, q: seq<T.Landed>)
    requires T.InTime(p) && T.InTime(q)
    ensures T.InTime(p + q)
  {
  }

  /** None of it was sent after its sample, if nothing held was late. */
  lemma {:induction false} LandingsInTime<B>(a: Allocator<B>, s: State<B>, k: T.Truth, now: int, n: nat)
    requires |k.times| == |s.queue| && forall i :: 0 <= i < |k.times| ==> now <= k.times[i]
    ensures T.InTime(T.Landings(a, s, k, now, n).1)
    decreases |s.queue|
  {
    if !Stops(s, Wrap(now), n) {
      var (t, out) := Pop(a, s, Wrap(now));
      LandingsInTime(a, t, T.Past(s, k, now, out != []), now, n + |out|);
      T.LandingsUnfolds(a, s, k, now, n);
      InTimeAppend([T.Landed(k.times[0], T.LandsAt(s, k, now), now, Head(s, Wrap(now)), out)],
                   T.Landings(a, t, T.Past(s, k, now, out != []), now, n + |out|).1);
    }
  }

  // ---------- one move ----------

  function Samples(cues: seq<Cue>): (ts: seq<int>)
    ensures |ts| == |cues| && forall i :: 0 <= i < |cues| ==> ts[i] == cues[i].sample
  {
    seq(|cues|, i requires 0 <= i < |cues| => cues[i].sample)
  }

  lemma {:induction false} PlacingLonger<B>(a: Allocator<B>, log: seq<T.Landed>, times: seq<int>, more: seq<int>,
                                            placed: seq<Command>, bank: B)
    requires Placing(a, log, times, placed, bank) && times <= more
    ensures Placing(a, log, more, placed, bank)
    decreases |log|
  {
    if log != [] {
      PlacingLonger(a, log[1..], times[1..], more[1..], placed[1..], a.place(bank, placed[0]).0);
    }
  }

  lemma CuedIsPrefix<B>(sys: S.Sys<B>, k: T.Truth)
    requires Cued(k, sys)
    ensures k.times <= Samples(sys.feed.cues)[|sys.placed|..]
  {
  }

  /** A call leaves the times of what it did not place. */
  lemma ClockLeaves<B>(a: Allocator<B>, s: State<B>, k: T.Truth, now: u32)
    requires |k.times| == |s.queue|
    ensures var k' := T.Landings(a, s, k, now, 0).0;
      |Placed(a, s, now, 0)| <= |k.times| && k'.times == k.times[|Placed(a, s, now, 0)|..] && k'.anchor == k.anchor
  {
    assert Wrap(now) == now;
    LandingsLeave(a, s, k, now, 0);
    PlacedWasSent(a, s, now, 0);
    DispatchConserves(a, s, now, 0);
  }

  lemma CuedFrom<B>(k: T.Truth, sys: S.Sys<B>)
    requires T.Tells(k, sys.fw) && AreSamples(k.times, sys.feed.cues, |sys.placed|) && k.anchor == sys.fw.anchor
    ensures Cued(k, sys)
  {
  }

  lemma ClockIsCued<B>(a: Allocator<B>, sys: S.Sys<B>, k: T.Truth, limit: int, lookahead: int, now: u32)
    requires S.Inv(a, sys, limit, lookahead) && Cued(k, sys) && T.InView(k, now) && T.Ahead(k.chain, now)
    ensures Cued(Known(a, sys, k, S.Clock(now)), S.Step(a, sys, limit, lookahead, S.Clock(now)))
    ensures T.Ahead(Known(a, sys, k, S.Clock(now)).chain, now)
  {
    assert Wrap(now) == now;
    var k', sys' := Known(a, sys, k, S.Clock(now)), S.Step(a, sys, limit, lookahead, S.Clock(now));
    CuedTells(a, sys, k, limit, lookahead);
    T.LandingsTell(a, sys.fw, k, now, 0);
    ClockLeaves(a, sys.fw, k, now);
    assert AreSamples(k'.times, sys'.feed.cues, |sys'.placed|) by {
      RestAreSamples(k.times, sys.feed.cues, |sys.placed|, |Placed(a, sys.fw, now, 0)|);
    }
    assert k'.anchor == sys'.fw.anchor by {
      DispatchConserves(a, sys.fw, now, 0);
    }
    CuedFrom(k', sys');
  }

  lemma DeliverIsCued<B>(a: Allocator<B>, sys: S.Sys<B>, k: T.Truth, limit: int, lookahead: int)
    requires S.Inv(a, sys, limit, lookahead) && Cued(k, sys) && limit <= SCHEDULE_ENTRIES && 0 <= lookahead < TWO31
    requires S.Enabled(sys, S.Deliver)
    ensures Cued(Known(a, sys, k, S.Deliver), S.Step(a, sys, limit, lookahead, S.Deliver))
    ensures Known(a, sys, k, S.Deliver).chain == k.chain
  {
    var c := sys.wire[0];
    if !S.IsAnchor(c) {
      S.DeliveredIsAccepted(a, sys, limit, lookahead);
      S.CueReceived(a, sys.fw, c, sys.feed.cues[sys.taken]);
    }
  }

  // ---------- whole runs ----------

  /** Clocks do not go back, every time held can be told from the future when it is looked at, and no cue
      held is ever overdue at a dispatch. */
  ghost predicate Timely<B>(a: Allocator<B>, sys: S.Sys<B>, k: T.Truth, limit: int, lookahead: int, last: int, moves: seq<S.Move>)
    requires Playable(sys.feed) && S.Possible(a, sys, limit, lookahead, moves) && |k.times| == |sys.fw.queue|
    decreases |moves|
  {
    moves != [] ==>
      var move := moves[0];
      && (move.Clock? ==>
            last <= move.now && T.InView(k, move.now) && forall i :: 0 <= i < |k.times| ==> move.now <= k.times[i])
      && Timely(a, S.Step(a, sys, limit, lookahead, move), Known(a, sys, k, move), limit, lookahead,
                Latest(last, move), moves[1..])
  }

  lemma MoveIsCued<B>(a: Allocator<B>, sys: S.Sys<B>, k: T.Truth, limit: int, lookahead: int, last: int, move: S.Move)
    requires S.Inv(a, sys, limit, lookahead) && Cued(k, sys) && limit <= SCHEDULE_ENTRIES && 0 <= lookahead < TWO31
    requires S.Enabled(sys, move) && T.Ahead(k.chain, last)
    requires move.Clock? ==> last <= move.now && T.InView(k, move.now)
    ensures Cued(Known(a, sys, k, move), S.Step(a, sys, limit, lookahead, move))
    ensures T.Ahead(Known(a, sys, k, move).chain, Latest(last, move))
  {
    match move
    case Poll(_) =>
    case Deliver => DeliverIsCued(a, sys, k, limit, lookahead);
    case Clock(now) => ClockIsCued(a, sys, k, limit, lookahead, now);
  }

  /** A log takes what has been placed from one point of the score to another. */
  ghost predicate Carries<B>(a: Allocator<B>, log: seq<T.Landed>, cues: seq<Cue>, placed: seq<Command>, after: seq<Command>) {
    && placed <= after && |placed| <= |cues|
    && Placing(a, log, Samples(cues)[|placed|..], after[|placed|..], PlayAll(a, a.empty, placed))
  }

  lemma MovePlaces<B>(a: Allocator<B>, sys: S.Sys<B>, k: T.Truth, limit: int, lookahead: int, move: S.Move)
    requires S.Inv(a, sys, limit, lookahead) && Cued(k, sys) && S.Enabled(sys, move)
    ensures Carries(a, Sends(a, sys, k, move), sys.feed.cues, sys.placed, S.Step(a, sys, limit, lookahead, move).placed)
  {
    if move.Clock? {
      assert Wrap(move.now) == move.now;
      var more := Placed(a, sys.fw, move.now, 0);
      LandingsArePlaced(a, sys.fw, k, move.now, 0);
      CuedIsPrefix(sys, k);
      PlacingLonger(a, Sends(a, sys, k, move), k.times, Samples(sys.feed.cues)[|sys.placed|..], more, sys.fw.bank);
      assert (sys.placed + more)[|sys.placed|..] == more;
    }
  }

  lemma CarriesOn<B>(a: Allocator<B>, p: seq<T.Landed>, q: seq<T.Landed>, cues: seq<Cue>, placed: seq<Command>,
                     mid: seq<Command>, after: seq<Command>)
    requires Carries(a, p, cues, placed, mid) && Carries(a, q, cues, mid, after)
    ensures Carries(a, p + q, cues, placed, after)
  {
    var times, first, rest := Samples(cues)[|placed|..], mid[|placed|..], after[|mid|..];
    PlacingLengths(a, p, times, first, PlayAll(a, a.empty, placed));
    assert Samples(cues)[|mid|..] == times[|p|..];
    assert mid == placed + first && after[|placed|..] == first + rest;
    PlayAllAppend(a, a.empty, placed, first);
    PlacingAppend(a, p, q, times, first, rest, PlayAll(a, a.empty, placed));
  }

  /** Everything one can ask to hold along a run. */
  ghost predicate Tracked<B>(a: Allocator<B>, sys: S.Sys<B>, k: T.Truth, limit: int, lookahead: int, last: int) {
    && S.Inv(a, sys, limit, lookahead) && Cued(k, sys) && T.Ahead(k.chain, last)
    && limit <= SCHEDULE_ENTRIES && 0 <= lookahead < TWO31
  }

  function Latest(last: int, move: S.Move): int { if move.Clock? then move.now else last }

  lemma MoveKeepsTracked<B>(a: Allocator<B>, sys: S.Sys<B>, k: T.Truth, limit: int, lookahead: int, last: int, move: S.Move)
    requires Tracked(a, sys, k, limit, lookahead, last) && S.Enabled(sys, move)
    requires move.Clock? ==> last <= move.now && T.InView(k, move.now)
    ensures Tracked(a, S.Step(a, sys, limit, lookahead, move), Known(a, sys, k, move), limit, lookahead, Latest(last, move))
    ensures S.Step(a, sys, limit, lookahead, move).feed.cues == sys.feed.cues
  {
    MoveIsCued(a, sys, k, limit, lookahead, last, move);
    S.MoveKeepsInv(a, sys, limit, lookahead, move);
  }

  /** Whatever a run sends is the score's cues in order, each with its own sample, placed one after another. */
  lemma {:induction false} RunPlaces<B>(a: Allocator<B>, sys: S.Sys<B>, k: T.Truth, limit: int, lookahead: int, last: int,
                                        moves: seq<S.Move>)
    requires Tracked(a, sys, k, limit, lookahead, last)
    requires S.Possible(a, sys, limit, lookahead, moves) && Timely(a, sys, k, limit, lookahead, last, moves)
    ensures Carries(a, Log(a, sys, k, limit, lookahead, moves), sys.feed.cues, sys.placed, S.Run(a, sys, limit, lookahead, moves).placed)
    decreases |moves|
  {
    if moves == [] {
      assert sys.placed[|sys.placed|..] == [];
    } else {
      var next, k' := S.Step(a, sys, limit, lookahead, moves[0]), Known(a, sys, k, moves[0]);
      MovePlaces(a, sys, k, limit, lookahead, moves[0]);
      MoveKeepsTracked(a, sys, k, limit, lookahead, last, moves[0]);
      RunPlaces(a, next, k', limit, lookahead, Latest(last, moves[0]), moves[1..]);
      CarriesOn(a, Sends(a, sys, k, moves[0]), Log(a, next, k', limit, lookahead, moves[1..]), sys.feed.cues,
                sys.placed, next.placed, S.Run(a, next, limit, lookahead, moves[1..]).placed);
    }
  }

  /** What a move sends is chained to what came before, and leaves the chain where the next will find it. */
  lemma MoveIsChained<B>(a: Allocator<B>, sys: S.Sys<B>, k: T.Truth, limit: int, lookahead: int, last: int, move: S.Move)
    requires Tracked(a, sys, k, limit, lookahead, last) && S.Enabled(sys, move)
    requires move.Clock? ==>
      last <= move.now && T.InView(k, move.now) && forall i :: 0 <= i < |k.times| ==> move.now <= k.times[i]
    ensures T.Chained(Sends(a, sys, k, move), k.chain) && T.InTime(Sends(a, sys, k, move))
    ensures Known(a, sys, k, move).chain == T.ChainAfter(Sends(a, sys, k, move), k.chain)
  {
    match move
    case Poll(_) =>
    case Deliver => DeliverIsCued(a, sys, k, limit, lookahead);
    case Clock(now) =>
      assert Wrap(now) == now;
      CuedTells(a, sys, k, limit, lookahead);
      T.LandingsSettle(a, sys.fw, k, now, 0);
      LandingsInTime(a, sys.fw, k, now, 0);
  }

  /** Every event of a run lands after the one before it, and none was sent too late. */
  lemma {:induction false} RunIsChained<B>(a: Allocator<B>, sys: S.Sys<B>, k: T.Truth, limit: int, lookahead: int, last: int,
                                           moves: seq<S.Move>)
    requires Tracked(a, sys, k, limit, lookahead, last)
    requires S.Possible(a, sys, limit, lookahead, moves) && Timely(a, sys, k, limit, lookahead, last, moves)
    ensures T.Chained(Log(a, sys, k, limit, lookahead, moves), k.chain) && T.InTime(Log(a, sys, k, limit, lookahead, moves))
    decreases |moves|
  {
    if moves != [] {
      var next, k' := S.Step(a, sys, limit, lookahead, moves[0]), Known(a, sys, k, moves[0]);
      MoveKeepsTracked(a, sys, k, limit, lookahead, last, moves[0]);
      MoveIsChained(a, sys, k, limit, lookahead, last, moves[0]);
      RunIsChained(a, next, k', limit, lookahead, Latest(last, moves[0]), moves[1..]);
      var sends, rest := Sends(a, sys, k, moves[0]), Log(a, next, k', limit, lookahead, moves[1..]);
      T.ChainedAppend(sends, rest, k.chain);
      InTimeAppend(sends, rest);
    }
  }

  // ---------- the score ----------

  /** While eight voices are enough, every note sends one word: a release always finds its note. */
  lemma EveryNoteEmits(placed: seq<Command>, i: nat)
    requires Balanced(placed) && Roomy(placed) && (forall c :: c in placed ==> Unplaced(c)) && i < |placed|
    ensures var out := Apply(Play(SILENT, placed[..i]), placed[i]).1;
      |out| == 1 && out[0] == placed[i].(voice := out[0].voice)
  {
    var before, c := placed[..i], placed[i];
    var b := Play(SILENT, before);
    assert c in placed && forall x :: x in before ==> x in placed;
    NoteGoesToTarget(b, c);
    if c.opcode == OP_NOTE_OFF {
      PrefixIsFine(placed, i);
      ExactlyAsAsked(before, c.value);
      assert Covered(placed[..i + 1]) && Offs(placed[..i + 1], c.value) <= Ons(placed[..i + 1], c.value);
      assert placed[..i + 1][..i] == before;
      PlayingFound(b.sounding, c.value);
    }
  }

  lemma PlayingFound(q: seq<Entry>, step: u32)
    requires Playing(q, step) > 0
    ensures FirstOf(q, step) < |q|
  {
    if FirstOf(q, step) == |q| {
      PlayingNone(q, step);
    }
  }

  lemma PrefixIsFine(placed: seq<Command>, i: nat)
    requires Balanced(placed) && Roomy(placed) && i <= |placed|
    ensures Balanced(placed[..i]) && Roomy(placed[..i])
  {
    forall n | 0 <= n <= i
      ensures Covered(placed[..i][..n]) && Held(placed[..i][..n]) <= VOICE_COUNT
    {
      assert placed[..i][..n] == placed[..n];
    }
  }

  /** What is known once the anchor has been sent. */
  function Anchored(origin: u32): T.Truth { T.Truth([], origin, None) }

  lemma BeginIsTracked<B>(a: Allocator<B>, notes: seq<Note>, origin: u32, now: int, limit: int, lookahead: int, last: int)
    requires S.Carried(notes, origin) && 0 <= limit <= SCHEDULE_ENTRIES && 0 <= lookahead < TWO31
    ensures Tracked(a, S.Begin(a, notes, origin, now), Anchored(origin), limit, lookahead, last)
  {
    S.BeginHolds(a, notes, origin, now, limit, lookahead);
  }

  lemma SortedLog(a: Allocator<SaneBank>, log: seq<T.Landed>, cues: seq<Cue>, placed: seq<Command>)
    requires Steady(cues) && Placing(a, log, Samples(cues), placed, a.empty)
    ensures T.Sorted(log)
  {
    forall i | 0 < i < |log|
      ensures log[i - 1].time <= log[i].time
    {
      PlacingAt(a, log, Samples(cues), placed, a.empty, i - 1);
      PlacingAt(a, log, Samples(cues), placed, a.empty, i);
    }
  }

  lemma WholeLog<B>(a: Allocator<B>, log: seq<T.Landed>, cues: seq<Cue>, placed: seq<Command>)
    requires Carries(a, log, cues, [], placed)
    ensures Placing(a, log, Samples(cues), placed, a.empty)
  {
    assert Samples(cues)[0..] == Samples(cues) && placed[0..] == placed;
  }

  lemma LogEmits(log: seq<T.Landed>, cues: seq<Cue>, placed: seq<Command>, i: nat)
    requires Placing(ByQueues(), log, Samples(cues), placed, SILENT) && i < |log|
    requires Balanced(placed) && Roomy(placed) && forall c :: c in placed ==> Unplaced(c)
    ensures |log| == |placed| <= |cues| && log[i].time == cues[i].sample && log[i].command == placed[i]
    ensures |log[i].out| == 1 && log[i].out[0] == placed[i].(voice := log[i].out[0].voice)
  {
    PlacingAt(ByQueues(), log, Samples(cues), placed, SILENT, i);
    S.PlayAllIsPlay(placed[..i]);
    EveryNoteEmits(placed, i);
  }

  /** What is sent from the start of a piece: the cues placed one after another, chained, and none too late. */
  lemma LogIsTracked<B>(a: Allocator<B>, notes: seq<Note>, origin: u32, now: int, limit: int, lookahead: int, last: int, moves: seq<S.Move>)
    requires S.Carried(notes, origin) && 0 <= limit <= SCHEDULE_ENTRIES && 0 <= lookahead < TWO31
    requires S.Possible(a, S.Begin(a, notes, origin, now), limit, lookahead, moves)
    requires Timely(a, S.Begin(a, notes, origin, now), Anchored(origin), limit, lookahead, last, moves)
    ensures var begin := S.Begin(a, notes, origin, now);
      var log := Log(a, begin, Anchored(origin), limit, lookahead, moves);
      && T.Chained(log, None) && T.InTime(log)
      && Placing(a, log, Samples(begin.feed.cues), S.Run(a, begin, limit, lookahead, moves).placed, a.empty)
  {
    var begin, k := S.Begin(a, notes, origin, now), Anchored(origin);
    BeginIsTracked(a, notes, origin, now, limit, lookahead, last);
    RunPlaces(a, begin, k, limit, lookahead, last, moves);
    RunIsChained(a, begin, k, limit, lookahead, last, moves);
    WholeLog(a, Log(a, begin, k, limit, lookahead, moves), begin.feed.cues, S.Run(a, begin, limit, lookahead, moves).placed);
  }

  lemma LogIsScored(log: seq<T.Landed>, cues: seq<Cue>, placed: seq<Command>)
    requires Placing(ByQueues(), log, Samples(cues), placed, SILENT)
    requires Balanced(placed) && Roomy(placed) && forall c :: c in placed ==> Unplaced(c)
    ensures T.AllEmit(log) && |log| == |placed| <= |cues|
    ensures forall i :: 0 <= i < |log| ==>
              && log[i].time == cues[i].sample && log[i].command == placed[i]
              && |log[i].out| == 1 && log[i].out[0] == placed[i].(voice := log[i].out[0].voice)
  {
    PlacingLengths(ByQueues(), log, Samples(cues), placed, SILENT);
    forall i | 0 <= i < |log|
      ensures |log[i].out| == 1 && log[i].out[0] == placed[i].(voice := log[i].out[0].voice)
      ensures log[i].time == cues[i].sample && log[i].command == placed[i]
    {
      LogEmits(log, cues, placed, i);
    }
  }

  /** For any score in which no release comes before its start and no more than eight notes ever overlap,
      under every interleaving in which no cue held is overdue at a dispatch: every cue is sent to one voice,
      and lands on exactly its own sample, however the calls fall. */
  lemma EveryCueOnItsSample(notes: seq<Note>, origin: u32, now: int, limit: int, lookahead: int, last: int, moves: seq<S.Move>)
    requires S.Carried(notes, origin) && EndsAfterBeginnings(notes, origin)
    requires (forall n :: n in notes ==> n.start <= n.end) && Polyphony.FitsVoices(notes)
    requires 0 <= limit <= SCHEDULE_ENTRIES && 0 <= lookahead < TWO31
    requires S.Possible(ByQueues(), S.Begin(ByQueues(), notes, origin, now), limit, lookahead, moves)
    requires Timely(ByQueues(), S.Begin(ByQueues(), notes, origin, now), Anchored(origin), limit, lookahead, last, moves)
    ensures var begin := S.Begin(ByQueues(), notes, origin, now);
      var placed := S.Run(ByQueues(), begin, limit, lookahead, moves).placed;
      var log := Log(ByQueues(), begin, Anchored(origin), limit, lookahead, moves);
      && T.Chained(log, None) && |log| == |placed| <= |begin.feed.cues|
      && forall i :: 0 <= i < |log| ==>
           && log[i].at == begin.feed.cues[i].sample && log[i].command == placed[i]
           && |log[i].out| == 1 && log[i].out[0] == placed[i].(voice := log[i].out[0].voice)
  {
    var begin := S.Begin(ByQueues(), notes, origin, now);
    var log := Log(ByQueues(), begin, Anchored(origin), limit, lookahead, moves);
    var placed := S.Run(ByQueues(), begin, limit, lookahead, moves).placed;
    LogIsTracked(ByQueues(), notes, origin, now, limit, lookahead, last, moves);
    PlacedIsSound(notes, origin, now, limit, lookahead, moves);
    SortedLog(ByQueues(), log, begin.feed.cues, placed);
    LogIsScored(log, begin.feed.cues, placed);
    T.OnTime(log, None);
  }

  lemma PlacedIsSound(notes: seq<Note>, origin: u32, now: int, limit: int, lookahead: int, moves: seq<S.Move>)
    requires S.Carried(notes, origin) && EndsAfterBeginnings(notes, origin)
    requires (forall n :: n in notes ==> n.start <= n.end) && Polyphony.FitsVoices(notes)
    requires 0 <= limit <= SCHEDULE_ENTRIES && 0 <= lookahead < TWO31
    requires S.Possible(ByQueues(), S.Begin(ByQueues(), notes, origin, now), limit, lookahead, moves)
    ensures var placed := S.Run(ByQueues(), S.Begin(ByQueues(), notes, origin, now), limit, lookahead, moves).placed;
      Balanced(placed) && Roomy(placed) && forall c :: c in placed ==> Unplaced(c)
  {
    var a := ByQueues();
    var begin := S.Begin(a, notes, origin, now);
    S.BeginHolds(a, notes, origin, now, limit, lookahead);
    S.RunKeepsInv(a, begin, limit, lookahead, moves);
    var placed := S.Run(a, begin, limit, lookahead, moves).placed;
    S.PlacedScore(notes, origin, placed);
    Polyphony.RoomyIff(notes, origin);
    Polyphony.PlacedIsRoomy(notes, origin, placed);
  }
}
