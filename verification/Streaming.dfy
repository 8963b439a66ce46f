/** Streaming a score: player, wire and firmware together, under every interleaving.

    The player polls the engine's count and puts a batch on the wire; the wire delivers one command at a
    time; the firmware dispatches whenever it likes. All that is asked of the firmware is that by the
    time a command is delivered, nothing at or before the count last polled is still in the ring. */
module Streaming {
  import opened Words
  import opened Schedule
  import opened Score
  import opened Player
  import opened NoStuckNotes
  import Placement
  import Voices

  /** The whole system; `taken` cues have reached the firmware and `placed` is what it has dispatched. */
  datatype Sys<B> = Sys(feed: Feed, polled: int, wire: seq<Command>, fw: State<B>, taken: nat, placed: seq<Command>)

  datatype Move = Poll(count: int) | Deliver | Clock(now: u32)

  predicate Drained(q: seq<Event>, now: int) { forall e :: e in q ==> e.time > now }

  /** The count polled never goes back, and the ring is drained up to it between commands. */
  predicate Enabled<B>(sys: Sys<B>, move: Move) {
    match move
    case Poll(now) => sys.polled <= now
    case Deliver => sys.wire != [] && Drained(sys.fw.queue, sys.polled)
    case Clock(now) => true
  }

  ghost function Step<B>(a: Allocator<B>, sys: Sys<B>, limit: int, lookahead: int, move: Move): Sys<B>
    requires Playable(sys.feed) && Enabled(sys, move)
  {
    match move
    case Poll(now) =>
      var (feed, batch) := Batch(sys.feed, limit, lookahead, now);
      sys.(feed := feed, polled := now, wire := sys.wire + batch)
    case Deliver =>
      var c := sys.wire[0];
      sys.(wire := sys.wire[1..], fw := Receive(a, sys.fw, c).0, taken := sys.taken + if IsAnchor(c) then 0 else 1)
    case Clock(now) =>
      sys.(fw := Dispatch(a, sys.fw, now, 0).0, placed := sys.placed + Placed(a, sys.fw, now, 0))
  }

  predicate IsAnchor(c: Command) { c.opcode == OP_SCHEDULE_AT }

  /** What is on the wire takes an anchor of `anchor` to the accumulator, cue by cue. */
  predicate Encodes(wire: seq<Command>, cues: seq<Cue>, taken: nat, sent: nat, anchor: int, acc: int)
    requires sent <= |cues|
    decreases |wire|
  {
    if wire == [] then taken == sent && anchor == acc
    else if IsAnchor(wire[0]) then Encodes(wire[1..], cues, taken, sent, wire[0].value, acc)
    else
      && taken < sent && 0 <= cues[taken].sample - anchor <= MAX_DELAY
      && wire[0] == cues[taken].command.(delay := cues[taken].sample - anchor)
      && Encodes(wire[1..], cues, taken + 1, sent, cues[taken].sample, acc)
  }

  ghost predicate Notes(cues: seq<Cue>) {
    forall i :: 0 <= i < |cues| ==> Unplaced(cues[i].command) && cues[i].command.delay == 0
  }

  /** The ring holds exactly the cues taken and not yet dispatched, each at its own sample. */
  predicate Holds(q: seq<Event>, cues: seq<Cue>, from: nat, to: nat)
    requires from <= to <= |cues|
  {
    |q| == to - from && forall i :: 0 <= i < |q| ==> q[i].time == cues[from + i].sample && q[i].command == cues[from + i].command
  }

  ghost predicate Paced(f: Feed, polled: int, limit: int, lookahead: int) {
    && Playable(f) && Notes(f.cues)
    && f.sent - Reached(f.cues, polled) <= limit
    && (f.sent > 0 ==> f.cues[f.sent - 1].sample <= polled + lookahead)
  }

  ghost predicate Follows(placed: seq<Command>, cues: seq<Cue>) {
    |placed| <= |cues| && forall i :: 0 <= i < |placed| ==> placed[i] == cues[i].command.(delay := placed[i].delay)
  }

  /** What holds in every reachable state. */
  ghost predicate Inv<B>(a: Allocator<B>, sys: Sys<B>, limit: int, lookahead: int) {
    && Paced(sys.feed, sys.polled, limit, lookahead)
    && |sys.placed| <= sys.taken <= sys.feed.sent
    && sys.fw.anchored
    && Encodes(sys.wire, sys.feed.cues, sys.taken, sys.feed.sent, sys.fw.anchor, sys.feed.acc)
    && Holds(sys.fw.queue, sys.feed.cues, |sys.placed|, sys.taken)
    && Follows(sys.placed, sys.feed.cues)
    && sys.fw.bank == PlayAll(a, a.empty, sys.placed)
  }

  // ---------- polling ----------

  lemma {:induction false} EncodesMore(wire: seq<Command>, f: Feed, taken: nat, anchor: int)
    requires Playable(f) && f.sent < |f.cues| && Notes(f.cues)
    requires Encodes(wire, f.cues, taken, f.sent, anchor, f.acc)
    ensures Encodes(wire + Encoded(f), f.cues, taken, f.sent + 1, anchor, f.cues[f.sent].sample)
    decreases |wire|
  {
    var more := wire + Encoded(f);
    if wire == [] {
      var c := f.cues[f.sent].command;
      assert more == Encoded(f);
      assert |Encoded(f)| == 2 ==> Encoded(f)[1..] == [c.(delay := 0)];
    } else {
      assert more[1..] == wire[1..] + Encoded(f);
      if IsAnchor(wire[0]) {
        EncodesMore(wire[1..], f, taken, wire[0].value);
      } else {
        EncodesMore(wire[1..], f, taken + 1, f.cues[taken].sample);
      }
    }
  }

  lemma {:induction false} FillEncodes(wire: seq<Command>, f: Feed, room: int, horizon: int,
                                       batch: seq<Command>, taken: nat, anchor: int)
    requires Playable(f) && Notes(f.cues)
    requires Encodes(wire + batch, f.cues, taken, f.sent, anchor, f.acc)
    ensures var (f', batch') := Fill(f, room, horizon, batch);
      Encodes(wire + batch', f.cues, taken, f'.sent, anchor, f'.acc)
    decreases |f.cues| - f.sent
  {
    if !(f.sent >= |f.cues| || |batch| >= room || f.cues[f.sent].sample > horizon) {
      AdvanceIsPlayable(f);
      EncodesMore(wire + batch, f, taken, anchor);
      assert wire + (batch + Encoded(f)) == (wire + batch) + Encoded(f);
      FillEncodes(wire, Advance(f), room, horizon, batch + Encoded(f), taken, anchor);
    }
  }

  lemma {:induction false} ReachedGrows(cues: seq<Cue>, now: int, later: int)
    requires now <= later
    ensures Reached(cues, now) <= Reached(cues, later)
  {
    if cues != [] { ReachedGrows(cues[..|cues| - 1], now, later); }
  }

  lemma PollPaces(f: Feed, polled: int, limit: int, lookahead: int, now: int)
    requires Paced(f, polled, limit, lookahead) && polled <= now
    ensures Paced(Batch(f, limit, lookahead, now).0, now, limit, lookahead)
  {
    ReachedGrows(f.cues, polled, now);
    BatchFitsRing(f, limit, lookahead, now);
  }

  lemma BatchEncodes(wire: seq<Command>, f: Feed, limit: int, lookahead: int, now: int, taken: nat, anchor: int)
    requires Playable(f) && Notes(f.cues) && Encodes(wire, f.cues, taken, f.sent, anchor, f.acc)
    ensures var (f', batch) := Batch(f, limit, lookahead, now);
      Encodes(wire + batch, f.cues, taken, f'.sent, anchor, f'.acc)
  {
    assert wire + [] == wire;
    FillEncodes(wire, f, limit - (f.sent - Reached(f.cues, now)), now + lookahead, [], taken, anchor);
  }

  lemma PollKeepsInv<B>(a: Allocator<B>, sys: Sys<B>, limit: int, lookahead: int, now: int)
    requires Inv(a, sys, limit, lookahead) && sys.polled <= now
    ensures Inv(a, Step(a, sys, limit, lookahead, Poll(now)), limit, lookahead)
  {
    PollPaces(sys.feed, sys.polled, limit, lookahead, now);
    BatchEncodes(sys.wire, sys.feed, limit, lookahead, now, sys.taken, sys.fw.anchor);
  }

  // ---------- delivering ----------

  /** A cue delivered while the ring is drained is never refused, for want of room or of order. */
  lemma DeliveredIsAccepted<B>(a: Allocator<B>, sys: Sys<B>, limit: int, lookahead: int)
    requires Inv(a, sys, limit, lookahead) && limit <= SCHEDULE_ENTRIES && 0 <= lookahead < TWO31
    requires sys.taken < sys.feed.sent && Drained(sys.fw.queue, sys.polled)
    ensures Accepts(sys.fw.queue, sys.feed.cues[sys.taken].sample)
  {
    var cues, gone, q := sys.feed.cues, |sys.placed|, sys.fw.queue;
    if q != [] {
      assert q[0] in q && q[|q| - 1] in q;
      assert q[0].time == cues[gone].sample && q[|q| - 1].time == cues[gone + (|q| - 1)].sample;
      ReachedCounts(cues, sys.polled, gone + 1);
      SampleOrder(cues, sys.taken, sys.feed.sent - 1);
      SampleOrder(cues, sys.taken - 1, sys.taken);
    }
  }

  lemma {:induction false} SampleOrder(cues: seq<Cue>, i: nat, j: nat)
    requires Steady(cues) && i <= j < |cues|
    ensures cues[i].sample <= cues[j].sample
  {
    if i < j { SampleOrder(cues, i, j - 1); }
  }

  /** What a delivered cue does to a firmware that accepts it. */
  lemma CueReceived<B>(a: Allocator<B>, s: State<B>, c: Command, cue: Cue)
    requires s.anchored && Unplaced(cue.command) && cue.command.delay == 0 && 0 <= cue.sample < TWO32
    requires 0 <= cue.sample - s.anchor <= MAX_DELAY && c == cue.command.(delay := cue.sample - s.anchor)
    requires Accepts(s.queue, cue.sample)
    ensures Receive(a, s, c).0 == s.(anchor := cue.sample, queue := s.queue + [Event(cue.sample, cue.command)])
  {
    assert Plus(s.anchor, c.delay) == cue.sample;
  }

  lemma HoldsDelivered(q: seq<Event>, cues: seq<Cue>, from: nat, to: nat, e: Event)
    requires from <= to < |cues| && Holds(q, cues, from, to) && e.time == cues[to].sample && e.command == cues[to].command
    ensures Holds(q + [e], cues, from, to + 1)
  {
  }

  lemma DeliverKeepsInv<B>(a: Allocator<B>, sys: Sys<B>, limit: int, lookahead: int)
    requires Inv(a, sys, limit, lookahead) && limit <= SCHEDULE_ENTRIES && 0 <= lookahead < TWO31
    requires Enabled(sys, Deliver)
    ensures Inv(a, Step(a, sys, limit, lookahead, Deliver), limit, lookahead)
  {
    if !IsAnchor(sys.wire[0]) {
      DeliveredIsAccepted(a, sys, limit, lookahead);
      var cue := sys.feed.cues[sys.taken];
      CueReceived(a, sys.fw, sys.wire[0], cue);
      HoldsDelivered(sys.fw.queue, sys.feed.cues, |sys.placed|, sys.taken, Event(cue.sample, cue.command));
    }
  }

  // ---------- dispatching ----------

  lemma RestHeld(sent: seq<Event>, left: seq<Event>, cues: seq<Cue>, from: nat, to: nat)
    requires from <= to <= |cues| && Holds(sent + left, cues, from, to)
    ensures from + |sent| <= to && Holds(left, cues, from + |sent|, to)
  {
    assert forall i :: 0 <= i < |left| ==> left[i] == (sent + left)[|sent| + i];
  }

  lemma MoreFollow(placed: seq<Command>, more: seq<Command>, sent: seq<Event>, left: seq<Event>, cues: seq<Cue>, to: nat)
    requires |placed| <= to <= |cues| && Holds(sent + left, cues, |placed|, to) && Follows(placed, cues)
    requires |more| == |sent| && forall i :: 0 <= i < |sent| ==> more[i] == sent[i].command.(delay := more[i].delay)
    ensures Follows(placed + more, cues)
  {
    forall i | |placed| <= i < |placed + more|
      ensures (placed + more)[i] == cues[i].command.(delay := (placed + more)[i].delay)
    {
      assert sent[i - |placed|] == (sent + left)[i - |placed|];
    }
  }

  lemma ClockKeepsInv<B>(a: Allocator<B>, sys: Sys<B>, limit: int, lookahead: int, now: u32)
    requires Inv(a, sys, limit, lookahead)
    ensures Inv(a, Step(a, sys, limit, lookahead, Clock(now)), limit, lookahead)
  {
    var sent, left, more := Sent(a, sys.fw, now, 0), Dispatch(a, sys.fw, now, 0).0.queue, Placed(a, sys.fw, now, 0);
    DispatchConserves(a, sys.fw, now, 0);
    PlacedMakesBank(a, sys.fw, now, 0);
    PlacedWasSent(a, sys.fw, now, 0);
    PlayAllAppend(a, a.empty, sys.placed, more);
    RestHeld(sent, left, sys.feed.cues, |sys.placed|, sys.taken);
    MoreFollow(sys.placed, more, sent, left, sys.feed.cues, sys.taken);
  }

  /** A dispatch that leaves nothing due leaves the ring drained, which is all a delivery waits for. */
  lemma NothingDueIsDrained<B>(a: Allocator<B>, sys: Sys<B>, limit: int, lookahead: int, now: u32)
    requires Inv(a, sys, limit, lookahead)
    requires sys.fw.queue != [] ==> !Due(sys.fw.queue[0], now) && now - TWO31 <= sys.fw.queue[0].time
    ensures Drained(sys.fw.queue, now + DISPATCH_WINDOW)
  {
    var q, cues, gone := sys.fw.queue, sys.feed.cues, |sys.placed|;
    forall e | e in q
      ensures e.time > now + DISPATCH_WINDOW
    {
      var i :| 0 <= i < |q| && e == q[i];
      assert q[0].time == cues[gone + 0].sample;
      SampleOrder(cues, gone, gone + i);
    }
  }

  // ---------- whole runs ----------

  /** A piece the protocol can carry: every sample fits a command's value. */
  predicate Carried(notes: seq<Note>, origin: u32) {
    forall n :: n in notes ==> origin + n.start < TWO32 && origin + n.end < TWO32
  }

  predicate Ranged(c: Cue, origin: u32) {
    origin <= c.sample < TWO32 && Unplaced(c.command) && c.command.delay == 0
  }

  lemma NoteIsCarried(n: Note, origin: u32)
    requires origin + n.start < TWO32 && origin + n.end < TWO32
    ensures Ranged(On(n, origin), origin) && Ranged(Off(n, origin), origin)
  {
  }

  lemma {:induction false} BuiltIsCarried(notes: seq<Note>, origin: u32)
    requires Carried(notes, origin)
    ensures forall c :: c in Built(notes, origin) ==> Ranged(c, origin)
  {
    if notes != [] {
      var init, n := notes[..|notes| - 1], notes[|notes| - 1];
      assert n in notes && forall m :: m in init ==> m in notes;
      BuiltIsCarried(init, origin);
      NoteIsCarried(n, origin);
      forall c | c in Built(notes, origin)
        ensures Ranged(c, origin)
      {
        assert c in Built(init, origin) || c == On(n, origin) || c == Off(n, origin);
      }
    }
  }

  lemma SortedIsCarried(notes: seq<Note>, origin: u32)
    requires Carried(notes, origin)
    ensures forall c :: c in Sort(Built(notes, origin)) ==> Ranged(c, origin)
  {
    var built := Built(notes, origin);
    BuiltIsCarried(notes, origin);
    SortIsPermutation(built);
    forall c | c in Sort(built)
      ensures Ranged(c, origin)
    {
      assert c in multiset(Sort(built));
    }
  }

  lemma InOrderIsSteady(cues: seq<Cue>, origin: u32)
    requires InKeyOrder(cues) && forall c :: c in cues ==> Ranged(c, origin)
    ensures Steady(cues) && Notes(cues)
    ensures forall i :: 0 <= i < |cues| ==> origin <= cues[i].sample
  {
    assert forall i :: 0 <= i < |cues| ==> Ranged(cues[i], origin);
    assert forall i :: 0 < i < |cues| ==> NotAfter(cues[i - 1], cues[i]);
  }

  lemma CuesAreCarried(notes: seq<Note>, origin: u32)
    requires Carried(notes, origin)
    ensures var cues := Sort(Built(notes, origin));
      && Steady(cues) && Notes(cues)
      && forall i :: 0 <= i < |cues| ==> origin <= cues[i].sample
  {
    SortedIsCarried(notes, origin);
    SortSorts(Built(notes, origin));
    InOrderIsSteady(Sort(Built(notes, origin)), origin);
  }

  /** The system once the player has sent the piece's one anchor to a firmware just reset. */
  ghost function Begin<B>(a: Allocator<B>, notes: seq<Note>, origin: u32, now: int): (sys: Sys<B>)
    requires Carried(notes, origin)
    ensures Playable(sys.feed) && Notes(sys.feed.cues)
  {
    CuesAreCarried(notes, origin);
    Sys(Feed(Sort(Built(notes, origin)), 0, origin), now, [], Receive(a, Start(a), Anchor(origin)).0, 0, [])
  }

  lemma BeginHolds<B>(a: Allocator<B>, notes: seq<Note>, origin: u32, now: int, limit: int, lookahead: int)
    requires Carried(notes, origin) && 0 <= limit
    ensures Inv(a, Begin(a, notes, origin, now), limit, lookahead)
  {
  }

  /** The moves are possible one after another. */
  ghost predicate Possible<B>(a: Allocator<B>, sys: Sys<B>, limit: int, lookahead: int, moves: seq<Move>)
    requires Playable(sys.feed)
    decreases |moves|
  {
    moves != [] ==>
      Enabled(sys, moves[0]) && Possible(a, Step(a, sys, limit, lookahead, moves[0]), limit, lookahead, moves[1..])
  }

  ghost function Run<B>(a: Allocator<B>, sys: Sys<B>, limit: int, lookahead: int, moves: seq<Move>): Sys<B>
    requires Playable(sys.feed) && Possible(a, sys, limit, lookahead, moves)
    decreases |moves|
  {
    if moves == [] then sys else Run(a, Step(a, sys, limit, lookahead, moves[0]), limit, lookahead, moves[1..])
  }

  lemma MoveKeepsInv<B>(a: Allocator<B>, sys: Sys<B>, limit: int, lookahead: int, move: Move)
    requires Inv(a, sys, limit, lookahead) && limit <= SCHEDULE_ENTRIES && 0 <= lookahead < TWO31 && Enabled(sys, move)
    ensures Inv(a, Step(a, sys, limit, lookahead, move), limit, lookahead)
    ensures Step(a, sys, limit, lookahead, move).feed.cues == sys.feed.cues
  {
    match move
    case Poll(now) => PollKeepsInv(a, sys, limit, lookahead, now);
    case Deliver => DeliverKeepsInv(a, sys, limit, lookahead);
    case Clock(now) => ClockKeepsInv(a, sys, limit, lookahead, now);
  }

  lemma {:induction false} RunKeepsInv<B>(a: Allocator<B>, sys: Sys<B>, limit: int, lookahead: int, moves: seq<Move>)
    requires Inv(a, sys, limit, lookahead) && limit <= SCHEDULE_ENTRIES && 0 <= lookahead < TWO31
    requires Possible(a, sys, limit, lookahead, moves)
    ensures Inv(a, Run(a, sys, limit, lookahead, moves), limit, lookahead)
    ensures Run(a, sys, limit, lookahead, moves).feed.cues == sys.feed.cues
    decreases |moves|
  {
    if moves != [] {
      MoveKeepsInv(a, sys, limit, lookahead, moves[0]);
      RunKeepsInv(a, Step(a, sys, limit, lookahead, moves[0]), limit, lookahead, moves[1..]);
    }
  }

  /** A dispatch at `now` that left nothing due. */
  predicate Clears<B>(sys: Sys<B>, now: u32) {
    sys.fw.queue != [] ==> !Due(sys.fw.queue[0], now) && now - TWO31 <= sys.fw.queue[0].time
  }

  /** The sample up to which the ring is known to be drained: a dispatch that leaves nothing due sets it, the
      polls of the host do not disturb it, and a command delivered ends it. */
  function Reach<B>(next: Sys<B>, move: Move, upTo: Option<int>): Option<int> {
    match move
    case Poll(_) => upTo
    case Deliver => None
    case Clock(now) => if Clears(next, now) then Some(now + DISPATCH_WINDOW) else None
  }

  /** What the main loop does: it dispatches before it takes each command, and takes one only once nothing is
      left due by the count last polled. The host polls when it likes. */
  ghost predicate Attended<B>(a: Allocator<B>, sys: Sys<B>, limit: int, lookahead: int, moves: seq<Move>, upTo: Option<int>)
    requires Playable(sys.feed)
    decreases |moves|
  {
    moves != [] ==>
      var move := moves[0];
      && (move.Poll? ==> sys.polled <= move.count)
      && (move.Deliver? ==> upTo.Some? && sys.polled <= upTo.value && sys.wire != [])
      && (Enabled(sys, move) ==>
            var next := Step(a, sys, limit, lookahead, move);
            Attended(a, next, limit, lookahead, moves[1..], Reach(next, move, upTo)))
  }

  /** A main loop that does so keeps the ring drained whenever a command comes: its runs are possible. */
  lemma {:induction false} AttendedIsPossible<B>(a: Allocator<B>, sys: Sys<B>, limit: int, lookahead: int, moves: seq<Move>,
                                                 upTo: Option<int>)
    requires Inv(a, sys, limit, lookahead) && limit <= SCHEDULE_ENTRIES && 0 <= lookahead < TWO31
    requires Attended(a, sys, limit, lookahead, moves, upTo) && (upTo.Some? ==> Drained(sys.fw.queue, upTo.value))
    ensures Possible(a, sys, limit, lookahead, moves)
    decreases |moves|
  {
    if moves != [] {
      var next := Step(a, sys, limit, lookahead, moves[0]);
      MoveKeepsInv(a, sys, limit, lookahead, moves[0]);
      if moves[0].Clock? && Clears(next, moves[0].now) {
        NothingDueIsDrained(a, next, limit, lookahead, moves[0].now);
      }
      AttendedIsPossible(a, next, limit, lookahead, moves[1..], Reach(next, moves[0], upTo));
    }
  }

  /** For any score in which no release comes before its start, under every interleaving: at any moment no
      more voices sound a step than the cues played so far ask for, whatever was stolen; and once
      everything has been played, nothing is sounding. */
  lemma NoStuckNotesEndToEnd(notes: seq<Note>, origin: u32, now: int, limit: int, lookahead: int, moves: seq<Move>, step: u32)
    requires Carried(notes, origin) && EndsAfterBeginnings(notes, origin)
    requires 0 <= limit <= SCHEDULE_ENTRIES && 0 <= lookahead < TWO31
    requires Possible(Placement.ByQueues(), Begin(Placement.ByQueues(), notes, origin, now), limit, lookahead, moves)
    ensures var sys := Run(Placement.ByQueues(), Begin(Placement.ByQueues(), notes, origin, now), limit, lookahead, moves);
      && sys.fw.bank.Queued?
      && Playing(sys.fw.bank.sounding, step) <= Ons(sys.placed, step) - Offs(sys.placed, step)
      && (|sys.placed| == |sys.feed.cues| ==> sys.fw.bank.sounding == [])
  {
    var a := Placement.ByQueues();
    var begin := Begin(a, notes, origin, now);
    BeginHolds(a, notes, origin, now, limit, lookahead);
    RunKeepsInv(a, begin, limit, lookahead, moves);
    var sys := Run(a, begin, limit, lookahead, moves);
    PlacedScore(notes, origin, sys.placed);
    PlayAllIsPlay(sys.placed);
    NeverMoreThanAsked(sys.placed, step);
    if |sys.placed| == |sys.feed.cues| {
      NothingLeftSounding(sys.placed);
    }
  }

  lemma {:induction false} PlayAllIsPlay(cs: seq<Command>)
    ensures PlayAll(Placement.ByQueues(), Placement.ByQueues().empty, cs) == Play(Voices.SILENT, cs)
  {
    if cs != [] { PlayAllIsPlay(cs[..|cs| - 1]); }
  }

  /** The delays the firmware fills in change nothing that is counted. */
  lemma {:induction false} DelaysDoNotCount(cs: seq<Command>, ds: seq<Command>, opcode: u8, step: u32)
    requires |cs| == |ds| && forall i :: 0 <= i < |cs| ==> cs[i] == ds[i].(delay := cs[i].delay)
    ensures Tally(cs, opcode, step) == Tally(ds, opcode, step)
  {
    if cs != [] { DelaysDoNotCount(cs[..|cs| - 1], ds[..|ds| - 1], opcode, step); }
  }

  /** A part of the score played in order is balanced, and the whole of it ends even. */
  lemma PlacedScore(notes: seq<Note>, origin: u32, placed: seq<Command>)
    requires EndsAfterBeginnings(notes, origin)
    requires Follows(placed, Sort(Built(notes, origin)))
    ensures Balanced(placed) && forall c :: c in placed ==> Unplaced(c)
    ensures |placed| == |Sort(Built(notes, origin))| ==> forall step :: Ons(placed, step) == Offs(placed, step)
  {
    var cs := Commands(Sort(Built(notes, origin)));
    ScoreIsBalanced(notes, origin);
    CuesAreUnplaced(notes, origin);
    forall n | 0 <= n <= |placed|
      ensures Covered(placed[..n])
    {
      assert Covered(cs[..n]);
      forall step
        ensures Offs(placed[..n], step) <= Ons(placed[..n], step)
      {
        DelaysDoNotCount(placed[..n], cs[..n], OP_NOTE_OFF, step);
        DelaysDoNotCount(placed[..n], cs[..n], OP_NOTE_ON, step);
        assert Offs(cs[..n], step) <= Ons(cs[..n], step);
      }
    }
    forall i | 0 <= i < |placed|
      ensures Unplaced(placed[i])
    {
      assert cs[i] in cs;
    }
    if |placed| == |cs| {
      forall step
        ensures Ons(placed, step) == Offs(placed, step)
      {
        DelaysDoNotCount(placed, cs, OP_NOTE_OFF, step);
        DelaysDoNotCount(placed, cs, OP_NOTE_ON, step);
        assert Ons(cs, step) == Offs(cs, step);
      }
    }
  }
}
