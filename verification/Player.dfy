/** The player: how a score is fed to the firmware, a batch at a time.

    It carries an accumulator that mirrors the firmware's anchor and sends each cue as a delay from the
    one before, re-anchoring where a delay would not fit its field. */
module Player {
  import opened Words
  import opened Score

  const MAX_DELAY := 0xFFFF

  /** What the player has sent so far, and where that leaves the accumulator. */
  datatype Feed = Feed(cues: seq<Cue>, sent: nat, acc: int)

  /** How many cues are at or before `now`: what a right bisection of sorted samples finds. */
  function Reached(cues: seq<Cue>, now: int): (k: nat)
    ensures k <= |cues|
  {
    if cues == [] then 0 else Reached(cues[..|cues| - 1], now) + if cues[|cues| - 1].sample <= now then 1 else 0
  }

  /** A piece whose every sample is a 32-bit value, at or after the accumulator, in order: what a command
      can express. */
  ghost predicate Playable(f: Feed) {
    && Steady(f.cues)
    && f.sent <= |f.cues| && 0 <= f.acc < TWO32
    && (f.sent < |f.cues| ==> f.acc <= f.cues[f.sent].sample)
  }

  ghost predicate Steady(cues: seq<Cue>) {
    && (forall i :: 0 <= i < |cues| ==> 0 <= cues[i].sample < TWO32)
    && (forall i :: 0 < i < |cues| ==> cues[i - 1].sample <= cues[i].sample)
  }

  function Anchor(at: u32): Command { Command(OP_SCHEDULE_AT, 0, at, 0) }

  function Advance(f: Feed): Feed
    requires f.sent < |f.cues|
  {
    f.(sent := f.sent + 1, acc := f.cues[f.sent].sample)
  }

  /** The next cue as the commands that send it: itself, after an anchor if the gap is too long. */
  function Encoded(f: Feed): seq<Command>
    requires Playable(f) && f.sent < |f.cues|
  {
    var cue := f.cues[f.sent];
    if cue.sample - f.acc > MAX_DELAY then [Anchor(cue.sample)] + [cue.command.(delay := 0)]
    else [cue.command.(delay := cue.sample - f.acc)]
  }

  lemma AdvanceIsPlayable(f: Feed)
    requires Playable(f) && f.sent < |f.cues|
    ensures Playable(Advance(f))
  {
  }

  /** The batch: cue after cue, up to the horizon and while there is room. */
  function Fill(f: Feed, room: int, horizon: int, batch: seq<Command>): (r: (Feed, seq<Command>))
    requires Playable(f)
    ensures Playable(r.0) && r.0.cues == f.cues && f.sent <= r.0.sent
    decreases |f.cues| - f.sent
  {
    if f.sent >= |f.cues| || |batch| >= room || f.cues[f.sent].sample > horizon then (f, batch)
    else
      AdvanceIsPlayable(f);
      Fill(Advance(f), room, horizon, batch + Encoded(f))
  }

  /** What one call sends at a count of `now`. */
  function Batch(f: Feed, limit: int, lookahead: int, now: int): (r: (Feed, seq<Command>))
    requires Playable(f)
    ensures Playable(r.0) && r.0.cues == f.cues && f.sent <= r.0.sent
  {
    Fill(f, limit - (f.sent - Reached(f.cues, now)), now + lookahead, [])
  }

  class Player {
    const cues: seq<Cue>
    const origin: int
    const limit: int
    const lookahead: int
    var sent: nat
    var acc: int

    ghost function State(): Feed
      reads this
    {
      Feed(cues, sent, acc)
    }

    constructor (notes: seq<Note>, origin: int, capacity: int, margin: int, lookahead: int)
      ensures State() == Feed(Sort(Built(notes, origin)), 0, origin)
      ensures limit == capacity - margin && this.lookahead == lookahead && this.origin == origin
    {
      var built := Cues(notes, origin);
      cues, this.origin, limit, this.lookahead := built, origin, capacity - margin, lookahead;
      sent, acc := 0, origin;
    }

    /** Cues sent whose sample is still ahead of the count polled. */
    method Outstanding(now: int) returns (n: int)
      ensures n == sent - Reached(cues, now)
    {
      n := sent - Reached(cues, now);
    }

    /** One poll of the engine: cues are appended while they are within the horizon and there is room. */
    method NextBatch(now: int) returns (batch: seq<Command>)
      requires Playable(State())
      modifies this
      ensures Playable(State())
      ensures (State(), batch) == Batch(old(State()), limit, lookahead, now)
      ensures Paced(old(State()), sent, |batch|, limit, lookahead, now)
    {
      ghost var was := State();
      var n := Outstanding(now);
      var room := limit - n;
      var horizon := now + lookahead;
      ghost var goal := Batch(State(), limit, lookahead, now);
      var next, last := sent, acc;
      batch := [];
      while next < |cues| && |batch| < room
        invariant next <= |cues| && Playable(Feed(cues, next, last))
        invariant Fill(Feed(cues, next, last), room, horizon, batch) == goal
        decreases |cues| - next
      {
        var cue := cues[next];
        if cue.sample > horizon {
          break;
        }
        ghost var f, sending := Feed(cues, next, last), batch;
        if cue.sample - last > MAX_DELAY {
          last := cue.sample;
          batch := batch + [Anchor(last)];
        }
        batch := batch + [cue.command.(delay := cue.sample - last)];
        last := cue.sample;
        next := next + 1;
        FillTakes(f, Feed(cues, next, last), room, horizon, sending, batch);
      }
      sent, acc := next, last;
      BatchStops(was, limit, lookahead, now);
    }
  }

  /** One turn of the loop: the next cue is appended, in one command or two. */
  lemma FillTakes(f: Feed, f': Feed, room: int, horizon: int, batch: seq<Command>, batch': seq<Command>)
    requires Playable(f) && f.sent < |f.cues| && |batch| < room && f.cues[f.sent].sample <= horizon
    requires f' == Advance(f)
    requires var cue := f.cues[f.sent];
      batch' == if cue.sample - f.acc > MAX_DELAY then (batch + [Anchor(cue.sample)]) + [cue.command.(delay := 0)]
                else batch + [cue.command.(delay := cue.sample - f.acc)]
    ensures Playable(f') && Fill(f', room, horizon, batch') == Fill(f, room, horizon, batch)
  {
    var cue := f.cues[f.sent];
    Associate(batch, [Anchor(cue.sample)], [cue.command.(delay := 0)]);
    assert batch' == batch + Encoded(f);
  }

  // ---------- pacing ----------

  /** However many commands a batch holds, it sends no more cues than there was room for. */
  lemma {:induction false} FillFitsRoom(f: Feed, room: int, horizon: int, batch: seq<Command>)
    requires Playable(f)
    ensures var (f', batch') := Fill(f, room, horizon, batch);
      && f'.sent - f.sent <= Max(0, room - |batch|)
      && (f'.sent > f.sent ==> f'.cues[f'.sent - 1].sample <= horizon)
    decreases |f.cues| - f.sent
  {
    if !(f.sent >= |f.cues| || |batch| >= room || f.cues[f.sent].sample > horizon) {
      AdvanceIsPlayable(f);
      FillFitsRoom(Advance(f), room, horizon, batch + Encoded(f));
    }
  }

  /** The ring is never asked to hold more than the limit. */
  lemma BatchFitsRing(f: Feed, limit: int, lookahead: int, now: int)
    requires Playable(f) && f.sent - Reached(f.cues, now) <= limit
    ensures var f' := Batch(f, limit, lookahead, now).0;
      && f'.sent - Reached(f.cues, now) <= limit
      && (f'.sent > f.sent ==> f.cues[f'.sent - 1].sample <= now + lookahead)
  {
    var room := limit - (f.sent - Reached(f.cues, now));
    FillFitsRoom(f, room, now + lookahead, []);
    assert Batch(f, limit, lookahead, now) == Fill(f, room, now + lookahead, []);
  }

  lemma {:induction false} FillStops(f: Feed, room: int, horizon: int, batch: seq<Command>)
    requires Playable(f)
    ensures var (f', batch') := Fill(f, room, horizon, batch);
      && (f'.sent < |f.cues| ==> |batch'| >= room || f.cues[f'.sent].sample > horizon)
      && (forall i :: f.sent <= i < f'.sent ==> f.cues[i].sample <= horizon)
    decreases |f.cues| - f.sent
  {
    if !(f.sent >= |f.cues| || |batch| >= room || f.cues[f.sent].sample > horizon) {
      AdvanceIsPlayable(f);
      FillStops(Advance(f), room, horizon, batch + Encoded(f));
    }
  }

  /** A call that has sent the cues up to `sent` in `n` commands: none of them lies beyond the lookahead, and it stopped
      because every cue is sent, because there was room for no more, or because the next cue lies beyond it. */
  ghost predicate Paced(f: Feed, sent: nat, n: nat, limit: int, lookahead: int, now: int) {
    && f.sent <= sent <= |f.cues|
    && (forall i :: f.sent <= i < sent ==> f.cues[i].sample <= now + lookahead)
    && (sent == |f.cues| || n >= limit - (f.sent - Reached(f.cues, now)) || f.cues[sent].sample > now + lookahead)
  }

  lemma BatchStops(f: Feed, limit: int, lookahead: int, now: int)
    requires Playable(f)
    ensures var (f', batch) := Batch(f, limit, lookahead, now); Paced(f, f'.sent, |batch|, limit, lookahead, now)
  {
    FillStops(f, limit - (f.sent - Reached(f.cues, now)), now + lookahead, []);
  }

  /** How many of the cues up to `to` are further from the one before than a delay can say. */
  function FarApart(f: Feed, to: nat): nat
    requires f.sent <= to <= |f.cues|
    decreases |f.cues| - f.sent
  {
    if f.sent == to then 0
    else (if f.cues[f.sent].sample > f.acc + 0xFFFF then 1 else 0) + FarApart(Advance(f), to)
  }

  /** One command for each cue sent, and an anchor for each that needs one, after `n` commands. */
  predicate Counted(f: Feed, n: nat, r: (Feed, seq<Command>)) {
    f.sent <= r.0.sent <= |f.cues| && |r.1| == n + r.0.sent - f.sent + FarApart(f, r.0.sent)
  }

  lemma {:induction false} FillAnchors(f: Feed, room: int, horizon: int, batch: seq<Command>)
    requires Playable(f)
    ensures Counted(f, |batch|, Fill(f, room, horizon, batch))
    decreases |f.cues| - f.sent
  {
    if !(f.sent >= |f.cues| || |batch| >= room || f.cues[f.sent].sample > horizon) {
      AdvanceIsPlayable(f);
      FillAnchors(Advance(f), room, horizon, batch + Encoded(f));
    }
  }

  /** A batch holds an anchor exactly where two neighbouring cues are further apart than a delay can say. */
  lemma AnchorsWhereNeeded(f: Feed, limit: int, lookahead: int, now: int)
    requires Playable(f)
    ensures Counted(f, 0, Batch(f, limit, lookahead, now))
  {
    FillAnchors(f, limit - (f.sent - Reached(f.cues, now)), now + lookahead, []);
  }

  lemma {:induction false} ReachedCounts(cues: seq<Cue>, now: int, k: nat)
    requires Steady(cues) && k <= |cues|
    ensures k <= Reached(cues, now) <==> (k == 0 || cues[k - 1].sample <= now)
  {
    if cues != [] {
      var init := cues[..|cues| - 1];
      if k == |cues| {
        ReachedCounts(init, now, |init|);
      } else {
        ReachedCounts(init, now, |init|);
        ReachedCounts(init, now, k);
      }
    }
  }

  /** Whenever the next cue's sample has been reached there is something to send: the player never
      stalls behind the music. */
  lemma NeverStalls(f: Feed, limit: int, lookahead: int, now: int)
    requires Playable(f) && limit >= 0 && lookahead >= 0
    requires f.sent < |f.cues| && f.cues[f.sent].sample <= now
    ensures Batch(f, limit, lookahead, now).1 != []
  {
    ReachedCounts(f.cues, now, f.sent + 1);
    AdvanceIsPlayable(f);
    FillKeepsBatch(Advance(f), limit - (f.sent - Reached(f.cues, now)), now + lookahead, [] + Encoded(f));
  }

  lemma {:induction false} FillKeepsBatch(f: Feed, room: int, horizon: int, batch: seq<Command>)
    requires Playable(f)
    ensures |Fill(f, room, horizon, batch).1| >= |batch|
    decreases |f.cues| - f.sent
  {
    if !(f.sent >= |f.cues| || |batch| >= room || f.cues[f.sent].sample > horizon) {
      AdvanceIsPlayable(f);
      FillKeepsBatch(Advance(f), room, horizon, batch + Encoded(f));
    }
  }
}
