/** The whole link when no word is lost: whatever the noise on the wire, the spacing of the bytes and the
    moments at which the firmware reads, the commands it acts on are the commands that were sent. */
module Lossless {
  import opened Words
  import opened Framing
  import opened FrameDecoding
  import opened Packing
  import opened Mailbox
  import opened Receiver
  import opened Link

  // ---------- the decoder's clocks and the bytes on them ----------

  function BytesOf(rxs: seq<Option<u8>>): Bytes {
    if rxs == [] then [] else (if rxs[0].Some? then [rxs[0].value] else []) + BytesOf(rxs[1..])
  }

  /** The reference along a run of clocks, as `FrameDecoder.Clock` keeps it. */
  function Heeded(s: Rx, rxs: seq<Option<u8>>, max: nat): Heard
    decreases |rxs|
  {
    if rxs == [] then Heard(s, [])
    else
      var rest := Heeded(After(s, rxs[0], max), rxs[1..], max);
      Heard(rest.state, Returned(s, rxs[0]) + rest.payloads)
  }

  /** Clocks without a byte make no difference. */
  lemma {:induction false} SilenceIsSkipped(s: Rx, rxs: seq<Option<u8>>, max: nat)
    ensures Heeded(s, rxs, max) == Listen(s, BytesOf(rxs), max)
    decreases |rxs|
  {
    if rxs != [] {
      SilenceIsSkipped(After(s, rxs[0], max), rxs[1..], max);
      var rest := BytesOf(rxs[1..]);
      match rxs[0]
      case None =>
        assert [] + rest == rest;
        assert [] + Listen(s, rest, max).payloads == Listen(s, rest, max).payloads;
      case Some(b) =>
        assert ([b] + rest)[1..] == rest;
        var later := Listen(Next(s, b, max), rest, max);
        assert [] + later.payloads == later.payloads;
    }
  }

  // ---------- the mailbox over a run ----------

  function Latch(s: Strobe, kind: u8, forwarding: bool): bool {
    if s.index == 0 then s.byte == kind else forwarding
  }

  /** The word pushed for a byte, if any. */
  function Push(s: Strobe, kind: u8, forwarding: bool): seq<u16> {
    if Pushes(s, kind, forwarding) then [Offered(s, kind)] else []
  }

  /** Every word pushed for a run of bytes, room permitting. */
  function Posted(strobes: seq<Strobe>, kind: u8, forwarding: bool): seq<u16>
    decreases |strobes|
  {
    if strobes == [] then []
    else
      var s := strobes[0];
      Push(s, kind, forwarding) + Posted(strobes[1..], kind, Latch(s, kind, forwarding))
  }

  function Latched(strobes: seq<Strobe>, kind: u8, forwarding: bool): bool
    decreases |strobes|
  {
    if strobes == [] then forwarding else Latched(strobes[1..], kind, Latch(strobes[0], kind, forwarding))
  }

  lemma {:induction false} PostedSplit(a: seq<Strobe>, b: seq<Strobe>, kind: u8, forwarding: bool)
    ensures Posted(a + b, kind, forwarding) == Posted(a, kind, forwarding) + Posted(b, kind, Latched(a, kind, forwarding))
    ensures Latched(a + b, kind, forwarding) == Latched(b, kind, Latched(a, kind, forwarding))
    decreases |a|
  {
    if a == [] {
      assert a + b == b;
    } else {
      assert (a + b)[1..] == a[1..] + b && (a + b)[0] == a[0];
      var next := Latch(a[0], kind, forwarding);
      PostedSplit(a[1..], b, kind, next);
      Associate(Push(a[0], kind, forwarding), Posted(a[1..], kind, next), Posted(b, kind, Latched(a[1..], kind, next)));
    }
  }

  lemma PostedSingle(s: Strobe, kind: u8, forwarding: bool)
    ensures Posted([s], kind, forwarding) == Push(s, kind, forwarding)
    ensures Latched([s], kind, forwarding) == Latch(s, kind, forwarding)
  {
    assert [s][1..] == [];
    assert Push(s, kind, forwarding) + [] == Push(s, kind, forwarding);
  }

  lemma ReplayGrows(p: Bytes, k: nat)
    requires k < |p|
    ensures Replay(p, k + 1) == Replay(p, k) + [Strobe(p[k], k, |p|)]
  {
  }

  lemma ReplayBegins(p: Bytes, kind: u8, forwarding: bool)
    requires p != []
    ensures Posted(Replay(p, 1), kind, forwarding) == if p[0] == kind then [HeaderWord(kind, |p|)] else []
    ensures Latched(Replay(p, 1), kind, forwarding) == (p[0] == kind)
  {
    var s := Strobe(p[0], 0, |p|);
    assert Replay(p, 1) == [s];
    PostedSingle(s, kind, forwarding);
  }

  /** A payload's header and body, as far as it has been replayed. */
  lemma {:induction false} ReplayPosted(p: Bytes, k: nat, kind: u8, forwarding: bool)
    requires 0 < k <= |p|
    ensures Posted(Replay(p, k), kind, forwarding) == if p[0] == kind then [HeaderWord(kind, |p|)] + p[1..k] else []
    ensures Latched(Replay(p, k), kind, forwarding) == (p[0] == kind)
    decreases k
  {
    if k == 1 {
      ReplayBegins(p, kind, forwarding);
    } else {
      var s, header := Strobe(p[k - 1], k - 1, |p|), HeaderWord(kind, |p|);
      ReplayPosted(p, k - 1, kind, forwarding);
      ReplayGrows(p, k - 1);
      PostedSplit(Replay(p, k - 1), [s], kind, forwarding);
      PostedSingle(s, kind, p[0] == kind);
      assert [header] + p[1..k] == ([header] + p[1..k - 1]) + [p[k - 1]];
    }
  }

  predicate Proper(ps: seq<Bytes>) { forall p :: p in ps ==> 0 < |p| <= MAX_PAYLOAD }

  lemma {:induction false} AllWordsAppend(ps: seq<Bytes>, p: Bytes, kind: u8)
    requires Proper(ps) && 0 < |p| <= MAX_PAYLOAD
    ensures Proper(ps + [p]) && AllWords(ps + [p], kind) == AllWords(ps, kind) + WordsOf(p, kind)
  {
    forall q | q in ps + [p]
      ensures 0 < |q| <= MAX_PAYLOAD
    {
    }
    if ps == [] {
      assert ps + [p] == [p] && [p][1..] == [];
      assert AllWords([], kind) == [] && WordsOf(p, kind) + [] == WordsOf(p, kind);
    } else {
      assert (ps + [p])[1..] == ps[1..] + [p];
      AllWordsAppend(ps[1..], p, kind);
    }
  }

  lemma WholeReplayPosted(p: Bytes, kind: u8, forwarding: bool)
    requires 0 < |p| <= MAX_PAYLOAD
    ensures Posted(Replay(p, |p|), kind, forwarding) == WordsOf(p, kind)
  {
    ReplayPosted(p, |p|, kind, forwarding);
    assert p[1..|p|] == p[1..];
  }

  /** What the mailbox is offered for the payloads a decoder releases. */
  lemma {:induction false} ReplaysPosted(ps: seq<Bytes>, kind: u8, forwarding: bool)
    requires Proper(ps)
    ensures Posted(Replays(ps), kind, forwarding) == AllWords(ps, kind)
    decreases |ps|
  {
    if ps != [] {
      var front, last := ps[..|ps| - 1], ps[|ps| - 1];
      assert ps == front + [last] && last in ps;
      ReplaysPosted(front, kind, forwarding);
      WholeReplayPosted(last, kind, Latched(Replays(front), kind, forwarding));
      PostedSplit(Replays(front), Replay(last, |last|), kind, forwarding);
      AllWordsAppend(front, last, kind);
    }
  }

  /** A clock of the mailbox without a flush. */
  datatype Tick = Tick(rx: Option<Strobe>, full: bool, take: bool)

  function Moved(b: Box<u16>, t: Tick, kind: u8): Box<u16>
    requires t.take ==> b.queue != []
  {
    Boxed(b, kind, t.rx, if t.rx.Some? then Offered(t.rx.value, kind) else 0, t.full, t.take, false)
  }

  /** A run that takes only what is there. */
  predicate Legal(b: Box<u16>, ticks: seq<Tick>, kind: u8)
    decreases |ticks|
  {
    ticks == [] ||
    var t := ticks[0];
    && (t.take ==> b.queue != [])
    && Legal(Moved(b, t, kind), ticks[1..], kind)
  }

  datatype Read = Read(box: Box<u16>, words: seq<u16>)

  /** The mailbox after a run, and the words taken from it. */
  function Through(b: Box<u16>, ticks: seq<Tick>, kind: u8): Read
    requires Legal(b, ticks, kind)
    decreases |ticks|
  {
    if ticks == [] then Read(b, [])
    else
      var rest := Through(Moved(b, ticks[0], kind), ticks[1..], kind);
      Read(rest.box, (if ticks[0].take then [b.queue[0]] else []) + rest.words)
  }

  function StrobesOf(ticks: seq<Tick>): seq<Strobe> {
    if ticks == [] then [] else OneStrobe(ticks[0].rx) + StrobesOf(ticks[1..])
  }

  lemma {:induction false} StaysOverflowed(b: Box<u16>, ticks: seq<Tick>, kind: u8)
    requires Legal(b, ticks, kind) && b.overflow
    ensures Through(b, ticks, kind).box.overflow
    decreases |ticks|
  {
    if ticks != [] {
      StaysOverflowed(Moved(b, ticks[0], kind), ticks[1..], kind);
    }
  }

  /** Unless the flag is up at the end, every word offered was queued, and comes out once and in order. */
  lemma {:induction false} NothingLost(b: Box<u16>, ticks: seq<Tick>, kind: u8)
    requires Legal(b, ticks, kind) && !Through(b, ticks, kind).box.overflow
    ensures var r := Through(b, ticks, kind);
      r.words + r.box.queue == b.queue + Posted(StrobesOf(ticks), kind, b.forwarding)
    decreases |ticks|
  {
    if ticks == [] {
      assert [] + b.queue == b.queue + [];
    } else {
      var t, b' := ticks[0], Moved(b, ticks[0], kind);
      if b'.overflow {
        StaysOverflowed(b', ticks[1..], kind);
      }
      NothingLost(b', ticks[1..], kind);
      OneTick(b, t, kind, StrobesOf(ticks[1..]), Through(b', ticks[1..], kind));
    }
  }

  lemma OneTick(b: Box<u16>, t: Tick, kind: u8, later: seq<Strobe>, rest: Read)
    requires t.take ==> b.queue != []
    requires var b' := Moved(b, t, kind);
      !b'.overflow && rest.words + rest.box.queue == b'.queue + Posted(later, kind, b'.forwarding)
    ensures ((if t.take then [b.queue[0]] else []) + rest.words) + rest.box.queue
         == b.queue + Posted(OneStrobe(t.rx) + later, kind, b.forwarding)
  {
    var b' := Moved(b, t, kind);
    var head, tail := if t.take then [b.queue[0]] else [], if t.take then b.queue[1..] else b.queue;
    var pushed := if t.rx.Some? then Push(t.rx.value, kind, b.forwarding) else [];
    var posted := Posted(later, kind, b'.forwarding);
    PostedOne(t.rx, later, kind, b.forwarding);
    assert b'.queue == tail + pushed && head + tail == b.queue;
    Reassociate(head, tail, pushed, posted, rest.words, rest.box.queue);
  }

  lemma PostedOne(rx: Option<Strobe>, later: seq<Strobe>, kind: u8, forwarding: bool)
    ensures Posted(OneStrobe(rx) + later, kind, forwarding) ==
      (if rx.Some? then Push(rx.value, kind, forwarding) else [])
      + Posted(later, kind, if rx.Some? then Latch(rx.value, kind, forwarding) else forwarding)
  {
    match rx
    case None =>
      assert [] + later == later;
      assert [] + Posted(later, kind, forwarding) == Posted(later, kind, forwarding);
    case Some(s) => assert ([s] + later)[1..] == later;
  }

  lemma Reassociate(head: seq<u16>, tail: seq<u16>, pushed: seq<u16>, posted: seq<u16>, words: seq<u16>, queue: seq<u16>)
    requires words + queue == (tail + pushed) + posted
    ensures (head + words) + queue == (head + tail) + (pushed + posted)
  {
    assert (head + words) + queue == head + (words + queue);
    assert head + ((tail + pushed) + posted) == (head + tail) + (pushed + posted);
  }

  // ---------- end to end ----------

  /** For any commands, any quiet noise between their frames, and any run of the mailbox that is given what
      the decoder releases and whose flag stays down: what the firmware has put together is always the
      first of those commands, and all of them once the mailbox is empty. */
  lemma CommandsGetThrough(cs: seq<Command>, noise: seq<Bytes>, ticks: seq<Tick>)
    requires |noise| == |Payloads(cs)| && forall n :: n in noise ==> Quiet(n)
    requires forall p :: p in Payloads(cs) ==> |p| <= MAX_PAYLOAD
    requires Legal(Box([], false, false), ticks, PKT_COMMANDS)
    requires StrobesOf(ticks) == Replays(Listen(Idle, Wire(noise, Payloads(cs)), MAX_PAYLOAD).payloads)
    requires !Through(Box([], false, false), ticks, PKT_COMMANDS).box.overflow
    ensures var r := Through(Box([], false, false), ticks, PKT_COMMANDS);
      && Consume(Start(), r.words).commands <= Carried(cs)
      && (r.box.queue == [] ==> Consume(Start(), r.words).commands == Carried(cs))
  {
    var ps := Payloads(cs);
    WireIsHeard(noise, ps);
    PayloadsConsumed(Start(), cs);
    assert Proper(ps);
    ReplaysPosted(ps, PKT_COMMANDS, false);
    NothingLost(Box([], false, false), ticks, PKT_COMMANDS);
    var r := Through(Box([], false, false), ticks, PKT_COMMANDS);
    assert [] + AllWords(ps, PKT_COMMANDS) == AllWords(ps, PKT_COMMANDS);
    ConsumeSplit(Start(), r.words, r.box.queue);
    assert r.box.queue == [] ==> r.words + r.box.queue == r.words;
  }
}
