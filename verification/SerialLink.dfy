/** The whole link, from the host's list of commands to the firmware: framed, sent bit by bit at one clock,
    received at another, decoded, mailed and put together again. */
module SerialLink {
  import opened Words
  import opened Framing
  import opened FrameDecoding
  import opened DecoderRun
  import opened Packing
  import opened Mailbox
  import opened Receiver
  import opened Link
  import opened Lossless
  import G = Gray
  import U = Uart

  /** Received bits as a byte. */
  function ByteOf(b: G.Bits): u8 {
    assert G.Pow2(8) == 0x100;
    if |b| == 8 then G.Value(b) else 0
  }

  function Bytes8(bs: seq<G.Bits>): Bytes {
    if bs == [] then [] else [ByteOf(bs[0])] + Bytes8(bs[1..])
  }

  /** The bytes a caller hands the transmitter. */
  function Asked(rs: seq<U.Request>): Bytes {
    if rs == [] then [] else [rs[0].byte] + Asked(rs[1..])
  }

  lemma {:induction false} BitsAreBytes(rs: seq<U.Request>)
    ensures Bytes8(U.BytesOf(rs)) == Asked(rs)
    decreases |rs|
  {
    if rs != [] {
      BitsAreBytes(rs[1..]);
      assert U.BytesOf(rs) == [G.Low(rs[0].byte, 8)] + U.BytesOf(rs[1..]);
      assert U.BytesOf(rs)[1..] == U.BytesOf(rs[1..]);
      U.BytesAre(rs, 0);
    }
  }

  // ---------- the receiver's strobes ----------

  function ByteOr(b: Option<G.Bits>): Option<u8> { if b.Some? then Some(ByteOf(b.value)) else None }

  /** What a receiver delivers, clock by clock. */
  function Deliveries(r: U.Rx, divisor: nat, levels: seq<bool>): seq<Option<u8>>
    requires divisor >= 4
    decreases |levels|
  {
    if levels == [] then []
    else [ByteOr(U.Delivered(r, levels[0]))] + Deliveries(U.RxClocked(r, divisor, levels[0]), divisor, levels[1..])
  }

  lemma {:induction false} DeliveriesAreReceived(r: U.Rx, divisor: nat, levels: seq<bool>)
    requires divisor >= 4
    ensures BytesOf(Deliveries(r, divisor, levels)) == Bytes8(U.Receive(r, divisor, levels).bytes)
    decreases |levels|
  {
    if levels != [] {
      var next := U.RxClocked(r, divisor, levels[0]);
      DeliveriesAreReceived(next, divisor, levels[1..]);
      var later, rest := Deliveries(next, divisor, levels[1..]), U.Receive(next, divisor, levels[1..]).bytes;
      assert ([ByteOr(U.Delivered(r, levels[0]))] + later)[1..] == later;
      match U.Delivered(r, levels[0])
      case None => assert [] + rest == rest && [] + BytesOf(later) == BytesOf(later);
      case Some(b) => assert ([b] + rest)[1..] == rest;
    }
  }

  /** The clocks a receiver always leaves between two bytes. */
  function Gap(divisor: nat): nat { divisor / 2 + U.Times(9, divisor) }

  lemma {:induction false} DeliveriesAreSpaced(r: U.Rx, divisor: nat, levels: seq<bool>, wait: nat)
    requires divisor >= 4 && U.Counting(r) && wait <= U.Before(r, divisor)
    ensures Spaced(Deliveries(r, divisor, levels), Gap(divisor), wait)
    decreases |levels|
  {
    if levels != [] {
      var rx, next := ByteOr(U.Delivered(r, levels[0])), U.RxClocked(r, divisor, levels[0]);
      U.OneClockNearer(r, divisor, levels[0]);
      var later := Deliveries(next, divisor, levels[1..]);
      DeliveriesAreSpaced(next, divisor, levels[1..], NextWait(rx, Gap(divisor), wait));
      assert ([rx] + later)[1..] == later;
    }
  }

  /** Even the fastest receiver leaves a decoder the time to replay the longest payload. */
  lemma GapIsEnough(divisor: nat)
    requires divisor >= 4
    ensures MAX_PAYLOAD < Gap(divisor)
  {
    U.NineTimes(divisor);
  }

  // ---------- end to end ----------

  /** What reaches the decoder of the bytes asked for: the transmitter's line through the receiver's two flops,
      its strobes a clock late, and silence after them. */
  function Reaching(t: U.Tx, r: U.Rx, sender: nat, receiver: nat, rs: seq<U.Request>, tail: nat): seq<Option<u8>>
    requires sender >= 4 && receiver >= 4
  {
    [None] + Deliveries(r, receiver, [true, true] + U.Send(t, sender, U.Requests(rs) + Silence(tail)).line)
  }

  /** What reaches the decoder is what was asked for, with room for a replay between any two bytes. */
  lemma ReachingIsAsked(t: U.Tx, r: U.Rx, sender: nat, receiver: nat, rs: seq<U.Request>, tail: nat)
    requires sender >= 4 && receiver >= 4 && U.Close(sender, receiver)
    requires t.state == U.IDLE && r.state == U.IDLE && U.Patient(rs, sender) && rs != [] && tail > 0
    ensures BytesOf(Reaching(t, r, sender, receiver, rs, tail)) == Asked(rs)
    ensures Spaced(Reaching(t, r, sender, receiver, rs, tail), Gap(receiver), 0)
  {
    var line := [true, true] + U.Send(t, sender, U.Requests(rs) + Silence(tail)).line;
    var later := Deliveries(r, receiver, line);
    U.BytesArrive(t, r, sender, receiver, rs, tail);
    BitsAreBytes(rs);
    DeliveriesAreReceived(r, receiver, line);
    DeliveriesAreSpaced(r, receiver, line, 0);
    assert ([None] + later)[1..] == later && [] + BytesOf(later) == BytesOf(later);
  }

  /** Everything the decoder releases for those bytes. */
  function Released(t: U.Tx, r: U.Rx, sender: nat, receiver: nat, rs: seq<U.Request>, tail: nat): seq<Strobe>
    requires sender >= 4 && receiver >= 4
  {
    Strobes(PowerOn(), seq(MAX_PAYLOAD, _ => 0), Reaching(t, r, sender, receiver, rs, tail) + Silence(Gap(receiver)), MAX_PAYLOAD)
  }

  /** Payloads framed and sent come out of the decoder: all of them, whole, and nothing else. */
  lemma FramesAreReleased(ps: seq<Bytes>, noise: seq<Bytes>, t: U.Tx, r: U.Rx, sender: nat, receiver: nat, rs: seq<U.Request>, tail: nat)
    requires |noise| == |ps| && (forall n :: n in noise ==> Quiet(n)) && forall p :: p in ps ==> 0 < |p| <= MAX_PAYLOAD
    requires sender >= 4 && receiver >= 4 && U.Close(sender, receiver)
    requires t.state == U.IDLE && r.state == U.IDLE && U.Patient(rs, sender) && rs != [] && tail > 0
    requires Asked(rs) == Wire(noise, ps)
    ensures Released(t, r, sender, receiver, rs, tail) == Replays(ps)
  {
    ReachingIsAsked(t, r, sender, receiver, rs, tail);
    GapIsEnough(receiver);
    WireIsHeard(noise, ps);
    SpacedBytesAreReleased(Reaching(t, r, sender, receiver, rs, tail), MAX_PAYLOAD, Gap(receiver), Gap(receiver));
  }

  /** For any commands, any quiet noise between their frames, any spacing of the bytes, divisors close enough,
      and any pace of the firmware that never lets the mailbox overflow: the firmware puts together the
      commands that were sent, in order. */
  lemma CommandsCrossTheWire(cs: seq<Command>, noise: seq<Bytes>, t: U.Tx, r: U.Rx, sender: nat, receiver: nat,
                             rs: seq<U.Request>, tail: nat, ticks: seq<Tick>)
    requires |noise| == |Payloads(cs)| && (forall n :: n in noise ==> Quiet(n))
    requires forall p :: p in Payloads(cs) ==> |p| <= MAX_PAYLOAD
    requires sender >= 4 && receiver >= 4 && U.Close(sender, receiver)
    requires t.state == U.IDLE && r.state == U.IDLE && U.Patient(rs, sender) && rs != [] && tail > 0
    requires Asked(rs) == Wire(noise, Payloads(cs))
    requires Legal(Box([], false, false), ticks, PKT_COMMANDS)
    requires StrobesOf(ticks) == Released(t, r, sender, receiver, rs, tail)
    requires !Through(Box([], false, false), ticks, PKT_COMMANDS).box.overflow
    ensures var end := Through(Box([], false, false), ticks, PKT_COMMANDS);
      && Consume(Start(), end.words).commands <= Carried(cs)
      && (end.box.queue == [] ==> Consume(Start(), end.words).commands == Carried(cs))
  {
    forall p | p in Payloads(cs)
      ensures 0 < |p| <= MAX_PAYLOAD
    {
      PayloadsFit(cs, p);
    }
    FramesAreReleased(Payloads(cs), noise, t, r, sender, receiver, rs, tail);
    WireIsHeard(noise, Payloads(cs));
    CommandsGetThrough(cs, noise, ticks);
  }

  // ---------- such runs exist ----------

  /** One byte after another with no waiting. */
  function AtOnce(bytes: Bytes, divisor: nat): seq<U.Request> {
    if bytes == [] then [] else [U.Request(0, bytes[0], Silence(10 * divisor))] + AtOnce(bytes[1..], divisor)
  }

  lemma {:induction false} AtOnceAsks(bytes: Bytes, divisor: nat)
    ensures Asked(AtOnce(bytes, divisor)) == bytes && U.Patient(AtOnce(bytes, divisor), divisor)
    decreases |bytes|
  {
    if bytes != [] {
      AtOnceAsks(bytes[1..], divisor);
      assert AtOnce(bytes, divisor)[1..] == AtOnce(bytes[1..], divisor);
    }
  }

  /** A firmware that takes each word as soon as it is there. */
  function Prompt(b: Box<u16>, strobes: seq<Strobe>): seq<Tick>
    decreases |strobes|
  {
    if strobes == [] then [Tick(None, false, b.queue != [])]
    else
      var t := Tick(Some(strobes[0]), false, b.queue != []);
      [t] + Prompt(Moved(b, t, PKT_COMMANDS), strobes[1..])
  }

  /** Such a run goes well: it is legal, posts what it should, and leaves nothing lost or queued. */
  ghost predicate GoesWell(b: Box<u16>, ticks: seq<Tick>, strobes: seq<Strobe>) {
    && Legal(b, ticks, PKT_COMMANDS) && StrobesOf(ticks) == strobes
    && var end := Through(b, ticks, PKT_COMMANDS).box; !end.overflow && end.queue == []
  }

  lemma GoesOnWell(b: Box<u16>, t: Tick, rest: seq<Tick>, strobes: seq<Strobe>)
    requires (t.take ==> b.queue != []) && GoesWell(Moved(b, t, PKT_COMMANDS), rest, strobes)
    ensures GoesWell(b, [t] + rest, OneStrobe(t.rx) + strobes)
  {
    assert ([t] + rest)[1..] == rest;
  }

  lemma LastGoesWell(b: Box<u16>)
    requires !b.overflow && |b.queue| <= 1
    ensures GoesWell(b, [Tick(None, false, b.queue != [])], [])
  {
    var t := Tick(None, false, b.queue != []);
    assert [t][1..] == [] && StrobesOf([]) == [];
  }

  lemma {:induction false} PromptIsLegal(b: Box<u16>, strobes: seq<Strobe>)
    requires !b.overflow && |b.queue| <= 1
    ensures GoesWell(b, Prompt(b, strobes), strobes)
    decreases |strobes|
  {
    if strobes == [] {
      LastGoesWell(b);
    } else {
      var t := Tick(Some(strobes[0]), false, b.queue != []);
      PromptIsLegal(Moved(b, t, PKT_COMMANDS), strobes[1..]);
      GoesOnWell(b, t, Prompt(Moved(b, t, PKT_COMMANDS), strobes[1..]), strobes[1..]);
      HeadAndRest(strobes);
    }
  }

  lemma SomethingToSend(cs: seq<Command>)
    requires cs != []
    ensures Payloads(cs) != [] && forall p :: p in Payloads(cs) ==> |p| <= MAX_PAYLOAD
    ensures Wire(seq(|Payloads(cs)|, _ => []), Payloads(cs)) != []
  {
    forall p | p in Payloads(cs)
      ensures |p| <= MAX_PAYLOAD
    {
      PayloadsFit(cs, p);
    }
  }

  /** Any commands can be framed and sent so, at any close divisors, and all of them acted on: the bytes one
      after another, and the words taken as they come. */
  lemma EveryCommandCanCross(cs: seq<Command>, t: U.Tx, r: U.Rx, sender: nat, receiver: nat)
    requires cs != [] && sender >= 4 && receiver >= 4 && U.Close(sender, receiver) && t.state == U.IDLE && r.state == U.IDLE
    ensures forall p :: p in Payloads(cs) ==> |p| <= MAX_PAYLOAD
    ensures exists rs, ticks ::
      && Asked(rs) == Wire(seq(|Payloads(cs)|, _ => []), Payloads(cs)) && U.Patient(rs, sender)
      && Legal(Box([], false, false), ticks, PKT_COMMANDS)
      && StrobesOf(ticks) == Released(t, r, sender, receiver, rs, 1)
      && Consume(Start(), Through(Box([], false, false), ticks, PKT_COMMANDS).words).commands == Carried(cs)
  {
    SomethingToSend(cs);
    var noise := seq(|Payloads(cs)|, _ => []);
    var rs := AtOnce(Wire(noise, Payloads(cs)), sender);
    AtOnceAsks(Wire(noise, Payloads(cs)), sender);
    var ticks := Prompt(Box([], false, false), Released(t, r, sender, receiver, rs, 1));
    PromptIsLegal(Box([], false, false), Released(t, r, sender, receiver, rs, 1));
    CommandsCrossTheWire(cs, noise, t, r, sender, receiver, rs, 1, ticks);
  }
}
