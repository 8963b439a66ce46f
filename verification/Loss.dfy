/** What the firmware may act on when words are lost. The mailbox is bounded, drops what finds no room, and
    only raises a flag; the firmware reads the flag and the words at moments of its own. Whatever the
    timing, every command it puts together is a whole command of one validated frame, and it acts on them
    in the order they were sent. */
module Loss {
  import opened Words
  import opened Framing
  import opened FrameDecoding
  import opened Packing
  import opened Mailbox
  import opened Receiver

  /** Where a word comes from: the place `pos` of a frame's payload. */
  datatype Tag = Tag(frame: nat, pos: nat)
  datatype Item = Item(word: u16, tag: Tag)

  /** A command acted on, and where it comes from: the `nth` command of a frame. */
  datatype Entry = Entry(word: Word, frame: nat, nth: nat)

  /** What the firmware does next. */
  datatype Pc = STATUS | POP | FLUSH

  /** `frames` are the validated payloads so far, the last one replayed as far as `at`. The rest is
      history: the commands acted on, the last word taken since the last flush, how many words in the
      queue were pushed before any was lost, and how many frames had begun by the last flush. */
  datatype System = System(box: Box<Item>, cpu: Cpu, pc: Pc, frames: seq<Bytes>, at: nat,
                           log: seq<Entry>, last: Option<Tag>, clean: nat, floor: nat)

  function Boot(): System { System(Box([], false, false), Start(), STATUS, [], 0, [], None, 0, 0) }

  // ---------- steps ----------

  datatype Arrival = Nothing | NewFrame(payload: Bytes) | NextByte

  predicate Possible(s: System, a: Arrival) {
    match a
    case Nothing => true
    case NewFrame(p) => 0 < |p| <= MAX_PAYLOAD && (s.frames != [] ==> s.at == |s.frames[|s.frames| - 1]|)
    case NextByte => s.frames != [] && s.at < |s.frames[|s.frames| - 1]| <= MAX_PAYLOAD
  }

  function Finished(c: Cpu, item: Item): seq<Entry>
    requires Sane(c)
  {
    match Given(c, item.word)
    case None => []
    case Some(w) => [Entry(w, item.tag.frame, if item.tag.pos >= COMMAND_BYTES then item.tag.pos / COMMAND_BYTES - 1 else 0)]
  }

  /** One access of the firmware. `empty` is the mailbox's flag as it is read. */
  function Acted(s: System, empty: bool): System
    requires Sane(s.cpu)
  {
    match s.pc
    case STATUS => if s.box.overflow then s.(pc := FLUSH) else if empty then s else s.(pc := POP)
    case FLUSH =>
      s.(box := Box([], false, false), cpu := Recovered(s.cpu), pc := STATUS, last := None, clean := 0, floor := |s.frames|)
    case POP =>
      if s.box.queue == [] then s
      else
        var item := s.box.queue[0];
        s.(box := s.box.(queue := s.box.queue[1..]), cpu := Taken(s.cpu, item.word), pc := STATUS,
           log := s.log + Finished(s.cpu, item), last := Some(item.tag), clean := if s.clean > 0 then s.clean - 1 else 0)
  }

  /** The byte that arrives. */
  function Arriving(s: System, a: Arrival): (i: Item)
    requires Possible(s, a) && a != Nothing
  {
    if a.NewFrame? then Item(Offered(StrobeAt(a.payload, 0), PKT_COMMANDS), Tag(|s.frames|, 0))
    else
      var p := s.frames[|s.frames| - 1];
      Item(Offered(StrobeAt(p, s.at), PKT_COMMANDS), Tag(|s.frames| - 1, s.at))
  }

  function StrobeAt(p: Bytes, i: nat): Strobe
    requires i < |p|
  {
    Strobe(p[i], i, |p|)
  }

  function Current(s: System, a: Arrival): Strobe
    requires Possible(s, a) && a != Nothing
  {
    if a.NewFrame? then StrobeAt(a.payload, 0) else StrobeAt(s.frames[|s.frames| - 1], s.at)
  }

  /** One arrival; in the clock of a flush the mailbox keeps nothing of it. */
  function Arrived(s: System, a: Arrival, full: bool, flushed: bool): System
    requires Possible(s, a)
  {
    if a == Nothing then s
    else
      var strobe, item := Current(s, a), Arriving(s, a);
      var push := !flushed && Pushes(strobe, PKT_COMMANDS, s.box.forwarding);
      s.(box := if flushed then s.box else Boxed(s.box, PKT_COMMANDS, Some(strobe), item, full, false, false),
         frames := if a.NewFrame? then s.frames + [a.payload] else s.frames,
         at := strobe.index + 1,
         clean := if push && !full && !s.box.overflow then s.clean + 1 else s.clean)
  }

  // ---------- the invariant ----------

  predicate Ours(frames: seq<Bytes>, t: Tag) {
    t.frame < |frames| && t.pos < |frames[t.frame]| <= MAX_PAYLOAD && frames[t.frame][0] == PKT_COMMANDS
  }

  /** A word that stands for the place it comes from. */
  predicate Genuine(frames: seq<Bytes>, i: Item) {
    && Ours(frames, i.tag)
    && i.word == var p := frames[i.tag.frame]; if i.tag.pos == 0 then HeaderWord(PKT_COMMANDS, |p|) else p[i.tag.pos]
  }

  /** The next word of the same frame, or the header of a later one. */
  predicate Follows(last: Option<Tag>, floor: nat, t: Tag) {
    match last
    case None => t.pos == 0 && t.frame >= floor
    case Some(u) => (t.frame == u.frame && t.pos == u.pos + 1) || (t.pos == 0 && t.frame > u.frame)
  }

  predicate Chained(frames: seq<Bytes>, last: Option<Tag>, floor: nat, items: seq<Item>)
    decreases |items|
  {
    items == [] ||
    (Genuine(frames, items[0]) && Follows(last, floor, items[0].tag) && Chained(frames, Some(items[0].tag), floor, items[1..]))
  }

  function End(last: Option<Tag>, items: seq<Item>): Option<Tag> {
    if items == [] then last else Some(items[|items| - 1].tag)
  }

  /** The firmware's variables are those of a body read up to the last word taken. */
  ghost predicate ReadsUpTo(c: Cpu, frames: seq<Bytes>, last: Option<Tag>) {
    match last
    case None => Sane(c) && c.length == 0
    case Some(t) =>
      && Ours(frames, t) && c.length == |frames[t.frame]| - 1 && c.index == t.pos
      && Gathers(c, Part(frames[t.frame], t.pos))
  }

  /** The bytes of the command in hand after `pos` bytes of a body. */
  function Part(p: Bytes, pos: nat): Bytes
    requires pos < |p|
  {
    p[1 + pos / COMMAND_BYTES * COMMAND_BYTES..1 + pos]
  }

  /** A whole command of a validated frame. */
  ghost predicate Whole(frames: seq<Bytes>, e: Entry) {
    && e.frame < |frames| && 1 + COMMAND_BYTES * (e.nth + 1) <= |frames[e.frame]|
    && frames[e.frame][0] == PKT_COMMANDS
    && e.word == WordOf(frames[e.frame][1 + COMMAND_BYTES * e.nth..][..COMMAND_BYTES])
  }

  predicate Earlier(d: Entry, e: Entry) { d.frame < e.frame || (d.frame == e.frame && d.nth < e.nth) }

  /** Commands acted on lie behind what was read. */
  predicate Behind(e: Entry, last: Option<Tag>, floor: nat) {
    match last
    case None => e.frame < floor
    case Some(t) => e.frame < t.frame || (e.frame == t.frame && COMMAND_BYTES * (e.nth + 1) <= t.pos)
  }

  ghost predicate LogIsSound(frames: seq<Bytes>, log: seq<Entry>, last: Option<Tag>, floor: nat) {
    && (forall e :: e in log ==> Whole(frames, e) && Behind(e, last, floor))
    && forall i, j :: 0 <= i < j < |log| ==> Earlier(log[i], log[j])
  }

  /** While a frame is being forwarded and nothing was lost, the word before the next one was the last. */
  predicate Joined(s: System) {
    && s.frames != [] && s.at > 0 && Ours(s.frames, Tag(|s.frames| - 1, 0))
    && End(s.last, s.box.queue) == Some(Tag(|s.frames| - 1, s.at - 1))
  }

  ghost predicate QueueIsSound(s: System) {
    && s.clean <= |s.box.queue| && (!s.box.overflow ==> s.clean == |s.box.queue|)
    && Chained(s.frames, s.last, s.floor, s.box.queue[..s.clean])
    && (!s.box.overflow && s.box.forwarding ==> Joined(s))
  }

  ghost predicate Core(s: System) {
    && s.floor <= |s.frames|
    && (forall i :: 0 <= i < |s.frames| ==> 0 < |s.frames[i]| <= MAX_PAYLOAD)
    && ReadsUpTo(s.cpu, s.frames, s.last) && QueueIsSound(s) && LogIsSound(s.frames, s.log, s.last, s.floor)
    && (s.pc == POP ==> s.clean > 0)
  }

  ghost predicate Inv(s: System) { Core(s) && (s.frames != [] ==> s.at > 0) }

  // ---------- one word taken ----------

  lemma PartGrows(p: Bytes, pos: nat)
    requires pos + 1 < |p|
    ensures |Part(p, pos)| == pos % COMMAND_BYTES
    ensures pos % COMMAND_BYTES < 7 ==> Part(p, pos + 1) == Part(p, pos) + [p[pos + 1]]
    ensures pos % COMMAND_BYTES == 7 ==>
      (pos + 1) % COMMAND_BYTES == 0 && Part(p, pos + 1) == [] &&
      Part(p, pos) + [p[pos + 1]] == p[1 + pos / COMMAND_BYTES * COMMAND_BYTES..][..COMMAND_BYTES]
  {
    var q := pos / COMMAND_BYTES;
    assert pos == q * COMMAND_BYTES + pos % COMMAND_BYTES;
    assert (pos + 1) / COMMAND_BYTES == if pos % COMMAND_BYTES == 7 then q + 1 else q;
  }

  /** A word taken in its turn is read as what it is. */
  lemma HeaderReadsOn(c: Cpu, frames: seq<Bytes>, item: Item)
    requires Sane(c) && Genuine(frames, item) && item.tag.pos == 0
    ensures ReadsUpTo(Taken(c, item.word), frames, Some(item.tag))
  {
    var p := frames[item.tag.frame];
    HeaderTaken(c, |p|);
    assert Part(p, 0) == [];
  }

  lemma BodyReadsOn(c: Cpu, frames: seq<Bytes>, t: Tag, item: Item)
    requires ReadsUpTo(c, frames, Some(t)) && Genuine(frames, item) && item.tag == Tag(t.frame, t.pos + 1)
    ensures ReadsUpTo(Taken(c, item.word), frames, Some(item.tag))
  {
    var p := frames[t.frame];
    PartGrows(p, t.pos);
    var part := Part(p, t.pos);
    if |part| < 7 {
      BodyTaken(c, part, p[t.pos + 1]);
    } else {
      LastTaken(c, part, p[t.pos + 1]);
    }
  }

  lemma TakenReadsOn(c: Cpu, frames: seq<Bytes>, last: Option<Tag>, floor: nat, item: Item)
    requires ReadsUpTo(c, frames, last) && Genuine(frames, item) && Follows(last, floor, item.tag)
    ensures ReadsUpTo(Taken(c, item.word), frames, Some(item.tag))
  {
    if item.tag.pos == 0 {
      HeaderReadsOn(c, frames, item);
    } else {
      BodyReadsOn(c, frames, last.value, item);
    }
  }

  /** A command is put together only from the eight bytes of one command of one frame. */
  lemma FinishedIsWhole(c: Cpu, frames: seq<Bytes>, last: Option<Tag>, floor: nat, item: Item)
    requires ReadsUpTo(c, frames, last) && Genuine(frames, item) && Follows(last, floor, item.tag)
    ensures Finished(c, item) == [] ||
      (exists e :: Finished(c, item) == [e] && Whole(frames, e) &&
                   e.frame == item.tag.frame && item.tag.pos == COMMAND_BYTES * (e.nth + 1))
  {
    var p, pos := frames[item.tag.frame], item.tag.pos;
    if pos == 0 {
      HeaderTaken(c, |p|);
    } else {
      PartGrows(p, pos - 1);
      var part := Part(p, pos - 1);
      if |part| < 7 {
        BodyTaken(c, part, p[pos]);
      } else {
        LastTaken(c, part, p[pos]);
        CommandAt(p, pos);
        var e := Entry(WordOf(part + [p[pos]]), item.tag.frame, pos / COMMAND_BYTES - 1);
        assert Finished(c, item) == [e];
        assert Whole(frames, e);
      }
    }
  }

  lemma CommandAt(p: Bytes, pos: nat)
    requires 0 < pos < |p| && (pos - 1) % COMMAND_BYTES == 7
    ensures pos >= COMMAND_BYTES && pos == COMMAND_BYTES * (pos / COMMAND_BYTES)
    ensures (pos - 1) / COMMAND_BYTES * COMMAND_BYTES == COMMAND_BYTES * (pos / COMMAND_BYTES - 1)
  {
  }

  lemma LogGrows(frames: seq<Bytes>, log: seq<Entry>, last: Option<Tag>, floor: nat, c: Cpu, item: Item)
    requires LogIsSound(frames, log, last, floor)
    requires ReadsUpTo(c, frames, last) && Genuine(frames, item) && Follows(last, floor, item.tag)
    ensures LogIsSound(frames, log + Finished(c, item), Some(item.tag), floor)
  {
    FinishedIsWhole(c, frames, last, floor, item);
    forall e | e in log
      ensures Behind(e, Some(item.tag), floor)
    {
    }
    if Finished(c, item) == [] {
      assert log + [] == log;
    } else {
      var e :| Finished(c, item) == [e] && Whole(frames, e) &&
               e.frame == item.tag.frame && item.tag.pos == COMMAND_BYTES * (e.nth + 1);
      forall d | d in log
        ensures Earlier(d, e)
      {
        assert Behind(d, last, floor);
      }
    }
  }

  // ---------- what each step keeps ----------

  lemma PopKeepsInv(s: System, empty: bool)
    requires Inv(s) && s.pc == POP
    ensures Inv(Acted(s, empty))
  {
    var item, q := s.box.queue[0], s.box.queue;
    assert q[..s.clean][0] == item && q[..s.clean][1..] == q[1..][..s.clean - 1];
    TakenReadsOn(s.cpu, s.frames, s.last, s.floor, item);
    LogGrows(s.frames, s.log, s.last, s.floor, s.cpu, item);
  }

  lemma ActKeepsInv(s: System, empty: bool)
    requires Inv(s) && (s.box.queue == [] ==> empty)
    ensures Inv(Acted(s, empty))
  {
    match s.pc
    case STATUS =>
    case FLUSH =>
      forall e | e in s.log
        ensures Behind(e, None, |s.frames|)
      {
        assert Whole(s.frames, e);
      }
    case POP => PopKeepsInv(s, empty);
  }

  /** The words before a loss are the only ones ever taken. */
  lemma TakenBeforeLoss(s: System)
    requires Inv(s) && s.pc == POP
    ensures s.box.queue != [] && s.clean > 0 && Genuine(s.frames, s.box.queue[0]) && Follows(s.last, s.floor, s.box.queue[0].tag)
  {
    assert s.box.queue[..s.clean][0] == s.box.queue[0];
  }

  // ---------- arrivals ----------

  lemma {:induction false} ChainedGrows(frames: seq<Bytes>, last: Option<Tag>, floor: nat, items: seq<Item>, p: Bytes)
    requires Chained(frames, last, floor, items)
    ensures Chained(frames + [p], last, floor, items)
    decreases |items|
  {
    if items != [] {
      ChainedGrows(frames, Some(items[0].tag), floor, items[1..], p);
    }
  }

  lemma {:induction false} ChainedAppend(frames: seq<Bytes>, last: Option<Tag>, floor: nat, items: seq<Item>, item: Item)
    requires Chained(frames, last, floor, items) && Genuine(frames, item) && Follows(End(last, items), floor, item.tag)
    ensures Chained(frames, last, floor, items + [item])
    decreases |items|
  {
    if items == [] {
      assert items + [item] == [item] && [item][1..] == [];
    } else {
      assert (items + [item])[1..] == items[1..] + [item];
      ChainedAppend(frames, Some(items[0].tag), floor, items[1..], item);
    }
  }

  /** Whatever ends a chain is of a frame that has begun. */
  lemma {:induction false} EndIsOurs(frames: seq<Bytes>, last: Option<Tag>, floor: nat, items: seq<Item>)
    requires Chained(frames, last, floor, items) && (last.Some? ==> Ours(frames, last.value))
    ensures End(last, items).Some? ==> Ours(frames, End(last, items).value)
    decreases |items|
  {
    if items != [] {
      EndIsOurs(frames, Some(items[0].tag), floor, items[1..]);
    }
  }

  /** A new frame changes nothing of what is known. */
  lemma BeginKeepsCore(s: System, p: Bytes)
    requires Inv(s) && Possible(s, NewFrame(p))
    ensures Core(Begun(s, p))
    ensures !s.box.overflow ==> Follows(End(s.last, s.box.queue), s.floor, Tag(|s.frames|, 0))
  {
    ChainedGrows(s.frames, s.last, s.floor, s.box.queue[..s.clean], p);
    forall e | e in s.log
      ensures Whole(s.frames + [p], e)
    {
      assert Whole(s.frames, e);
    }
    EndIsOurs(s.frames, s.last, s.floor, s.box.queue[..s.clean]);
    assert !s.box.overflow ==> s.box.queue[..s.clean] == s.box.queue;
  }

  function Begun(s: System, p: Bytes): System {
    s.(frames := s.frames + [p], at := 0, box := s.box.(forwarding := false))
  }

  /** The next byte of the last frame. */
  function ByteArrived(s: System, full: bool, flushed: bool): System
    requires Possible(s, NextByte)
  {
    Arrived(s, NextByte, full, flushed)
  }

  lemma PushKeepsCore(s: System, item: Item)
    requires Core(s) && s.frames != [] && !s.box.overflow
    requires Genuine(s.frames, item) && item.tag == Tag(|s.frames| - 1, s.at)
    requires Follows(End(s.last, s.box.queue), s.floor, item.tag)
    ensures Core(s.(box := Box(s.box.queue + [item], true, false), at := s.at + 1, clean := s.clean + 1))
  {
    var q := s.box.queue;
    assert q[..s.clean] == q && (q + [item])[..s.clean + 1] == q + [item];
    ChainedAppend(s.frames, s.last, s.floor, q, item);
  }

  /** What is pushed once a word was lost is never counted on. */
  lemma LatePushKeepsCore(s: System, queue: seq<Item>, forwarding: bool, at: nat)
    requires Core(s) && s.box.queue <= queue
    ensures Core(s.(box := Box(queue, forwarding, true), at := at))
  {
    assert queue[..s.clean] == s.box.queue[..s.clean];
  }

  lemma SkipKeepsCore(s: System, at: nat)
    requires Core(s)
    ensures Core(s.(box := s.box.(forwarding := false), at := at))
  {
  }

  lemma ByteKeepsCore(s: System, full: bool, flushed: bool)
    requires Core(s) && Possible(s, NextByte)
    requires s.at == 0 ==> !s.box.forwarding
    requires s.at == 0 && !s.box.overflow ==> Follows(End(s.last, s.box.queue), s.floor, Tag(|s.frames| - 1, 0))
    requires flushed ==> s.box == Box([], false, false)
    ensures Core(ByteArrived(s, full, flushed))
  {
    var strobe, item := Current(s, NextByte), Arriving(s, NextByte);
    if flushed || !Pushes(strobe, PKT_COMMANDS, s.box.forwarding) {
      SkipKeepsCore(s, s.at + 1);
      assert s.box.queue + [] == s.box.queue;
    } else if full {
      LatePushKeepsCore(s, s.box.queue, true, s.at + 1);
      assert s.box.queue + [] == s.box.queue;
    } else if s.box.overflow {
      LatePushKeepsCore(s, s.box.queue + [item], true, s.at + 1);
    } else {
      PushKeepsCore(s, item);
    }
  }

  lemma ArrivalKeepsInv(s: System, a: Arrival, full: bool, flushed: bool)
    requires Inv(s) && Possible(s, a)
    requires flushed ==> s.box == Box([], false, false)
    ensures Inv(Arrived(s, a, full, flushed))
  {
    match a
    case Nothing =>
    case NewFrame(p) =>
      BeginKeepsCore(s, p);
      ByteKeepsCore(Begun(s, p), full, flushed);
      assert Arrived(s, a, full, flushed) == ByteArrived(Begun(s, p), full, flushed);
    case NextByte =>
      ByteKeepsCore(s, full, flushed);
  }

  // ---------- runs ----------

  /** A clock: perhaps an access of the firmware, perhaps a byte. The flags are what the FIFO shows. */
  datatype Moment = Moment(acts: bool, arrival: Arrival, full: bool, empty: bool)

  predicate Legal(s: System, t: Moment, depth: nat) {
    Possible(s, t.arrival) && Flags(s.box, depth, t.full, t.empty)
  }

  function MaybeActed(s: System, t: Moment): System
    requires Sane(s.cpu)
  {
    if t.acts then Acted(s, t.empty) else s
  }

  function Ticked(s: System, t: Moment): System
    requires Sane(s.cpu) && Possible(s, t.arrival)
  {
    Arrived(MaybeActed(s, t), t.arrival, t.full, t.acts && s.pc == FLUSH)
  }

  lemma ActStaysPossible(s: System, empty: bool, a: Arrival)
    requires Sane(s.cpu) && Possible(s, a)
    ensures Possible(Acted(s, empty), a) && (s.pc == FLUSH ==> Acted(s, empty).box == Box([], false, false))
  {
  }

  lemma AccessKeepsInv(s: System, t: Moment, depth: nat)
    requires Inv(s) && Legal(s, t, depth) && t.acts
    ensures Inv(Ticked(s, t))
  {
    ActKeepsInv(s, t.empty);
    ActStaysPossible(s, t.empty, t.arrival);
    ArrivalKeepsInv(Acted(s, t.empty), t.arrival, t.full, s.pc == FLUSH);
  }

  lemma TickKeepsInv(s: System, t: Moment, depth: nat)
    requires Inv(s) && Legal(s, t, depth)
    ensures Inv(Ticked(s, t))
  {
    if t.acts {
      AccessKeepsInv(s, t, depth);
    } else {
      ArrivalKeepsInv(s, t.arrival, t.full, false);
    }
  }

  lemma RestIsBoxed(s: System, t: Moment)
    requires Sane(s.cpu) && Possible(s, t.arrival) && !t.acts
    ensures Ticked(s, t).box ==
      if t.arrival == Nothing then Boxed(s.box, PKT_COMMANDS, None, Item(0, Tag(0, 0)), t.full, false, false)
      else Boxed(s.box, PKT_COMMANDS, Some(Current(s, t.arrival)), Arriving(s, t.arrival), t.full, false, false)
  {
    assert s.box.queue + [] == s.box.queue;
  }

  lemma AccessIsBoxed(s: System, t: Moment)
    requires Inv(s) && Possible(s, t.arrival) && t.acts
    ensures Ticked(s, t).box ==
      if t.arrival == Nothing then Boxed(s.box, PKT_COMMANDS, None, Item(0, Tag(0, 0)), t.full, s.pc == POP, s.pc == FLUSH)
      else Boxed(s.box, PKT_COMMANDS, Some(Current(s, t.arrival)), Arriving(s, t.arrival), t.full, s.pc == POP, s.pc == FLUSH)
  {
    assert Acted(s, t.empty).box.queue + [] == Acted(s, t.empty).box.queue;
  }

  /** The mailbox in this system is the mailbox. */
  lemma TickIsBoxed(s: System, t: Moment, depth: nat)
    requires Inv(s) && Legal(s, t, depth)
    ensures Ticked(s, t).box ==
      (var take, flush := t.acts && s.pc == POP, t.acts && s.pc == FLUSH;
       if t.arrival == Nothing then Boxed(s.box, PKT_COMMANDS, None, Item(0, Tag(0, 0)), t.full, take, flush)
       else Boxed(s.box, PKT_COMMANDS, Some(Current(s, t.arrival)), Arriving(s, t.arrival), t.full, take, flush))
  {
    if t.acts {
      AccessIsBoxed(s, t);
    } else {
      RestIsBoxed(s, t);
    }
  }

  predicate Feasible(s: System, moments: seq<Moment>, depth: nat)
    decreases |moments|
  {
    moments == [] || (Legal(s, moments[0], depth) && Sane(s.cpu) && Feasible(Ticked(s, moments[0]), moments[1..], depth))
  }

  function Run(s: System, moments: seq<Moment>, depth: nat): System
    requires Feasible(s, moments, depth)
    decreases |moments|
  {
    if moments == [] then s else Run(Ticked(s, moments[0]), moments[1..], depth)
  }

  lemma {:induction false} RunKeepsInv(s: System, moments: seq<Moment>, depth: nat)
    requires Inv(s) && Feasible(s, moments, depth)
    ensures Inv(Run(s, moments, depth))
    decreases |moments|
  {
    if moments != [] {
      TickKeepsInv(s, moments[0], depth);
      RunKeepsInv(Ticked(s, moments[0]), moments[1..], depth);
    }
  }

  /** For a mailbox of any depth, any validated frames at any spacing and any timing of the firmware: the
      commands acted on are whole, aligned commands of validated frames, in the order they were sent and
      none twice. */
  lemma OnlyWholeCommandsInOrder(moments: seq<Moment>, depth: nat)
    requires Feasible(Boot(), moments, depth)
    ensures var s := Run(Boot(), moments, depth);
      && (forall e :: e in s.log ==> Whole(s.frames, e))
      && forall i, j :: 0 <= i < j < |s.log| ==> Earlier(s.log[i], s.log[j])
  {
    assert Inv(Boot());
    RunKeepsInv(Boot(), moments, depth);
  }
}
