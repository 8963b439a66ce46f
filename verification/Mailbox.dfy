/** The mailbox between the frame decoder and the processor: header and body words in a bounded queue, a
    latch that says whether the frame in hand is forwarded, and a sticky flag for a word that found no
    room. */
module Mailbox {
  import opened Words
  import opened Framing
  import opened FrameDecoding

  const HEADER := 0x8000

  /** The word that replaces a frame's type byte: the marker, the length of the body and the type. The
      length is kept in five bits. */
  function HeaderWord(kind: u8, length: nat): u16 {
    HEADER + (if length > 0 then (length - 1) % MAX_PAYLOAD else 0) * 0x100 + kind
  }

  /** What a header word says: the marker at the top, the length of the payload after its type byte, and the type. */
  lemma HeaderFields(kind: u8, length: nat)
    requires 0 < length <= 32
    ensures var w := HeaderWord(kind, length); w / 0x8000 == 1 && w / 0x100 % 0x80 == length - 1 && w % 0x100 == kind
  {
    var w := HeaderWord(kind, length);
    assert w / 0x100 == 0x80 + (length - 1);
  }

  predicate IsHeader(s: Strobe, kind: u8) { s.index == 0 && s.byte == kind }

  predicate Pushes(s: Strobe, kind: u8, forwarding: bool) { IsHeader(s, kind) || (forwarding && s.index > 0) }

  function Offered(s: Strobe, kind: u8): u16 {
    if IsHeader(s, kind) then HeaderWord(kind, s.length) else s.byte
  }

  /** The queue's entries are whatever was offered with each push. */
  datatype Box<T> = Box(queue: seq<T>, forwarding: bool, overflow: bool)

  /** The FIFO's flags may lag, but only on the safe side. */
  predicate Flags<T>(b: Box<T>, depth: nat, full: bool, empty: bool) {
    (|b.queue| >= depth ==> full) && (b.queue == [] ==> empty)
  }

  /** A clock: a byte may arrive, the processor may take a word, and it may flush everything. */
  function Boxed<T>(b: Box<T>, kind: u8, rx: Option<Strobe>, offered: T, full: bool, take: bool, flush: bool): Box<T>
    requires take ==> b.queue != []
  {
    if flush then Box([], false, false)
    else
      var push := rx.Some? && Pushes(rx.value, kind, b.forwarding);
      Box((if take then b.queue[1..] else b.queue) + (if push && !full then [offered] else []),
          if rx.Some? && rx.value.index == 0 then rx.value.byte == kind else b.forwarding,
          b.overflow || (push && full))
  }

  /** The words the mailbox makes of a payload. */
  function WordsOf(p: Bytes, kind: u8): seq<u16>
    requires 0 < |p| <= MAX_PAYLOAD
  {
    if p[0] == kind then [HeaderWord(kind, |p|)] + p[1..] else []
  }

  // ---------- a frame that may not fit ----------

  /** The mailbox once the first `k` bytes of a payload have been replayed, with nothing taken and the full
      flag up exactly while there is no room. */
  function Fed(b: Box<u16>, kind: u8, depth: nat, p: Bytes, k: nat): Box<u16>
    requires k <= |p|
    decreases k
  {
    if k == 0 then b
    else
      var before, s := Fed(b, kind, depth, p, k - 1), Strobe(p[k - 1], k - 1, |p|);
      Boxed(before, kind, Some(s), Offered(s, kind), |before.queue| >= depth, false, false)
  }

  /** The words there is room for. */
  function Room(b: Box<u16>, depth: nat, k: nat): nat
    requires |b.queue| <= depth
  {
    if k <= depth - |b.queue| then k else depth - |b.queue|
  }

  function FedBox(b: Box<u16>, kind: u8, depth: nat, p: Bytes, k: nat): Box<u16>
    requires 0 < k <= |p| <= MAX_PAYLOAD && p[0] == kind && |b.queue| <= depth
  {
    Box(b.queue + WordsOf(p, kind)[..Room(b, depth, k)], true, b.overflow || k > depth - |b.queue|)
  }

  lemma FedFirst(b: Box<u16>, kind: u8, depth: nat, p: Bytes)
    requires 0 < |p| <= MAX_PAYLOAD && p[0] == kind && |b.queue| <= depth
    ensures Boxed(b, kind, Some(Strobe(p[0], 0, |p|)), Offered(Strobe(p[0], 0, |p|), kind), |b.queue| >= depth, false, false)
         == FedBox(b, kind, depth, p, 1)
  {
    var words := WordsOf(p, kind);
    assert words[..1] == [words[0]] && b.queue + words[..0] == b.queue;
  }

  lemma FedNext(b: Box<u16>, kind: u8, depth: nat, p: Bytes, k: nat)
    requires 1 < k <= |p| <= MAX_PAYLOAD && p[0] == kind && |b.queue| <= depth
    ensures var before, s := FedBox(b, kind, depth, p, k - 1), Strobe(p[k - 1], k - 1, |p|);
      Boxed(before, kind, Some(s), Offered(s, kind), |before.queue| >= depth, false, false) == FedBox(b, kind, depth, p, k)
  {
    var words := WordsOf(p, kind);
    assert Offered(Strobe(p[k - 1], k - 1, |p|), kind) == words[k - 1];
    if k - 1 < depth - |b.queue| {
      assert words[..k] == words[..k - 1] + [words[k - 1]];
      Associate(b.queue, words[..k - 1], [words[k - 1]]);
    }
  }

  lemma {:induction false} FedIs(b: Box<u16>, kind: u8, depth: nat, p: Bytes, k: nat)
    requires 0 < k <= |p| <= MAX_PAYLOAD && p[0] == kind && |b.queue| <= depth
    ensures Fed(b, kind, depth, p, k) == FedBox(b, kind, depth, p, k)
    decreases k
  {
    if k == 1 {
      assert Fed(b, kind, depth, p, 0) == b;
      FedFirst(b, kind, depth, p);
    } else {
      FedIs(b, kind, depth, p, k - 1);
      FedNext(b, kind, depth, p, k);
    }
  }

  /** The mailbox keeps as much of a frame as there is room for: the whole of it, or nothing of it, exactly
      when it fits or there is no room at all. */
  lemma KeptWholeOrNotAtAll(b: Box<u16>, kind: u8, depth: nat, p: Bytes)
    requires 0 < |p| <= MAX_PAYLOAD && p[0] == kind && |b.queue| <= depth
    ensures var after := Fed(b, kind, depth, p, |p|).queue;
      (after == b.queue + WordsOf(p, kind) || after == b.queue) <==> (|b.queue| == depth || |b.queue| + |p| <= depth)
  {
    FedIs(b, kind, depth, p, |p|);
    var words, n := WordsOf(p, kind), Room(b, depth, |p|);
    assert |b.queue + words[..n]| == |b.queue| + n && |b.queue + words| == |b.queue| + |p|;
    assert n == |p| ==> words[..n] == words;
    assert n == 0 ==> b.queue + words[..n] == b.queue;
  }

  /** A flush, whatever it finds: the rest of the frame it cuts is dropped without a trace, and the next frame of
      commands that fits is kept whole. */
  lemma FlushStartsAfresh(b: Box<u16>, kind: u8, rx: Option<Strobe>, offered: u16, full: bool, depth: nat,
                          rest: Strobe, p: Bytes)
    requires rest.index > 0 && 0 < |p| <= MAX_PAYLOAD && p[0] == kind && |p| <= depth
    ensures var flushed := Boxed(b, kind, rx, offered, full, false, true);
      && Boxed(flushed, kind, Some(rest), Offered(rest, kind), false, false, false) == flushed
      && Fed(flushed, kind, depth, p, |p|) == Box(WordsOf(p, kind), true, false)
  {
    var flushed := Boxed(b, kind, rx, offered, full, false, true);
    assert flushed.queue + [] == flushed.queue;
    FedIs(flushed, kind, depth, p, |p|);
    assert WordsOf(p, kind)[..|p|] == WordsOf(p, kind);
    NothingFirst(WordsOf(p, kind));
  }

  /** A frame of five words and room for three: the header and two bytes are kept, the flag is raised, and
      the firmware will find a body shorter than its header says. */
  lemma FrameKeptInPart()
    ensures var p := [1, 10, 20, 30, 40];
      Fed(Box([7], false, false), 1, 4, p, 5) == Box([7, HeaderWord(1, 5), 10, 20], true, true)
  {
    var b, p := Box([7], false, false), [1, 10, 20, 30, 40];
    FedIs(b, 1, 4, p, 5);
    assert WordsOf(p, 1)[..3] == [HeaderWord(1, 5), 10, 20];
  }

  class FrameMailbox {
    const forwardType: u8
    const depth: nat
    var queue: seq<u16>
    var forwarding: bool
    var overflow: bool

    function Contents(): Box<u16>
      reads this
    {
      Box(queue, forwarding, overflow)
    }

    constructor (forwardType: u8, depth: nat)
      ensures Contents() == Box([], false, false) && this.forwardType == forwardType && this.depth == depth
    {
      this.forwardType, this.depth := forwardType, depth;
      queue, forwarding, overflow := [], false, false;
    }

    method Clock(rx: Option<Strobe>, full: bool, empty: bool, rInc: bool, flush: bool) returns (taken: Option<u16>)
      requires Flags(Contents(), depth, full, empty)
      requires |queue| <= depth
      modifies this
      ensures Contents() == Boxed(old(Contents()), forwardType, rx,
                                    if rx.Some? then Offered(rx.value, forwardType) else 0, full, rInc && !empty, flush)
      ensures taken == if rInc && !empty then Some(old(queue[0])) else None
      ensures |queue| <= depth
    {
      var header := rx.Some? && rx.value.index == 0 && rx.value.byte == forwardType;
      var push := header || (rx.Some? && forwarding && rx.value.index > 0);
      taken := None;
      if rInc && !empty {
        taken := Some(queue[0]);
        queue := queue[1..];
      }
      if push {
        if full {
          overflow := true;
        } else {
          queue := queue + [if header then HeaderWord(rx.value.byte, rx.value.length) else rx.value.byte];
        }
      }
      if rx.Some? && rx.value.index == 0 {
        forwarding := rx.value.byte == forwardType;
      }
      if flush {
        queue, forwarding, overflow := [], false, false;
      }
    }
  }
}
