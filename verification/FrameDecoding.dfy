/** The hardware frame decoder against the reference decoder, clock by clock: with a buffer, a checksum
    register whose strobes are themselves registered, and a replay, it releases exactly the payloads the
    reference returns. */
module FrameDecoding {
  import opened Words
  import opened Gray
  import opened Crc
  import opened Framing

  datatype Fsm = WAIT | START | LENGTH | STORE | CHECK_LO | CHECK_HI | DRAIN

  /** Everything clocked but the buffer. `start`, `stb` and `byte` are the checksum's registered inputs. */
  datatype Flops = Flops(state: Fsm, length: u8, index: nat, crcLo: u8, start: bool, stb: bool, byte: u8, value: Register)

  /** The checksum register after its next clock. */
  function Absorbed(f: Flops): Register {
    if f.start then Init() else if f.stb then Update(f.value, f.byte) else f.value
  }

  /** The checksum of a length and the bytes after it. */
  function Over(length: u8, got: Bytes): Register { Crc.Crc(Init(), [length] + got) }

  lemma OverGrows(length: u8, got: Bytes, byte: u8)
    ensures Over(length, got + [byte]) == Update(Over(length, got), byte)
  {
    assert [length] + (got + [byte]) == ([length] + got) + [byte];
    CrcAppend(Init(), [length] + got, byte);
  }

  lemma OverLength(length: u8)
    ensures Over(length, []) == Update(Init(), length)
  {
    assert [length] + [] == [] + [length];
    CrcAppend(Init(), [], length);
  }

  /** The flops and the buffer stand for the reference's state: the checksum, counting the strobes still
      on their way to it, is that of the bytes taken so far. */
  ghost predicate Tracks(f: Flops, buffer: Bytes, s: Rx) {
    match f.state
    case WAIT => s == Idle
    case START => s == Sof1
    case LENGTH => s == Len && Absorbed(f) == Init()
    case STORE =>
      f.index < f.length <= |buffer| && s == Payload(f.length, buffer[..f.index]) &&
      Absorbed(f) == Over(f.length, buffer[..f.index])
    case CHECK_LO =>
      f.length <= |buffer| && s == CrcLo(f.length, buffer[..f.length]) && Absorbed(f) == Over(f.length, buffer[..f.length])
    case CHECK_HI =>
      !f.start && !f.stb && f.length <= |buffer| && s == CrcHi(f.length, buffer[..f.length], f.crcLo) &&
      f.value == Over(f.length, buffer[..f.length])
    case DRAIN => s == Idle && f.index < f.length <= |buffer|
  }

  // ---------- the replay ----------

  /** One released byte, with its place and the length of its payload. */
  datatype Strobe = Strobe(byte: u8, index: nat, length: nat)

  function OneStrobe(s: Option<Strobe>): seq<Strobe> { if s.Some? then [s.value] else [] }

  function Replay(p: Bytes, k: nat): seq<Strobe>
    requires k <= |p|
  {
    seq(k, i requires 0 <= i < k => Strobe(p[i], i, |p|))
  }

  function Replays(ps: seq<Bytes>): seq<Strobe> {
    if ps == [] then [] else Replays(ps[..|ps| - 1]) + Replay(ps[|ps| - 1], |ps[|ps| - 1]|)
  }

  /** What has been released: every payload, but for the rest of one being replayed. */
  ghost predicate Released(f: Flops, buffer: Bytes, received: seq<Bytes>, strobes: seq<Strobe>) {
    if f.state != DRAIN then strobes == Replays(received)
    else
      && f.index < f.length <= |buffer| && received != [] && received[|received| - 1] == buffer[..f.length]
      && strobes == Replays(received[..|received| - 1]) + Replay(buffer[..f.length], f.index)
  }

  lemma ReplayStarts(received: seq<Bytes>, p: Bytes)
    ensures (received + [p])[..|received|] == received && (received + [p])[|received|] == p
    ensures Replays(received) + Replay(p, 0) == Replays(received)
  {
  }

  lemma ReplayGoesOn(before: seq<Strobe>, p: Bytes, k: nat)
    requires k < |p|
    ensures before + Replay(p, k) + [Strobe(p[k], k, |p|)] == before + Replay(p, k + 1)
  {
    assert Replay(p, k) + [Strobe(p[k], k, |p|)] == Replay(p, k + 1);
  }

  function After(s: Rx, rx: Option<u8>, max: nat): Rx { if rx.Some? then Next(s, rx.value, max) else s }

  function Returned(s: Rx, rx: Option<u8>): seq<Bytes> {
    if rx.Some? && Yield(s, rx.value).Some? then [Yield(s, rx.value).value] else []
  }

  // ---------- one clock ----------

  /** The replay's index moves on, and round at the end of the buffer. */
  function Onward(index: nat, max: nat): nat { if index + 1 < max then index + 1 else 0 }

  /** The flops after a clock: the checksum register moves, and its strobes fall unless raised again. */
  function Clocked(f: Flops, rx: Option<u8>, max: nat): Flops {
    var g := f.(value := Absorbed(f), start := false, stb := false);
    if f.state == DRAIN then
      if f.index == f.length - 1 then g.(state := WAIT) else g.(index := Onward(f.index, max))
    else if rx == None then g
    else
      var b := rx.value;
      match f.state
      case WAIT => if b == SOF0 then g.(state := START) else g
      case START =>
        if b == SOF1 then g.(start := true, state := LENGTH) else if b != SOF0 then g.(state := WAIT) else g
      case LENGTH =>
        if b > max then g.(state := WAIT)
        else g.(length := b, byte := b, stb := true, index := 0, state := if b == 0 then CHECK_LO else STORE)
      case STORE =>
        var h := g.(byte := b, stb := true);
        if f.index == f.length - 1 then h.(state := CHECK_LO) else h.(index := f.index + 1)
      case CHECK_LO => g.(crcLo := b, state := CHECK_HI)
      case CHECK_HI =>
        if f.crcLo + 0x100 * b == Value(f.value) then g.(index := 0, state := DRAIN) else g.(state := WAIT)
      case DRAIN => g
  }

  function Stored(f: Flops, buffer: Bytes, rx: Option<u8>): Bytes {
    if f.state == STORE && rx.Some? && f.index < |buffer| then buffer[f.index := rx.value] else buffer
  }

  /** The replay ends exactly when there was something to replay. */
  lemma ReplayEnds(f: Flops, max: nat)
    requires f.state == DRAIN && f.index == 0 && f.length <= max
    ensures (exists k: nat :: Drained(f, k, max).state == WAIT) <==> f.length > 0
  {
    if f.length > 0 {
      DrainsOut(f, max);
    } else {
      forall k: nat
        ensures Drained(f, k, max).state == DRAIN
      {
        DrainsOn(f, k, max);
      }
    }
  }

  /** `k` silent clocks. */
  function Drained(f: Flops, k: nat, max: nat): Flops
    decreases k
  {
    if k == 0 then f else Drained(Clocked(f, None, max), k - 1, max)
  }

  lemma {:induction false} DrainsOut(f: Flops, max: nat)
    requires f.state == DRAIN && f.index < f.length <= max
    ensures Drained(f, f.length - f.index, max).state == WAIT
    decreases f.length - f.index
  {
    var g := Clocked(f, None, max);
    if f.index < f.length - 1 {
      DrainsOut(g, max);
    } else {
      assert Drained(g, 0, max) == g;
    }
  }

  lemma {:induction false} DrainsOn(f: Flops, k: nat, max: nat)
    requires f.state == DRAIN && f.length == 0
    ensures Drained(f, k, max).state == DRAIN
    decreases k
  {
    if k > 0 {
      DrainsOn(Clocked(f, None, max), k - 1, max);
    }
  }

  // ---------- an empty frame ----------

  function PowerOn(): Flops { Flops(WAIT, 0, 0, 0, false, false, 0, Init()) }

  /** A byte on every clock. */
  function Fed(f: Flops, bytes: Bytes, max: nat): Flops
    decreases |bytes|
  {
    if bytes == [] then f else Fed(Clocked(f, Some(bytes[0]), max), bytes[1..], max)
  }

  lemma FedFirst(f: Flops, b: u8, rest: Bytes, max: nat)
    ensures Fed(f, [b] + rest, max) == Fed(Clocked(f, Some(b), max), rest, max)
  {
    assert ([b] + rest)[1..] == rest;
  }

  lemma Halves(n: u16) returns (lo: u8, hi: u8)
    ensures lo == n % 0x100 && hi == n / 0x100 && lo + 0x100 * hi == n
  {
    lo, hi := n % 0x100, n / 0x100;
  }

  lemma EmptyFrame() returns (lo: u8, hi: u8)
    ensures Frame([]) == [SOF0] + ([SOF1] + ([0] + ([lo] + ([hi] + [])))) && lo + 0x100 * hi == Checksum([0])
  {
    assert Body([]) == [0];
    lo, hi := Halves(Checksum([0]));
  }

  lemma EmptyChecksum()
    ensures Checksum([0]) == Value(Update(Init(), 0))
  {
    assert [] + [0] == [0];
    CrcAppend(Init(), [], 0);
  }

  /** The flops once a length of zero has been taken, and once the first half of a checksum has. */
  function ZeroTaken(): Flops { Flops(CHECK_LO, 0, 0, 0, false, true, 0, Init()) }
  function HalfTaken(lo: u8, sum: Register): Flops { Flops(CHECK_HI, 0, 0, lo, false, false, 0, sum) }

  lemma ZeroIsTaken(rest: Bytes, max: nat)
    ensures Fed(PowerOn(), [SOF0] + ([SOF1] + ([0] + rest)), max) == Fed(ZeroTaken(), rest, max)
  {
    var f1 := PowerOn().(state := START);
    var f2 := f1.(start := true, state := LENGTH);
    FedFirst(PowerOn(), SOF0, [SOF1] + ([0] + rest), max);
    FedFirst(f1, SOF1, [0] + rest, max);
    FedFirst(f2, 0, rest, max);
  }

  lemma HalfIsTaken(lo: u8, max: nat)
    ensures Clocked(ZeroTaken(), Some(lo), max) == HalfTaken(lo, Update(Init(), 0))
  {
  }

  lemma WholeIsTaken(lo: u8, hi: u8, sum: Register, max: nat)
    requires lo + 0x100 * hi == Value(sum)
    ensures var f := Clocked(HalfTaken(lo, sum), Some(hi), max); f.state == DRAIN && f.length == 0
  {
  }

  /** The decoder takes an empty frame for a good one: its length, then its checksum. */
  lemma EmptyIsAccepted(max: nat)
    ensures var f := Fed(PowerOn(), Frame([]), max); f.state == DRAIN && f.length == 0
  {
    var lo, hi := EmptyFrame();
    EmptyChecksum();
    ZeroIsTaken([lo] + ([hi] + []), max);
    FedFirst(ZeroTaken(), lo, [hi] + [], max);
    HalfIsTaken(lo, max);
    FedFirst(HalfTaken(lo, Update(Init(), 0)), hi, [], max);
    WholeIsTaken(lo, hi, Update(Init(), 0), max);
  }

  /** So the reference encoder's own frame of an empty payload, sent to a decoder just powered on, keeps it
      replaying for ever. */
  lemma EmptyFrameJams(max: nat, k: nat)
    ensures Drained(Fed(PowerOn(), Frame([]), max), k, max).state == DRAIN
  {
    EmptyIsAccepted(max);
    DrainsOn(Fed(PowerOn(), Frame([]), max), k, max);
  }

  /** A byte that comes during a replay is dropped. */
  function Kept(f: Flops, rx: Option<u8>): Option<u8> { if f.state == DRAIN then None else rx }

  /** Not the end of a good frame around an empty payload. */
  predicate Allowed(s: Rx, rx: Option<u8>) {
    rx.Some? && Yield(s, rx.value).Some? ==> Yield(s, rx.value).value != []
  }

  lemma StoreTracks(f: Flops, buffer: Bytes, s: Rx, b: u8, max: nat)
    requires f.state == STORE && Tracks(f, buffer, s)
    ensures Tracks(Clocked(f, Some(b), max), Stored(f, buffer, Some(b)), Next(s, b, max))
  {
    var after := buffer[f.index := b];
    assert after[..f.index + 1] == buffer[..f.index] + [b];
    OverGrows(f.length, buffer[..f.index], b);
  }

  lemma CheckTracks(f: Flops, buffer: Bytes, s: Rx, b: u8, max: nat)
    requires f.state == CHECK_HI && Tracks(f, buffer, s) && Allowed(s, Some(b))
    ensures Yield(s, b) == if f.crcLo + 0x100 * b == Value(f.value) then Some(buffer[..f.length]) else None
    ensures Tracks(Clocked(f, Some(b), max), buffer, Next(s, b, max))
  {
    assert Checksum([f.length] + buffer[..f.length]) == Value(f.value);
  }

  lemma CheckYields(f: Flops, buffer: Bytes, s: Rx, b: u8)
    requires f.state == CHECK_HI && Tracks(f, buffer, s)
    ensures Yield(s, b) == if f.crcLo + 0x100 * b == Value(f.value) then Some(buffer[..f.length]) else None
  {
    assert Checksum([f.length] + buffer[..f.length]) == Value(f.value);
  }

  lemma EmptyJams(f: Flops, buffer: Bytes, s: Rx, rx: Option<u8>, max: nat)
    requires Tracks(f, buffer, s) && !Allowed(s, Kept(f, rx))
    ensures var g := Clocked(f, rx, max); g.state == DRAIN && g.length == 0 && g.index == 0
    ensures Stored(f, buffer, rx) == buffer && Out(f, buffer) == None
  {
    assert f.state == CHECK_HI;
    var b := rx.value;
    CheckYields(f, buffer, s, b);
    assert |buffer[..f.length]| == 0;
  }

  lemma OtherTracks(f: Flops, buffer: Bytes, s: Rx, b: u8, max: nat)
    requires f.state !in {STORE, CHECK_HI, DRAIN} && Tracks(f, buffer, s) && |buffer| == max
    ensures Yield(s, b) == None
    ensures Tracks(Clocked(f, Some(b), max), buffer, Next(s, b, max))
  {
    OverLength(b);
    assert buffer[..0] == [];
  }

  lemma SilenceTracks(f: Flops, buffer: Bytes, s: Rx, max: nat)
    requires Tracks(f, buffer, s)
    ensures Tracks(Clocked(f, None, max), buffer, s)
  {
  }

  /** The hardware goes on standing for the reference. */
  lemma ClockTracks(f: Flops, buffer: Bytes, s: Rx, rx: Option<u8>, max: nat)
    requires Tracks(f, buffer, s) && Allowed(s, Kept(f, rx)) && |buffer| == max
    ensures Tracks(Clocked(f, rx, max), Stored(f, buffer, rx), After(s, Kept(f, rx), max))
  {
    match Kept(f, rx)
    case None => SilenceTracks(f, buffer, s, max);
    case Some(b) =>
      if f.state == STORE {
        StoreTracks(f, buffer, s, b, max);
      } else if f.state == CHECK_HI {
        CheckTracks(f, buffer, s, b, max);
      } else {
        OtherTracks(f, buffer, s, b, max);
      }
  }

  /** The byte a clock releases. */
  function Out(f: Flops, buffer: Bytes): Option<Strobe> {
    if f.state == DRAIN && f.index < |buffer| then Some(Strobe(buffer[f.index], f.index, f.length)) else None
  }

  lemma DrainReleases(f: Flops, buffer: Bytes, max: nat, received: seq<Bytes>, strobes: seq<Strobe>)
    requires f.state == DRAIN && Released(f, buffer, received, strobes) && |buffer| == max
    ensures Released(Clocked(f, None, max), buffer, received, strobes + [Strobe(buffer[f.index], f.index, f.length)])
  {
    ReplayGoesOn(Replays(received[..|received| - 1]), buffer[..f.length], f.index);
  }

  lemma CheckReleases(f: Flops, buffer: Bytes, s: Rx, b: u8, max: nat, received: seq<Bytes>, strobes: seq<Strobe>)
    requires f.state == CHECK_HI && Tracks(f, buffer, s) && Allowed(s, Some(b)) && Released(f, buffer, received, strobes)
    ensures Released(Clocked(f, Some(b), max), buffer, received + Returned(s, Some(b)), strobes)
  {
    CheckTracks(f, buffer, s, b, max);
    ReplayStarts(received, buffer[..f.length]);
    assert received + [] == received;
  }

  lemma OtherReleases(f: Flops, buffer: Bytes, s: Rx, rx: Option<u8>, max: nat, received: seq<Bytes>, strobes: seq<Strobe>)
    requires f.state != DRAIN && (f.state != CHECK_HI || rx.None?)
    requires Tracks(f, buffer, s) && |buffer| == max && Released(f, buffer, received, strobes)
    ensures Returned(s, rx) == [] && Released(Clocked(f, rx, max), Stored(f, buffer, rx), received, strobes)
  {
    if rx.Some? && f.state != STORE {
      OtherTracks(f, buffer, s, rx.value, max);
    }
  }

  /** What it has released goes on being the payloads the reference has returned. */
  lemma ClockReleases(f: Flops, buffer: Bytes, s: Rx, rx: Option<u8>, max: nat, received: seq<Bytes>, strobes: seq<Strobe>)
    requires Tracks(f, buffer, s) && Allowed(s, Kept(f, rx)) && |buffer| == max && Released(f, buffer, received, strobes)
    ensures Released(Clocked(f, rx, max), Stored(f, buffer, rx), received + Returned(s, Kept(f, rx)), strobes + OneStrobe(Out(f, buffer)))
  {
    assert received + [] == received && strobes + [] == strobes;
    if f.state == DRAIN {
      DrainReleases(f, buffer, max, received, strobes);
    } else if f.state == CHECK_HI && rx.Some? {
      CheckReleases(f, buffer, s, rx.value, max, received, strobes);
    } else {
      OtherReleases(f, buffer, s, rx, max, received, strobes);
    }
  }

  // ---------- whatever comes ----------

  /** Replaying an empty payload. */
  predicate Jammed(f: Flops) { f.state == DRAIN && f.length == 0 }

  /** The decoder stands for the reference until it is jammed. */
  ghost predicate Standing(f: Flops, buffer: Bytes, s: Rx, received: seq<Bytes>, strobes: seq<Strobe>) {
    if Jammed(f) then f.index < |buffer| else Tracks(f, buffer, s) && Released(f, buffer, received, strobes)
  }

  /** It is jammed by an empty payload that the reference returns, and by nothing else. */
  lemma ClockStands(f: Flops, buffer: Bytes, s: Rx, rx: Option<u8>, max: nat, received: seq<Bytes>, strobes: seq<Strobe>)
    requires Standing(f, buffer, s, received, strobes) && |buffer| == max > 0
    ensures Standing(Clocked(f, rx, max), Stored(f, buffer, rx), After(s, Kept(f, rx), max),
                     received + Returned(s, Kept(f, rx)), strobes + OneStrobe(Out(f, buffer)))
    ensures Jammed(Clocked(f, rx, max)) <==> Jammed(f) || [] in Returned(s, Kept(f, rx))
  {
    if !Jammed(f) {
      if Allowed(s, Kept(f, rx)) {
        ClockTracks(f, buffer, s, rx, max);
        ClockReleases(f, buffer, s, rx, max, received, strobes);
      } else {
        EmptyJams(f, buffer, s, rx, max);
      }
    }
  }

  class FrameDecoder {
    const maxPayload: nat
    const buffer: array<u8>
    var flops: Flops

    ghost var reference: Rx            // the reference decoder, fed the same bytes ...
    ghost var received: seq<Bytes>     // ... and the payloads it has returned
    ghost var strobes: seq<Strobe>     // what this decoder has released

    ghost predicate Valid()
      reads this, buffer
    {
      buffer.Length == maxPayload > 0 && Standing(flops, buffer[..], reference, received, strobes)
    }

    constructor (maxPayload: nat)
      requires maxPayload > 0
      ensures Valid() && fresh(buffer) && this.maxPayload == maxPayload
      ensures !Jammed(flops) && reference == Idle && received == [] && strobes == []
    {
      this.maxPayload := maxPayload;
      buffer := new u8[maxPayload](_ => 0);
      flops := PowerOn();
      reference, received, strobes := Idle, [], [];
    }

    /** A clock, whatever byte comes. One that comes during a replay is dropped, by this decoder and so for the
        reference. What it has released is what the reference has returned until the reference returns an
        empty payload; from then on, and only then, it is jammed, releasing a byte on every clock. */
    method Clock(rx: Option<u8>) returns (out: Option<Strobe>)
      requires Valid()
      modifies this, buffer
      ensures Valid()
      ensures Jammed(flops) <==> old(Jammed(flops)) || [] in Returned(old(reference), Kept(old(flops), rx))
      ensures old(Jammed(flops)) ==> out.Some?
      ensures out == old(Out(flops, buffer[..]))
      ensures reference == After(old(reference), Kept(old(flops), rx), maxPayload)
      ensures received == old(received) + Returned(old(reference), Kept(old(flops), rx))
      ensures strobes == old(strobes) + OneStrobe(out)
    {
      out := if flops.state == DRAIN then Some(Strobe(buffer[flops.index], flops.index, flops.length)) else None;
      ghost var kept := Kept(flops, rx);
      ClockStands(flops, buffer[..], reference, rx, maxPayload, received, strobes);
      Step(rx);
      received, strobes := received + Returned(reference, kept), strobes + OneStrobe(out);
      reference := After(reference, kept, maxPayload);
    }

    /** The state machine. */
    method Step(rx: Option<u8>)
      requires flops.state == STORE ==> flops.index < buffer.Length
      modifies this`flops, buffer
      ensures flops == Clocked(old(flops), rx, maxPayload)
      ensures buffer[..] == Stored(old(flops), old(buffer[..]), rx)
    {
      // the checksum register; its strobes fall unless raised again below
      var f := flops.(value := Absorbed(flops), start := false, stb := false);
      match flops.state {
        case WAIT =>
          if rx == Some(SOF0) {
            f := f.(state := START);
          }
        case START =>
          if rx.Some? {
            if rx.value == SOF1 {
              f := f.(start := true, state := LENGTH);
            } else if rx.value != SOF0 {
              f := f.(state := WAIT);
            }
          }
        case LENGTH =>
          if rx.Some? {
            if rx.value > maxPayload {
              f := f.(state := WAIT);
            } else {
              f := f.(length := rx.value, byte := rx.value, stb := true, index := 0);
              f := f.(state := if rx.value == 0 then CHECK_LO else STORE);
            }
          }
        case STORE =>
          if rx.Some? {
            buffer[f.index] := rx.value;
            f := f.(byte := rx.value, stb := true);
            if f.index == f.length - 1 {
              f := f.(state := CHECK_LO);
            } else {
              f := f.(index := f.index + 1);
            }
          }
        case CHECK_LO =>
          if rx.Some? {
            f := f.(crcLo := rx.value, state := CHECK_HI);
          }
        case CHECK_HI =>
          if rx.Some? {
            if f.crcLo + 0x100 * rx.value == Value(flops.value) {
              f := f.(index := 0, state := DRAIN);
            } else {
              f := f.(state := WAIT);
            }
          }
        case DRAIN =>
          if f.index == f.length - 1 {
            f := f.(state := WAIT);
          } else {
            f := f.(index := Onward(f.index, maxPayload));
          }
      }
      flops := f;
    }
  }
}
