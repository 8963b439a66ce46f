/** The serial line: 8N1, lowest bit first, with a transmitter and a receiver that divide their clock by
    numbers of their own. As long as the two divisors are close enough, every byte sent is received,
    however the bytes are spaced. */
module Uart {
  import opened Words
  import opened Gray

  datatype Fsm = IDLE | START | DATA | STOP

  // ---------- the transmitter ----------

  datatype Tx = Tx(state: Fsm, shift: Bits, bit: nat, counter: nat)

  /** The line; it rests high. */
  function Line(t: Tx): bool {
    match t.state
    case START => false
    case DATA => t.shift != [] && t.shift[0]
    case _ => true
  }

  /** A request is ignored while busy. */
  function TxClocked(t: Tx, divisor: nat, request: Option<u8>): Tx
    requires divisor > 0
  {
    match t.state
    case IDLE =>
      if request.Some? then t.(state := START, shift := Low(request.value, 8), counter := divisor - 1) else t
    case START =>
      if t.counter == 0 then t.(state := DATA, bit := 0, counter := divisor - 1) else t.(counter := t.counter - 1)
    case DATA =>
      if t.counter == 0 then
        var s := t.(shift := Shift(t.shift, 1), counter := divisor - 1);
        if t.bit == 7 then s.(state := STOP) else s.(bit := t.bit + 1)
      else t.(counter := t.counter - 1)
    case STOP =>
      if t.counter == 0 then t.(state := IDLE) else t.(counter := t.counter - 1)
  }

  class UartTx {
    const divisor: nat
    var flops: Tx

    constructor (divisor: nat)
      requires divisor >= 4
      ensures this.divisor == divisor && flops == Tx(IDLE, Low(0, 8), 0, 0)
    {
      this.divisor, flops := divisor, Tx(IDLE, Low(0, 8), 0, 0);
    }

    method Clock(request: Option<u8>) returns (tx: bool, busy: bool)
      requires divisor > 0
      modifies this
      ensures flops == TxClocked(old(flops), divisor, request)
      ensures tx == Line(old(flops)) && busy == (old(flops).state != IDLE)
    {
      var t := flops;
      tx, busy := Line(t), t.state != IDLE;
      match t.state {
        case IDLE =>
          if request.Some? {
            t := t.(state := START, shift := Low(request.value, 8), counter := divisor - 1);
          }
        case START =>
          if t.counter == 0 {
            t := t.(state := DATA, bit := 0, counter := divisor - 1);
          } else {
            t := t.(counter := t.counter - 1);
          }
        case DATA =>
          if t.counter == 0 {
            var last := t.bit == 7;
            t := t.(shift := Shift(t.shift, 1), counter := divisor - 1);
            t := if last then t.(state := STOP) else t.(bit := t.bit + 1);
          } else {
            t := t.(counter := t.counter - 1);
          }
        case STOP =>
          if t.counter == 0 {
            t := t.(state := IDLE);
          } else {
            t := t.(counter := t.counter - 1);
          }
      }
      flops := t;
    }
  }

  // ---------- the receiver ----------

  /** The receiver behind its synchroniser. */
  datatype Rx = Rx(state: Fsm, counter: nat, bit: nat, shift: Bits)

  function RxClocked(r: Rx, divisor: nat, level: bool): Rx
    requires divisor >= 4
  {
    match r.state
    case IDLE => if !level then r.(state := START, counter := divisor / 2 - 1) else r
    case START =>
      if r.counter != 0 then r.(counter := r.counter - 1)
      else if level then r.(state := IDLE)
      else Rx(DATA, divisor - 1, 0, Low(0, 8))
    case DATA =>
      if r.counter != 0 then r.(counter := r.counter - 1)
      else
        var s := r.(counter := divisor - 1, shift := Sampled(r.shift, r.bit, level));
        if r.bit == 7 then s.(state := STOP) else s.(bit := r.bit + 1)
    case STOP =>
      if r.counter != 0 then r.(counter := r.counter - 1) else r.(state := IDLE)
  }

  function Sampled(shift: Bits, bit: nat, level: bool): Bits {
    if bit < |shift| then shift[bit := shift[bit] || level] else shift
  }

  /** The byte a clock delivers: a bad stop bit delivers none. */
  function Delivered(r: Rx, level: bool): Option<Bits> {
    if r.state == STOP && r.counter == 0 && level then Some(r.shift) else None
  }

  class UartRx {
    const divisor: nat
    var sync0: bool
    var sync1: bool
    var flops: Rx
    var data: Bits
    var stb: bool

    constructor (divisor: nat)
      requires divisor >= 4
      ensures this.divisor == divisor && sync0 && sync1 && !stb && flops == Rx(IDLE, 0, 0, Low(0, 8))
    {
      this.divisor := divisor;
      sync0, sync1, stb := true, true, false;
      flops, data := Rx(IDLE, 0, 0, Low(0, 8)), Low(0, 8);
    }

    /** One clock: the line passes two flops before the receiver sees it. */
    method Clock(rx: bool)
      requires divisor >= 4
      modifies this
      ensures sync0 == rx && sync1 == old(sync0)
      ensures flops == RxClocked(old(flops), divisor, old(sync1))
      ensures stb <==> Delivered(old(flops), old(sync1)).Some?
      ensures stb ==> data == Delivered(old(flops), old(sync1)).value
    {
      var r, level := flops, sync1;
      var strobe, byte := false, data;
      match r.state {
        case IDLE =>
          if !level {
            r := r.(state := START, counter := divisor / 2 - 1);
          }
        case START =>
          if r.counter == 0 {
            r := if level then r.(state := IDLE) else Rx(DATA, divisor - 1, 0, Low(0, 8));
          } else {
            r := r.(counter := r.counter - 1);
          }
        case DATA =>
          if r.counter == 0 {
            var last := r.bit == 7;
            r := r.(shift := Sampled(r.shift, r.bit, level), counter := divisor - 1);
            r := if last then r.(state := STOP) else r.(bit := r.bit + 1);
          } else {
            r := r.(counter := r.counter - 1);
          }
        case STOP =>
          if r.counter == 0 {
            r := r.(state := IDLE);
            if level {
              strobe, byte := true, r.shift;
            }
          } else {
            r := r.(counter := r.counter - 1);
          }
      }
      sync0, sync1 := rx, sync0;
      flops, stb, data := r, strobe, byte;
    }
  }

  // ---------- what the transmitter puts on the line ----------

  /** Each level held for a bit time. */
  function Blocks(levels: seq<bool>, divisor: nat): seq<bool> {
    if levels == [] then [] else Repeated(levels[0], divisor) + Blocks(levels[1..], divisor)
  }

  lemma OneBlock(level: bool, divisor: nat)
    ensures Blocks([level], divisor) == Repeated(level, divisor)
  {
    assert [level][1..] == [];
    assert Repeated(level, divisor) + [] == Repeated(level, divisor);
  }

  /** A byte on the line: a start bit, its bits, a stop bit. */
  function Framed(byte: Bits, divisor: nat): seq<bool> { Blocks([false] + byte + [true], divisor) }

  datatype Sent = Sent(tx: Tx, line: seq<bool>)

  function Send(t: Tx, divisor: nat, requests: seq<Option<u8>>): Sent
    requires divisor > 0
    decreases |requests|
  {
    if requests == [] then Sent(t, [])
    else
      var rest := Send(TxClocked(t, divisor, requests[0]), divisor, requests[1..]);
      Sent(rest.tx, [Line(t)] + rest.line)
  }

  lemma {:induction false} SendSplit(t: Tx, divisor: nat, a: seq<Option<u8>>, b: seq<Option<u8>>)
    requires divisor > 0
    ensures var h := Send(t, divisor, a); var k := Send(h.tx, divisor, b);
      Send(t, divisor, a + b) == Sent(k.tx, h.line + k.line)
    decreases |a|
  {
    if a == [] {
      assert a + b == b;
      assert [] + Send(t, divisor, b).line == Send(t, divisor, b).line;
    } else {
      assert (a + b)[1..] == a[1..] + b;
      SendSplit(TxClocked(t, divisor, a[0]), divisor, a[1..], b);
      var h := Send(TxClocked(t, divisor, a[0]), divisor, a[1..]);
      var k := Send(h.tx, divisor, b);
      assert [Line(t)] + (h.line + k.line) == ([Line(t)] + h.line) + k.line;
    }
  }

  /** A state other than idle is held until its counter has run out, whatever is requested. */
  lemma {:induction false} CountsDown(t: Tx, divisor: nat, requests: seq<Option<u8>>)
    requires divisor > 0 && t.state != IDLE && |requests| == t.counter + 1
    ensures Send(t, divisor, requests) == Sent(TxClocked(t.(counter := 0), divisor, None), Repeated(Line(t), t.counter + 1))
    decreases t.counter
  {
    var next := TxClocked(t, divisor, requests[0]);
    if t.counter == 0 {
      assert requests[1..] == [];
      assert Send(next, divisor, []) == Sent(next, []);
      assert [Line(t)] + [] == Repeated(Line(t), 1);
    } else {
      CountsDown(next, divisor, requests[1..]);
      assert [Line(t)] + Repeated(Line(t), t.counter) == Repeated(Line(t), t.counter + 1);
    }
  }

  /** A state other than idle is on the line for one bit time. */
  lemma BitTime(t: Tx, divisor: nat, requests: seq<Option<u8>>)
    requires divisor > 0 && t.state != IDLE && t.counter == divisor - 1 && |requests| >= divisor
    ensures var k := Send(TxClocked(t.(counter := 0), divisor, None), divisor, requests[divisor..]);
      Send(t, divisor, requests) == Sent(k.tx, Repeated(Line(t), divisor) + k.line)
  {
    assert requests == requests[..divisor] + requests[divisor..];
    CountsDown(t, divisor, requests[..divisor]);
    SendSplit(t, divisor, requests[..divisor], requests[divisor..]);
  }

  lemma StopSent(t: Tx, divisor: nat, requests: seq<Option<u8>>)
    requires divisor > 0 && t.state == STOP && t.counter == divisor - 1 && |requests| == divisor
    ensures var s := Send(t, divisor, requests); s.tx.state == IDLE && s.line == Blocks([true], divisor)
  {
    CountsDown(t, divisor, requests);
    OneBlock(true, divisor);
  }

  lemma OneLess(n: nat, divisor: nat)
    ensures (n + 1) * divisor == divisor + n * divisor && n * divisor >= 0
  {
  }

  /** The data bits not yet sent, and the stop bit. */
  lemma {:induction false} BitsSent(t: Tx, divisor: nat, bits: Bits, requests: seq<Option<u8>>)
    requires divisor > 0 && t.state == DATA && t.bit < 8 && t.counter == divisor - 1
    requires |t.shift| == 8 && |bits| == 8 - t.bit && t.shift[..|bits|] == bits
    requires |requests| == (|bits| + 1) * divisor
    ensures var s := Send(t, divisor, requests);
      s.tx.state == IDLE && s.line == Blocks(bits + [true], divisor)
    decreases |bits|
  {
    OneLess(|bits|, divisor);
    BitTime(t, divisor, requests);
    var next, rest := TxClocked(t.(counter := 0), divisor, None), requests[divisor..];
    assert t.shift[0] == bits[0];
    assert (bits + [true])[1..] == bits[1..] + [true];
    if |bits| == 1 {
      StopSent(next, divisor, rest);
      assert bits[1..] + [true] == [true];
    } else {
      assert next.shift[..|bits| - 1] == bits[1..] by {
        assert forall i :: 0 <= i < |bits| - 1 ==> next.shift[i] == t.shift[..|bits|][i + 1];
      }
      BitsSent(next, divisor, bits[1..], rest);
    }
  }

  /** From idle: a byte requested is on the line from the next clock on, for exactly ten bit times. */
  lemma ByteSent(t: Tx, divisor: nat, byte: u8, requests: seq<Option<u8>>)
    requires divisor > 0 && t.state == IDLE && |requests| == 10 * divisor
    ensures var s := Send(t, divisor, [Some(byte)] + requests);
      s.tx.state == IDLE && s.line == [true] + Framed(Low(byte, 8), divisor)
  {
    var bits := Low(byte, 8);
    var t1 := TxClocked(t, divisor, Some(byte));
    assert ([Some(byte)] + requests)[1..] == requests;
    BitTime(t1, divisor, requests);
    var t2 := TxClocked(t1.(counter := 0), divisor, None);
    assert t2.shift[..8] == bits;
    BitsSent(t2, divisor, bits, requests[divisor..]);
    assert ([false] + bits + [true])[1..] == bits + [true];
  }

  lemma {:induction false} IdleSent(t: Tx, divisor: nat, n: nat)
    requires divisor > 0 && t.state == IDLE
    ensures Send(t, divisor, Silence(n)) == Sent(t, Repeated(true, n))
    decreases n
  {
    if n > 0 {
      IdleSent(t, divisor, n - 1);
      assert Silence(n)[1..] == Silence(n - 1);
      assert [true] + Repeated(true, n - 1) == Repeated(true, n);
    }
  }

  // ---------- what the receiver makes of a line ----------

  datatype Received = Received(rx: Rx, bytes: seq<Bits>)

  function Receive(r: Rx, divisor: nat, levels: seq<bool>): Received
    requires divisor >= 4
    decreases |levels|
  {
    if levels == [] then Received(r, [])
    else
      var rest := Receive(RxClocked(r, divisor, levels[0]), divisor, levels[1..]);
      Received(rest.rx, (match Delivered(r, levels[0]) case None => [] case Some(b) => [b]) + rest.bytes)
  }

  lemma {:induction false} ReceiveSplit(r: Rx, divisor: nat, a: seq<bool>, b: seq<bool>)
    requires divisor >= 4
    ensures var h := Receive(r, divisor, a); var k := Receive(h.rx, divisor, b);
      Receive(r, divisor, a + b) == Received(k.rx, h.bytes + k.bytes)
    decreases |a|
  {
    if a == [] {
      assert a + b == b;
      assert [] + Receive(r, divisor, b).bytes == Receive(r, divisor, b).bytes;
    } else {
      assert (a + b)[1..] == a[1..] + b;
      ReceiveSplit(RxClocked(r, divisor, a[0]), divisor, a[1..], b);
    }
  }

  /** Between samples the line is not looked at. */
  lemma {:induction false} Waits(r: Rx, divisor: nat, levels: seq<bool>)
    requires divisor >= 4 && r.state != IDLE && |levels| <= r.counter
    ensures Receive(r, divisor, levels) == Received(r.(counter := r.counter - |levels|), [])
    decreases |levels|
  {
    if levels != [] {
      Waits(r.(counter := r.counter - 1), divisor, levels[1..]);
    }
  }

  lemma {:induction false} IdleHears(r: Rx, divisor: nat, n: nat)
    requires divisor >= 4 && r.state == IDLE
    ensures Receive(r, divisor, Repeated(true, n)) == Received(r, [])
    decreases n
  {
    if n > 0 {
      assert Repeated(true, n)[1..] == Repeated(true, n - 1);
      IdleHears(r, divisor, n - 1);
    }
  }

  /** One wait and one look. */
  lemma WaitsAndLooks(r: Rx, divisor: nat, levels: seq<bool>, n: nat)
    requires divisor >= 4 && r.state != IDLE && r.counter == n - 1 && 0 < n <= |levels|
    ensures var k := Receive(RxClocked(r.(counter := 0), divisor, levels[n - 1]), divisor, levels[n..]);
      Receive(r, divisor, levels) ==
        Received(k.rx, (match Delivered(r.(counter := 0), levels[n - 1]) case None => [] case Some(b) => [b]) + k.bytes)
  {
    var first, rest := levels[..n - 1], levels[n - 1..];
    assert levels == first + rest && rest[0] == levels[n - 1] && rest[1..] == levels[n..];
    Waits(r, divisor, first);
    ReceiveSplit(r, divisor, first, rest);
    var k := Receive(r.(counter := 0), divisor, rest);
    assert [] + k.bytes == k.bytes;
  }

  /** Looked at every `divisor` clocks, the line shows these bits and then a stop bit. */
  predicate Shows(levels: seq<bool>, divisor: nat, bits: Bits)
    decreases |bits|
  {
    |levels| >= divisor > 0 &&
    if bits == [] then levels[divisor - 1] else levels[divisor - 1] == bits[0] && Shows(levels[divisor..], divisor, bits[1..])
  }

  /** What is left of the line after the stop bit was looked at. */
  function Left(levels: seq<bool>, divisor: nat, bits: Bits): seq<bool>
    requires Shows(levels, divisor, bits)
    decreases |bits|
  {
    if bits == [] then levels[divisor..] else Left(levels[divisor..], divisor, bits[1..])
  }

  /** The bits received so far, then silence where the rest will go. */
  predicate Holds(shift: Bits, byte: Bits, n: nat) {
    |shift| == |byte| == 8 && n <= 8 && forall i :: 0 <= i < 8 ==> shift[i] == (i < n && byte[i])
  }

  lemma StopHeard(r: Rx, divisor: nat, levels: seq<bool>)
    requires divisor >= 4 && r.state == STOP && r.counter == divisor - 1 && Shows(levels, divisor, [])
    ensures var k := Receive(r.(state := IDLE, counter := 0), divisor, levels[divisor..]);
      Receive(r, divisor, levels) == Received(k.rx, [r.shift] + k.bytes)
  {
    WaitsAndLooks(r, divisor, levels, divisor);
  }

  /** The data bits and the stop bit are taken where the line is looked at. */
  lemma {:induction false} BitsHeard(r: Rx, divisor: nat, levels: seq<bool>, byte: Bits) returns (end: Rx)
    requires divisor >= 4 && r.state == DATA && r.counter == divisor - 1 && r.bit < 8
    requires Holds(r.shift, byte, r.bit) && Shows(levels, divisor, byte[r.bit..])
    ensures end.state == IDLE
    ensures var k := Receive(end, divisor, Left(levels, divisor, byte[r.bit..]));
      Receive(r, divisor, levels) == Received(k.rx, [byte] + k.bytes)
    decreases 8 - r.bit
  {
    var next := RxClocked(r.(counter := 0), divisor, levels[divisor - 1]);
    WaitsAndLooks(r, divisor, levels, divisor);
    assert byte[r.bit..][1..] == byte[r.bit + 1..];
    assert Holds(next.shift, byte, r.bit + 1);
    var rest := levels[divisor..];
    if r.bit == 7 {
      assert byte[8..] == [];
      StopHeard(next, divisor, rest);
      assert next.shift == byte;
      end := next.(state := IDLE, counter := 0);
    } else {
      end := BitsHeard(next, divisor, rest, byte);
    }
    assert [] + Receive(next, divisor, rest).bytes == Receive(next, divisor, rest).bytes;
  }

  /** A whole byte, from the clock its start bit is first seen. */
  lemma ByteHeard(r: Rx, divisor: nat, levels: seq<bool>, byte: Bits) returns (end: Rx)
    requires divisor >= 4 && r.state == IDLE && |byte| == 8
    requires |levels| > divisor / 2 && !levels[0] && !levels[divisor / 2]
    requires Shows(levels[divisor / 2 + 1..], divisor, byte)
    ensures end.state == IDLE
    ensures var k := Receive(end, divisor, Left(levels[divisor / 2 + 1..], divisor, byte));
      Receive(r, divisor, levels) == Received(k.rx, [byte] + k.bytes)
  {
    var half := divisor / 2;
    var r1, rest := RxClocked(r, divisor, levels[0]), levels[1..];
    WaitsAndLooks(r1, divisor, rest, half);
    var r2 := Rx(DATA, divisor - 1, 0, Low(0, 8));
    assert rest[half..] == levels[half + 1..] && byte[0..] == byte;
    ZeroHolds(byte);
    end := BitsHeard(r2, divisor, levels[half + 1..], byte);
    var k := Receive(r2, divisor, levels[half + 1..]);
    NothingFirst(k.bytes);
  }

  lemma ZeroHolds(byte: Bits)
    requires |byte| == 8
    ensures Holds(Low(0, 8), byte, 0)
  {
    forall i | 0 <= i < 8
      ensures !Low(0, 8)[i]
    {
      ZeroBit(8, i);
    }
  }

  // ---------- how far apart bytes are delivered ----------

  function Times(n: nat, divisor: nat): nat {
    if n == 0 then 0 else divisor + Times(n - 1, divisor)
  }

  /** The clocks that must pass before a receiver can deliver. */
  function Before(r: Rx, divisor: nat): nat {
    match r.state
    case IDLE => divisor / 2 + Times(9, divisor)
    case START => r.counter + Times(9, divisor)
    case DATA => r.counter + if r.bit < 8 then Times(8 - r.bit, divisor) else 0
    case STOP => r.counter
  }

  /** A receiver's data counter names one of eight bits. */
  predicate Counting(r: Rx) { r.state == DATA ==> r.bit < 8 }

  /** A clock brings a receiver no more than one clock nearer to delivering, it delivers only when no clocks
      are left, and then it starts from idle again. */
  lemma OneClockNearer(r: Rx, divisor: nat, level: bool)
    requires divisor >= 4 && Counting(r)
    ensures Counting(RxClocked(r, divisor, level))
    ensures Delivered(r, level).Some? ==>
      Before(r, divisor) == 0 && Before(RxClocked(r, divisor, level), divisor) == divisor / 2 + Times(9, divisor)
    ensures Before(RxClocked(r, divisor, level), divisor) + 1 >= Before(r, divisor)
  {
    assert Times(9, divisor) == divisor + Times(8, divisor);
    if r.state == DATA {
      assert Times(8 - r.bit, divisor) == divisor + Times(7 - r.bit, divisor);
    }
  }

  lemma NineTimes(divisor: nat)
    ensures Times(9, divisor) == 9 * divisor
  {
    assert Times(9, divisor) == divisor + Times(8, divisor) && Times(8, divisor) == divisor + Times(7, divisor);
    assert Times(7, divisor) == divisor + Times(6, divisor) && Times(6, divisor) == divisor + Times(5, divisor);
    assert Times(5, divisor) == divisor + Times(4, divisor) && Times(4, divisor) == divisor + Times(3, divisor);
    assert Times(3, divisor) == divisor + Times(2, divisor) && Times(2, divisor) == divisor + Times(1, divisor);
    assert Times(1, divisor) == divisor + Times(0, divisor);
  }

  // ---------- where the receiver looks ----------

  /** The divisors are close enough: nine bits on from the middle of the start bit, the receiver still
      looks into the stop bit, or at the clock after it. */
  predicate Close(sender: nat, receiver: nat) {
    9 * sender <= 9 * receiver + receiver / 2 <= 10 * sender
  }

  /** Looking `n + 1` bits on at a drift of `d` a bit ends within the bit; so does looking one bit on. */
  lemma Drift(o: nat, n: nat, d: int, divisor: nat)
    requires n > 0 && o < divisor && 0 <= o + (n + 1) * d <= divisor
    ensures 0 <= o + d < divisor
    ensures o + (n + 1) * d == (o + d) + n * d
  {
    assert (n + 1) * d == n * d + d;
    Sign(n, d);
  }

  lemma Sign(n: nat, d: int)
    requires n > 0
    ensures d > 0 ==> n * d > 0
    ensures d <= 0 ==> n * d <= 0
  {
  }

  /** What is left of a block at `o` and of the blocks after it. */
  function Rest(level: bool, o: nat, divisor: nat, blocks: seq<bool>, after: seq<bool>): seq<bool>
    requires o < divisor
  {
    Repeated(level, divisor - 1 - o) + (Blocks(blocks, divisor) + after)
  }

  lemma HeldSplit(level: bool, m: nat, n: nat)
    ensures Repeated(level, m + n) == Repeated(level, m) + Repeated(level, n)
  {
  }

  lemma BlocksFirst(blocks: seq<bool>, divisor: nat, after: seq<bool>)
    requires blocks != []
    ensures Blocks(blocks, divisor) + after == Repeated(blocks[0], divisor) + (Blocks(blocks[1..], divisor) + after)
  {
    Associate(Repeated(blocks[0], divisor), Blocks(blocks[1..], divisor), after);
  }

  lemma Regrouped(p: seq<bool>, q: seq<bool>, r: seq<bool>, s: seq<bool>)
    ensures p + ((q + r) + s) == (p + q) + (r + s)
  {
    Associate(q, r, s);
    Associate(p, q, r + s);
  }

  lemma RestSplit(level: bool, o: nat, sender: nat, receiver: nat, blocks: seq<bool>, after: seq<bool>)
    requires o < sender <= o + receiver < sender + sender && blocks != []
    ensures var o' := o + receiver - sender;
      Rest(level, o, sender, blocks, after) ==
        (Repeated(level, sender - 1 - o) + Repeated(blocks[0], o' + 1)) + Rest(blocks[0], o', sender, blocks[1..], after)
  {
    var o' := o + receiver - sender;
    var first, tail := Repeated(level, sender - 1 - o), Blocks(blocks[1..], sender) + after;
    var seen, unseen := Repeated(blocks[0], o' + 1), Repeated(blocks[0], sender - 1 - o');
    BlocksFirst(blocks, sender, after);
    HeldSplit(blocks[0], o' + 1, sender - 1 - o');
    Regrouped(first, seen, unseen, tail);
  }

  lemma NextBlock(level: bool, o: nat, sender: nat, receiver: nat, blocks: seq<bool>, after: seq<bool>)
    requires o < sender <= o + receiver < sender + sender && blocks != []
    ensures var u := Rest(level, o, sender, blocks, after);
      && |u| >= receiver > 0 && u[receiver - 1] == blocks[0]
      && u[receiver..] == Rest(blocks[0], o + receiver - sender, sender, blocks[1..], after)
  {
    var o' := o + receiver - sender;
    RestSplit(level, o, sender, receiver, blocks, after);
    DropFirst(Repeated(level, sender - 1 - o) + Repeated(blocks[0], o' + 1), Rest(blocks[0], o', sender, blocks[1..], after));
  }

  lemma DropFirst(p: seq<bool>, q: seq<bool>)
    ensures (p + q)[|p|..] == q && (p != [] ==> (p + q)[|p| - 1] == p[|p| - 1])
  {
  }

  /** The last look falls into the stop bit, or on the clock after it. */
  lemma StopBlock(level: bool, o: nat, sender: nat, receiver: nat, m: nat, after: seq<bool>)
    requires o < sender <= o + receiver <= sender + sender && m > 0 && receiver > 0
    ensures var u := Rest(level, o, sender, [true], Repeated(true, m) + after);
      |u| >= receiver && u[receiver - 1] && u[receiver..] == Repeated(true, sender + sender - 1 - o - receiver + m) + after
  {
    var u := Rest(level, o, sender, [true], Repeated(true, m) + after);
    OneBlock(true, sender);
    assert Repeated(true, sender) + (Repeated(true, m) + after) == Repeated(true, sender + m) + after;
    var o' := o + receiver - sender;
    assert Repeated(true, sender + m) == Repeated(true, o' + 1) + Repeated(true, sender + m - 1 - o');
    assert u == (Repeated(level, sender - 1 - o) + Repeated(true, o' + 1)) + (Repeated(true, sender + m - 1 - o') + after);
  }

  /** The receiver's looks find the bits, one after another, and leave the line high. */
  lemma {:induction false} LooksFindBits(level: bool, o: nat, sender: nat, receiver: nat, bits: Bits, m: nat,
                                          after: seq<bool>) returns (k: nat)
    requires o < sender && receiver > 0 && m > 0 && 0 <= o + (|bits| + 1) * (receiver - sender) <= sender
    ensures var u := Rest(level, o, sender, bits + [true], Repeated(true, m) + after);
      Shows(u, receiver, bits) && Left(u, receiver, bits) == Repeated(true, k) + after
    decreases |bits|
  {
    var d := receiver - sender;
    if bits == [] {
      assert bits + [true] == [true];
      StopBlock(level, o, sender, receiver, m, after);
      k := sender + sender - 1 - o - receiver + m;
    } else {
      Drift(o, |bits|, d, sender);
      assert (bits + [true])[1..] == bits[1..] + [true];
      NextBlock(level, o, sender, receiver, bits + [true], Repeated(true, m) + after);
      k := LooksFindBits(bits[0], o + d, sender, receiver, bits[1..], m, after);
    }
  }

  /** A framed byte on the line, and at least one clock of rest after it, is heard. */
  lemma FrameHeard(r: Rx, sender: nat, receiver: nat, byte: Bits, m: nat, after: seq<bool>) returns (end: Rx, k: nat)
    requires sender >= 4 && receiver >= 4 && Close(sender, receiver) && r.state == IDLE && |byte| == 8 && m > 0
    ensures end.state == IDLE
    ensures var h := Receive(end, receiver, Repeated(true, k) + after);
      Receive(r, receiver, Framed(byte, sender) + (Repeated(true, m) + after)) == Received(h.rx, [byte] + h.bytes)
  {
    var half := receiver / 2;
    var levels, later := Framed(byte, sender) + (Repeated(true, m) + after), Repeated(true, m) + after;
    assert ([false] + byte + [true])[1..] == byte + [true];
    var tail := Blocks(byte + [true], sender) + later;
    assert levels == Repeated(false, sender) + tail;
    assert Repeated(false, sender) == Repeated(false, half + 1) + Repeated(false, sender - 1 - half);
    assert levels == Repeated(false, half + 1) + Rest(false, half, sender, byte + [true], later);
    k := LooksFindBits(false, half, sender, receiver, byte, m, after);
    assert levels[half + 1..] == Rest(false, half, sender, byte + [true], later);
    end := ByteHeard(r, receiver, levels, byte);
  }

  // ---------- end to end ----------

  /** Bytes on the line, each with the clocks the line rests after it. */
  function Carrying(bytes: seq<Bits>, rests: seq<nat>, divisor: nat): seq<bool>
    requires |bytes| == |rests|
    decreases |bytes|
  {
    if bytes == [] then []
    else Framed(bytes[0], divisor) + (Repeated(true, rests[0]) + Carrying(bytes[1..], rests[1..], divisor))
  }

  predicate Rested(bytes: seq<Bits>, rests: seq<nat>) {
    |bytes| == |rests| && (bytes == [] || (|bytes[0]| == 8 && rests[0] > 0 && Rested(bytes[1..], rests[1..])))
  }

  lemma RestIsSkipped(r: Rx, divisor: nat, m: nat, line: seq<bool>)
    requires divisor >= 4 && r.state == IDLE
    ensures Receive(r, divisor, Repeated(true, m) + line) == Receive(r, divisor, line)
  {
    IdleHears(r, divisor, m);
    ReceiveSplit(r, divisor, Repeated(true, m), line);
    var heard := Receive(r, divisor, line).bytes;
    assert [] + heard == heard;
  }

  /** Everything on the line is heard, once and in order. */
  lemma {:induction false} LineHeard(r: Rx, sender: nat, receiver: nat, m: nat, bytes: seq<Bits>, rests: seq<nat>)
    requires sender >= 4 && receiver >= 4 && Close(sender, receiver) && r.state == IDLE && Rested(bytes, rests)
    ensures Receive(r, receiver, Repeated(true, m) + Carrying(bytes, rests, sender)).bytes == bytes
    decreases |bytes|
  {
    RestIsSkipped(r, receiver, m, Carrying(bytes, rests, sender));
    if bytes != [] {
      var later := Carrying(bytes[1..], rests[1..], sender);
      var end, k := FrameHeard(r, sender, receiver, bytes[0], rests[0], later);
      LineHeard(end, sender, receiver, k, bytes[1..], rests[1..]);
    }
  }

  /** What a caller requests: after some clocks a byte, then anything at all while the transmitter is busy,
      and so on. */
  datatype Request = Request(wait: nat, byte: u8, ignored: seq<Option<u8>>)

  function Requests(rs: seq<Request>): seq<Option<u8>> {
    if rs == [] then [] else Silence(rs[0].wait) + ([Some(rs[0].byte)] + rs[0].ignored) + Requests(rs[1..])
  }

  predicate Patient(rs: seq<Request>, divisor: nat) { rs == [] || (|rs[0].ignored| == 10 * divisor && Patient(rs[1..], divisor)) }

  function BytesOf(rs: seq<Request>): (bs: seq<Bits>)
    ensures |bs| == |rs|
  {
    if rs == [] then [] else [Low(rs[0].byte, 8)] + BytesOf(rs[1..])
  }

  /** The clocks the line rests after each byte: the next byte's wait and the clock that takes it. */
  function RestsOf(rs: seq<Request>, tail: nat): (ns: seq<nat>)
    ensures |ns| == |rs|
  {
    if rs == [] then [] else [if |rs| == 1 then tail else rs[1].wait + 1] + RestsOf(rs[1..], tail)
  }

  lemma {:induction false} RequestsSent(t: Tx, divisor: nat, rs: seq<Request>, tail: nat)
    requires divisor > 0 && t.state == IDLE && Patient(rs, divisor) && rs != []
    ensures Send(t, divisor, Requests(rs) + Silence(tail)).line
         == Repeated(true, rs[0].wait + 1) + Carrying(BytesOf(rs), RestsOf(rs, tail), divisor)
    decreases |rs|
  {
    var q := rs[0];
    var asked, later := [Some(q.byte)] + q.ignored, Requests(rs[1..]) + Silence(tail);
    assert Requests(rs) + Silence(tail) == Silence(q.wait) + (asked + later);
    IdleSent(t, divisor, q.wait);
    SendSplit(t, divisor, Silence(q.wait), asked + later);
    ByteSent(t, divisor, q.byte, q.ignored);
    SendSplit(t, divisor, asked, later);
    var next := Send(t, divisor, asked).tx;
    var rest := Send(next, divisor, later).line;
    if |rs| == 1 {
      assert Requests(rs[1..]) == [] && later == Silence(tail);
      IdleSent(next, divisor, tail);
      assert Carrying([], [], divisor) == [] && rest == Repeated(true, tail) + [];
      assert BytesOf(rs)[1..] == [] && RestsOf(rs, tail)[1..] == [];
    } else {
      RequestsSent(next, divisor, rs[1..], tail);
      assert BytesOf(rs)[1..] == BytesOf(rs[1..]) && RestsOf(rs, tail)[1..] == RestsOf(rs[1..], tail);
    }
    Joined(q.wait, Framed(Low(q.byte, 8), divisor), rest);
  }

  lemma Joined(wait: nat, frame: seq<bool>, rest: seq<bool>)
    ensures Repeated(true, wait) + (([true] + frame) + rest) == Repeated(true, wait + 1) + (frame + rest)
  {
    assert Repeated(true, wait) + [true] == Repeated(true, wait + 1);
  }

  lemma {:induction false} RequestsRested(rs: seq<Request>, tail: nat)
    requires tail > 0
    ensures Rested(BytesOf(rs), RestsOf(rs, tail))
    decreases |rs|
  {
    if rs != [] {
      RequestsRested(rs[1..], tail);
      assert BytesOf(rs)[1..] == BytesOf(rs[1..]) && RestsOf(rs, tail)[1..] == RestsOf(rs[1..], tail);
    }
  }

  /** Every byte the transmitter takes is received, in order and nothing else, through the receiver's two
      flops, whatever the spacing of the bytes, down to the one clock the transmitter needs. */
  lemma BytesArrive(t: Tx, r: Rx, sender: nat, receiver: nat, rs: seq<Request>, tail: nat)
    requires sender >= 4 && receiver >= 4 && Close(sender, receiver)
    requires t.state == IDLE && r.state == IDLE && Patient(rs, sender) && rs != [] && tail > 0
    ensures Receive(r, receiver, [true, true] + Send(t, sender, Requests(rs) + Silence(tail)).line).bytes == BytesOf(rs)
  {
    RequestsSent(t, sender, rs, tail);
    RequestsRested(rs, tail);
    var line := Carrying(BytesOf(rs), RestsOf(rs, tail), sender);
    assert [true, true] + (Repeated(true, rs[0].wait + 1) + line) == Repeated(true, rs[0].wait + 3) + line;
    LineHeard(r, sender, receiver, rs[0].wait + 3, BytesOf(rs), RestsOf(rs, tail));
  }

  /** The bits received are the byte that was sent. */
  lemma {:induction false} BytesAre(rs: seq<Request>, i: nat)
    requires i < |rs|
    ensures Value(BytesOf(rs)[i]) == rs[i].byte
  {
    assert Pow2(8) == 0x100;
    ValueOfLow(rs[0].byte, 8);
    if i > 0 {
      BytesAre(rs[1..], i - 1);
    }
  }

  /** Equal divisors are always close enough. */
  lemma EqualIsClose(divisor: nat)
    ensures Close(divisor, divisor)
  {
  }
}
