/** Frames on the wire and the reference decoder: what is framed is heard, whatever noise comes between
    frames, and damage confined to two neighbouring bytes is never taken for a frame. */
module Framing {
  import opened Words
  import opened Crc

  const SOF0: u8 := 0xAA
  const SOF1: u8 := 0x55
  const MAX_PAYLOAD := 32

  type Bytes = seq<u8>

  /** What the checksum covers. */
  function Body(payload: Bytes): Bytes
    requires |payload| < 0x100
  {
    [|payload| as u8] + payload
  }

  /** A payload on the wire with a given checksum. */
  function Framed(payload: Bytes, check: u16): Bytes
    requires |payload| < 0x100
  {
    [SOF0, SOF1] + Body(payload) + [check % 0x100, check / 0x100]
  }

  function Frame(payload: Bytes): Bytes
    requires |payload| < 0x100
  {
    Framed(payload, Checksum(Body(payload)))
  }

  /** A payload that is too long raises an error. */
  function EncodeFrame(payload: Bytes): Option<Bytes> {
    if |payload| > MAX_PAYLOAD then None else Some(Frame(payload))
  }

  /** A frame byte by byte: two bytes that start it, the length, the payload, and the checksum of length and payload,
      low half first. There is one for every payload of up to 32 bytes. */
  lemma FrameBytes(payload: Bytes)
    ensures EncodeFrame(payload).None? <==> |payload| > 32
    ensures |payload| <= 32 ==>
      var f, n := EncodeFrame(payload).value, |payload|;
      |f| == n + 5 && f[0] == 0xAA && f[1] == 0x55 && f[2] == n && f[3..n + 3] == payload &&
      var lo: int, hi: int := f[n + 3], f[n + 4];
      lo + 0x100 * hi == Checksum([f[2]] + payload)
  {
  }

  // ---------- the decoder ----------

  datatype Rx =
    | Idle
    | Sof1
    | Len
    | Payload(length: u8, got: Bytes)
    | CrcLo(length: u8, got: Bytes)
    | CrcHi(length: u8, got: Bytes, lo: u8)

  function Next(s: Rx, byte: u8, max: nat): Rx {
    match s
    case Idle => if byte == SOF0 then Sof1 else Idle
    case Sof1 => if byte == SOF1 then Len else if byte == SOF0 then Sof1 else Idle
    case Len => if byte > max then Idle else if byte == 0 then CrcLo(0, []) else Payload(byte, [])
    case Payload(length, got) =>
      if |got| + 1 == length then CrcLo(length, got + [byte]) else Payload(length, got + [byte])
    case CrcLo(length, got) => CrcHi(length, got, byte)
    case CrcHi(_, _, _) => Idle
  }

  /** The payload a byte completes, if any. */
  function Yield(s: Rx, byte: u8): Option<Bytes> {
    if s.CrcHi? && Checksum([s.length] + s.got) == s.lo + 0x100 * byte then Some(s.got) else None
  }

  datatype Heard = Heard(state: Rx, payloads: seq<Bytes>)

  function Listen(s: Rx, bytes: Bytes, max: nat): Heard
    decreases |bytes|
  {
    if bytes == [] then Heard(s, [])
    else
      var rest := Listen(Next(s, bytes[0], max), bytes[1..], max);
      match Yield(s, bytes[0])
      case None => rest
      case Some(p) => Heard(rest.state, [p] + rest.payloads)
  }

  datatype Phase = InIdle | InSof1 | InLen | InPayload | InCrcLo | InCrcHi

  lemma BytesGrow(body: Bytes, byte: u8)
    requires body != []
    ensures (body + [byte])[0] == body[0] && (body + [byte])[1..] == body[1..] + [byte]
  {
  }

  class ReferenceDecoder {
    const maxPayload: nat
    var phase: Phase
    var body: Bytes
    var crcLo: u8

    ghost predicate Valid()
      reads this
    {
      phase in {InPayload, InCrcLo, InCrcHi} ==> body != []
    }

    ghost function Abstract(): Rx
      requires Valid()
      reads this
    {
      Meant(phase, body, crcLo)
    }

    static ghost function Meant(phase: Phase, body: Bytes, crcLo: u8): Rx
      requires phase in {InPayload, InCrcLo, InCrcHi} ==> body != []
    {
      match phase
      case InIdle => Idle
      case InSof1 => Sof1
      case InLen => Len
      case InPayload => Payload(body[0], body[1..])
      case InCrcLo => CrcLo(body[0], body[1..])
      case InCrcHi => CrcHi(body[0], body[1..], crcLo)
    }

    constructor (maxPayload: nat)
      ensures Valid() && Abstract() == Idle && this.maxPayload == maxPayload
    {
      this.maxPayload := maxPayload;
      phase, body, crcLo := InIdle, [], 0;
    }

    method Reset()
      modifies this
      ensures Valid() && Abstract() == Idle
    {
      phase, body, crcLo := InIdle, [], 0;
    }

    method Feed(byte: u8) returns (payload: Option<Bytes>)
      requires Valid()
      modifies this
      ensures Valid()
      ensures Abstract() == Next(old(Abstract()), byte, maxPayload)
      ensures payload == Yield(old(Abstract()), byte)
    {
      if phase == InCrcHi {
        payload := Finish(byte);
        return;
      }
      payload := None;
      assert Yield(Abstract(), byte) == None;
      if phase in {InPayload, InCrcLo} {
        Gather(byte);
      } else {
        Begin(byte);
      }
    }

    /** A byte before the payload. */
    method Begin(byte: u8)
      requires Valid() && phase in {InIdle, InSof1, InLen}
      modifies this
      ensures Valid() && Abstract() == Next(old(Abstract()), byte, maxPayload)
    {
      match phase {
        case InIdle =>
          if byte == SOF0 {
            phase := InSof1;
          }
        case InSof1 =>
          if byte == SOF1 {
            phase := InLen;
          } else if byte != SOF0 {
            phase := InIdle;
          }
        case InLen =>
          if byte > maxPayload {
            Reset();
          } else {
            body := [byte];
            phase := if byte != 0 then InPayload else InCrcLo;
          }
      }
    }

    /** A byte of the payload, or the first of the checksum. */
    method Gather(byte: u8)
      requires Valid() && phase in {InPayload, InCrcLo}
      modifies this
      ensures Valid() && Abstract() == Next(old(Abstract()), byte, maxPayload)
    {
      if phase == InPayload {
        BytesGrow(body, byte);
        body := body + [byte];
        if |body| - 1 == body[0] {
          phase := InCrcLo;
        }
      } else {
        crcLo, phase := byte, InCrcHi;
      }
    }

    /** The frame's last byte. */
    method Finish(byte: u8) returns (payload: Option<Bytes>)
      requires Valid() && phase == InCrcHi
      modifies this
      ensures Valid() && Abstract() == Idle
      ensures payload == Yield(old(Abstract()), byte)
    {
      assert [body[0]] + body[1..] == body;
      var expected, got := Checksum(body), crcLo + 0x100 * byte;
      payload := if expected == got then Some(body[1..]) else None;
      Reset();
    }
  }

  // ---------- hearing frames ----------

  lemma {:induction false} ListenSplit(s: Rx, a: Bytes, b: Bytes, max: nat)
    ensures var h := Listen(s, a, max); var k := Listen(h.state, b, max);
      Listen(s, a + b, max) == Heard(k.state, h.payloads + k.payloads)
    decreases |a|
  {
    if a == [] {
      assert a + b == b;
      assert [] + Listen(s, b, max).payloads == Listen(s, b, max).payloads;
    } else {
      assert (a + b)[1..] == a[1..] + b;
      ListenSplit(Next(s, a[0], max), a[1..], b, max);
      match Yield(s, a[0])
      case None =>
      case Some(p) =>
        var h := Listen(Next(s, a[0], max), a[1..], max);
        var k := Listen(h.state, b, max);
        assert ([p] + h.payloads) + k.payloads == [p] + (h.payloads + k.payloads);
    }
  }

  lemma ListenOne(s: Rx, byte: u8, max: nat)
    ensures Listen(s, [byte], max) == Heard(Next(s, byte, max), match Yield(s, byte) case None => [] case Some(p) => [p])
  {
    assert [byte][1..] == [];
    assert Listen(Next(s, byte, max), [], max).payloads == [];
  }

  /** The rest of a payload. */
  lemma {:induction false} PayloadHeard(length: u8, got: Bytes, rest: Bytes, max: nat)
    requires rest != [] && |got| + |rest| == length
    ensures Listen(Payload(length, got), rest, max) == Heard(CrcLo(length, got + rest), [])
    decreases |rest|
  {
    var b := rest[0];
    if |rest| == 1 {
      assert rest == [b];
      ListenOne(Payload(length, got), b, max);
    } else {
      PayloadHeard(length, got + [b], rest[1..], max);
      assert got + [b] + rest[1..] == got + rest;
    }
  }

  /** What a decoder waiting for a frame hears of any frame, with the right checksum or not: the payload
      exactly when the checksum is right. Either way it is waiting again at the frame's end. */
  lemma FrameHeard(s: Rx, payload: Bytes, check: u16, max: nat)
    requires s == Idle || s == Sof1
    requires |payload| <= max && |payload| < 0x100
    ensures Listen(s, Framed(payload, check), max) == Heard(Idle, if Checksum(Body(payload)) == check then [payload] else [])
  {
    var n: u8, lo, hi := |payload|, check % 0x100, check / 0x100;
    assert Framed(payload, check) == [SOF0] + ([SOF1] + ([n] + (payload + ([lo] + [hi]))));
    ListenSplit(s, [SOF0], [SOF1] + ([n] + (payload + ([lo] + [hi]))), max);
    ListenOne(s, SOF0, max);
    ListenSplit(Sof1, [SOF1], [n] + (payload + ([lo] + [hi])), max);
    ListenOne(Sof1, SOF1, max);
    ListenSplit(Len, [n], payload + ([lo] + [hi]), max);
    ListenOne(Len, n, max);
    BodyHeard(payload, lo, hi, max);
  }

  lemma BodyHeard(payload: Bytes, lo: u8, hi: u8, max: nat)
    requires |payload| <= max && |payload| < 0x100
    ensures var n: u8 := |payload|;
      Listen(if n == 0 then CrcLo(0, []) else Payload(n, []), payload + ([lo] + [hi]), max)
      == Heard(Idle, if Checksum(Body(payload)) == lo + 0x100 * hi then [payload] else [])
  {
    var n: u8 := |payload|;
    var s := if n == 0 then CrcLo(0, []) else Payload(n, []);
    ListenSplit(s, payload, [lo] + [hi], max);
    if n > 0 {
      PayloadHeard(n, [], payload, max);
      assert [] + payload == payload;
    }
    ListenSplit(CrcLo(n, payload), [lo], [hi], max);
    ListenOne(CrcLo(n, payload), lo, max);
    ListenOne(CrcHi(n, payload, lo), hi, max);
  }

  /** A length beyond the limit ends a frame there and then, and the next byte may start another. */
  lemma TooLongIsDropped(s: Rx, length: u8, max: nat)
    requires (s == Idle || s == Sof1) && length > max
    ensures Listen(s, [SOF0, SOF1, length], max) == Heard(Idle, [])
  {
    assert [SOF0, SOF1, length] == [SOF0] + ([SOF1] + [length]);
    ListenSplit(s, [SOF0], [SOF1] + [length], max);
    ListenOne(s, SOF0, max);
    ListenSplit(Sof1, [SOF1], [length], max);
    ListenOne(Sof1, SOF1, max);
    ListenOne(Len, length, max);
  }

  /** No start of a frame anywhere in it. */
  predicate Quiet(bytes: Bytes) {
    |bytes| < 2 || (!(bytes[0] == SOF0 && bytes[1] == SOF1) && Quiet(bytes[1..]))
  }

  /** Noise without a start of frame is ignored, even when it ends in half of one. */
  lemma {:induction false} NoiseIsIgnored(s: Rx, noise: Bytes, max: nat)
    requires (s == Idle && Quiet(noise)) || (s == Sof1 && Quiet([SOF0] + noise))
    ensures var h := Listen(s, noise, max); h.payloads == [] && (h.state == Idle || h.state == Sof1)
    decreases |noise|
  {
    if noise != [] {
      assert ([SOF0] + noise)[1..] == noise;
      assert noise[0] == SOF0 ==> [SOF0] + noise[1..] == noise;
      NoiseIsIgnored(Next(s, noise[0], max), noise[1..], max);
    }
  }

  /** Frames with noise before each. */
  function Wire(noise: seq<Bytes>, payloads: seq<Bytes>): Bytes
    requires |noise| == |payloads|
    requires forall p :: p in payloads ==> |p| <= MAX_PAYLOAD
  {
    if payloads == [] then []
    else noise[0] + (Frame(payloads[0]) + Wire(noise[1..], payloads[1..]))
  }

  lemma OneFrameHeard(noise: Bytes, p: Bytes, rest: Bytes)
    requires |p| <= MAX_PAYLOAD && Quiet(noise)
    ensures var h := Listen(Idle, rest, MAX_PAYLOAD);
      Listen(Idle, noise + (Frame(p) + rest), MAX_PAYLOAD) == Heard(h.state, [p] + h.payloads)
  {
    var s := Listen(Idle, noise, MAX_PAYLOAD).state;
    NoiseIsIgnored(Idle, noise, MAX_PAYLOAD);
    ListenSplit(Idle, noise, Frame(p) + rest, MAX_PAYLOAD);
    ListenSplit(s, Frame(p), rest, MAX_PAYLOAD);
    FrameHeard(s, p, Checksum(Body(p)), MAX_PAYLOAD);
    var payloads := [p] + Listen(Idle, rest, MAX_PAYLOAD).payloads;
    assert payloads == [] + payloads;
  }

  /** What is framed is heard, all of it and in order, whatever quiet noise comes between. */
  lemma {:induction false} WireIsHeard(noise: seq<Bytes>, payloads: seq<Bytes>)
    requires |noise| == |payloads|
    requires forall p :: p in payloads ==> |p| <= MAX_PAYLOAD
    requires forall n :: n in noise ==> Quiet(n)
    ensures Listen(Idle, Wire(noise, payloads), MAX_PAYLOAD) == Heard(Idle, payloads)
    decreases |payloads|
  {
    if payloads != [] {
      WireIsHeard(noise[1..], payloads[1..]);
      OneFrameHeard(noise[0], payloads[0], Wire(noise[1..], payloads[1..]));
      HeadAndRest(payloads);
    }
  }

  // ---------- damage ----------

  /** Two payloads of a length that agree but, perhaps, at `i` and the place after it. */
  ghost predicate AgreeBut(p: Bytes, q: Bytes, i: nat) {
    |p| == |q| && i < |p| && forall j :: 0 <= j < |p| && j != i && j != i + 1 ==> p[j] == q[j]
  }

  lemma SplitAtPair(a: Bytes, b: Bytes, k: nat)
    requires |a| == |b| && k + 1 < |a|
    requires forall j :: 0 <= j < |a| && j != k && j != k + 1 ==> a[j] == b[j]
    ensures a == a[..k] + [a[k], a[k + 1]] + a[k + 2..]
    ensures b == a[..k] + [b[k], b[k + 1]] + a[k + 2..]
  {
  }

  lemma BodiesAgree(p: Bytes, q: Bytes, i: nat, k: nat)
    requires AgreeBut(p, q, i) && |p| < 0x100
    requires k == if i + 1 < |p| then i + 1 else i
    ensures forall j :: 0 <= j <= |p| && j != k && j != k + 1 ==> Body(p)[j] == Body(q)[j]
    ensures Body(p)[k] == Body(q)[k] && Body(p)[k + 1] == Body(q)[k + 1] ==> p == q
  {
    assert Body(p)[1..] == p && Body(q)[1..] == q;
    if Body(p)[k] == Body(q)[k] && Body(p)[k + 1] == Body(q)[k + 1] {
      assert forall j :: 0 <= j < |p| ==> p[j] == Body(p)[j + 1] && q[j] == Body(q)[j + 1];
    }
  }

  lemma DamageChangesChecksum(p: Bytes, q: Bytes, i: nat)
    requires AgreeBut(p, q, i) && |p| < 0x100
    ensures Checksum(Body(p)) == Checksum(Body(q)) <==> p == q
  {
    var k := if i + 1 < |p| then i + 1 else i;
    var a, b := Body(p), Body(q);
    BodiesAgree(p, q, i, k);
    SplitAtPair(a, b, k);
    NeighboursAreTold(a[..k], a[k], a[k + 1], b[k], b[k + 1], a[k + 2..]);
  }

  /** A frame whose payload was changed in one byte or two neighbouring ones is rejected, and the frame
      that follows it is heard. */
  lemma DamageIsRejected(p: Bytes, q: Bytes, i: nat, next: Bytes, max: nat)
    requires AgreeBut(p, q, i) && p != q && |p| < 0x100 && |p| <= max && |next| < 0x100 && |next| <= max
    ensures var damaged := Framed(q, Checksum(Body(p)));
      && Listen(Idle, damaged, max) == Heard(Idle, [])
      && Listen(Idle, damaged + Frame(next), max) == Heard(Idle, [next])
  {
    var damaged, fine := Framed(q, Checksum(Body(p))), Frame(next);
    DamageChangesChecksum(p, q, i);
    FrameHeard(Idle, q, Checksum(Body(p)), max);
    FrameHeard(Idle, next, Checksum(Body(next)), max);
    ListenSplit(Idle, damaged, fine, max);
    assert [] + [next] == [next];
  }
}
