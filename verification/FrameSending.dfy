/** The hardware frame transmitter: around a payload that is only ever shown to it a byte at a time, it
    hands out exactly the frame the reference encoder makes, at whatever pace the bytes are taken. */
module FrameSending {
  import opened Words
  import opened Gray
  import opened Crc
  import opened Framing

  datatype Fsm = REST | FIRST | SECOND | LENGTH | PAYLOAD | CHECK_LO | CHECK_HI

  datatype Flops = Flops(state: Fsm, index: nat, value: Register)

  /** The byte on offer. */
  function Offer(f: Flops, length: u8, byteIn: u8): u8 {
    ValueFits(f.value);
    match f.state
    case FIRST => SOF0
    case SECOND => SOF1
    case LENGTH => length
    case PAYLOAD => byteIn
    case CHECK_LO => Value(f.value) % 0x100
    case CHECK_HI => Value(f.value) / 0x100
    case REST => 0
  }

  /** What has been handed out so far of the frame around a payload. */
  ghost predicate Midway(f: Flops, payload: Bytes, sent: Bytes) {
    |payload| < 0x100 &&
    match f.state
    case REST => true
    case FIRST => sent == [] && f.index == 0 && f.value == Init()
    case SECOND => sent == [SOF0] && f.index == 0 && f.value == Init()
    case LENGTH => sent == [SOF0, SOF1] && f.index == 0 && f.value == Init()
    case PAYLOAD =>
      f.index < |payload| && sent == [SOF0, SOF1] + Body(payload)[..f.index + 1] && f.value == Crc.Crc(Init(), Body(payload)[..f.index + 1])
    case CHECK_LO => sent == [SOF0, SOF1] + Body(payload) && f.value == Crc.Crc(Init(), Body(payload))
    case CHECK_HI => sent == [SOF0, SOF1] + Body(payload) + [Checksum(Body(payload)) % 0x100] && f.value == Crc.Crc(Init(), Body(payload))
  }

  /** The registers after the byte on offer was taken. */
  function Taken(f: Flops, length: u8, byteIn: u8): Flops {
    match f.state
    case REST => f
    case FIRST => f.(state := SECOND)
    case SECOND => f.(state := LENGTH)
    case LENGTH => f.(state := if length == 0 then CHECK_LO else PAYLOAD, value := Update(f.value, length))
    case PAYLOAD =>
      var g := f.(value := Update(f.value, byteIn));
      if f.index == length - 1 then g.(state := CHECK_LO) else g.(index := f.index + 1)
    case CHECK_LO => f.(state := CHECK_HI)
    case CHECK_HI => f.(state := REST)
  }

  lemma BodyGrows(payload: Bytes, i: nat)
    requires |payload| < 0x100 && i < |payload|
    ensures Body(payload)[..i + 2] == Body(payload)[..i + 1] + [payload[i]]
    ensures Crc.Crc(Init(), Body(payload)[..i + 2]) == Update(Crc.Crc(Init(), Body(payload)[..i + 1]), payload[i])
    ensures i + 1 == |payload| ==> Body(payload)[..i + 2] == Body(payload)
  {
    var body := Body(payload);
    assert body[i + 1] == payload[i];
    CrcOneMore(Init(), body, i + 1);
  }

  lemma BodyStarts(payload: Bytes)
    requires |payload| < 0x100
    ensures Body(payload)[..1] == [|payload| as u8] && Crc.Crc(Init(), Body(payload)[..1]) == Update(Init(), |payload|)
    ensures payload == [] ==> Body(payload)[..1] == Body(payload)
  {
    CrcAppend(Init(), [], |payload|);
    assert [] + [|payload| as u8] == [|payload| as u8];
  }

  /** Each byte taken is the frame's next. */
  lemma StartIsNext(f: Flops, payload: Bytes, sent: Bytes, byteIn: u8)
    requires Midway(f, payload, sent) && f.state in {FIRST, SECOND, LENGTH}
    ensures Midway(Taken(f, |payload|, byteIn), payload, sent + [Offer(f, |payload|, byteIn)])
  {
    BodyStarts(payload);
  }

  lemma PayloadIsNext(f: Flops, payload: Bytes, sent: Bytes)
    requires Midway(f, payload, sent) && f.state == PAYLOAD
    ensures Midway(Taken(f, |payload|, payload[f.index]), payload, sent + [payload[f.index]])
  {
    BodyGrows(payload, f.index);
    Associate([SOF0, SOF1], Body(payload)[..f.index + 1], [payload[f.index]]);
  }

  lemma CheckIsNext(f: Flops, payload: Bytes, sent: Bytes, byteIn: u8)
    requires Midway(f, payload, sent) && f.state == CHECK_LO
    ensures Midway(Taken(f, |payload|, byteIn), payload, sent + [Offer(f, |payload|, byteIn)])
  {
    assert Checksum(Body(payload)) == Value(f.value);
  }

  lemma TakenIsNext(f: Flops, payload: Bytes, sent: Bytes, byteIn: u8)
    requires Midway(f, payload, sent) && f.state !in {REST, CHECK_HI} && (f.state == PAYLOAD ==> byteIn == payload[f.index])
    ensures Midway(Taken(f, |payload|, byteIn), payload, sent + [Offer(f, |payload|, byteIn)])
    ensures Taken(f, |payload|, byteIn).state != REST
  {
    if f.state == PAYLOAD {
      PayloadIsNext(f, payload, sent);
    } else if f.state == CHECK_LO {
      CheckIsNext(f, payload, sent, byteIn);
    } else {
      StartIsNext(f, payload, sent, byteIn);
    }
  }

  lemma LastIsLast(f: Flops, payload: Bytes, sent: Bytes, byteIn: u8)
    requires Midway(f, payload, sent) && f.state == CHECK_HI
    ensures sent + [Offer(f, |payload|, byteIn)] == Frame(payload) && Taken(f, |payload|, byteIn).state == REST
  {
    assert Checksum(Body(payload)) == Value(f.value);
  }

  class FrameTx {
    var flops: Flops

    ghost var payload: Bytes        // the payload being sent
    ghost var sent: Bytes           // what was handed out of its frame
    ghost var frames: seq<Bytes>    // the frames handed out whole

    ghost predicate Valid()
      reads this
    {
      Midway(flops, payload, sent)
    }

    constructor ()
      ensures Valid() && flops.state == REST && frames == []
    {
      flops := Flops(REST, 0, Init());
      payload, sent, frames := [], [], [];
    }

    /** Pulsed at rest. */
    method Start(ghost p: Bytes)
      requires Valid() && flops.state == REST && |p| < 0x100
      modifies this
      ensures Valid() && flops.state == FIRST && payload == p && frames == old(frames)
    {
      flops := Flops(FIRST, 0, Init());
      payload, sent := p, [];
    }

    /** A clock on which the byte on offer is taken. The caller holds the length and shows the byte the
        index asks for. */
    method Take(length: u8, byteIn: u8) returns (byte: u8)
      requires Valid() && flops.state != REST && length == |payload|
      requires flops.state == PAYLOAD ==> byteIn == payload[flops.index]
      modifies this
      ensures Valid() && payload == old(payload) && sent == old(sent) + [byte]
      ensures flops.state == REST <==> old(flops).state == CHECK_HI
      ensures frames == old(frames) + if flops.state == REST then [Frame(payload)] else []
    {
      var f := flops;
      byte := Offer(f, length, byteIn);
      if f.state == CHECK_HI {
        LastIsLast(f, payload, sent, byteIn);
        frames := frames + [sent + [byte]];
      } else {
        TakenIsNext(f, payload, sent, byteIn);
      }
      sent := sent + [byte];
      Advance(length, byteIn);
    }

    /** The state machine. */
    method Advance(length: u8, byteIn: u8)
      modifies this`flops
      ensures flops == Taken(old(flops), length, byteIn)
    {
      var f := flops;
      match f.state {
        case FIRST => f := f.(state := SECOND);
        case SECOND => f := f.(state := LENGTH);
        case LENGTH =>
          f := f.(value := Update(f.value, length));
          f := f.(state := if length == 0 then CHECK_LO else PAYLOAD);
        case PAYLOAD =>
          f := f.(value := Update(f.value, byteIn));
          if f.index == length - 1 {
            f := f.(state := CHECK_LO);
          } else {
            f := f.(index := f.index + 1);
          }
        case CHECK_LO => f := f.(state := CHECK_HI);
        case CHECK_HI => f := f.(state := REST);
        case REST =>
      }
      flops := f;
    }
  }
}
