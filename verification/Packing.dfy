/** Commands as bytes, and their split into payloads. */
module Packing {
  import opened Words
  import opened Framing

  const COMMAND_BYTES := 8
  const PKT_COMMANDS: u8 := 0x01
  const PER_FRAME := (MAX_PAYLOAD - 1) / COMMAND_BYTES

  /** A word's bytes, lowest first, and back. */
  function Split(n: u32): (b: Bytes)
    ensures |b| == 4
  {
    [n % 0x100, n / 0x100 % 0x100, n / TWO16 % 0x100, n / 0x100_0000]
  }

  function Join(b: Bytes): u32
    requires |b| == 4
  {
    var b0: int, b1: int, b2: int, b3: int := b[0], b[1], b[2], b[3];
    b0 + 0x100 * b1 + TWO16 * b2 + 0x100_0000 * b3
  }

  lemma JoinSplit(n: u32)
    ensures Join(Split(n)) == n
  {
    assert n == n / 0x100 * 0x100 + n % 0x100;
    assert n / 0x100 == n / TWO16 * 0x100 + n / 0x100 % 0x100;
    assert n / TWO16 == n / 0x100_0000 * 0x100 + n / TWO16 % 0x100;
  }

  lemma SplitJoin(b: Bytes)
    requires |b| == 4
    ensures Split(Join(b)) == b
  {
    var n: int, b1: int, b2: int, b3: int := Join(b), b[1], b[2], b[3];
    assert n / 0x100 == b1 + 0x100 * b2 + TWO16 * b3;
    assert n / TWO16 == b2 + 0x100 * b3;
  }

  function PackWord(w: Word): (b: Bytes)
    ensures |b| == COMMAND_BYTES
  {
    Split(w.lo) + Split(w.hi)
  }

  function Pack(c: Command): Bytes { PackWord(Carry(c)) }

  /** Any other number of bytes raises an error. */
  function Unpack(data: Bytes): Option<Command> {
    if |data| != COMMAND_BYTES then None else Some(Meaning(Word(Join(data[..4]), Join(data[4..]))))
  }

  /** A command survives packing, and no two byte strings unpack to the same command. */
  lemma PackUnpack(c: Command, data: Bytes)
    ensures Unpack(Pack(c)) == Some(c)
    ensures |data| == COMMAND_BYTES ==> Pack(Unpack(data).value) == data
  {
    var w := Carry(c);
    assert Pack(c)[..4] == Split(w.lo) && Pack(c)[4..] == Split(w.hi);
    JoinSplit(w.lo);
    JoinSplit(w.hi);
    CarryMeaning(c, w);
    if |data| == COMMAND_BYTES {
      CarryMeaning(c, Word(Join(data[..4]), Join(data[4..])));
      SplitJoin(data[..4]);
      SplitJoin(data[4..]);
      assert data[..4] + data[4..] == data;
    }
  }

  /** Bytes as one number, lowest first. */
  function Number(b: Bytes): nat { if b == [] then 0 else b[0] + 0x100 * Number(b[1..]) }

  lemma NumberSplit(n: u32, rest: Bytes)
    ensures Number(Split(n) + rest) == n + 0x1_0000_0000 * Number(rest)
  {
    var b := Split(n);
    assert b + rest == [b[0]] + ([b[1]] + ([b[2]] + ([b[3]] + rest)));
    NumberFirst(b[3], rest);
    NumberFirst(b[2], [b[3]] + rest);
    NumberFirst(b[1], [b[2]] + ([b[3]] + rest));
    NumberFirst(b[0], [b[1]] + ([b[2]] + ([b[3]] + rest)));
    JoinSplit(n);
  }

  lemma NumberFirst(byte: u8, rest: Bytes)
    ensures Number([byte] + rest) == byte + 0x100 * Number(rest)
  {
    assert ([byte] + rest)[1..] == rest;
  }

  /** A command packed is one number of 64 bits, lowest byte first: the opcode in the top eight bits, then the voice in
      eight, the value in thirty-two and the delay in sixteen. */
  lemma PackedNumber(c: Command)
    ensures |Pack(c)| == 8
    ensures Number(Pack(c)) ==
            0x100_0000_0000_0000 * c.opcode + 0x1_0000_0000_0000 * c.voice + 0x1_0000 * c.value + c.delay
  {
    var w := Carry(c);
    NumberSplit(w.hi, []);
    assert Split(w.hi) + [] == Split(w.hi);
    NumberSplit(w.lo, Split(w.hi));
  }

  /** Commands end to end. */
  function Packed(cs: seq<Command>): (b: Bytes)
    ensures |b| == COMMAND_BYTES * |cs|
  {
    if cs == [] then [] else Pack(cs[0]) + Packed(cs[1..])
  }

  lemma {:induction false} PackedAppend(cs: seq<Command>, c: Command)
    ensures Packed(cs + [c]) == Packed(cs) + Pack(c)
  {
    if cs == [] {
      assert [c][1..] == [];
    } else {
      assert (cs + [c])[1..] == cs[1..] + [c];
      PackedAppend(cs[1..], c);
    }
  }

  /** One payload: the packet type and up to three commands. */
  function CommandPayload(cs: seq<Command>): Bytes { [PKT_COMMANDS] + Packed(cs) }

  function Payloads(cs: seq<Command>): seq<Bytes> {
    if cs == [] then []
    else if |cs| <= PER_FRAME then [CommandPayload(cs)]
    else [CommandPayload(cs[..PER_FRAME])] + Payloads(cs[PER_FRAME..])
  }

  /** Every payload fits a frame and carries at least one command. */
  lemma {:induction false} PayloadsFit(cs: seq<Command>, p: Bytes)
    requires p in Payloads(cs)
    ensures 1 < |p| <= MAX_PAYLOAD && p[0] == PKT_COMMANDS
  {
    if |cs| > PER_FRAME && p != CommandPayload(cs[..PER_FRAME]) {
      PayloadsFit(cs[PER_FRAME..], p);
    }
  }

  lemma PayloadsLater(cs: seq<Command>)
    requires |cs| > 3
    ensures Payloads(cs) == [CommandPayload(cs[..3])] + Payloads(cs[3..])
  {
  }

  lemma SliceLater(cs: seq<Command>, k: nat)
    requires 3 < |cs| && 0 < k && 3 * (k - 1) < |cs| - 3
    ensures cs[3..][3 * (k - 1)..Min(3 * k, |cs| - 3)] == cs[3 * k..Min(3 * k + 3, |cs|)]
  {
  }

  /** As many payloads as it takes at three commands each, all of them full but perhaps the last. */
  lemma {:induction false} PayloadsOfThree(cs: seq<Command>, k: nat)
    requires k < |Payloads(cs)|
    ensures |Payloads(cs)| == (|cs| + 2) / 3
    ensures 3 * k < |cs| && Payloads(cs)[k] == [0x01] + Packed(cs[3 * k..Min(3 * k + 3, |cs|)])
  {
    if |cs| <= 3 {
      assert cs[0..|cs|] == cs;
    } else {
      PayloadsLater(cs);
      if k == 0 {
        PayloadsOfThree(cs[3..], 0);
        assert cs[0..3] == cs[..3];
      } else {
        PayloadsOfThree(cs[3..], k - 1);
        SliceLater(cs, k);
      }
    }
  }

  /** Where the payload that starts here ends. */
  function EndOf(cs: seq<Command>, start: nat): (end: nat)
    requires start <= |cs|
    ensures start <= end <= |cs|
  {
    if start + PER_FRAME <= |cs| then start + PER_FRAME else |cs|
  }

  /** One more payload sent is one fewer to send. */
  lemma PayloadsUnfold(before: seq<Bytes>, cs: seq<Command>, start: nat)
    requires start < |cs|
    ensures var end := EndOf(cs, start);
      (before + [CommandPayload(cs[start..end])]) + Payloads(cs[end..]) == before + Payloads(cs[start..])
  {
    var rest, end := cs[start..], EndOf(cs, start);
    if |rest| <= PER_FRAME {
      assert rest == cs[start..end] && cs[end..] == [];
    } else {
      assert rest[..PER_FRAME] == cs[start..end] && rest[PER_FRAME..] == cs[end..];
    }
    assert Payloads(rest) == [CommandPayload(cs[start..end])] + Payloads(cs[end..]);
  }

  class SynthClient {
    var written: seq<Bytes>      // what was written to the serial port, a frame at a time
    ghost var sent: seq<Bytes>   // the payloads in them

    ghost predicate Valid()
      reads this
    {
      |written| == |sent| && forall i :: 0 <= i < |sent| ==> EncodeFrame(sent[i]) == Some(written[i])
    }

    constructor ()
      ensures Valid() && written == []
    {
      written, sent := [], [];
    }

    method Send(payload: Bytes)
      requires Valid() && |payload| <= MAX_PAYLOAD
      modifies this
      ensures Valid() && sent == old(sent) + [payload]
    {
      var frame := EncodeFrame(payload);
      written, sent := written + [frame.value], sent + [payload];
    }

    /** Each command goes into exactly one frame, in order, and every frame is one the encoder accepts. */
    method SendCommands(commands: seq<Command>)
      requires Valid()
      modifies this
      ensures Valid() && sent == old(sent) + Payloads(commands)
    {
      var start := 0;
      assert commands[0..] == commands;
      while start < |commands|
        invariant 0 <= start <= |commands| && Valid()
        invariant sent + Payloads(commands[start..]) == old(sent) + Payloads(commands)
        decreases |commands| - start
      {
        PayloadsUnfold(sent, commands, start);
        var end := EndOf(commands, start);
        var payload := Filled(commands[start..end]);
        Send(payload);
        start := end;
      }
    }

    method Filled(cs: seq<Command>) returns (payload: Bytes)
      requires |cs| <= PER_FRAME
      ensures payload == CommandPayload(cs) && |payload| <= MAX_PAYLOAD
    {
      payload := [PKT_COMMANDS];
      var i := 0;
      while i < |cs|
        invariant 0 <= i <= |cs| && payload == CommandPayload(cs[..i])
      {
        assert cs[..i + 1] == cs[..i] + [cs[i]];
        PackedAppend(cs[..i], cs[i]);
        payload := payload + Pack(cs[i]);
        i := i + 1;
      }
      assert cs[..i] == cs;
    }
  }
}
