/** The firmware's main loop, as far as it moves bytes: words from the mailbox are put together into
    commands, eight body bytes each. */
module Receiver {
  import opened Words
  import opened Gray
  import opened Framing
  import opened Packing
  import opened Mailbox

  /** Bitwise or of two bytes. */
  function Or(a: u8, b: u8): u8 {
    assert Pow2(8) == 0x100;
    OrBits(a, b, 8)
  }

  function OrBits(a: nat, b: nat, n: nat): (c: nat)
    ensures c < Pow2(n)
    decreases b, n
  {
    if n == 0 then 0 else (if a % 2 == 1 || b % 2 == 1 then 1 else 0) + 2 * OrBits(a / 2, b / 2, n - 1)
  }

  lemma OrZero(b: u8)
    ensures Or(0, b) == b
  {
    assert Pow2(8) == 0x100;
    OrBitsZero(b, 8);
  }

  lemma {:induction false} OrBitsZero(b: nat, n: nat)
    requires b < Pow2(n)
    ensures OrBits(0, b, n) == b
    decreases n
  {
    if n > 0 {
      OrBitsZero(b / 2, n - 1);
    }
  }

  const EMPTY: Bytes := [0, 0, 0, 0]

  /** The loop's variables; the two halves are kept as their bytes. */
  datatype Cpu = Cpu(length: nat, index: nat, slot: nat, lo: Bytes, hi: Bytes)

  predicate Sane(c: Cpu) { c.slot < COMMAND_BYTES && |c.lo| == |c.hi| == 4 }

  function Start(): Cpu { Cpu(0, 0, 0, EMPTY, EMPTY) }

  /** After an overflow was seen. */
  function Recovered(c: Cpu): Cpu { c.(length := 0, index := 0, slot := 0) }

  predicate Marked(word: u16) { word >= HEADER }

  function Gathered(c: Cpu, byte: u8): Cpu
    requires Sane(c)
  {
    if c.slot < 4 then c.(index := c.index + 1, slot := c.slot + 1, lo := c.lo[c.slot := Or(c.lo[c.slot], byte)])
    else c.(index := c.index + 1, slot := c.slot + 1, hi := c.hi[c.slot - 4 := Or(c.hi[c.slot - 4], byte)])
  }

  /** The variables after a word. */
  function Taken(c: Cpu, word: u16): (r: Cpu)
    requires Sane(c)
    ensures Sane(r)
  {
    if Marked(word) then
      if word % 0x100 != PKT_COMMANDS then c else Cpu(word / 0x100 % 0x40, 0, 0, EMPTY, EMPTY)
    else if c.index >= c.length then c
    else
      var d := Gathered(c, word % 0x100);
      if d.slot == COMMAND_BYTES then d.(slot := 0, lo := EMPTY, hi := EMPTY) else d
  }

  /** The command a word completes, if any. */
  function Given(c: Cpu, word: u16): Option<Word>
    requires Sane(c)
  {
    if !Marked(word) && c.index < c.length && c.slot + 1 == COMMAND_BYTES then
      var d := Gathered(c, word % 0x100);
      Some(Word(Join(d.lo), Join(d.hi)))
    else None
  }

  class MainLoop {
    var length: nat
    var index: nat
    var slot: nat
    var lo: Bytes
    var hi: Bytes

    function State(): Cpu
      reads this
    {
      Cpu(length, index, slot, lo, hi)
    }

    constructor ()
      ensures State() == Start()
    {
      length, index, slot, lo, hi := 0, 0, 0, EMPTY, EMPTY;
    }

    /** The branch taken when the stream has lost a word. */
    method Recover()
      modifies this
      ensures State() == Recovered(old(State()))
    {
      length, index, slot := 0, 0, 0;
    }

    /** The rest of a pass, once a word was read. */
    method Take(word: u16) returns (command: Option<Word>)
      requires Sane(State())
      modifies this
      ensures Sane(State()) && State() == Taken(old(State()), word)
      ensures command == Given(old(State()), word)
    {
      command := None;
      if word >= HEADER {
        if word % 0x100 == PKT_COMMANDS {
          length, index, slot, lo, hi := word / 0x100 % 0x40, 0, 0, EMPTY, EMPTY;
        }
        return;
      }
      if index >= length {
        return;
      }
      index := index + 1;
      if slot < 4 {
        lo := lo[slot := Or(lo[slot], word % 0x100)];
      } else {
        hi := hi[slot - 4 := Or(hi[slot - 4], word % 0x100)];
      }
      slot := slot + 1;
      if slot == COMMAND_BYTES {
        command := Some(Word(Join(lo), Join(hi)));
        slot, lo, hi := 0, EMPTY, EMPTY;
      }
    }
  }

  // ---------- gathering a command ----------

  function Blank(n: nat): (b: Bytes)
    ensures |b| == n
  {
    seq(n, _ => 0)
  }

  /** The bytes of the command in hand so far are `part`. */
  ghost predicate Gathers(c: Cpu, part: Bytes) {
    Sane(c) && |part| == c.slot && c.lo + c.hi == part + Blank(COMMAND_BYTES - |part|)
  }

  function WordOf(b: Bytes): Word
    requires |b| == COMMAND_BYTES
  {
    Word(Join(b[..4]), Join(b[4..]))
  }

  lemma GatheredOneMore(c: Cpu, part: Bytes, byte: u8)
    requires Gathers(c, part)
    ensures Gathered(c, byte).lo + Gathered(c, byte).hi == (part + [byte]) + Blank(COMMAND_BYTES - |part| - 1)
  {
    var all := part + Blank(COMMAND_BYTES - |part|);
    assert (c.lo + c.hi)[c.slot] == all[c.slot] == 0;
    OrZero(byte);
    assert all[c.slot := byte] == (part + [byte]) + Blank(COMMAND_BYTES - |part| - 1);
    if c.slot < 4 {
      assert c.lo[c.slot := byte] + c.hi == (c.lo + c.hi)[c.slot := byte];
    } else {
      assert c.lo + c.hi[c.slot - 4 := byte] == (c.lo + c.hi)[c.slot := byte];
    }
  }

  lemma TakenIsGathered(c: Cpu, byte: u8)
    requires Sane(c) && c.index < c.length
    ensures var d := Gathered(c, byte);
      if c.slot + 1 < COMMAND_BYTES then Taken(c, byte) == d && Given(c, byte) == None
      else Taken(c, byte) == d.(slot := 0, lo := EMPTY, hi := EMPTY) && Given(c, byte) == Some(Word(Join(d.lo), Join(d.hi)))
  {
    assert byte % 0x100 == byte;
  }

  /** A body word adds its byte to the command in hand ... */
  lemma BodyTaken(c: Cpu, part: Bytes, byte: u8)
    requires Gathers(c, part) && c.index < c.length && |part| + 1 < COMMAND_BYTES
    ensures var d := Taken(c, byte);
      Given(c, byte) == None && Gathers(d, part + [byte]) && d.length == c.length && d.index == c.index + 1
  {
    GatheredOneMore(c, part, byte);
    TakenIsGathered(c, byte);
  }

  /** ... and the eighth completes it. */
  lemma LastTaken(c: Cpu, part: Bytes, byte: u8)
    requires Gathers(c, part) && c.index < c.length && |part| + 1 == COMMAND_BYTES
    ensures Given(c, byte) == Some(WordOf(part + [byte]))
    ensures var d := Taken(c, byte); Gathers(d, []) && d.length == c.length && d.index == c.index + 1
  {
    GatheredOneMore(c, part, byte);
    TakenIsGathered(c, byte);
    var d := Gathered(c, byte);
    assert d.lo + d.hi == part + [byte];
    assert d.lo == (d.lo + d.hi)[..4] && d.hi == (d.lo + d.hi)[4..];
    assert EMPTY + EMPTY == [] + Blank(8);
  }

  /** A header starts a body of its length with nothing in hand. */
  lemma HeaderTaken(c: Cpu, length: nat)
    requires Sane(c) && 0 < length <= MAX_PAYLOAD
    ensures var d := Taken(c, HeaderWord(PKT_COMMANDS, length));
      Given(c, HeaderWord(PKT_COMMANDS, length)) == None && d.length == length - 1 && d.index == 0 && Gathers(d, [])
  {
    var w := HeaderWord(PKT_COMMANDS, length);
    assert w / 0x100 == 0x80 + (length - 1);
    assert EMPTY + EMPTY == [] + Blank(8);
  }
}
