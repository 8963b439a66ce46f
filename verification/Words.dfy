/** Machine words, the modular order of wrapping counters, and the 64-bit command word.

    A command travels as a pair of 32-bit halves: the opcode is the top byte of `hi`, the voice the
    next byte, the value straddles both halves and the delay is the low half of `lo`. The firmware's
    bit-field helpers are written here with the divisions and remainders that their shifts and masks
    stand for, and are related to the abstract `Command` they describe. */
module Words {
  const TWO16 := 0x1_0000
  const TWO31 := 0x8000_0000
  const TWO32 := 0x1_0000_0000

  type u8 = x: int | 0 <= x < 0x100
  type u16 = x: int | 0 <= x < TWO16
  type u32 = x: int | 0 <= x < TWO32

  datatype Option<+T> = None | Some(value: T)

  function Repeated<X>(x: X, n: nat): (s: seq<X>)
    ensures |s| == n && forall i :: 0 <= i < n ==> s[i] == x
  {
    seq(n, _ => x)
  }

  /** Clocks on which no byte comes. */
  function Silence(n: nat): (s: seq<Option<u8>>)
    ensures |s| == n && forall i :: 0 <= i < n ==> s[i] == None
  {
    Repeated(None, n)
  }

  lemma Associate<X>(a: seq<X>, b: seq<X>, c: seq<X>)
    ensures (a + b) + c == a + (b + c)
  {
  }

  lemma NothingFirst<X>(s: seq<X>)
    ensures [] + s == s
  {
  }

  lemma HeadAndRest<X>(s: seq<X>)
    requires s != []
    ensures s == [s[0]] + s[1..]
  {
  }

  function Max(a: int, b: int): int { if a >= b then a else b }

  function Min(a: int, b: int): int { if a <= b then a else b }

  // ---------- wrapping counters ----------

  /** Unsigned 32-bit addition. */
  function Plus(a: u32, b: u32): u32 { if a + b < TWO32 then a + b else a + b - TWO32 }

  /** `(int)(a - b)` on unsigned words: the difference brought into the range of a signed word. */
  function Gap(a: u32, b: u32): int {
    if a - b >= TWO31 then a - b - TWO32 else if a - b < -TWO31 then a - b + TWO32 else a - b
  }

  /** Whether `a` happened before `b`, for counts that wrap. */
  predicate Older(a: u32, b: u32) { Gap(a, b) < 0 }

  /** A wrapping counter holding the unbounded count `n`. */
  function Wrap(n: int): u32 { n % TWO32 }

  /** The two operations are the machine's: a sum and a difference reduced modulo the word, the
      difference then read as two's complement. */
  lemma WordArithmetic(a: u32, b: u32)
    ensures Plus(a, b) == (a + b) % TWO32
    ensures var d := (a - b) % TWO32; Gap(a, b) == if d < TWO31 then d else d - TWO32
  {
  }

  lemma WrapPlus(n: int, k: u32)
    ensures Plus(Wrap(n), k) == Wrap(n + k)
  {
  }

  /** The signed gap of two wrapped counts is their true distance exactly when that distance fits a
      signed word. */
  lemma GapIsDistance(a: int, b: int)
    ensures Gap(Wrap(a), Wrap(b)) == a - b <==> -TWO31 <= a - b < TWO31
  {
    var d := (a - b) % TWO32;
    assert (Wrap(a) - Wrap(b)) % TWO32 == d;
  }

  /** Within one wrap, `Older` tells the true order exactly when the counts are closer than half a
      wrap: outside that window it is not merely unknown but reversed. */
  lemma OlderIsOrder(a: int, b: int)
    requires -TWO32 < a - b < TWO32
    ensures (Older(Wrap(a), Wrap(b)) <==> a < b) <==> -TWO31 <= a - b < TWO31
  {
    GapIsDistance(a, b);
  }

  // ---------- the command word ----------

  datatype Command = Command(opcode: u8, voice: u8, value: u32, delay: u16)
  datatype Word = Word(lo: u32, hi: u32)

  const OP_NOTE_ON: u8 := 0x01
  const OP_NOTE_OFF: u8 := 0x02
  const OP_SET_FREQ: u8 := 0x03
  const OP_SET_WAVE: u8 := 0x04
  const OP_SET_AMP: u8 := 0x05
  const OP_RESET: u8 := 0x06
  const OP_SET_ATTACK: u8 := 0x07
  const OP_SET_DECAY: u8 := 0x08
  const OP_SET_SUSTAIN: u8 := 0x09
  const OP_SET_RELEASE: u8 := 0x0A
  const OP_SET_MASTER: u8 := 0x0B
  const OP_SCHEDULE_AT: u8 := 0x0C
  const OP_CLEAR_SCHEDULE: u8 := 0x0D
  const VOICE_ANY: u8 := 0xFF
  const VOICE_COUNT := 8

  predicate PerVoice(opcode: u8) {
    opcode == OP_NOTE_ON || opcode == OP_NOTE_OFF || opcode == OP_SET_FREQ || opcode == OP_SET_WAVE ||
    opcode == OP_SET_AMP
  }

  function OpcodeOf(hi: u32): u8 { hi / 0x100_0000 }

  function VoiceOf(hi: u32): u8 { hi / TWO16 % 0x100 }

  function ValueOf(w: Word): u32 { w.hi % TWO16 * TWO16 + w.lo / TWO16 }

  function DelayOf(lo: u32): u16 { lo % TWO16 }

  function WithVoice(hi: u32, voice: u8): u32 {
    hi / 0x100_0000 * 0x100_0000 + voice * TWO16 + hi % TWO16
  }

  function WithDelay(lo: u32, delay: u32): u32 { lo / TWO16 * TWO16 + delay % TWO16 }

  /** The command a word stands for. */
  function Meaning(w: Word): Command {
    Command(OpcodeOf(w.hi), VoiceOf(w.hi), ValueOf(w), DelayOf(w.lo))
  }

  /** The word that carries a command: the source's shifted fields, split into halves. */
  function Carry(c: Command): Word {
    Word(c.value % TWO16 * TWO16 + c.delay, c.opcode * 0x100_0000 + c.voice * TWO16 + c.value / TWO16)
  }

  lemma MeaningOfCarry(c: Command)
    ensures Meaning(Carry(c)) == c
  {
    var k := Carry(c);
    assert k.hi / TWO16 == c.opcode * 0x100 + c.voice;
  }

  lemma CarryOfMeaning(w: Word)
    ensures Carry(Meaning(w)) == w
  {
    var m := Meaning(w);
    assert w.hi / TWO16 == m.opcode * 0x100 + m.voice;
  }

  /** The two representations are inverse: no command is lost and none is confused with another. */
  lemma CarryMeaning(c: Command, w: Word)
    ensures Meaning(Carry(c)) == c
    ensures Carry(Meaning(w)) == w
  {
    MeaningOfCarry(c);
    CarryOfMeaning(w);
  }

  /** Replacing the voice bits changes the voice and nothing else, and likewise for the delay. */
  lemma FieldUpdates(w: Word, voice: u8, delay: u16)
    ensures Meaning(Word(w.lo, WithVoice(w.hi, voice))) == Meaning(w).(voice := voice)
    ensures Meaning(Word(WithDelay(w.lo, delay), w.hi)) == Meaning(w).(delay := delay)
  {
    var hi := WithVoice(w.hi, voice);
    assert hi / TWO16 == w.hi / 0x100_0000 * 0x100 + voice;
  }
}
