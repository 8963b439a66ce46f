/** The instructions that push commands into the FIFO. A push that finds no room holds the processor up
    and is retried; it is never dropped and never pushed twice. */
module CoProcessor {
  import opened Words
  import opened Gray
  import opened Crossing
  import opened Fifo

  const CUSTOM0 := 0x0B
  const FUNCT3_PUSH := 0
  const FUNCT3_LEVEL := 1
  const FUNCT7 := 0

  function EncodeR(funct7: nat, rs2: nat, rs1: nat, funct3: nat, rd: nat, opcode: nat): nat {
    funct7 * 0x200_0000 + rs2 * 0x10_0000 + rs1 * 0x8000 + funct3 * 0x1000 + rd * 0x80 + opcode
  }

  function PushInstruction(rs1: nat, rs2: nat): nat { EncodeR(FUNCT7, rs2, rs1, FUNCT3_PUSH, 0, CUSTOM0) }

  function LevelInstruction(rd: nat): nat { EncodeR(FUNCT7, 0, 0, FUNCT3_LEVEL, rd, CUSTOM0) }

  function Funct3(insn: nat): nat { insn / 0x1000 % 8 }

  datatype Instruction = Push | Level | NotOurs

  function Decoded(insn: nat): Instruction {
    if insn % 0x80 != CUSTOM0 || insn / 0x200_0000 % 0x80 != FUNCT7 then NotOurs
    else if Funct3(insn) == FUNCT3_PUSH then Push
    else if Funct3(insn) == FUNCT3_LEVEL then Level
    else NotOurs
  }

  lemma Fields(funct7: nat, rs2: nat, rs1: nat, funct3: nat, rd: nat, opcode: nat)
    requires funct7 < 0x80 && rs2 < 32 && rs1 < 32 && funct3 < 8 && rd < 32 && opcode < 0x80
    ensures var insn := EncodeR(funct7, rs2, rs1, funct3, rd, opcode);
      insn % 0x80 == opcode && Funct3(insn) == funct3 && insn / 0x200_0000 % 0x80 == funct7 && insn < TWO32
  {
    var insn := EncodeR(funct7, rs2, rs1, funct3, rd, opcode);
    assert insn / 0x1000 == (funct7 * 0x400 + rs2 * 0x20 + rs1) * 8 + funct3;
    assert insn / 0x200_0000 == funct7;
  }

  /** Whatever registers they name, the two instructions are taken for what they are. */
  lemma InstructionsAreRecognised(rs1: nat, rs2: nat, rd: nat)
    requires rs1 < 32 && rs2 < 32 && rd < 32
    ensures Decoded(PushInstruction(rs1, rs2)) == Push && Decoded(LevelInstruction(rd)) == Level
  {
    Fields(FUNCT7, rs2, rs1, FUNCT3_PUSH, 0, CUSTOM0);
    Fields(FUNCT7, 0, 0, FUNCT3_LEVEL, rd, CUSTOM0);
  }

  /** What the processor presents, held until it is answered. */
  datatype Request = Request(valid: bool, insn: Instruction, rs1: u32, rs2: u32)

  predicate Stalled(q: Request, full: bool) { q.insn == Push && full }

  predicate Wait(q: Request, full: bool) { q.valid && q.insn != NotOurs && Stalled(q, full) }

  predicate Ready(q: Request, full: bool) { q.valid && q.insn != NotOurs && !Stalled(q, full) }

  predicate Increment(q: Request, full: bool) { q.valid && q.insn == Push && !full }

  function Data(q: Request): Word { Word(q.rs1, q.rs2) }

  /** The entries from `base` on are the pushes answered. */
  predicate Written(entries: seq<Word>, base: nat, program: seq<Word>, done: nat) {
    done <= |program| && base <= |entries| && entries[base..] == program[..done]
  }

  lemma WrittenGrows(entries: seq<Word>, base: nat, program: seq<Word>, done: nat)
    requires Written(entries, base, program, done) && done < |program|
    ensures Written(entries + [program[done]], base, program, done + 1)
  {
    assert (entries + [program[done]])[base..] == entries[base..] + [program[done]];
  }

  /** A processor that runs a program of pushes through the co-processor, one instant at a time. */
  class Pusher {
    const fifo: AsyncFifo<Word>
    const program: seq<Word>
    var done: nat            // pushes answered
    ghost var base: nat      // entries in the FIFO before the first of them

    ghost predicate Valid()
      reads this, fifo, fifo.memory
    {
      fifo.Valid() && Written(fifo.written, base, program, done)
    }

    constructor (fifo: AsyncFifo<Word>, program: seq<Word>)
      requires fifo.Valid()
      ensures Valid() && this.fifo == fifo && this.program == program && done == 0 && base == |fifo.written|
    {
      this.fifo, this.program, done, base := fifo, program, 0, |fifo.written|;
    }

    /** What the engine's side has read since then is the first of those pushes. */
    lemma ReadArePushes()
      requires Valid()
      ensures |fifo.read| >= base ==> fifo.read[base..] <= program[..done]
    {
      var r := fifo.counts.r;
      if r >= base {
        assert fifo.read[base..] == fifo.written[base..][..r - base];
      }
    }

    /** An instant at which the processor presents anything at all: nothing, another's instruction, a read of
        the level, or its next push. The words written are always exactly the pushes answered so far, in
        order; a push is answered as soon as the FIFO has room and held up until then, and nothing else is
        ever held up. */
    method Edge(q: Request, wEdge: bool, rEdge: bool, rInc: bool, rCaught: Bits, wCaught: Bits)
      returns (ready: bool, wait: bool, popped: bool, head: Word)
      requires Valid()
      requires q.valid && q.insn == Push ==> done < |program| && Data(q) == program[done]
      requires wEdge ==> MayCatch(fifo.flops.rBin, rEdge && rInc && !IsEmpty(fifo.flops), rCaught)
      requires rEdge ==>
        MayCatch(fifo.flops.wBin, wEdge && q.valid && q.insn == Push && !IsFull(fifo.flops), wCaught)
      modifies this`done, fifo, fifo.memory
      ensures Valid()
      ensures done == old(done) + if wEdge && ready && q.insn == Push then 1 else 0
      ensures q.valid && q.insn != NotOurs ==> ready != wait
      ensures wait <==> q.valid && q.insn == Push && old(IsFull(fifo.flops))
      ensures popped <==> rEdge && rInc && !old(IsEmpty(fifo.flops))
      ensures fifo.read == old(fifo.read) + if popped then [head] else []
    {
      var full := IsFull(fifo.flops);
      ghost var entries := fifo.written;
      ready, wait := Ready(q, full), Wait(q, full);
      var accepted;
      accepted, popped, head := fifo.Edge(wEdge, Increment(q, full), Data(q), rEdge, rInc, rCaught, wCaught);
      if accepted {
        WrittenGrows(entries, base, program, done);
        done := done + 1;
      }
    }
  }
}
