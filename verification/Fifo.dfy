/** The clock-crossing FIFO, under every interleaving of its two clocks: nothing is ever overwritten,
    read twice, skipped or read before it is there. */
module Fifo {
  import opened Gray
  import opened Crossing
  import opened FifoState

  lemma ReadGrows<T>(written: seq<T>, more: seq<T>, r: nat)
    requires r < |written|
    ensures (written + more)[..r + 1] == written[..r] + [written[r]]
  {
  }

  lemma ReadStays<T>(written: seq<T>, more: seq<T>, r: nat)
    requires r <= |written|
    ensures (written + more)[..r] == written[..r]
  {
  }

  class AsyncFifo<T(0)> {
    const addrBits: nat
    const memory: array<T>
    var flops: Registers  // all of them move together on an edge

    ghost var written: seq<T>  // everything ever accepted ...
    ghost var read: seq<T>     // ... and what the reader has taken
    ghost var counts: Counts

    ghost predicate Valid()
      reads this, memory
    {
      Sound(flops, counts, addrBits, memory[..], written) && read == written[..counts.r]
    }

    constructor (addrBits: nat)
      requires addrBits >= 2
      ensures Valid() && fresh(memory)
      ensures this.addrBits == addrBits && written == [] && read == [] && counts == Counts(0, 0, 0, 0, 0, 0)
    {
      this.addrBits := addrBits;
      memory := new T[Pow2(addrBits)];
      flops := Cleared(addrBits + 1);
      written, read, counts := [], [], Counts(0, 0, 0, 0, 0, 0);
      new;
      ClearedIsSound(addrBits, memory[..]);
    }

    /** The entry on the read port. */
    function Head(): T
      requires |flops.rBin| == addrBits + 1 && memory.Length == Pow2(addrBits)
      reads this, memory
    {
      memory[Value(flops.rBin[..addrBits])]
    }

    /** Whenever the reader is not told the FIFO is empty, the read port shows the oldest unread entry. */
    lemma HeadIsOldest()
      requires Valid() && !IsEmpty(flops)
      ensures |flops.rBin| == addrBits + 1 && counts.r < |written| && Head() == written[counts.r]
    {
      FlagsAreSafe(flops, counts, addrBits);
      AddressOf(flops.rBin, counts.r, addrBits);
    }

    /** The occupancy the writer reports. */
    function Level(): nat
      requires |flops.wBin| == |flops.rPtr|
      reads this
    {
      Value(Minus(flops.wBin, Decode(flops.rPtr), false))
    }

    /** The level is what has been written less what the writer has seen read: at least the true occupancy, and at most
        the depth. */
    lemma LevelIsSafe()
      requires Valid() && addrBits + 1 <= 32
      ensures |flops.wBin| == |flops.rPtr| && Level() == |written| - counts.rSeen
      ensures |written| - counts.r <= Level() <= memory.Length
    {
      CountIs(flops.wBin, counts.w, addrBits + 1);
      CodeIs(flops.rPtr, counts.rSeen, addrBits + 1);
      DecodeEncode(Low(counts.rSeen, addrBits + 1));
      LevelIs(counts.w, counts.rSeen, counts.w - counts.rSeen, addrBits, addrBits + 1);
    }

    /** An instant with an edge on the write clock, the read clock or both. `rCaught` and `wCaught` are
        what the synchronisers' first flops catch of the other side's code; `head` is what the read port
        shows, and what is read if the reader takes it. */
    method Edge(wEdge: bool, wInc: bool, data: T, rEdge: bool, rInc: bool, rCaught: Bits, wCaught: Bits)
      returns (accepted: bool, popped: bool, head: T)
      requires Valid()
      requires wEdge ==> MayCatch(flops.rBin, rEdge && rInc && !IsEmpty(flops), rCaught)
      requires rEdge ==> MayCatch(flops.wBin, wEdge && wInc && !IsFull(flops), wCaught)
      modifies this, memory
      ensures Valid()
      ensures accepted <==> wEdge && wInc && !old(IsFull(flops))
      ensures popped <==> rEdge && rInc && !old(IsEmpty(flops))
      ensures written == old(written) + if accepted then [data] else []
      ensures read == old(read) + if popped then [head] else []
      ensures counts.r == old(counts.r) + if popped then 1 else 0
      ensures !old(IsEmpty(flops)) ==> |old(read)| < |old(written)| && head == old(written)[|old(read)|]
      ensures flops == Clocked(old(flops), accepted, popped, wEdge, rCaught, rEdge, wCaught)
      ensures Fresh(old(counts), counts, wEdge, rEdge)
    {
      head := Front();
      accepted := wEdge && wInc && !IsFull(flops);
      popped := rEdge && rInc && !IsEmpty(flops);
      ghost var c' := EdgeKeepsSound(flops, counts, addrBits, memory[..], written, data, accepted, popped,
                                     wEdge, rCaught, rEdge, wCaught);
      ghost var more := if accepted then [data] else [];
      if popped {
        ReadGrows(written, more, counts.r);
        read := read + [head];
      } else {
        ReadStays(written, more, counts.r);
      }
      if accepted {
        Store(data);
      }
      flops := Clocked(flops, accepted, popped, wEdge, rCaught, rEdge, wCaught);
      counts := c';
    }

    /** What the read port shows. */
    method Front() returns (head: T)
      requires Valid()
      ensures |read| == counts.r <= |written|
      ensures !IsEmpty(flops) ==> counts.r < |written| && head == written[counts.r]
    {
      AddressOf(flops.rBin, counts.r, addrBits);
      if !IsEmpty(flops) {
        HeadIsOldest();
      }
      head := Head();
    }

    /** The write port. */
    method Store(data: T)
      requires IsCount(flops.wBin, |written|, addrBits + 1) && memory.Length == Pow2(addrBits)
      modifies memory, this`written
      ensures memory[..] == old(memory[..])[Address(|old(written)|, addrBits) := data]
      ensures written == old(written) + [data]
    {
      AddressOf(flops.wBin, |written|, addrBits);
      memory[Value(flops.wBin[..addrBits])] := data;
      written := written + [data];
    }
  }
}
