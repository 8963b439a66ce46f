/** The engine's side of the FIFO: the scheduler takes what the read port shows, under any interleaving of the two
    clocks, and so applies what was pushed when the law of delays says. */
module Feeding {
  import opened Words
  import opened Gray
  import opened Crossing
  import opened FifoState
  import opened Fifo
  import opened Arrivals
  import E = Engine

  lemma InstantKnown(k: Known, written: seq<Word>, written': seq<Word>, c: Counts, c': Counts, registers: E.Registers,
                     head: Option<Command>, wEdge: bool, rEdge: bool, strobe: bool) returns (k': Known)
    requires Knows(k, written, c, registers) && Fresh(c, c', wEdge, rEdge)
    requires written <= written' && c'.w == |written'| <= |written| + 1 && c'.r <= c'.wSeen <= c'.wMeta <= c'.w
    requires (head.Some? <==> c.r < c.wSeen) && (head.Some? ==> head.value == Meaning(written[c.r]))
    requires c'.r == c.r + if strobe && E.Takes(registers) && head.Some? then 1 else 0
    ensures Knows(k', written', c', Edged(registers, strobe, head)) && k'.strobes == k.strobes + if strobe then 1 else 0
  {
    var edges, strobes := k.edges + (if rEdge then 1 else 0), k.strobes + if strobe then 1 else 0;
    DelaysGoOn(k.pushed, k.seen, c, c', k.edges, wEdge, rEdge);
    var more := Supplied(written'[|k.supply|..c'.wSeen], strobes);
    ListsGoOn(k.supply, written, written', k.strobes, strobes, c'.wSeen);
    var applied := ReachesOn(k.supply, more, k.strobes, strobes, registers, Edged(registers, strobe, head), c.r, c'.r,
                             k.applied, strobe, head);
    k' := Known(strobes, edges, k.supply + more, applied,
                k.pushed + Repeated(edges, c'.w - c.w), k.seen + Repeated(edges, c'.wSeen - c.wSeen));
  }

  /** The reader's side: the scheduler at the FIFO's read port. */
  class EngineSide {
    const fifo: AsyncFifo<Word>
    const scheduler: E.CommandScheduler
    ghost var known: Known

    ghost predicate Valid()
      reads this, fifo, fifo.memory, scheduler
    {
      fifo.Valid() && Knows(known, fifo.written, fifo.counts, scheduler.State())
    }

    constructor (fifo: AsyncFifo<Word>, scheduler: E.CommandScheduler)
      requires fifo.Valid() && fifo.written == [] && fifo.counts == Counts(0, 0, 0, 0, 0, 0)
      requires scheduler.State() == E.IDLE
      ensures Valid() && this.fifo == fifo && this.scheduler == scheduler && known.strobes == 0
    {
      this.fifo, this.scheduler, known := fifo, scheduler, Known(0, 0, [], [], [], []);
    }

    /** An instant of either clock or both; a strobe comes with an edge of the reader's. */
    method Edge(wEdge: bool, wInc: bool, data: Word, rEdge: bool, strobe: bool, rCaught: Bits, wCaught: Bits)
      returns (accepted: bool, popped: bool)
      requires Valid() && (strobe ==> rEdge)
      requires wEdge ==> MayCatch(fifo.flops.rBin, strobe && !IsEmpty(fifo.flops) && E.Takes(scheduler.State()), rCaught)
      requires rEdge ==> MayCatch(fifo.flops.wBin, wEdge && wInc && !IsFull(fifo.flops), wCaught)
      modifies this, fifo, fifo.memory, scheduler
      ensures Valid()
      ensures known.strobes == old(known.strobes) + if strobe then 1 else 0
      ensures fifo.written == old(fifo.written) + if accepted then [data] else []
      ensures accepted <==> wEdge && wInc && !old(IsFull(fifo.flops))
    {
      ghost var c, was, registers := fifo.counts, fifo.written, scheduler.State();
      var front, pop := Fetch(rEdge, strobe);
      ghost var head := if c.r < c.wSeen then Some(Meaning(front)) else None;
      accepted, popped, front := fifo.Edge(wEdge, wInc, data, rEdge, pop, rCaught, wCaught);
      known := InstantKnown(known, was, fifo.written, c, fifo.counts, registers, head, wEdge, rEdge, strobe);
    }

    /** The scheduler's edge: it is shown the read port, and says whether it takes what it is shown. */
    method Fetch(rEdge: bool, strobe: bool) returns (front: Word, pop: bool)
      requires Valid() && (strobe ==> rEdge)
      modifies scheduler
      ensures fifo.counts.r <= fifo.counts.wSeen <= |fifo.written| && (IsEmpty(fifo.flops) <==> fifo.counts.r == fifo.counts.wSeen)
      ensures fifo.counts.r < fifo.counts.wSeen ==> front == fifo.written[fifo.counts.r]
      ensures pop <==> strobe && !IsEmpty(fifo.flops) && E.Takes(old(scheduler.State()))
      ensures scheduler.State() ==
              Edged(old(scheduler.State()), strobe, if IsEmpty(fifo.flops) then None else Some(Meaning(front)))
    {
      EmptyFlag(fifo.flops, fifo.counts, fifo.addrBits);
      front := fifo.Front();
      pop := false;
      if rEdge {
        pop := scheduler.Clock(strobe, IsEmpty(fifo.flops), Meaning(front));
      }
    }

    /** Whatever has happened on either side, the scheduler has applied exactly what the law of delays says of the
        entries seen so far, and these are the entries written, in order, each of them seen within two edges of
        the reader's clock. */
    lemma AppliesTheLaw()
      requires Valid()
      ensures known.applied == E.Before(E.Law(known.supply, 0), known.strobes)
      ensures |known.supply| <= |fifo.written|
      ensures forall i :: 0 <= i < |known.supply| ==> known.supply[i].command == Meaning(fifo.written[i])
      ensures |known.seen| == |known.supply| <= |known.pushed|
      ensures forall i :: 0 <= i < |known.seen| ==> known.pushed[i] <= known.seen[i] <= known.pushed[i] + 2
    {
      E.AfterFollowsLaw(known.supply, known.strobes);
    }
  }
}
