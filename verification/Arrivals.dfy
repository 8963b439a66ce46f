/** What the reader of the FIFO comes to know of its entries: which there are, when each was seen, and how far the
    scheduler has got with them. */
module Arrivals {
  import opened Words
  import opened Crossing
  import opened FifoState
  import E = Engine

  /** An entry as the scheduler comes to know it: its command, and the strobe from which it can be fetched. */
  function Supplied(words: seq<Word>, from: nat): (s: seq<E.Supply>)
    ensures |s| == |words| && forall i :: 0 <= i < |s| ==> s[i] == E.Supply(Meaning(words[i]), from)
  {
    seq(|words|, i requires 0 <= i < |words| => E.Supply(Meaning(words[i]), from))
  }

  /** The supply lists the entries the reader has seen, each from a strobe already reached. */
  ghost predicate Lists(supply: seq<E.Supply>, written: seq<Word>, strobes: nat) {
    |supply| <= |written| &&
    forall i :: 0 <= i < |supply| ==> supply[i].command == Meaning(written[i]) && supply[i].from <= strobes
  }

  /** How long each entry took to be seen, in edges of the reader's clock: those past the second flop no more than
      two, those in the first flop no more than one so far, and the rest none. */
  ghost predicate Delays(pushed: seq<nat>, seen: seq<nat>, c: Counts, edges: nat) {
    && |pushed| == c.w && |seen| == c.wSeen <= c.wMeta <= c.w
    && (forall i :: 0 <= i < c.wSeen ==> pushed[i] <= seen[i] <= pushed[i] + 2)
    && (forall i :: c.wSeen <= i < c.wMeta ==> pushed[i] <= edges <= pushed[i] + 1)
    && (forall i :: c.wMeta <= i < c.w ==> pushed[i] == edges)
  }

  lemma DelaysGoOn(pushed: seq<nat>, seen: seq<nat>, c: Counts, c': Counts, edges: nat, wEdge: bool, rEdge: bool)
    requires Delays(pushed, seen, c, edges) && Fresh(c, c', wEdge, rEdge)
    requires c'.w in {c.w, c.w + 1} && c'.wSeen <= c'.wMeta <= c'.w
    ensures var edges' := edges + if rEdge then 1 else 0;
      Delays(pushed + Repeated(edges', c'.w - c.w), seen + Repeated(edges', c'.wSeen - c.wSeen), c', edges')
  {
  }

  /** What an instant makes of what the read port shows. */
  lemma SupplyGoesOn(supply: seq<E.Supply>, more: seq<E.Supply>, strobes: nat, strobe: bool, head: Option<Command>)
    requires var k := E.After(supply, strobes).fetched;
      && (head.Some? <==> k < |supply|) && (head.Some? ==> supply[k].command == head.value && supply[k].from <= strobes)
    requires forall i :: 0 <= i < |more| ==> more[i].from >= strobes + if strobe then 1 else 0
    ensures var p := E.After(supply, strobes);
      E.After(supply + more, strobes + if strobe then 1 else 0) == if strobe then E.Onward(p, head, strobes) else p
  {
    E.LaterUnseen(supply, more, strobes + if strobe then 1 else 0);
  }

  lemma ListsGoOn(supply: seq<E.Supply>, written: seq<Word>, written': seq<Word>, strobes: nat, strobes': nat, seen: nat)
    requires Lists(supply, written, strobes) && |supply| <= seen <= |written'| && strobes <= strobes'
    requires written <= written'
    ensures Lists(supply + Supplied(written'[|supply|..seen], strobes'), written', strobes')
  {
  }

  /** Where the scheduler has got to with what it has been supplied. */
  ghost predicate Reaches(supply: seq<E.Supply>, strobes: nat, registers: E.Registers, fetched: nat, applied: seq<E.Applied>) {
    E.After(supply, strobes) == E.Progress(registers, fetched, applied)
  }

  /** The scheduler after an edge of its clock. */
  function Edged(registers: E.Registers, strobe: bool, head: Option<Command>): E.Registers {
    if strobe then E.Strobe(registers, head) else registers
  }

  lemma ReachesOn(supply: seq<E.Supply>, more: seq<E.Supply>, strobes: nat, strobes': nat, registers: E.Registers,
                  registers': E.Registers, fetched: nat, fetched': nat, applied: seq<E.Applied>, strobe: bool, head: Option<Command>)
    returns (applied': seq<E.Applied>)
    requires strobes' == strobes + (if strobe then 1 else 0) && registers' == Edged(registers, strobe, head)
    requires fetched' == fetched + if strobe && E.Takes(registers) && head.Some? then 1 else 0
    requires Reaches(supply, strobes, registers, fetched, applied)
    requires head.Some? <==> fetched < |supply|
    requires head.Some? ==> supply[fetched].command == head.value && supply[fetched].from <= strobes
    requires forall i :: 0 <= i < |more| ==> more[i].from >= strobes'
    ensures Reaches(supply + more, strobes', registers', fetched', applied')
  {
    SupplyGoesOn(supply, more, strobes, strobe, head);
    applied' := E.After(supply + more, strobes').applied;
  }

  /** What there is to know of the reader's side: strobes so far and edges of its clock, the entries it has seen,
      what the scheduler has applied, and the edges by which each entry was accepted and was seen. */
  datatype Known = Known(strobes: nat, edges: nat, supply: seq<E.Supply>, applied: seq<E.Applied>, pushed: seq<nat>, seen: seq<nat>)

  ghost predicate Knows(k: Known, written: seq<Word>, c: Counts, registers: E.Registers) {
    && c.w == |written| && c.r <= c.wSeen
    && |k.supply| == c.wSeen && Lists(k.supply, written, k.strobes)
    && Reaches(k.supply, k.strobes, registers, c.r, k.applied)
    && Delays(k.pushed, k.seen, c, k.edges)
  }
}
