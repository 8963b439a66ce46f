/** The FIFO's memory between the two counts, and what one instant does to the whole of its state. */
module FifoState {
  import opened Gray
  import opened Crossing

  /** Where a count lands in the memory. */
  function Address(n: nat, addrBits: nat): (i: nat)
    ensures i < Pow2(addrBits)
  {
    Value(Low(n, addrBits))
  }

  lemma AddressesDiffer(n: nat, m: nat, addrBits: nat)
    requires n < m < n + Pow2(addrBits)
    ensures Address(n, addrBits) != Address(m, addrBits)
  {
    if Address(n, addrBits) == Address(m, addrBits) {
      ValueInjective(Low(n, addrBits), Low(m, addrBits));
      LowInjective(n, m, addrBits);
    }
  }

  /** The low bits of a count address the memory. */
  lemma AddressOf(b: Bits, n: nat, addrBits: nat)
    requires IsCount(b, n, addrBits + 1)
    ensures |b| == addrBits + 1 && Value(b[..addrBits]) == Address(n, addrBits)
  {
    CountIs(b, n, addrBits + 1);
    LowOfLow(n, addrBits + 1, addrBits);
  }

  /** The memory holds every entry written and not yet read. */
  ghost predicate Holds<T>(memory: seq<T>, addrBits: nat, written: seq<T>, r: nat) {
    |memory| == Pow2(addrBits) &&
    forall k :: r <= k < |written| ==> memory[Address(k, addrBits)] == written[k]
  }

  lemma HoldsOneMore<T>(memory: seq<T>, addrBits: nat, written: seq<T>, r: nat, data: T)
    requires Holds(memory, addrBits, written, r) && r <= |written| < r + Pow2(addrBits)
    ensures Holds(memory[Address(|written|, addrBits) := data], addrBits, written + [data], r)
  {
    forall k | r <= k < |written|
      ensures Address(k, addrBits) != Address(|written|, addrBits)
    {
      AddressesDiffer(k, |written|, addrBits);
    }
  }

  /** The count a first flop catches, if its clock ticks. */
  ghost function CountCaught(b: Bits, n: nat, moving: bool, p: nat, edge: bool, caught: Bits): (m: nat)
    requires IsCount(b, n, p) && (edge ==> MayCatch(b, moving, caught))
    ensures edge ==> IsCode(caught, m, p)
    ensures n <= m <= n + if moving then 1 else 0
  {
    if edge then CaughtIs(b, n, moving, p, caught) else n
  }

  /** What each side's own edge does to its view of the other: the second flop takes what the first held,
      and the first catches a count no older than the instant before. */
  predicate Fresh(c: Counts, c': Counts, wEdge: bool, rEdge: bool) {
    && (if wEdge then c'.rSeen == c.rMeta && c'.rMeta >= c.r else c'.rSeen == c.rSeen && c'.rMeta == c.rMeta)
    && (if rEdge then c'.wSeen == c.wMeta && c'.wMeta >= c.w else c'.wSeen == c.wSeen && c'.wMeta == c.wMeta)
  }

  /** One instant, whatever edges it holds: the registers go on standing for counts that are in step. */
  lemma EdgeStands(g: Registers, c: Counts, addrBits: nat, accepted: bool, popped: bool,
                   wEdge: bool, rCaught: Bits, rEdge: bool, wCaught: Bits) returns (c': Counts)
    requires addrBits >= 2 && Stands(g, c, addrBits + 1) && InStep(c, Pow2(addrBits))
    requires (accepted ==> !IsFull(g)) && (popped ==> !IsEmpty(g))
    requires wEdge ==> MayCatch(g.rBin, popped, rCaught)
    requires rEdge ==> MayCatch(g.wBin, accepted, wCaught)
    ensures Stands(Clocked(g, accepted, popped, wEdge, rCaught, rEdge, wCaught), c', addrBits + 1)
    ensures InStep(c', Pow2(addrBits))
    ensures c'.w == c.w + (if accepted then 1 else 0) && c'.r == c.r + if popped then 1 else 0
    ensures Fresh(c, c', wEdge, rEdge)
  {
    var rm := CountCaught(g.rBin, c.r, popped, addrBits + 1, wEdge, rCaught);
    var wm := CountCaught(g.wBin, c.w, accepted, addrBits + 1, rEdge, wCaught);
    FlagsAreSafe(g, c, addrBits);
    MovedInStep(c, Pow2(addrBits), accepted, popped, wEdge, rm, rEdge, wm);
    ClockedStands(g, c, addrBits + 1, accepted, popped, wEdge, rCaught, rm, rEdge, wCaught, wm);
    c' := Advanced(c, accepted, popped, wEdge, rm, rEdge, wm);
  }

  /** The registers stand for counts in step, and the memory holds what those counts say is in it. */
  ghost predicate Sound<T>(g: Registers, c: Counts, addrBits: nat, memory: seq<T>, written: seq<T>) {
    && addrBits >= 2 && Stands(g, c, addrBits + 1) && InStep(c, Pow2(addrBits))
    && c.w == |written| && Holds(memory, addrBits, written, c.r)
  }

  /** The state after an instant: an entry that the full flag let in is stored where the write count
      points. */
  lemma EdgeKeepsSound<T>(g: Registers, c: Counts, addrBits: nat, memory: seq<T>, written: seq<T>, data: T, accepted: bool,
                          popped: bool, wEdge: bool, rCaught: Bits, rEdge: bool, wCaught: Bits) returns (c': Counts)
    requires Sound(g, c, addrBits, memory, written)
    requires (accepted ==> !IsFull(g)) && (popped ==> !IsEmpty(g))
    requires wEdge ==> MayCatch(g.rBin, popped, rCaught)
    requires rEdge ==> MayCatch(g.wBin, accepted, wCaught)
    ensures var memory' := if accepted then memory[Address(|written|, addrBits) := data] else memory;
      var written' := if accepted then written + [data] else written;
      Sound(Clocked(g, accepted, popped, wEdge, rCaught, rEdge, wCaught), c', addrBits, memory', written')
    ensures c'.r == c.r + (if popped then 1 else 0) && Fresh(c, c', wEdge, rEdge)
  {
    c' := EdgeStands(g, c, addrBits, accepted, popped, wEdge, rCaught, rEdge, wCaught);
    FlagsAreSafe(g, c, addrBits);
    if accepted {
      HoldsOneMore(memory, addrBits, written, c.r, data);
    }
  }

  /** All counts zero. */
  function Cleared(p: nat): Registers {
    var zero := Low(0, p);
    Registers(zero, Encode(zero), Encode(zero), zero, Encode(zero), Encode(zero))
  }

  lemma ClearedIsSound<T>(addrBits: nat, memory: seq<T>)
    requires addrBits >= 2 && |memory| == Pow2(addrBits)
    ensures Sound(Cleared(addrBits + 1), Counts(0, 0, 0, 0, 0, 0), addrBits, memory, [])
  {
    CountIs(Low(0, addrBits + 1), 0, addrBits + 1);
    CodeIs(Encode(Low(0, addrBits + 1)), 0, addrBits + 1);
  }

  /** Two edges of the writer's clock without a pop, and it sees the reader exactly; likewise the reader
      sees the writer after two of its own without a push. */
  lemma TwoEdgesSettle(c: Counts, c': Counts, c'': Counts, depth: nat, rEdges: bool, wEdges: bool)
    requires InStep(c', depth) && InStep(c'', depth)
    requires Fresh(c, c', wEdges, rEdges) && Fresh(c', c'', wEdges, rEdges)
    ensures wEdges && c.r == c'.r == c''.r ==> c''.rSeen == c''.r
    ensures rEdges && c.w == c'.w == c''.w ==> c''.wSeen == c''.w
  {
  }
}
