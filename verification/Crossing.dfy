/** The registers on the two sides of a clock crossing, and the counts they stand for.

    Each side counts in binary and shows the other its count only as a Gray code, through two flops. A
    flop that samples the other side's code while it moves may catch each bit before or after. Whatever
    the interleaving, what each side sees of the other is a count it really held, and the flags made
    from it err only on the safe side. */
module Crossing {
  import opened Gray

  /** The true counts behind the registers: entries written and read, and the counts last caught by each
      synchroniser's two flops. */
  datatype Counts = Counts(w: nat, r: nat, rMeta: nat, rSeen: nat, wMeta: nat, wSeen: nat)

  /** Each side sees the other as it once was, and no more than a memory's worth separates the writer
      from the reader it sees. */
  predicate InStep(c: Counts, depth: nat) {
    c.rSeen <= c.rMeta <= c.r <= c.wSeen <= c.wMeta <= c.w <= c.rSeen + depth
  }

  lemma LapIff(w: nat, r: nat, addrBits: nat)
    requires r <= w <= r + Pow2(addrBits)
    ensures Low(w, addrBits + 1) == Lap(Low(r, addrBits + 1)) <==> w == r + Pow2(addrBits)
  {
    LapCounts(r, addrBits + 1);
    if Low(w, addrBits + 1) == Low(r + Pow2(addrBits), addrBits + 1) {
      LowInjective(w, r + Pow2(addrBits), addrBits + 1);
    }
  }

  lemma DifferenceIs(w: nat, seen: nat, d: nat, p: nat)
    requires w == seen + d
    ensures Minus(Low(w, p), Low(seen, p), false) == Low(d, p)
  {
    MinusCounts(w, seen, p, false);
  }

  lemma SmallValue(b: Bits, d: nat, addrBits: nat, p: nat)
    requires b == Low(d, p) && d <= Pow2(addrBits) && p == addrBits + 1
    ensures Value(b) == d
  {
    OccupancyFits(d, addrBits);
    ValueOfLow(d, p);
  }

  /** The level the writer reports is the occupancy it sees. */
  lemma LevelIs(w: nat, seen: nat, d: nat, addrBits: nat, p: nat)
    requires p == addrBits + 1 && w == seen + d && d <= Pow2(addrBits)
    ensures Value(Minus(Low(w, p), Low(seen, p), false)) == d
  {
    DifferenceIs(w, seen, d, p);
    SmallValue(Minus(Low(w, p), Low(seen, p), false), d, addrBits, p);
  }

  lemma OccupancyFits(n: nat, addrBits: nat)
    requires n <= Pow2(addrBits)
    ensures n < Pow2(addrBits + 1)
  {
  }

  /** What a flop catches of a count that may be moving on is the code of the count before or after. */
  ghost function CaughtIs(b: Bits, n: nat, moving: bool, p: nat, caught: Bits): (m: nat)
    requires IsCount(b, n, p) && MayCatch(b, moving, caught)
    ensures n <= m <= (if moving then n + 1 else n) && IsCode(caught, m, p)
  {
    CaughtCount(b, n, moving, p, caught);
    if caught == Encode(b) then n else n + 1
  }

  lemma CaughtCount(b: Bits, n: nat, moving: bool, p: nat, caught: Bits)
    requires IsCount(b, n, p) && MayCatch(b, moving, caught)
    ensures if caught == Encode(b) then IsCode(caught, n, p) else moving && IsCode(caught, n + 1, p)
  {
    CountIs(b, n, p);
    CodeIs(caught, n, p);
    CaughtIsOneOfTwo(b, moving, caught);
    SuccessorCounts(n, p);
    CodeIs(caught, n + 1, p);
  }

  lemma NextCount(b: Bits, n: nat, p: nat)
    requires IsCount(b, n, p)
    ensures IsCount(Successor(b), n + 1, p)
  {
    CountIs(b, n, p);
    SuccessorCounts(n, p);
    CountIs(Successor(b), n + 1, p);
  }

  /** `b` is the count `n`, `p` bits wide ... */
  ghost predicate IsCount(b: Bits, n: nat, p: nat) {
    if p == 0 then b == []
    else b != [] && b[0] == (n % 2 == 1) && IsCount(b[1..], n / 2, p - 1)
  }

  /** ... and `g` is its code. */
  ghost predicate IsCode(g: Bits, n: nat, p: nat) {
    if p == 0 then g == []
    else g != [] && g[0] == ((n % 2 == 1) != (p > 1 && n / 2 % 2 == 1)) && IsCode(g[1..], n / 2, p - 1)
  }

  lemma {:induction false} CountIs(b: Bits, n: nat, p: nat)
    ensures IsCount(b, n, p) <==> b == Low(n, p)
  {
    if p > 0 && b != [] {
      CountIs(b[1..], n / 2, p - 1);
      assert b == [b[0]] + b[1..];
    }
  }

  lemma CodeOfLow(n: nat, p: nat)
    requires p > 0
    ensures |Encode(Low(n, p))| == p && Encode(Low(n, p))[1..] == Encode(Low(n / 2, p - 1))
    ensures Encode(Low(n, p))[0] == ((n % 2 == 1) != (p > 1 && n / 2 % 2 == 1))
  {
    var b := Low(n, p);
    assert b[1..] == Low(n / 2, p - 1);
    EncodeTail(b);
    assert Encode(b)[0] == (b[0] != (1 < p && b[1]));
    assert p > 1 ==> b[1] == Low(n / 2, p - 1)[0];
  }

  lemma SameHeadAndTail(g: Bits, h: Bits)
    requires g != [] && h != []
    ensures g == h <==> g[0] == h[0] && g[1..] == h[1..]
  {
    assert g == [g[0]] + g[1..] && h == [h[0]] + h[1..];
  }

  lemma {:induction false} CodeIs(g: Bits, n: nat, p: nat)
    ensures IsCode(g, n, p) <==> g == Encode(Low(n, p))
  {
    if p > 0 && g != [] {
      CodeIs(g[1..], n / 2, p - 1);
      CodeOfLow(n, p);
      SameHeadAndTail(g, Encode(Low(n, p)));
    }
  }

  /** The six registers: the write domain's count and its view of the reader, and the other way round. */
  datatype Registers = Registers(wBin: Bits, rMeta: Bits, rPtr: Bits, rBin: Bits, wMeta: Bits, wPtr: Bits)

  /** The registers hold these counts, `p` bits wide. */
  ghost predicate Stands(g: Registers, c: Counts, p: nat) {
    && IsCount(g.wBin, c.w, p) && IsCount(g.rBin, c.r, p)
    && IsCode(g.rMeta, c.rMeta, p) && IsCode(g.rPtr, c.rSeen, p)
    && IsCode(g.wMeta, c.wMeta, p) && IsCode(g.wPtr, c.wSeen, p)
  }

  predicate IsFull(g: Registers) { LapsCode(g.wBin, g.rPtr) }

  predicate IsEmpty(g: Registers) { Encode(g.rBin) == g.wPtr }

  /** The registers after an instant. */
  function Clocked(g: Registers, accepted: bool, popped: bool, wEdge: bool, rCaught: Bits,
                   rEdge: bool, wCaught: Bits): Registers {
    Registers(if accepted then Successor(g.wBin) else g.wBin,
              if wEdge then rCaught else g.rMeta, if wEdge then g.rMeta else g.rPtr,
              if popped then Successor(g.rBin) else g.rBin,
              if rEdge then wCaught else g.wMeta, if rEdge then g.wMeta else g.wPtr)
  }

  /** The counts after an instant: `rm` and `wm` are what the first flops caught. */
  function Advanced(c: Counts, accepted: bool, popped: bool, wEdge: bool, rm: nat, rEdge: bool, wm: nat): Counts {
    Counts(c.w + if accepted then 1 else 0, c.r + if popped then 1 else 0,
           if wEdge then rm else c.rMeta, if wEdge then c.rMeta else c.rSeen,
           if rEdge then wm else c.wMeta, if rEdge then c.wMeta else c.wSeen)
  }

  lemma ClockedStands(g: Registers, c: Counts, p: nat, accepted: bool, popped: bool,
                      wEdge: bool, rCaught: Bits, rm: nat, rEdge: bool, wCaught: Bits, wm: nat)
    requires Stands(g, c, p)
    requires wEdge ==> IsCode(rCaught, rm, p)
    requires rEdge ==> IsCode(wCaught, wm, p)
    ensures Stands(Clocked(g, accepted, popped, wEdge, rCaught, rEdge, wCaught),
                   Advanced(c, accepted, popped, wEdge, rm, rEdge, wm), p)
  {
    NextCount(g.wBin, c.w, p);
    NextCount(g.rBin, c.r, p);
  }

  lemma MovedInStep(c: Counts, depth: nat, accepted: bool, popped: bool, wEdge: bool, rm: nat, rEdge: bool, wm: nat)
    requires InStep(c, depth)
    requires accepted ==> c.w < c.rSeen + depth
    requires popped ==> c.r < c.wSeen
    requires wEdge ==> c.r <= rm <= c.r + if popped then 1 else 0
    requires rEdge ==> c.w <= wm <= c.w + if accepted then 1 else 0
    ensures InStep(Advanced(c, accepted, popped, wEdge, rm, rEdge, wm), depth)
  {
  }

  /** The writer's full flag is up exactly when it sees the reader a whole memory behind. */
  lemma FullFlag(g: Registers, c: Counts, addrBits: nat)
    requires addrBits >= 2 && Stands(g, c, addrBits + 1) && InStep(c, Pow2(addrBits))
    ensures IsFull(g) <==> c.w == c.rSeen + Pow2(addrBits)
  {
    var r := Low(c.rSeen, addrBits + 1);
    CountIs(g.wBin, c.w, addrBits + 1);
    CodeIs(g.rPtr, c.rSeen, addrBits + 1);
    LapInCode(g.wBin, r);
    LapIff(c.w, c.rSeen, addrBits);
  }

  /** The reader's empty flag is up exactly when it has read all it can see. */
  lemma EmptyFlag(g: Registers, c: Counts, addrBits: nat)
    requires Stands(g, c, addrBits + 1) && InStep(c, Pow2(addrBits))
    ensures IsEmpty(g) <==> c.r == c.wSeen
  {
    var p := addrBits + 1;
    CountIs(g.rBin, c.r, p);
    CodeIs(g.wPtr, c.wSeen, p);
    if IsEmpty(g) {
      EncodeInjective(Low(c.r, p), Low(c.wSeen, p));
      LowInjective(c.r, c.wSeen, p);
    }
  }

  /** The flags err only on the safe side: not full means there is room, and not empty that there is an
      entry. */
  lemma FlagsAreSafe(g: Registers, c: Counts, addrBits: nat)
    requires addrBits >= 2 && Stands(g, c, addrBits + 1) && InStep(c, Pow2(addrBits))
    ensures !IsFull(g) ==> c.w < c.rSeen + Pow2(addrBits) && c.w - c.r < Pow2(addrBits)
    ensures !IsEmpty(g) ==> c.r < c.wSeen && c.r < c.w
  {
    FullFlag(g, c, addrBits);
    EmptyFlag(g, c, addrBits);
  }
}
