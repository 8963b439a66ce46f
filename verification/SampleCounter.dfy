/** The sample count as the control side sees it: only its Gray code crosses, so what is read is always
    a count that was really held, and it never goes back. */
module SampleCounting {
  import opened Gray
  import opened Crossing

  lemma WrapOne(n: nat, half: nat, b: nat)
    requires half >= 1 && n % 2 == b
    ensures n % (2 * half) == b + 2 * (n / 2 % half)
  {
    var q, r := n / 2 / half, n / 2 % half;
    assert n / 2 == q * half + r;
    assert n == q * (2 * half) + (2 * r + b);
    RemainderIs(n, 2 * half, q, 2 * r + b);
  }

  lemma RemainderIs(n: nat, d: nat, q: nat, r: nat)
    requires n == q * d + r && r < d
    ensures n % d == r
  {
    var q', r' := n / d, n % d;
    assert n == q' * d + r';
    assert (q' - q) * d == r - r';
    Multiple(q' - q, d);
    Multiple(q - q', d);
  }

  lemma Multiple(k: int, d: nat)
    ensures k >= 1 ==> k * d >= d
  {
  }

  /** The register's value is the count modulo its width. */
  lemma {:induction false} ValueWraps(n: nat, p: nat)
    ensures Value(Low(n, p)) == n % Pow2(p)
  {
    if p > 0 {
      ValueWraps(n / 2, p - 1);
      assert Low(n, p)[1..] == Low(n / 2, p - 1);
      WrapOne(n, Pow2(p - 1), n % 2);
    }
  }

  class SampleCounter {
    const bits: nat
    var count: Bits
    var meta: Bits
    var captured: Bits

    ghost var samples: nat   // strobes counted so far
    ghost var caught: nat    // the count in the first flop ...
    ghost var seen: nat      // ... and the one in the second

    ghost predicate Valid()
      reads this
    {
      && bits <= 32 && seen <= caught <= samples
      && IsCount(count, samples, bits) && IsCode(meta, caught, bits) && IsCode(captured, seen, bits)
    }

    constructor (bits: nat)
      requires bits <= 32
      ensures Valid() && this.bits == bits && samples == 0
    {
      var zero := Low(0, bits);
      CountIs(zero, 0, bits);
      CodeIs(zero, 0, bits);
      ZeroIsItsCode(bits);
      this.bits := bits;
      count, meta, captured := zero, zero, zero;
      samples, caught, seen := 0, 0, 0;
    }

    static lemma {:induction false} ZeroIsItsCode(p: nat)
      ensures Encode(Low(0, p)) == Low(0, p)
    {
      forall i | 0 <= i < p
        ensures !Low(0, p)[i]
      {
        ZeroBit(p, i);
      }
    }

    /** What the control side reads. */
    function Synced(): Bits
      reads this
    {
      Decode(captured)
    }

    /** What is read is a count really held, wrapped to the register's width. */
    lemma SyncedWasHeld()
      requires Valid()
      ensures Synced() == Low(seen, bits) && Value(Synced()) == seen % Pow2(bits) && seen <= samples
    {
      CodeIs(captured, seen, bits);
      DecodeEncode(Low(seen, bits));
      ValueWraps(seen, bits);
    }

    /** An instant with an edge on the sample side, the control side or both. The count seen never goes
        back, and is no older than the control side's last edge but one. */
    method Edge(sourceEdge: bool, strobe: bool, sinkEdge: bool, code: Bits)
      requires Valid()
      requires sinkEdge ==> MayCatch(count, sourceEdge && strobe, code)
      modifies this
      ensures Valid()
      ensures samples == old(samples) + if sourceEdge && strobe then 1 else 0
      ensures if sinkEdge then seen == old(caught) && caught >= old(samples) else seen == old(seen) && caught == old(caught)
    {
      var moving := sourceEdge && strobe;
      ghost var n := if sinkEdge then CaughtIs(count, samples, moving, bits, code) else 0;
      NextCount(count, samples, bits);
      if sinkEdge {
        meta, captured := code, meta;
        caught, seen := n, caught;
      }
      if moving {
        count, samples := Successor(count), samples + 1;
      }
    }
  }
}
