/** Gray codes of any width, as the hardware computes them.

    A register is its bits, lowest first. The code of a binary count is the count XORed with itself
    shifted down by one; it is undone by shift-doubling XORs. Successive counts, wrap included, have
    codes that differ in one bit, so a sample that catches each bit either before or after the count
    moves on is one of the two codes. */
module Gray {

  type Bits = seq<bool>

  function Pow2(p: nat): (n: nat)
    ensures n >= 1
  {
    if p == 0 then 1 else 2 * Pow2(p - 1)
  }

  /** The `p` low bits of a count. */
  function Low(n: nat, p: nat): (b: Bits)
    ensures |b| == p
  {
    if p == 0 then [] else [n % 2 == 1] + Low(n / 2, p - 1)
  }

  lemma {:induction false} ZeroBit(p: nat, i: nat)
    requires i < p
    ensures !Low(0, p)[i]
  {
    if i > 0 {
      ZeroBit(p - 1, i - 1);
    }
  }

  function Value(b: Bits): (n: nat)
    ensures n < Pow2(|b|)
  {
    if b == [] then 0 else (if b[0] then 1 else 0) + 2 * Value(b[1..])
  }

  function Xor(a: Bits, b: Bits): (c: Bits)
    requires |a| == |b|
    ensures |c| == |a| && forall i :: 0 <= i < |a| ==> c[i] == (a[i] != b[i])
  {
    seq(|a|, i requires 0 <= i < |a| => a[i] != b[i])
  }

  function Shift(b: Bits, k: nat): (c: Bits)
    ensures |c| == |b| && forall i :: 0 <= i < |b| ==> c[i] == (i + k < |b| && b[i + k])
  {
    seq(|b|, i requires 0 <= i < |b| => i + k < |b| && b[i + k])
  }

  /** Binary to Gray. */
  function Encode(b: Bits): (g: Bits)
    ensures |g| == |b|
  {
    Xor(b, Shift(b, 1))
  }

  function Fold(g: Bits, shift: nat): (h: Bits)
    ensures |h| == |g|
  {
    if shift < |g| then Xor(g, Shift(g, shift)) else g
  }

  /** The doublings from one shift on. */
  function Doubled(g: Bits, shift: nat): (b: Bits)
    requires shift > 0
    ensures |b| == |g|
    decreases |g|, 32 - shift
  {
    if shift > 16 then g else Doubled(Fold(g, shift), shift + shift)
  }

  /** Gray to binary: five doublings, each skipped when it would shift everything out. */
  function Decode(g: Bits): (b: Bits)
    ensures |b| == |g|
  {
    Doubled(g, 1)
  }

  function Successor(b: Bits): (c: Bits)
    ensures |c| == |b|
  {
    if b == [] then [] else if b[0] then [false] + Successor(b[1..]) else [true] + b[1..]
  }

  // ---------- decoding ----------

  /** The XOR of the `k` bits from `i` on. */
  function Parity(g: Bits, i: nat, k: nat): bool
    decreases k
  {
    if k == 0 || i >= |g| then false else g[i] != Parity(g, i + 1, k - 1)
  }

  lemma {:induction false} ParitySplit(g: Bits, i: nat, j: nat, k: nat)
    ensures Parity(g, i, j + k) == (Parity(g, i, j) != Parity(g, i + j, k))
    decreases j
  {
    if j > 0 && i < |g| {
      ParitySplit(g, i + 1, j - 1, k);
    }
  }

  /** The parity of a code from a bit up is that bit of the count. */
  lemma {:induction false} ParityOfCode(b: Bits, i: nat, k: nat)
    requires i < |b| && k >= |b| - i
    ensures Parity(Encode(b), i, k) == b[i]
    decreases |b| - i
  {
    if i + 1 < |b| {
      ParityOfCode(b, i + 1, k - 1);
    }
  }

  /** `h` holds the parities of `span` bits of `g`. */
  ghost predicate Spans(g: Bits, h: Bits, span: nat) {
    |h| == |g| && forall i :: 0 <= i < |g| ==> h[i] == Parity(g, i, span)
  }

  /** A doubling turns parities of one span into parities of twice the span. */
  lemma FoldDoubles(g: Bits, h: Bits, span: nat)
    requires Spans(g, h, span)
    ensures Spans(g, Fold(h, span), span + span)
  {
    forall i | 0 <= i < |g|
      ensures Fold(h, span)[i] == Parity(g, i, span + span)
    {
      ParitySplit(g, i, span, span);
      ParityPastEnd(g, i + span, span);
    }
  }

  lemma ParityPastEnd(g: Bits, i: nat, k: nat)
    ensures i >= |g| ==> !Parity(g, i, k)
  {
  }

  lemma SpansOne(g: Bits)
    ensures Spans(g, g, 1)
  {
    forall i | 0 <= i < |g|
      ensures g[i] == Parity(g, i, 1)
    {
      assert Parity(g, i, 1) == (g[i] != Parity(g, i + 1, 0));
    }
  }

  lemma SpansDecoded(b: Bits, h: Bits, span: nat)
    requires Spans(Encode(b), h, span) && span >= |b|
    ensures h == b
  {
    forall i | 0 <= i < |b|
      ensures h[i] == b[i]
    {
      ParityOfCode(b, i, span);
    }
  }

  lemma {:induction false} DoubledDecodes(b: Bits, h: Bits, span: nat)
    requires Spans(Encode(b), h, span) && |b| <= 32 && span in {1, 2, 4, 8, 16, 32}
    ensures Doubled(h, span) == b
    decreases 32 - span
  {
    if span > 16 {
      SpansDecoded(b, h, span);
    } else {
      FoldDoubles(Encode(b), h, span);
      DoubledDecodes(b, Fold(h, span), span + span);
    }
  }

  /** Decoding inverts encoding, for every width up to 32 bits. */
  lemma DecodeEncode(b: Bits)
    requires |b| <= 32
    ensures Decode(Encode(b)) == b
  {
    SpansOne(Encode(b));
    DoubledDecodes(b, Encode(b), 1);
  }

  /** No two counts of a width share a code, however wide. */
  lemma EncodeInjective(a: Bits, b: Bits)
    requires |a| == |b| && Encode(a) == Encode(b)
    ensures a == b
  {
    forall i | 0 <= i < |a|
      ensures a[i] == b[i]
    {
      ParityOfCode(a, i, |a|);
      ParityOfCode(b, i, |b|);
    }
  }

  // ---------- counting ----------

  lemma {:induction false} SuccessorCounts(n: nat, p: nat)
    ensures Successor(Low(n, p)) == Low(n + 1, p)
  {
    if p > 0 {
      SuccessorCounts(n / 2, p - 1);
      assert Low(n, p)[1..] == Low(n / 2, p - 1);
      if n % 2 == 1 {
        assert (n + 1) / 2 == n / 2 + 1 && (n + 1) % 2 == 0;
      } else {
        assert (n + 1) / 2 == n / 2 && (n + 1) % 2 == 1;
      }
    }
  }

  /** The one bit of the code that changes when the count goes up. */
  function Flip(b: Bits): (i: nat)
    requires b != []
    ensures i < |b|
  {
    if !b[0] || |b| == 1 then 0 else 1 + Flip(b[1..])
  }

  lemma EncodeTail(b: Bits)
    requires b != []
    ensures Encode(b)[1..] == Encode(b[1..])
  {
  }

  lemma {:induction false} CodeStepsByOneBit(b: Bits)
    requires b != []
    ensures forall j :: 0 <= j < |b| ==> (Encode(b)[j] != Encode(Successor(b))[j] <==> j == Flip(b))
    ensures b[0] != Successor(b)[0]
  {
    if b[0] && |b| > 1 {
      var c := Successor(b);
      CodeStepsByOneBit(b[1..]);
      EncodeTail(b);
      EncodeTail(c);
      assert c[1..] == Successor(b[1..]);
      var g, h := Encode(b), Encode(c);
      assert Flip(b) == 1 + Flip(b[1..]) && g[0] == h[0];
      forall j | 1 <= j < |b|
        ensures g[j] != h[j] <==> j == Flip(b)
      {
        assert g[j] == g[1..][j - 1] && h[j] == h[1..][j - 1];
      }
    }
  }

  /** Each bit caught before or after the move. */
  predicate Caught(before: Bits, after: Bits, c: Bits) {
    |before| == |after| == |c| && forall j :: 0 <= j < |c| ==> c[j] == before[j] || c[j] == after[j]
  }

  /** What a flop may catch of the code of a count that may be moving on. */
  predicate MayCatch(b: Bits, moving: bool, caught: Bits) {
    Caught(Encode(b), Encode(if moving then Successor(b) else b), caught)
  }

  lemma CaughtOnOneBit(g: Bits, h: Bits, c: Bits, i: nat)
    requires Caught(g, h, c) && i < |g|
    requires forall j :: 0 <= j < |g| && j != i ==> g[j] == h[j]
    ensures c == g || c == h
  {
    if c[i] == g[i] {
      assert c == g;
    } else {
      assert c == h;
    }
  }

  /** A code caught while the count may be moving on by one is the code before or the code after. */
  lemma CaughtIsOneOfTwo(b: Bits, moving: bool, caught: Bits)
    requires MayCatch(b, moving, caught)
    ensures caught == Encode(b) || (moving && caught == Encode(Successor(b)))
  {
    if !moving {
      assert caught == Encode(b);
    } else if b != [] {
      CodeStepsByOneBit(b);
      CaughtOnOneBit(Encode(b), Encode(Successor(b)), caught, Flip(b));
    }
  }

  // ---------- counts that wrap ----------

  /** Within one wrap, equal low bits are equal counts. */
  lemma {:induction false} LowInjective(n: nat, m: nat, p: nat)
    requires n <= m < n + Pow2(p) && Low(n, p) == Low(m, p)
    ensures n == m
  {
    if p > 0 {
      assert Low(n, p)[0] == Low(m, p)[0];
      assert Low(n, p)[1..] == Low(n / 2, p - 1) && Low(m, p)[1..] == Low(m / 2, p - 1);
      LowInjective(n / 2, m / 2, p - 1);
    }
  }

  lemma {:induction false} ValueInjective(a: Bits, b: Bits)
    requires |a| == |b| && Value(a) == Value(b)
    ensures a == b
  {
    if a != [] {
      ValueInjective(a[1..], b[1..]);
      assert a == [a[0]] + a[1..] && b == [b[0]] + b[1..];
    }
  }

  lemma {:induction false} ValueOfLow(n: nat, p: nat)
    requires n < Pow2(p)
    ensures Value(Low(n, p)) == n
  {
    if p > 0 {
      ValueOfLow(n / 2, p - 1);
      assert Low(n, p)[1..] == Low(n / 2, p - 1);
    }
  }

  /** The low `a` bits of the low `p`. */
  lemma {:induction false} LowOfLow(n: nat, p: nat, a: nat)
    requires a <= p
    ensures Low(n, p)[..a] == Low(n, a)
  {
    if a > 0 {
      LowOfLow(n / 2, p - 1, a - 1);
      assert Low(n, p)[..a] == [n % 2 == 1] + Low(n / 2, p - 1)[..a - 1];
    }
  }

  // ---------- one lap ahead ----------

  function Lap(b: Bits): (c: Bits)
    requires b != []
    ensures |c| == |b|
  {
    b[..|b| - 1] + [!b[|b| - 1]]
  }

  /** The mask that inverts the top two bits of a code. */
  function TopTwo(p: nat): (m: Bits)
    requires p >= 2
    ensures |m| == p && forall i :: 0 <= i < p ==> m[i] == (i >= p - 2)
  {
    seq(p, i requires 0 <= i < p => i >= p - 2)
  }

  /** Half the range further on is the top bit inverted. */
  lemma {:induction false} LapCounts(n: nat, p: nat)
    requires p > 0
    ensures Low(n + Pow2(p - 1), p) == Lap(Low(n, p))
  {
    if p == 1 {
      assert Low(n, 1) == [n % 2 == 1] && Low(n + 1, 1) == [(n + 1) % 2 == 1];
    } else {
      LapCounts(n / 2, p - 1);
      var b, t := Low(n, p), Low(n / 2, p - 1);
      assert (n + Pow2(p - 1)) / 2 == n / 2 + Pow2(p - 2);
      assert b == [b[0]] + t;
      assert Lap(b) == [b[0]] + Lap(t);
    }
  }

  /** A count against another's code: the codes are equal but for the top two bits. */
  predicate LapsCode(w: Bits, g: Bits) { |w| == |g| >= 2 && Encode(w) == Xor(g, TopTwo(|g|)) }

  /** Two codes are a lap apart exactly when their top two bits, and only those, are inverted. */
  lemma LapInCode(w: Bits, r: Bits)
    requires |w| == |r| >= 2
    ensures LapsCode(w, Encode(r)) <==> w == Lap(r)
  {
    assert Encode(Lap(r)) == Xor(Encode(r), TopTwo(|r|));
    if Encode(w) == Encode(Lap(r)) {
      EncodeInjective(w, Lap(r));
    }
  }

  // ---------- subtraction ----------

  /** Bitwise subtraction modulo the width, `borrow` coming in from below. */
  function Minus(a: Bits, b: Bits, borrow: bool): (c: Bits)
    requires |a| == |b|
    ensures |c| == |a|
  {
    if a == [] then []
    else
      [(a[0] != b[0]) != borrow] + Minus(a[1..], b[1..], if a[0] then b[0] && borrow else b[0] || borrow)
  }

  lemma {:induction false} MinusCounts(n: nat, m: nat, p: nat, borrow: bool)
    requires n >= m + if borrow then 1 else 0
    ensures Minus(Low(n, p), Low(m, p), borrow) == Low(n - m - if borrow then 1 else 0, p)
  {
    if p > 0 {
      var a, b := n % 2 == 1, m % 2 == 1;
      var next := if a then b && borrow else b || borrow;
      assert Low(n, p)[1..] == Low(n / 2, p - 1) && Low(m, p)[1..] == Low(m / 2, p - 1);
      MinusCounts(n / 2, m / 2, p - 1, next);
    }
  }

  // ---------- bits and powers ----------

  /** The bit at a place; there is nothing outside. */
  predicate At(b: Bits, i: int) { 0 <= i < |b| && b[i] }

  /** Bit `j` of a number. */
  predicate BitOf(n: nat, j: nat) { n / Pow2(j) % 2 == 1 }

  lemma DivideTwice(n: nat, m: nat)
    requires m > 0
    ensures n / 2 / m == n / (2 * m)
  {
    var a, r := n / 2, n % 2;
    var k, t := a / m, a % m;
    assert n == 2 * (k * m + t) + r == k * (2 * m) + (2 * t + r);
    Quotient(n, 2 * m, k, 2 * t + r);
  }

  lemma Quotient(n: nat, m: nat, k: nat, r: nat)
    requires m > 0 && n == k * m + r && r < m
    ensures n / m == k
  {
    var d := n / m - k;
    assert n == n / m * m + n % m;
    assert d * m == r - n % m;
    assert d >= 1 ==> d * m >= m;
    assert d <= -1 ==> d * m + m <= 0;
  }

  lemma {:induction false} LowIsBits(n: nat, p: nat, j: nat)
    requires j < p
    ensures Low(n, p)[j] == BitOf(n, j)
    decreases j
  {
    if j == 0 {
      assert Pow2(0) == 1;
    } else {
      LowIsBits(n / 2, p - 1, j - 1);
      DivideTwice(n, Pow2(j - 1));
    }
  }
}
