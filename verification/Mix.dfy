/** The mix: one shared multiplier, an accumulator, a master gain and a clamp, at the widths of the
    hardware. For any table within the peak and any reachable level, no intermediate overflows. */
module Mix {
  import opened Words
  import opened Envelope

  const UNIT := 0x8000
  const MAX_VOICES := 0x1_0000

  /** A value in a two's complement register of range `[-half, half)`. */
  function Signed(x: int, half: nat): int
    requires half > 0
  {
    var r := x % (half + half); if r < half then r else r - half - half
  }

  lemma SignedFits(x: int, half: nat)
    requires half > 0 && 0 <= x + half < half + half
    ensures Signed(x, half) == x
  {
    if x >= 0 {
      Remainder(x, half + half, 0);
    } else {
      Remainder(x, half + half, -1);
    }
  }

  lemma Remainder(x: int, m: nat, q: int)
    requires m > 0 && 0 <= x - q * m < m
    ensures x % m == x - q * m
  {
    var d := x / m - q;
    assert x == x / m * m + x % m;
    assert d * m == x - q * m - x % m;
    NoMultiple(d, m);
  }

  lemma NoMultiple(d: int, m: nat)
    ensures (d >= 1 ==> d * m >= m) && (d <= -1 ==> d * m + m <= 0)
  {
  }

  // ---------- one voice ----------

  /** What a voice adds: its table entry at its level. */
  function Contribution(entry: int, level: nat): int { entry * level / UNIT }

  /** The same through the multiplier's registers. */
  function Scaled(entry: int, hold: nat): int {
    Signed(Signed(Signed(entry, 0x8000) * Signed(hold, 0x8000), 0x8000_0000) / UNIT, 0x1_0000)
  }

  lemma ProductBound(entry: int, level: nat)
    requires -PEAK <= entry <= PEAK && level <= PEAK
    ensures -PEAK * PEAK <= entry * level <= PEAK * PEAK
    ensures -PEAK <= Contribution(entry, level) <= PEAK
  {
    Scale(entry, PEAK, level);
    Scale(-PEAK, entry, level);
    Scale(level, PEAK, PEAK);
    assert PEAK * PEAK / UNIT <= PEAK && -PEAK * PEAK / UNIT >= -PEAK;
  }

  lemma Scale(a: int, b: int, n: nat)
    requires a <= b
    ensures a * n <= b * n
  {
  }

  /** The multiplier is exact. */
  lemma ScaledIsExact(entry: int, level: nat)
    requires -PEAK <= entry <= PEAK && level <= PEAK
    ensures Scaled(entry, level) == Contribution(entry, level)
  {
    ProductBound(entry, level);
    SignedFits(entry, 0x8000);
    SignedFits(level, 0x8000);
    SignedFits(entry * level, 0x8000_0000);
    SignedFits(entry * level / UNIT, 0x1_0000);
  }

  // ---------- the sum ----------

  function Accumulated(acc: int, scaled: int): int { Signed(acc + scaled, 0x8000_0000) }

  function Clamp(x: int): int { if x > PEAK then PEAK else if x < -(PEAK + 1) then -(PEAK + 1) else x }

  /** The master gain, then the clamp. */
  function Output(sum: int, master: nat): int { Clamp(sum * master / UNIT) }

  /** The same through the registers. */
  function Clipped(acc: int, scaled: int, master: nat): int {
    var total := Signed(acc + scaled, 0x2_0000_0000);
    Clamp(Signed(total * Signed(master, 0x8000) / UNIT, 0x2_0000_0000_0000))
  }

  /** The accumulator holds the sum of as many voices as it was built for. */
  lemma AccumulatedIsExact(acc: int, scaled: int, voices: nat)
    requires voices < MAX_VOICES && -PEAK * voices <= acc <= PEAK * voices && -PEAK <= scaled <= PEAK
    ensures Accumulated(acc, scaled) == acc + scaled
  {
    SignedFits(acc + scaled, 0x8000_0000);
  }

  /** The output is the clamp of the true product, whatever the chord. */
  lemma ClippedIsExact(acc: int, scaled: int, master: nat, voices: nat)
    requires voices < MAX_VOICES && -PEAK * voices <= acc <= PEAK * voices && -PEAK <= scaled <= PEAK && master <= PEAK
    ensures Clipped(acc, scaled, master) == Output(acc + scaled, master)
  {
    var total := acc + scaled;
    SignedFits(total, 0x2_0000_0000);
    SignedFits(master, 0x8000);
    Scale(total, 0x8000_0000, master);
    Scale(-0x8000_0000, total, master);
    Scale(master, PEAK, 0x8000_0000);
    SignedFits(total * master / UNIT, 0x2_0000_0000_0000);
  }

  lemma OutputIsSample(sum: int, master: nat)
    ensures -0x8000 <= Output(sum, master) < 0x8000
  {
  }
}
