/** The envelope of a voice, at the widths the hardware computes it with.

    The accumulator has 24 bits and the level it stands for is its top 16. The attack's sum has 25 bits and
    a sign, so it can wrap; the accumulator stays below the highest level all the same. */
module Envelope {
  import opened Words

  const PEAK := 0x7FFF
  const SHIFT := 0x100
  const SUMMIT := PEAK * SHIFT   // the accumulator at the highest level
  const TWO24 := 0x100_0000
  const TWO25 := 0x200_0000

  datatype Stage = IDLE | ATTACK | DECAY | SUSTAIN | RELEASE

  /** The settings shared by every voice. */
  datatype Panel = Panel(attack: nat, decay: nat, release: nat, sustain: nat, master: nat)

  predicate PanelFits(g: Panel) {
    g.attack < TWO24 && g.decay < TWO24 && g.release < TWO24 && g.sustain <= PEAK && g.master <= PEAK
  }

  datatype Env = Env(value: nat, stage: Stage)

  function Top(level: nat): nat { level * SHIFT }

  function Floor(level: nat, g: Panel): nat {
    if g.sustain * SHIFT > Top(level) then Top(level) else g.sustain * SHIFT
  }

  /** A value in a signed register of 25 bits. */
  function Signed25(x: int): int {
    var r := x % TWO25; if r < TWO24 then r else r - TWO25
  }

  /** One sample's step. */
  function Stepped(e: Env, level: nat, g: Panel): Env {
    var attackSum, decayDiff := Signed25(e.value + g.attack), Signed25(e.value - g.decay);
    var releaseDiff := Signed25(e.value - g.release);
    match e.stage
    case ATTACK => if attackSum >= Top(level) then Env(Top(level), DECAY) else Env(attackSum % TWO24, ATTACK)
    case DECAY => if decayDiff <= Floor(level, g) then Env(Floor(level, g), SUSTAIN) else Env(decayDiff % TWO24, DECAY)
    case SUSTAIN => Env(Floor(level, g), SUSTAIN)
    case RELEASE => if releaseDiff <= 0 then Env(0, IDLE) else Env(releaseDiff % TWO24, RELEASE)
    case IDLE => Env(0, IDLE)
  }

  lemma Signed25Is(x: int)
    requires -TWO24 <= x < TWO25
    ensures Signed25(x) == if x < TWO24 then x else x - TWO25
  {
  }

  lemma Low24(x: int)
    requires -TWO24 <= x < TWO24
    ensures x % TWO24 == if x >= 0 then x else x + TWO24
  {
  }

  /** The step without its registers: the attack is the only sum that can wrap, and what is left of it then is less
      than before. The attack goes to the note's own level, and the decay to the panel's sustain level or to the
      note's own where that is lower. */
  lemma StepIs(e: Env, level: nat, g: Panel)
    requires e.value <= SUMMIT && level <= PEAK && PanelFits(g)
    ensures var top, floor := SHIFT * level, SHIFT * Min(level, g.sustain);
      Stepped(e, level, g) ==
      match e.stage
      case ATTACK =>
        if e.value + g.attack >= TWO24 then Env(e.value + g.attack - TWO24, ATTACK)
        else if e.value + g.attack >= top then Env(top, DECAY)
        else Env(e.value + g.attack, ATTACK)
      case DECAY => if e.value - g.decay <= floor then Env(floor, SUSTAIN) else Env(e.value - g.decay, DECAY)
      case SUSTAIN => Env(floor, SUSTAIN)
      case RELEASE => if e.value <= g.release then Env(0, IDLE) else Env(e.value - g.release, RELEASE)
      case IDLE => Env(0, IDLE)
  {
    Signed25Is(e.value + g.attack);
    Signed25Is(e.value - g.decay);
    Signed25Is(e.value - g.release);
    Low24(Signed25(e.value + g.attack));
    Low24(Signed25(e.value - g.decay));
    Low24(Signed25(e.value - g.release));
  }

  /** The accumulator never exceeds the highest level, so the level read from it is never taken for a
      negative number. */
  lemma StepStaysBelowSummit(e: Env, level: nat, g: Panel)
    requires e.value <= SUMMIT && level <= PEAK && PanelFits(g)
    ensures Stepped(e, level, g).value <= SUMMIT && Stepped(e, level, g).value / SHIFT <= PEAK
  {
    StepIs(e, level, g);
  }

  /** A step of the attack does not fall exactly when its sum does not wrap and the note is not already louder than
      its own peak: a rate raised during the attack can make it fall, and so can a level lowered. */
  lemma AttackHoldsIff(value: nat, level: nat, g: Panel)
    requires value <= SUMMIT && level <= PEAK && PanelFits(g)
    ensures Stepped(Env(value, ATTACK), level, g).value >= value <==> value + g.attack < TWO24 && value <= SHIFT * level
  {
    StepIs(Env(value, ATTACK), level, g);
  }

  // ---------- constant settings ----------

  function Steps(e: Env, level: nat, g: Panel, k: nat): Env
    decreases k
  {
    if k == 0 then e else Steps(Stepped(e, level, g), level, g, k - 1)
  }

  /** Samples it takes to cover a distance at a rate, at least one. */
  function Samples(distance: nat, rate: nat): (n: nat)
    requires rate > 0
    ensures n >= 1 && n * rate >= distance
    ensures n > 1 ==> (n - 1) * rate < distance
  {
    if distance == 0 then 1
    else
      assert distance - 1 == (distance - 1) / rate * rate + (distance - 1) % rate;
      Distribute((distance - 1) / rate, rate);
      1 + (distance - 1) / rate
  }

  lemma Distribute(n: nat, rate: nat)
    ensures (n + 1) * rate == n * rate + rate
  {
  }

  lemma AttackStep(from: nat, level: nat, g: Panel)
    requires level <= PEAK && PanelFits(g) && from <= SUMMIT && from + g.attack < SHIFT * level
    ensures Stepped(Env(from, ATTACK), level, g) == Env(from + g.attack, ATTACK) && from + g.attack <= SUMMIT
  {
    StepIs(Env(from, ATTACK), level, g);
  }

  /** The attack is the straight line towards the note's own peak ... */
  lemma {:induction false} AttackRises(from: nat, k: nat, level: nat, g: Panel)
    requires level <= PEAK && PanelFits(g) && (k > 0 ==> from + k * g.attack < SHIFT * level) && from <= SUMMIT
    ensures Steps(Env(from, ATTACK), level, g, k) == Env(from + k * g.attack, ATTACK)
    decreases k
  {
    if k > 0 {
      Distribute(k - 1, g.attack);
      Monotone(0, k - 1, g.attack);
      AttackStep(from, level, g);
      AttackRises(from + g.attack, k - 1, level, g);
    }
  }

  lemma {:induction false} StepsSplit(e: Env, level: nat, g: Panel, j: nat, k: nat)
    ensures Steps(e, level, g, j + k) == Steps(Steps(e, level, g, j), level, g, k)
    decreases j
  {
    if j > 0 {
      StepsSplit(Stepped(e, level, g), level, g, j - 1, k);
    }
  }

  lemma OneStep(e: Env, level: nat, g: Panel)
    ensures Steps(e, level, g, 1) == Stepped(e, level, g)
  {
    assert Steps(Stepped(e, level, g), level, g, 0) == Stepped(e, level, g);
  }

  lemma LastRise(from: nat, level: nat, g: Panel)
    requires level <= PEAK && PanelFits(g) && from + g.attack >= SHIFT * level
    requires (from == 0 || (from < SHIFT * level && g.attack < SHIFT * level))
    ensures Steps(Env(from, ATTACK), level, g, 1) == Env(SHIFT * level, DECAY)
  {
    StepIs(Env(from, ATTACK), level, g);
    OneStep(Env(from, ATTACK), level, g);
  }

  lemma RateIsLess(n: nat, rate: nat, distance: nat)
    requires n > 1 && (n - 1) * rate < distance
    ensures rate < distance
  {
    Monotone(1, n - 1, rate);
  }

  /** ... and from silence it ends there, after exactly the samples the distance takes. */
  lemma AttackEnds(level: nat, g: Panel)
    requires level <= PEAK && PanelFits(g) && g.attack > 0
    ensures Steps(Env(0, ATTACK), level, g, Samples(SHIFT * level, g.attack)) == Env(SHIFT * level, DECAY)
  {
    var a, n := g.attack, Samples(SHIFT * level, g.attack);
    AttackRises(0, n - 1, level, g);
    StepsSplit(Env(0, ATTACK), level, g, n - 1, 1);
    Distribute(n - 1, a);
    if n > 1 {
      RateIsLess(n, a, SHIFT * level);
    }
    LastRise((n - 1) * a, level, g);
  }

  lemma AttackMeanwhile(level: nat, g: Panel, k: nat)
    requires level <= PEAK && PanelFits(g) && g.attack > 0 && k < Samples(SHIFT * level, g.attack)
    ensures Steps(Env(0, ATTACK), level, g, k) == Env(k * g.attack, ATTACK)
  {
    Monotone(k, Samples(SHIFT * level, g.attack) - 1, g.attack);
    AttackRises(0, k, level, g);
  }

  lemma Monotone(j: nat, k: nat, rate: nat)
    requires j <= k
    ensures j * rate <= k * rate
  {
  }

  /** An attack at rate zero never ends, unless there is nowhere to go. */
  lemma {:induction false} AttackStalls(level: nat, g: Panel, k: nat)
    requires level <= PEAK && PanelFits(g) && g.attack == 0 && k > 0
    ensures Steps(Env(0, ATTACK), level, g, k).stage == ATTACK <==> level > 0
    decreases k
  {
    StepIs(Env(0, ATTACK), level, g);
    if level > 0 {
      AttackRises(0, k, level, g);
    } else {
      NeverAttacks(Stepped(Env(0, ATTACK), level, g), level, g, k - 1);
    }
  }

  /** Only a note-on starts an attack. */
  lemma {:induction false} NeverAttacks(e: Env, level: nat, g: Panel, k: nat)
    requires e.stage != ATTACK
    ensures Steps(e, level, g, k).stage != ATTACK
    decreases k
  {
    if k > 0 {
      NeverAttacks(Stepped(e, level, g), level, g, k - 1);
    }
  }

  lemma {:induction false} DecayFalls(from: nat, k: nat, level: nat, g: Panel)
    requires level <= PEAK && PanelFits(g) && from <= SUMMIT
    requires k > 0 ==> from - k * g.decay > SHIFT * Min(level, g.sustain)
    ensures k * g.decay <= from && Steps(Env(from, DECAY), level, g, k) == Env(from - k * g.decay, DECAY)
    decreases k
  {
    if k > 0 {
      Distribute(k - 1, g.decay);
      Monotone(0, k - 1, g.decay);
      StepIs(Env(from, DECAY), level, g);
      DecayFalls(from - g.decay, k - 1, level, g);
    }
  }

  lemma LastFall(from: nat, level: nat, g: Panel)
    requires level <= PEAK && PanelFits(g) && from <= SUMMIT && from - g.decay <= SHIFT * Min(level, g.sustain)
    ensures Steps(Env(from, DECAY), level, g, 1) == Env(SHIFT * Min(level, g.sustain), SUSTAIN)
  {
    StepIs(Env(from, DECAY), level, g);
    OneStep(Env(from, DECAY), level, g);
  }

  /** The decay is the straight line down to the floor, and ends there after exactly the samples the
      distance takes. */
  lemma DecayEnds(from: nat, level: nat, g: Panel)
    requires level <= PEAK && PanelFits(g) && g.decay > 0 && SHIFT * Min(level, g.sustain) <= from <= SUMMIT
    ensures var floor := SHIFT * Min(level, g.sustain);
      Steps(Env(from, DECAY), level, g, Samples(from - floor, g.decay)) == Env(floor, SUSTAIN)
  {
    var n := Samples(from - SHIFT * Min(level, g.sustain), g.decay);
    DecayFalls(from, n - 1, level, g);
    StepsSplit(Env(from, DECAY), level, g, n - 1, 1);
    Distribute(n - 1, g.decay);
    LastFall(from - (n - 1) * g.decay, level, g);
  }

  lemma DecayMeanwhile(from: nat, level: nat, g: Panel, k: nat)
    requires level <= PEAK && PanelFits(g) && g.decay > 0 && SHIFT * Min(level, g.sustain) <= from <= SUMMIT
    requires k < Samples(from - SHIFT * Min(level, g.sustain), g.decay)
    ensures k * g.decay <= from && Steps(Env(from, DECAY), level, g, k) == Env(from - k * g.decay, DECAY)
  {
    Monotone(k, Samples(from - SHIFT * Min(level, g.sustain), g.decay) - 1, g.decay);
    DecayFalls(from, k, level, g);
  }

  lemma {:induction false} ReleaseFalls(from: nat, k: nat, level: nat, g: Panel)
    requires level <= PEAK && PanelFits(g) && from <= SUMMIT && (k > 0 ==> from - k * g.release > 0)
    ensures k * g.release <= from && Steps(Env(from, RELEASE), level, g, k) == Env(from - k * g.release, RELEASE)
    decreases k
  {
    if k > 0 {
      Distribute(k - 1, g.release);
      Monotone(0, k - 1, g.release);
      StepIs(Env(from, RELEASE), level, g);
      ReleaseFalls(from - g.release, k - 1, level, g);
    }
  }

  /** A released note is silent and idle after exactly the samples its level takes to fall. */
  lemma ReleaseEnds(from: nat, level: nat, g: Panel)
    requires level <= PEAK && PanelFits(g) && g.release > 0 && from <= SUMMIT
    ensures Steps(Env(from, RELEASE), level, g, Samples(from, g.release)) == Env(0, IDLE)
  {
    var n := Samples(from, g.release);
    ReleaseFalls(from, n - 1, level, g);
    StepsSplit(Env(from, RELEASE), level, g, n - 1, 1);
    Distribute(n - 1, g.release);
    var e := Env(from - (n - 1) * g.release, RELEASE);
    StepIs(e, level, g);
    OneStep(e, level, g);
  }

  lemma ReleaseMeanwhile(from: nat, level: nat, g: Panel, k: nat)
    requires level <= PEAK && PanelFits(g) && g.release > 0 && from <= SUMMIT && k < Samples(from, g.release)
    ensures k * g.release <= from && Steps(Env(from, RELEASE), level, g, k) == Env(from - k * g.release, RELEASE)
  {
    Monotone(k, Samples(from, g.release) - 1, g.release);
    ReleaseFalls(from, k, level, g);
  }

  /** A note from silence: up to its peak, then down to the panel's sustain level if that is below the peak, and
      there it stays. */
  lemma NoteReachesFloor(level: nat, g: Panel, k: nat)
    requires level <= PEAK && PanelFits(g) && g.attack > 0 && g.decay > 0
    requires k >= Samples(SHIFT * level, g.attack) + Samples(SHIFT * (level - Min(level, g.sustain)), g.decay)
    ensures Steps(Env(0, ATTACK), level, g, k) == Env(SHIFT * Min(level, g.sustain), SUSTAIN)
  {
    var up, down := Samples(SHIFT * level, g.attack), Samples(SHIFT * (level - Min(level, g.sustain)), g.decay);
    AttackEnds(level, g);
    DecayEnds(SHIFT * level, level, g);
    StepsSplit(Env(0, ATTACK), level, g, up, k - up);
    StepsSplit(Env(SHIFT * level, DECAY), level, g, down, k - up - down);
    Sustains(level, g, k - up - down);
  }

  lemma {:induction false} Sustains(level: nat, g: Panel, k: nat)
    ensures var floor := SHIFT * Min(level, g.sustain);
      Steps(Env(floor, SUSTAIN), level, g, k) == Env(floor, SUSTAIN)
    decreases k
  {
    if k > 0 {
      Sustains(level, g, k - 1);
    }
  }
}
