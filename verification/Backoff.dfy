/** The delay before each reconnect attempt: exponential, with jitter and a ceiling, cut to a 32-bit integer. */
module Backoff {
  import opened Doubles

  // ---------- the delay ----------

  /** The settings as they may be set at any time; `jitter` 0 means none. */
  datatype Settings = Settings(ms: real, max: Number, factor: real, jitter: real)

  /** The delay before jitter and ceiling. */
  function Grown(b: Settings, attempts: nat): Number {
    Multiply(Finite(b.ms), Rounded(Pow(b.factor, attempts)))
  }

  /** One digit of the random number decides which way jitter moves the delay. */
  predicate Shortens(random: real) {
    (10.0 * random).Floor % 2 == 0
  }

  /** The delay after jitter; `random` is the number drawn from [0, 1). */
  function Moved(b: Settings, attempts: nat, random: real): Number {
    var t := Grown(b, attempts);
    if b.jitter == 0.0 then t
    else
      var deviation := Floor(Multiply(Finite(Times(random, b.jitter)), t));
      if Shortens(random) then Plus(t, Negated(deviation)) else Plus(t, deviation)
  }

  function Delay(b: Settings, attempts: nat, random: real): int {
    ToInt32(Least(Moved(b, attempts, random), b.max))
  }

  class Backoff {
    var settings: Settings
    var attempts: nat

    constructor (b: Settings)
      ensures settings == b && attempts == 0
    {
      settings, attempts := b, 0;
    }

    method Duration(random: real) returns (delay: int)
      requires 0.0 <= random < 1.0
      modifies this`attempts
      ensures attempts == old(attempts) + 1
      ensures delay == Delay(settings, old(attempts), random)
    {
      var b := settings;
      var ms := Multiply(Finite(b.ms), Rounded(Pow(b.factor, attempts)));
      attempts := attempts + 1;
      if b.jitter != 0.0 {
        var deviation := Floor(Multiply(Finite(Times(random, b.jitter)), ms));
        ms := if Shortens(random) then Plus(ms, Negated(deviation)) else Plus(ms, deviation);
      }
      delay := ToInt32(Least(ms, b.max));
    }

    method Reset()
      modifies this`attempts
      ensures attempts == 0
    {
      attempts := 0;
    }
  }

  // ---------- the delay that is meant ----------

  /** Nothing negative, a jitter of at most the whole, and possibly no ceiling. */
  predicate Sane(b: Settings) {
    && b.ms >= 0.0 && b.factor >= 0.0 && 0.0 <= b.jitter <= 1.0
    && (b.max == Infinite(false) || (b.max.Finite? && 0.0 <= b.max.r < Overflow()))
  }

  function Base(b: Settings, attempts: nat): real {
    Times(b.ms, Pow(b.factor, attempts))
  }

  /** How far jitter moves the delay, in whole milliseconds. */
  function Deviation(b: Settings, attempts: nat, random: real): int {
    Times(Times(random, b.jitter), Base(b, attempts)).Floor
  }

  function Jittered(b: Settings, attempts: nat, random: real): real {
    var t := Base(b, attempts);
    if b.jitter == 0.0 then t
    else if Shortens(random) then t - Deviation(b, attempts, random) as real
    else t + Deviation(b, attempts, random) as real
  }

  function Capped(x: real, max: Number): real {
    if max.Finite? && max.r < x then max.r else x
  }

  /** The jittered, capped delay in whole milliseconds, all arithmetic being exact. */
  function Meant(b: Settings, attempts: nat, random: real): int {
    Capped(Jittered(b, attempts, random), b.max).Floor
  }

  predicate Overflows(b: Settings, attempts: nat) {
    Pow(b.factor, attempts) >= Overflow() || Base(b, attempts) >= Overflow()
  }

  // ---------- what is computed, by whether something overflows ----------

  lemma BaseNotNegative(b: Settings, attempts: nat)
    requires Sane(b)
    ensures Pow(b.factor, attempts) >= 0.0 && Base(b, attempts) >= 0.0
  {
    PowNotNegative(b.factor, attempts);
    NotNegative(b.ms, Pow(b.factor, attempts));
  }

  lemma GrownValue(b: Settings, attempts: nat)
    requires Sane(b)
    ensures Grown(b, attempts) == if !Overflows(b, attempts) then Finite(Base(b, attempts))
                                  else if b.ms == 0.0 then NotANumber else Infinite(false)
    ensures b.ms == 0.0 ==> Base(b, attempts) == 0.0
  {
    hide Pow, Overflow;
    OverflowSize();
    BaseNotNegative(b, attempts);
  }

  lemma DeviationRange(b: Settings, attempts: nat, random: real)
    requires Sane(b) && 0.0 <= random < 1.0
    ensures 0.0 <= Times(random, b.jitter) <= b.jitter
    ensures 0.0 <= Times(Times(random, b.jitter), Base(b, attempts)) <= Base(b, attempts)
    ensures 0 <= Deviation(b, attempts, random)
    ensures Deviation(b, attempts, random) as real <= Times(b.jitter, Base(b, attempts)) <= Base(b, attempts)
  {
    BaseNotNegative(b, attempts);
    Scale(random, b.jitter);
    var t := Base(b, attempts);
    Scale(b.jitter, t);
    Scale(Times(random, b.jitter), t);
    Keeps(t, Times(random, b.jitter), b.jitter);
  }

  /** Jitter moves the delay by at most its share, so never below zero. */
  lemma JitterRange(b: Settings, attempts: nat, random: real)
    requires Sane(b) && 0.0 <= random < 1.0
    ensures var t, d := Base(b, attempts), Jittered(b, attempts, random);
            0.0 <= t - Times(b.jitter, t) <= d <= t + Times(b.jitter, t)
  {
    hide Base, Deviation, Times, Shortens;
    DeviationRange(b, attempts, random);
    BaseNotNegative(b, attempts);
  }

  /** Without overflow what is computed is the exact value, or infinity where that is too large. */
  lemma MovedExactly(b: Settings, attempts: nat, random: real)
    requires Sane(b) && 0.0 <= random < 1.0 && !Overflows(b, attempts)
    ensures Moved(b, attempts, random) == Rounded(Jittered(b, attempts, random))
    ensures Jittered(b, attempts, random) >= 0.0
  {
    hide Pow, Overflow, Times, Grown, Base, Shortens;
    OverflowSize();
    GrownValue(b, attempts);
    DeviationRange(b, attempts, random);
    BaseNotNegative(b, attempts);
    BaseFits(b, attempts);
  }

  /**
   * Which way jitter moves the delay, by the first decimal of the random number: with an even one by the share it takes
   * downwards, with an odd one upwards.
   */
  lemma JitterByDigit(b: Settings, attempts: nat, random: real, k: nat)
    requires Sane(b) && k < 10 && k as real <= 10.0 * random < k as real + 1.0
    requires b.jitter != 0.0 && !Overflows(b, attempts)
    ensures var t := b.ms * Pow(b.factor, attempts);
            var share := (random * b.jitter * t).Floor as real;
            var x := if k in {0, 2, 4, 6, 8} then t - share else t + share;
            x < TWO31 as real && (b.max.Finite? ==> x <= b.max.r) ==> Delay(b, attempts, random) == x.Floor
  {
    DigitTells(random, k);
    Products(b, attempts, random);
    hide Pow, Times, Shortens, Delay, Overflows, Base;
    var x := Jittered(b, attempts, random);
    hide Deviation;
    if x < TWO31 as real && (b.max.Finite? ==> x <= b.max.r) {
      ExactWithoutOverflow(b, attempts, random);
    }
    hide Jittered;
  }

  lemma DigitTells(random: real, k: nat)
    requires k < 10 && k as real <= 10.0 * random < k as real + 1.0
    ensures Shortens(random) <==> k in {0, 2, 4, 6, 8}
    ensures 0.0 <= random < 1.0
  {
    assert (10.0 * random).Floor == k;
  }

  lemma Products(b: Settings, attempts: nat, random: real)
    ensures var t := b.ms * Pow(b.factor, attempts);
            Base(b, attempts) == t && Deviation(b, attempts, random) == (random * b.jitter * t).Floor
  {
  }

  lemma BaseFits(b: Settings, attempts: nat)
    ensures !Overflows(b, attempts) ==> Base(b, attempts) < Overflow()
  {
  }

  /** After an overflow jitter takes infinity from infinity when it shortens the delay, which gives no number. */
  lemma MovedAfterOverflow(b: Settings, attempts: nat, random: real)
    requires Sane(b) && 0.0 <= random < 1.0 && Overflows(b, attempts)
    ensures Moved(b, attempts, random)
         == if b.ms == 0.0 || (b.jitter != 0.0 && Shortens(random)) then NotANumber else Infinite(false)
  {
    hide Pow, Overflow, Grown;
    GrownValue(b, attempts);
    if b.jitter != 0.0 && !Shortens(random) {
      assert random > 0.0;
      Positive(random, b.jitter);
    }
    NotNegative(random, b.jitter);
  }

  lemma Positive(a: real, p: real)
    requires a > 0.0 && p > 0.0
    ensures Times(a, p) > 0.0
  {
  }

  lemma Cut(x: real)
    requires x >= 0.0
    ensures ToInt32(Finite(x)) == x.Floor <==> x < TWO31 as real
  {
  }

  lemma CappedNotNegative(x: real, max: Number)
    requires x >= 0.0 && (max.Finite? ==> max.r >= 0.0)
    ensures 0.0 <= Capped(x, max) <= x && (max.Finite? ==> Capped(x, max) <= max.r)
  {
  }

  /** Without overflow a delay is the one meant exactly when that fits 31 bits. */
  lemma ExactWithoutOverflow(b: Settings, attempts: nat, random: real)
    requires Sane(b) && 0.0 <= random < 1.0 && !Overflows(b, attempts)
    ensures Delay(b, attempts, random) == Meant(b, attempts, random)
       <==> Capped(Jittered(b, attempts, random), b.max) < TWO31 as real
  {
    hide Overflow, Moved, Jittered, Overflows, ToInt32;
    OverflowSize();
    MovedExactly(b, attempts, random);
    var x := Jittered(b, attempts, random);
    CappedNotNegative(x, b.max);
    Cut(Capped(x, b.max));
    if x < Overflow() {
      assert Least(Finite(x), b.max) == Finite(Capped(x, b.max));
    } else if b.max.Finite? {
      assert Capped(x, b.max) == b.max.r;
    } else {
      NothingFromInfinity();
    }
  }

  lemma NothingFromInfinity()
    ensures ToInt32(Infinite(false)) == 0 && ToInt32(NotANumber) == 0
  {
  }

  lemma DelayAfterOverflow(b: Settings, attempts: nat, random: real)
    requires Sane(b) && 0.0 <= random < 1.0 && Overflows(b, attempts)
    ensures Delay(b, attempts, random)
         == if b.ms == 0.0 || (b.jitter != 0.0 && Shortens(random)) then 0 else ToInt32(b.max)
  {
    hide Overflow, Moved, Overflows, ToInt32, Shortens;
    MovedAfterOverflow(b, attempts, random);
    NothingFromInfinity();
  }

  // ---------- when every delay is the one meant ----------

  /** The whole milliseconds below the largest share that jitter can take: its largest deviation. */
  function LargestDeviation(b: Settings, attempts: nat): int {
    var share := Times(b.jitter, Base(b, attempts));
    if share > 0.0 then -(-share).Floor - 1 else 0
  }

  /** A condition on the settings and the number of attempts. */
  predicate IsRight(b: Settings, attempts: nat) {
    if !Overflows(b, attempts) || b.ms == 0.0 then
      || (b.max.Finite? && b.max.r < TWO31 as real)
      || Base(b, attempts) + LargestDeviation(b, attempts) as real < TWO31 as real
    else if b.jitter == 0.0 then ToInt32(b.max) == Capped(Base(b, attempts), b.max).Floor
    else Capped(Base(b, attempts), b.max).Floor == 0 && ToInt32(b.max) == 0
  }

  lemma Share(b: Settings, attempts: nat, random: real)
    ensures Times(Times(random, b.jitter), Base(b, attempts)) == Times(random, Times(b.jitter, Base(b, attempts)))
  {
    hide Base;
    TimesAssoc(random, b.jitter, Base(b, attempts));
  }

  lemma DeviationBound(b: Settings, attempts: nat, random: real)
    requires Sane(b) && 0.0 <= random < 1.0
    ensures 0 <= Deviation(b, attempts, random) <= LargestDeviation(b, attempts)
  {
    var share := Times(b.jitter, Base(b, attempts));
    DeviationRange(b, attempts, random);
    Share(b, attempts, random);
    hide Base;
    if share > 0.0 {
      BelowShare(random, share);
    } else {
      assert share == 0.0;
    }
  }

  lemma BelowShare(random: real, share: real)
    requires 0.0 <= random < 1.0 && share > 0.0
    ensures Times(random, share) < share && Times(random, share).Floor <= -(-share).Floor - 1
  {
    Positive(1.0 - random, share);
    assert (1.0 - random) * share == share - random * share;
  }

  /** The largest deviation is met, when the delay is lengthened. */
  lemma LargestIsMet(b: Settings, attempts: nat) returns (random: real)
    requires Sane(b)
    ensures 0.0 <= random < 1.0
    ensures Jittered(b, attempts, random) == Base(b, attempts) + LargestDeviation(b, attempts) as real
  {
    var share, most := Times(b.jitter, Base(b, attempts)), LargestDeviation(b, attempts);
    DeviationRange(b, attempts, 0.0);
    hide Base;
    if b.jitter == 0.0 || most == 0 {
      random := 0.0;
      DeviationBound(b, attempts, random);
      if b.jitter == 0.0 {
        assert share == 0.0;
      }
    } else {
      var ratio := most as real / share;
      assert 0.0 <= most as real < share <= most as real + 1.0;
      RatioBelowOne(most as real, share);
      random := if ratio > 0.9 then ratio else 0.9;
      assert (10.0 * random).Floor == 9;
      Share(b, attempts, random);
      Keeps(share, ratio, random);
      BelowShare(random, share);
      assert Times(random, share).Floor == most;
    }
  }

  lemma RatioBelowOne(a: real, c: real)
    requires 0.0 <= a < c
    ensures 0.0 <= a / c < 1.0 && Times(a / c, c) == a
  {
  }

  lemma RightWithoutOverflow(b: Settings, attempts: nat)
    requires Sane(b) && !Overflows(b, attempts)
    ensures (forall random :: 0.0 <= random < 1.0 ==> Delay(b, attempts, random) == Meant(b, attempts, random))
       <==> IsRight(b, attempts)
  {
    hide Overflows, Delay, Meant, Base, LargestDeviation, Jittered;
    if IsRight(b, attempts) {
      forall random | 0.0 <= random < 1.0 ensures Delay(b, attempts, random) == Meant(b, attempts, random) {
        ExactWithoutOverflow(b, attempts, random);
        JitteredBound(b, attempts, random);
      }
    } else {
      var random := LargestIsMet(b, attempts);
      ExactWithoutOverflow(b, attempts, random);
    }
  }

  lemma JitteredBound(b: Settings, attempts: nat, random: real)
    requires Sane(b) && 0.0 <= random < 1.0
    ensures 0.0 <= Jittered(b, attempts, random) <= Base(b, attempts) + LargestDeviation(b, attempts) as real
  {
    DeviationBound(b, attempts, random);
    JitterRange(b, attempts, random);
    BaseNotNegative(b, attempts);
    Scale(b.jitter, Base(b, attempts));
    hide Base, Deviation, LargestDeviation, Times, Shortens;
  }

  /** With a delay of nothing to begin with, nothing is both computed and meant. */
  lemma RightFromNothing(b: Settings, attempts: nat)
    requires Sane(b) && Overflows(b, attempts) && b.ms == 0.0
    ensures forall random :: 0.0 <= random < 1.0 ==> Delay(b, attempts, random) == Meant(b, attempts, random) == 0
    ensures IsRight(b, attempts)
  {
    hide Overflows, Delay, Pow, Shortens, Overflow;
    BaseNotNegative(b, attempts);
    GrownValue(b, attempts);
    forall random | 0.0 <= random < 1.0 ensures Delay(b, attempts, random) == Meant(b, attempts, random) == 0 {
      DelayAfterOverflow(b, attempts, random);
      JitterRange(b, attempts, random);
      JitteredBound(b, attempts, random);
    }
  }

  lemma RightAfterOverflow(b: Settings, attempts: nat)
    requires Sane(b) && Overflows(b, attempts) && b.ms > 0.0
    ensures (forall random :: 0.0 <= random < 1.0 ==> Delay(b, attempts, random) == Meant(b, attempts, random))
       <==> IsRight(b, attempts)
  {
    hide Overflows, Delay, Base, LargestDeviation, Jittered, ToInt32;
    if b.jitter == 0.0 {
      forall random | 0.0 <= random < 1.0
        ensures Delay(b, attempts, random) == ToInt32(b.max)
        ensures Jittered(b, attempts, random) == Base(b, attempts)
      {
        DelayAfterOverflow(b, attempts, random);
        NoJitter(b, attempts, random);
      }
      assert Delay(b, attempts, 0.0) == ToInt32(b.max);
    } else {
      DelayAfterOverflow(b, attempts, 0.0);
      DelayAfterOverflow(b, attempts, 0.1);
      NoDeviation(b, attempts);
      assert Shortens(0.0) && !Shortens(0.1);
      forall random | 0.0 <= random < 1.0
        ensures Delay(b, attempts, random) == 0 || Delay(b, attempts, random) == ToInt32(b.max)
        ensures Capped(Base(b, attempts), b.max).Floor == 0 ==> Meant(b, attempts, random) == 0
      {
        DelayAfterOverflow(b, attempts, random);
        if Capped(Base(b, attempts), b.max).Floor == 0 {
          SmallStaysSmall(b, attempts, random);
        }
      }
      assert Meant(b, attempts, 0.0) == Capped(Base(b, attempts), b.max).Floor;
    }
  }

  lemma NoJitter(b: Settings, attempts: nat, random: real)
    requires b.jitter == 0.0
    ensures Jittered(b, attempts, random) == Base(b, attempts)
  {
  }

  lemma NoDeviation(b: Settings, attempts: nat)
    ensures Jittered(b, attempts, 0.0) == Base(b, attempts)
  {
    hide Base;
    assert Times(0.0, b.jitter) == 0.0 && Times(0.0, Base(b, attempts)) == 0.0;
  }

  /** A delay below one millisecond has no whole millisecond to move by. */
  lemma SmallStaysSmall(b: Settings, attempts: nat, random: real)
    requires Sane(b) && 0.0 <= random < 1.0 && Capped(Base(b, attempts), b.max).Floor == 0
    ensures Meant(b, attempts, random) == 0
  {
    BaseNotNegative(b, attempts);
    DeviationRange(b, attempts, random);
    JitterRange(b, attempts, random);
    BaseNotNegative(b, attempts);
    Scale(b.jitter, Base(b, attempts));
    hide Base, Times, Shortens;
    CappedNotNegative(Jittered(b, attempts, random), b.max);
    if Base(b, attempts) < 1.0 {
      assert Deviation(b, attempts, random) == 0;
    }
  }

  /**
   * For all settings that make sense and any number of attempts: whatever random number is drawn, the delay is the
   * jittered, capped value in whole milliseconds, exactly under a condition on the settings and the attempts.
   */
  lemma DelaysRight(b: Settings, attempts: nat)
    requires Sane(b)
    ensures (forall random :: 0.0 <= random < 1.0 ==> Delay(b, attempts, random) == Meant(b, attempts, random))
       <==> IsRight(b, attempts)
  {
    hide Delay, Meant, Overflows, IsRight;
    if !Overflows(b, attempts) {
      RightWithoutOverflow(b, attempts);
    } else if b.ms == 0.0 {
      RightFromNothing(b, attempts);
    } else {
      RightAfterOverflow(b, attempts);
    }
  }

  /** With a ceiling from 1 to below 2^31, and at least a millisecond to begin with: exactly until it overflows. */
  lemma UsualDelaysRight(b: Settings, attempts: nat)
    requires Sane(b) && b.ms >= 1.0 && b.max.Finite? && 1.0 <= b.max.r < TWO31 as real
    ensures (forall random :: 0.0 <= random < 1.0 ==> Delay(b, attempts, random) == Meant(b, attempts, random))
       <==> b.jitter == 0.0 || !Overflows(b, attempts)
  {
    DelaysRight(b, attempts);
    hide Delay, Meant;
    if Overflows(b, attempts) {
      AtLeastThePower(b, attempts);
      OverflowSize();
      hide Overflow, Pow, Base;
      Cut(b.max.r);
    }
  }

  lemma AtLeastThePower(b: Settings, attempts: nat)
    requires Sane(b) && b.ms >= 1.0
    ensures Base(b, attempts) >= Pow(b.factor, attempts)
  {
    hide Pow;
    BaseNotNegative(b, attempts);
    Keeps(Pow(b.factor, attempts), 1.0, b.ms);
    One(Pow(b.factor, attempts));
  }

  // ---------- the manager's own settings ----------

  const DEFAULTS := Settings(1000.0, Finite(5000.0), 2.0, 0.5)

  lemma DefaultsOverflow(attempts: nat)
    ensures Sane(DEFAULTS) && (Overflows(DEFAULTS, attempts) <==> attempts >= 1015)
  {
    hide Pow, Overflow;
    OverflowSize();
    if attempts >= 1015 {
      PowGrows(2.0, 1015, attempts);
    } else {
      PowGrows(2.0, attempts, 1014);
    }
  }

  /** With the default settings the delays are right up to attempt 1014 and no longer. */
  lemma DefaultsRight(attempts: nat)
    ensures DEFAULTS == Settings(1000.0, Finite(5000.0), 2.0, 0.5)
    ensures (forall random :: 0.0 <= random < 1.0 ==>
               Delay(DEFAULTS, attempts, random) == Meant(DEFAULTS, attempts, random))
       <==> attempts < 1015
  {
    hide Delay, Meant, Overflows;
    DefaultsOverflow(attempts);
    UsualDelaysRight(DEFAULTS, attempts);
  }

  /** From then on an even first decimal of the random number makes the manager wait 0 instead of 5000 ms. */
  lemma DefaultsStopWaiting(attempts: nat, random: real, k: nat)
    requires attempts >= 1015 && k < 10 && k as real <= 10.0 * random < k as real + 1.0
    ensures Delay(DEFAULTS, attempts, random) == if k in {0, 2, 4, 6, 8} then 0 else 5000
    ensures Meant(DEFAULTS, attempts, random) == 5000
  {
    DigitTells(random, k);
    hide Overflows, Delay, Shortens, Overflow, Pow;
    DefaultsOverflow(attempts);
    DelayAfterOverflow(DEFAULTS, attempts, random);
    Cut(5000.0);
    JitterRange(DEFAULTS, attempts, random);
    OverflowSize();
    PowGrows(2.0, 1015, attempts);
  }

  // ---------- bounds, whatever overflows ----------

  /** With a ceiling below 2^31 every delay lies between zero and the ceiling. */
  lemma DelayBounded(b: Settings, attempts: nat, random: real)
    requires Sane(b) && 0.0 <= random < 1.0 && b.max.Finite? && b.max.r < TWO31 as real
    ensures 0 <= Delay(b, attempts, random) <= b.max.r.Floor
  {
    hide Overflows, Moved, Jittered, Shortens;
    Cut(b.max.r);
    if Overflows(b, attempts) {
      DelayAfterOverflow(b, attempts, random);
    } else {
      ExactWithoutOverflow(b, attempts, random);
      MovedExactly(b, attempts, random);
      CappedNotNegative(Jittered(b, attempts, random), b.max);
    }
    hide Delay, ToInt32;
  }

  /** Without jitter the delays never shrink from one attempt to the next, also when they begin to overflow. */
  lemma DelaysGrow(b: Settings, attempts: nat, random: real, random': real)
    requires Sane(b) && b.factor >= 1.0 && b.jitter == 0.0 && b.max.Finite? && b.max.r < TWO31 as real
    requires 0.0 <= random < 1.0 && 0.0 <= random' < 1.0
    ensures Delay(b, attempts, random) <= Delay(b, attempts + 1, random')
  {
    hide Pow, Overflow, Delay;
    PowGrows(b.factor, attempts, attempts + 1);
    Keeps(b.ms, Pow(b.factor, attempts), Pow(b.factor, attempts + 1));
    BaseNotNegative(b, attempts);
    DelayBounded(b, attempts, random);
    DelayBounded(b, attempts + 1, random');
    Cut(b.max.r);
    if Overflows(b, attempts + 1) {
      DelayAfterOverflow(b, attempts + 1, random');
      if b.ms == 0.0 {
        NothingComes(b, attempts, random);
      }
    } else {
      ExactWithoutOverflow(b, attempts, random);
      ExactWithoutOverflow(b, attempts + 1, random');
      NoJitter(b, attempts, random);
      NoJitter(b, attempts + 1, random');
    }
  }

  lemma NothingComes(b: Settings, attempts: nat, random: real)
    requires Sane(b) && b.ms == 0.0 && b.jitter == 0.0 && 0.0 <= random < 1.0
    ensures Delay(b, attempts, random) == 0
  {
    hide Pow, Overflow, Delay;
    GrownValue(b, attempts);
    BaseNotNegative(b, attempts);
    NoJitter(b, attempts, random);
    if Overflows(b, attempts) {
      DelayAfterOverflow(b, attempts, random);
    } else {
      ExactWithoutOverflow(b, attempts, random);
    }
  }

  /** A ceiling of 2^31 or more makes a delay wrap round to a negative number. */
  lemma DelayWraps()
    ensures Delay(Settings(2147483648.0, Finite(2147483648.0), 2.0, 0.0), 0, 0.0) == -2147483648
  {
    hide Overflow;
    OverflowSize();
    assert Pow(2.0, 0) == 1.0;
  }
}
