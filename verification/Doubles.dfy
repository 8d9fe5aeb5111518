/** Doubles as far as the scripts compute with them: exact below the largest one, infinite above it. */
module Doubles {

  /** A double; a result too large for one is infinite, any other is exact. */
  datatype Number = Finite(r: real) | Infinite(negative: bool) | NotANumber

  const TWO32 := 0x1_0000_0000
  const TWO31 := 0x8000_0000

  /** The product, named so that proofs can keep it closed. */
  function Times(a: real, b: real): real {
    a * b
  }

  function Pow(base: real, exponent: nat): real {
    if exponent == 0 then 1.0 else Times(base, Pow(base, exponent - 1))
  }

  /** From here on a result rounds to infinity: half a unit in the last place above the largest double. */
  function Overflow(): real {
    Pow(2.0, 1024) - Pow(2.0, 970)
  }

  // ---------- arithmetic on numbers ----------

  function Rounded(x: real): Number {
    if x >= Overflow() then Infinite(false) else if x <= -Overflow() then Infinite(true) else Finite(x)
  }

  predicate IsNegative(x: Number) {
    match x
    case Finite(r) => r < 0.0
    case Infinite(negative) => negative
    case NotANumber => false
  }

  function Multiply(x: Number, y: Number): Number {
    match (x, y)
    case (Finite(a), Finite(b)) => Rounded(Times(a, b))
    case (NotANumber, _) => NotANumber
    case (_, NotANumber) => NotANumber
    case _ => if x == Finite(0.0) || y == Finite(0.0) then NotANumber else Infinite(IsNegative(x) != IsNegative(y))
  }

  function Plus(x: Number, y: Number): Number {
    match (x, y)
    case (Finite(a), Finite(b)) => Rounded(a + b)
    case (NotANumber, _) => NotANumber
    case (_, NotANumber) => NotANumber
    case (Infinite(m), Infinite(n)) => if m == n then x else NotANumber
    case (Infinite(_), _) => x
    case _ => y
  }

  function Negated(x: Number): Number {
    match x
    case Finite(r) => Finite(-r)
    case Infinite(negative) => Infinite(!negative)
    case NotANumber => NotANumber
  }

  function Floor(x: Number): Number {
    if x.Finite? then Finite(x.r.Floor as real) else x
  }

  /** `Math.min` of two numbers. */
  function Least(x: Number, y: Number): Number {
    match (x, y)
    case (Finite(a), Finite(b)) => if a <= b then x else y
    case (NotANumber, _) => NotANumber
    case (_, NotANumber) => NotANumber
    case (Infinite(negative), _) => if negative then x else y
    case (_, Infinite(negative)) => if negative then y else x
  }

  /** The bitwise `0 | x`: cut towards zero, wrapped into the signed 32-bit range; 0 for what is not finite. */
  function ToInt32(x: Number): (n: int)
    ensures -TWO31 <= n < TWO31
  {
    match x
    case Finite(r) =>
      var n := (if r >= 0.0 then r.Floor else -(-r).Floor) % TWO32;
      if n < TWO31 then n else n - TWO32
    case _ => 0
  }

  // ---------- powers and the limit ----------

  lemma NotNegative(a: real, p: real)
    requires a >= 0.0 && p >= 0.0
    ensures Times(a, p) >= 0.0
  {
  }

  lemma Scale(f: real, t: real)
    requires 0.0 <= f <= 1.0 && t >= 0.0
    ensures 0.0 <= Times(f, t) <= t
  {
    NotNegative(f, t);
    NotNegative(1.0 - f, t);
    assert (1.0 - f) * t == t - f * t;
  }

  lemma {:induction false} PowNotNegative(base: real, exponent: nat)
    requires base >= 0.0
    ensures Pow(base, exponent) >= 0.0
  {
    if exponent > 0 {
      PowNotNegative(base, exponent - 1);
      NotNegative(base, Pow(base, exponent - 1));
    }
  }

  lemma {:induction false} PowSplit(base: real, m: nat, n: nat)
    ensures Pow(base, m + n) == Times(Pow(base, m), Pow(base, n))
  {
    if m == 0 {
      One(Pow(base, n));
    } else {
      PowSplit(base, m - 1, n);
      hide Times;
      TimesAssoc(base, Pow(base, m - 1), Pow(base, n));
    }
  }

  lemma One(a: real)
    ensures Times(1.0, a) == a == Times(a, 1.0)
  {
  }

  lemma TimesAssoc(a: real, b: real, c: real)
    ensures Times(Times(a, b), c) == Times(a, Times(b, c))
  {
  }

  lemma Keeps(a: real, p: real, q: real)
    requires a >= 0.0 && p <= q
    ensures Times(a, p) <= Times(a, q) && Times(p, a) <= Times(q, a)
  {
  }

  lemma {:induction false} PowGrows(base: real, m: nat, n: nat)
    requires base >= 1.0 && m <= n
    ensures 1.0 <= Pow(base, m) <= Pow(base, n)
    decreases n
  {
    if n > 0 {
      PowGrows(base, if m > 0 then m - 1 else 0, n - 1);
      var p := Pow(base, n - 1);
      Keeps(p, 1.0, base);
      One(p);
      if 0 < m {
        Keeps(base, Pow(base, m - 1), p);
        PowGrows(base, m - 1, m - 1);
        Keeps(Pow(base, m - 1), 1.0, base);
        One(Pow(base, m - 1));
      }
      hide Times;
    }
  }

  lemma TenDoublings(n: nat)
    ensures Pow(2.0, n + 10) == 1024.0 * Pow(2.0, n)
  {
    FiveDoublings(n);
    FiveDoublings(n + 5);
    hide Pow;
  }

  lemma FiveDoublings(n: nat)
    ensures Pow(2.0, n + 5) == 32.0 * Pow(2.0, n)
  {
    Doubling(n);
    Doubling(n + 1);
    Doubling(n + 2);
    Doubling(n + 3);
    Doubling(n + 4);
    hide Pow;
  }

  lemma Doubling(n: nat)
    ensures Pow(2.0, n + 1) == 2.0 * Pow(2.0, n)
  {
  }

  /** The powers of two about the limit. */
  lemma PowersOfTwo()
    ensures Pow(2.0, 1010) == 1099511627776.0 * Pow(2.0, 970)
    ensures Pow(2.0, 1014) == 17592186044416.0 * Pow(2.0, 970) && Pow(2.0, 1015) == 35184372088832.0 * Pow(2.0, 970)
    ensures Pow(2.0, 1024) == 18014398509481984.0 * Pow(2.0, 970)
  {
    TenDoublings(970);
    TenDoublings(980);
    TenDoublings(990);
    TenDoublings(1000);
    FiveDoublings(1010);
    Doubling(1014);
    FiveDoublings(1015);
    Doubling(1020);
    Doubling(1021);
    Doubling(1022);
    Doubling(1023);
    hide Pow;
  }

  /** The limit against 32-bit integers, and against the powers of two below it. */
  lemma OverflowSize()
    ensures Pow(2.0, 970) >= 1.0 && Overflow() >= TWO32 as real
    ensures Overflow() == 18014398509481983.0 * Pow(2.0, 970)
    ensures Pow(2.0, 1014) == 17592186044416.0 * Pow(2.0, 970)
    ensures Pow(2.0, 1015) == 35184372088832.0 * Pow(2.0, 970)
  {
    hide Pow;
    PowersOfTwo();
    PowGrows(2.0, 0, 970);
  }

  // ---------- the operations, spelled out (sections 6.1.6.1 and 7.1.6 of ECMA-262) ----------

  lemma RoundedSpelled(x: real)
    ensures x >= Overflow() ==> Rounded(x) == Infinite(false)
    ensures x <= -Overflow() ==> Rounded(x) == Infinite(true)
    ensures -Overflow() < x < Overflow() ==> Rounded(x) == Finite(x)
  {
    OverflowSize();
    hide Overflow;
  }

  lemma MultiplySpelled(x: Number, y: Number)
    ensures x.Finite? && y.Finite? ==> Multiply(x, y) == Rounded(Times(x.r, y.r))
    ensures y.Infinite? ==>
              Multiply(x, y) == match x
                                case NotANumber => NotANumber
                                case Infinite(negative) => Infinite(negative != y.negative)
                                case Finite(r) => if r == 0.0 then NotANumber else Infinite((r < 0.0) != y.negative)
    ensures y.Infinite? ==> Multiply(y, x) == Multiply(x, y)
    ensures y == NotANumber ==> Multiply(x, y) == Multiply(y, x) == NotANumber
  {
    hide Rounded, Times;
  }

  lemma PowersSpelled(a: real, b: real, n: nat)
    ensures Times(a, b) == a * b && Pow(a, 0) == 1.0 && Pow(a, n + 1) == a * Pow(a, n)
  {
  }

  lemma PlusSpelled(x: Number, y: Number)
    ensures Plus(x, y) == Plus(y, x)
    ensures x.Finite? && y.Finite? ==> Plus(x, y) == Rounded(x.r + y.r)
    ensures x.Infinite? && y.Infinite? ==> Plus(x, y) == if x == y then x else NotANumber
    ensures x.Infinite? && y.Finite? ==> Plus(x, y) == x
    ensures x == NotANumber ==> Plus(x, y) == NotANumber
  {
    hide Overflow;
  }

  lemma LeastSpelled(x: Number, y: Number)
    ensures Least(x, y) == Least(y, x)
    ensures x.Finite? && y.Finite? ==> Least(x, y) == if x.r < y.r then x else y
    ensures x == Infinite(true) && y != NotANumber ==> Least(x, y) == x
    ensures x == Infinite(false) ==> Least(x, y) == y
    ensures x == NotANumber ==> Least(x, y) == NotANumber
  {
  }

  /** The cut to 32 bits drops the fraction and a multiple of 2^32. */
  lemma ToInt32Spelled(r: real)
    requires r >= 0.0
    ensures (ToInt32(Finite(r)) - r.Floor) % 4294967296 == 0 && (ToInt32(Finite(-r)) + r.Floor) % 4294967296 == 0
    ensures ToInt32(Infinite(false)) == ToInt32(Infinite(true)) == ToInt32(NotANumber) == 0
  {
    Wrapped(r.Floor);
    Wrapped(-r.Floor);
    assert r > 0.0 ==> -(-(-r)).Floor == -r.Floor;
  }

  lemma Wrapped(n: int)
    ensures (n % TWO32 - n) % 4294967296 == 0 && (n % TWO32 - TWO32 - n) % 4294967296 == 0
  {
  }
}
