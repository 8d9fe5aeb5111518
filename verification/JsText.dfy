/** JavaScript strings, bytes and decimal numerals, as the bundled scripts use them. */
module JsText {

  // A string is a sequence of 16-bit code units; a lone surrogate is a legal unit.
  type Unit = u: int | 0 <= u < 0x10000
  type JsString = seq<Unit>
  type Byte = b: int | 0 <= b < 0x100

  const ZERO: Unit := 48
  const COLON: Unit := 58
  // "undefined"
  const UNDEFINED: JsString := [117, 110, 100, 101, 102, 105, 110, 101, 100]

  /** The outcome of code that may throw. */
  datatype Result<+T> = Ok(value: T) | Throws

  datatype Option<+T> = None | Some(value: T)

  predicate IsDigit(u: Unit) {
    ZERO <= u <= ZERO + 9
  }

  predicate IsNumeral(s: JsString) {
    forall i :: 0 <= i < |s| ==> IsDigit(s[i])
  }

  /** The decimal text of a natural number. */
  function ToDecimal(n: nat): JsString {
    if n < 10 then [ZERO + n] else ToDecimal(n / 10) + [ZERO + n % 10]
  }

  /** `Number(s)` on a string of digits; the empty string counts as 0. */
  function FromDecimal(s: JsString): nat
    requires IsNumeral(s)
  {
    if s == [] then 0 else FromDecimal(s[..|s| - 1]) * 10 + (s[|s| - 1] - ZERO)
  }

  lemma {:induction false} DecimalRoundTrip(n: nat)
    ensures ToDecimal(n) != [] && IsNumeral(ToDecimal(n))
    ensures FromDecimal(ToDecimal(n)) == n
  {
    var s := ToDecimal(n);
    if n >= 10 {
      DecimalRoundTrip(n / 10);
      assert s[..|s| - 1] == ToDecimal(n / 10);
    } else {
      assert s[..0] == [];
    }
  }

  /** `n` divided `k` times by the base. */
  function Divided(n: int, base: int, k: nat): int
    requires base > 0
    decreases k
  {
    if k == 0 then n else Divided(n / base, base, k - 1)
  }

  /** The digits of the decimal text, counted from the right. */
  lemma {:induction false} DecimalDigits(n: nat, k: nat)
    requires k < |ToDecimal(n)|
    ensures ToDecimal(n)[|ToDecimal(n)| - 1 - k] == 48 + Divided(n, 10, k) % 10
  {
    if n >= 10 && k > 0 {
      DecimalDigits(n / 10, k - 1);
    }
  }

  /** There are none too many of them. */
  lemma {:induction false} NoLeadingZero(n: nat)
    ensures ToDecimal(n) != [] && (ToDecimal(n)[0] == 48 ==> n == 0)
  {
    if n >= 10 {
      NoLeadingZero(n / 10);
    }
  }

  /**
   * A number as far as the scripts look at it: a natural number (minus zero counts as zero), or any other, NaN among
   * them, told by the text it prints as.
   */
  datatype JsNumber = Natural(n: nat) | Other(text: JsString)

  // "NaN"
  const NAN: JsNumber := Other([78, 97, 78])

  function NumberText(x: JsNumber): JsString {
    match x
    case Natural(n) => ToDecimal(n)
    case Other(text) => text
  }

  /** NaN is printed as such. */
  lemma NanText()
    ensures NumberText(NAN) == [78, 97, 78]
  {
  }

  /**
   * What is used of the runtime's `Number` on strings, which also reads white space, hexadecimal and exponents:
   * digits are read as decimal.
   */
  ghost predicate NumberLaws(number: JsString -> JsNumber) {
    forall s :: IsNumeral(s) ==> number(s) == Natural(FromDecimal(s))
  }

  lemma {:induction false} NumberOfDecimal(number: JsString -> JsNumber, n: nat)
    requires NumberLaws(number)
    ensures number(ToDecimal(n)) == Natural(n)
  {
    DecimalRoundTrip(n);
  }

  lemma Assoc<T>(a: seq<T>, b: seq<T>, c: seq<T>)
    ensures (a + b) + c == a + (b + c)
  {
  }

  /** A string whose units all fit in a byte. */
  predicate IsByteString(s: JsString) {
    forall i :: 0 <= i < |s| ==> s[i] < 0x100
  }

  /** Storing a string's units in a byte array keeps the low eight bits of each. */
  function BytesOf(s: JsString): seq<Byte> {
    seq(|s|, i requires 0 <= i < |s| => s[i] % 0x100)
  }

  function UnitsOf(bs: seq<Byte>): JsString {
    seq(|bs|, i requires 0 <= i < |bs| => bs[i])
  }
}
