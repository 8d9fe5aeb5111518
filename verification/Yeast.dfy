/** Base-64 numerals of the clock, and the ids made from them to defeat caches. */
module Yeast {
  import opened JsText

  const DOT: Unit := 46

  /** The digits: 0-9, A-Z, a-z, `-` and `_`. */
  function Digit(i: nat): Unit
    requires i < 64
  {
    if i < 10 then 48 + i else if i < 36 then 65 + (i - 10) else if i < 62 then 97 + (i - 36)
    else if i == 62 then 45 else 95
  }

  predicate IsDigitUnit(u: Unit) {
    48 <= u <= 57 || 65 <= u <= 90 || 97 <= u <= 122 || u == 45 || u == 95
  }

  function DigitNumber(u: Unit): nat
    requires IsDigitUnit(u)
  {
    if u == 45 then 62 else if u == 95 then 63
    else if u <= 57 then u - 48 else if u <= 90 then u - 65 + 10 else u - 97 + 36
  }

  function Encode(num: nat): JsString {
    if num < 64 then [Digit(num)] else Encode(num / 64) + [Digit(num % 64)]
  }

  predicate IsNumeral64(s: JsString) {
    forall i :: 0 <= i < |s| ==> IsDigitUnit(s[i])
  }

  /** The value of a numeral; `None` stands for NaN, which any unit outside the alphabet leads to. */
  function Decode(s: JsString): Option<nat> {
    if s == [] then Some(0) else Appended(Decode(s[..|s| - 1]), s[|s| - 1])
  }

  function Appended(decoded: Option<nat>, u: Unit): Option<nat> {
    if decoded.None? || !IsDigitUnit(u) then None else Some(decoded.value * 64 + DigitNumber(u))
  }

  method EncodeLoop(n: nat) returns (encoded: JsString)
    ensures encoded == Encode(n)
  {
    var num := n / 64;
    encoded := [Digit(n % 64)];
    while num > 0
      invariant Encode(n) == (if num > 0 then Encode(num) else []) + encoded
    {
      ghost var more := if num / 64 > 0 then Encode(num / 64) else [];
      assert Encode(num) == more + [Digit(num % 64)];
      Assoc(more, [Digit(num % 64)], encoded);
      encoded := [Digit(num % 64)] + encoded;
      num := num / 64;
    }
    assert [] + encoded == encoded;
  }

  method DecodeLoop(s: JsString) returns (decoded: Option<nat>)
    ensures decoded == Decode(s)
  {
    decoded := Some(0);
    var i := 0;
    while i < |s|
      invariant 0 <= i <= |s| && decoded == Decode(s[..i])
    {
      assert s[..i + 1][..i] == s[..i];
      decoded := Appended(decoded, s[i]);
      i := i + 1;
    }
    assert s[..i] == s;
  }

  lemma {:induction false} NumeralRoundTrip(n: nat)
    ensures Encode(n) != [] && IsNumeral64(Encode(n)) && Decode(Encode(n)) == Some(n)
  {
    var s := Encode(n);
    if n >= 64 {
      NumeralRoundTrip(n / 64);
      assert s[..|s| - 1] == Encode(n / 64);
    } else {
      assert s[..0] == [];
    }
  }

  /** The digits of a numeral, counted from the right. */
  lemma {:induction false} NumeralDigits(n: nat, k: nat)
    requires k < |Encode(n)|
    ensures Encode(n)[|Encode(n)| - 1 - k] == Digit(Divided(n, 64, k) % 64)
  {
    if n >= 64 && k > 0 {
      NumeralDigits(n / 64, k - 1);
    }
  }

  /** The digits run from `0` to `9`, from `A` to `Z` and from `a` to `z`, and end in `-` and `_`. */
  lemma DigitsRun(i: nat)
    requires i < 64
    ensures Digit(0) == 48 && Digit(10) == 65 && Digit(36) == 97 && Digit(62) == 45 && Digit(63) == 95
    ensures i !in {9, 35, 61, 62, 63} ==> Digit(i + 1) == Digit(i) + 1
  {
  }

  /** The units that have a value are exactly the digits, and their value is that of the digit. */
  lemma DigitUnits(u: Unit)
    ensures IsDigitUnit(u) <==> exists i: nat :: i < 64 && Digit(i) == u
    ensures IsDigitUnit(u) ==> DigitNumber(u) < 64 && Digit(DigitNumber(u)) == u
  {
    if IsDigitUnit(u) {
      assert Digit(DigitNumber(u)) == u;
    }
  }

  /** There are none too many of them. */
  lemma {:induction false} NoLeadingZero(n: nat)
    ensures Encode(n) != [] && (Encode(n)[0] == 48 ==> n == 0)
  {
    if n >= 64 {
      NoLeadingZero(n / 64);
    }
  }

  /** Decoding fails exactly on strings with a unit outside the alphabet. */
  lemma {:induction false} DecodesNumerals(s: JsString)
    ensures Decode(s).Some? <==> IsNumeral64(s)
  {
    if s != [] {
      DecodesNumerals(s[..|s| - 1]);
      assert forall i :: 0 <= i < |s| - 1 ==> s[i] == s[..|s| - 1][i];
    }
  }

  // ---------- ids ----------

  /** The module-level state: the numeral of the last clock reading and the counter within it. */
  datatype State = State(prev: Option<JsString>, seed: nat)

  const INITIAL := State(None, 0)

  function Next(s: State, now: nat): (JsString, State) {
    var text := Encode(now);
    if s.prev != Some(text) then (text, State(Some(text), 0))
    else (text + [DOT] + Encode(s.seed), State(s.prev, s.seed + 1))
  }

  class Generator {
    var prev: Option<JsString>
    var seed: nat

    ghost function View(): State
      reads this
    {
      State(prev, seed)
    }

    constructor ()
      ensures View() == INITIAL
    {
      prev, seed := None, 0;
    }

    method Yeast(now: nat) returns (id: JsString)
      modifies this
      ensures (id, View()) == Next(old(View()), now)
    {
      id := EncodeLoop(now);
      if prev != Some(id) {
        seed, prev := 0, Some(id);
      } else {
        var counter := EncodeLoop(seed);
        seed := seed + 1;
        id := id + [DOT] + counter;
      }
    }
  }

  /** The state after, and the ids returned by, one call at each reading of the clock. */
  function Run(clock: seq<nat>): (r: (seq<JsString>, State))
    ensures |r.0| == |clock|
  {
    if clock == [] then ([], INITIAL)
    else
      var (ids, s) := Run(clock[..|clock| - 1]);
      var (id, s') := Next(s, clock[|clock| - 1]);
      (ids + [id], s')
  }

  /** How many calls just before call `k` read the same time. */
  function Repeats(clock: seq<nat>, k: nat): nat
    requires k < |clock|
  {
    if k > 0 && clock[k - 1] == clock[k] then Repeats(clock, k - 1) + 1 else 0
  }

  function IdOf(time: nat, repeats: nat): JsString {
    if repeats == 0 then Encode(time) else Encode(time) + [DOT] + Encode(repeats - 1)
  }

  /** The ids of three calls at one time: the numeral of the time, then with a dot and a counter from 0 on. */
  lemma ThreeIds(time: nat)
    ensures Run([time, time, time]).0 == [Encode(time), Encode(time) + [46, 48], Encode(time) + [46, 49]]
  {
    hide Encode;
    var two, three := [time, time], [time, time, time];
    assert three[..2] == two && two[..1] == [time] && [time][..0] == [];
    assert Run([]) == ([], INITIAL) && Next(INITIAL, time) == (Encode(time), State(Some(Encode(time)), 0));
    var e := Encode(time);
    assert Run([time]) == ([] + [e], State(Some(e), 0));
    assert [] + [e] == [e];
    OneDigit();
    assert e + [46] + [48] == e + [46, 48] && e + [46] + [49] == e + [46, 49];
    assert Run(two) == ([e] + [e + [46, 48]], State(Some(e), 1));
    assert Run(three) == ([e] + [e + [46, 48]] + [e + [46, 49]], State(Some(e), 2));
  }

  lemma OneDigit()
    ensures Encode(0) == [48] && Encode(1) == [49]
  {
  }

  /** The index of the first dot, or the length when there is none. */
  function DotIndex(s: JsString): nat {
    if s == [] || s[0] == DOT then 0 else 1 + DotIndex(s[1..])
  }

  lemma {:induction false} DotIndexOf(before: JsString, after: JsString)
    requires DOT !in before && (after == [] || after[0] == DOT)
    ensures DotIndex(before + after) == |before|
  {
    if before == [] {
      assert before + after == after;
    } else {
      assert (before + after)[1..] == before[1..] + after;
      DotIndexOf(before[1..], after);
    }
  }

  /** The clock numeral is what stands before the first dot, and there is a dot when there is a counter. */
  lemma FirstDot(t: nat, p: nat)
    ensures var id, n := IdOf(t, p), |Encode(t)|;
            && DotIndex(id) == n <= |id| && id[..n] == Encode(t) && (n < |id| <==> p > 0)
  {
    NumeralRoundTrip(t);
    hide Encode, Decode, DotIndex;
    var counter := if p == 0 then [] else [DOT] + Encode(p - 1);
    DotIndexOf(Encode(t), counter);
    assert IdOf(t, p) == Encode(t) + counter;
  }

  lemma AfterDot(t: nat, p: nat)
    ensures var id, n := IdOf(t, p), |Encode(t)|; p > 0 ==> n < |id| && id[n + 1..] == Encode(p - 1)
  {
    hide Encode;
  }

  /** Equal ids have the same clock numeral, and both or neither have a counter. */
  lemma SameClock(t: nat, p: nat, t': nat, p': nat)
    requires IdOf(t, p) == IdOf(t', p')
    ensures Encode(t) == Encode(t') && (p > 0 <==> p' > 0)
  {
    FirstDot(t, p);
    FirstDot(t', p');
    hide IdOf, Encode, DotIndex;
  }

  lemma IdOfInjective(t: nat, p: nat, t': nat, p': nat)
    ensures IdOf(t, p) == IdOf(t', p') <==> t == t' && p == p'
  {
    hide IdOf, Encode, Decode, IsNumeral64;
    if IdOf(t, p) == IdOf(t', p') {
      SameClock(t, p, t', p');
      NumeralRoundTrip(t);
      NumeralRoundTrip(t');
      AfterDot(t, p);
      AfterDot(t', p');
      if p > 0 {
        NumeralRoundTrip(p - 1);
        NumeralRoundTrip(p' - 1);
      }
    }
  }

  lemma {:induction false} RepeatsOfPrefix(clock: seq<nat>, n: nat, k: nat)
    requires k < n <= |clock|
    ensures Repeats(clock[..n], k) == Repeats(clock, k)
  {
    if k > 0 {
      RepeatsOfPrefix(clock, n, k - 1);
    }
  }

  /** One call after a reading of `last` that had been repeated `repeats` times. */
  lemma NextClosedForm(last: nat, repeats: nat, now: nat)
    ensures var again := if last == now then repeats + 1 else 0;
            Next(State(Some(Encode(last)), repeats), now) == (IdOf(now, again), State(Some(Encode(now)), again))
    ensures Next(INITIAL, now) == (IdOf(now, 0), State(Some(Encode(now)), 0))
  {
    NumeralRoundTrip(last);
    NumeralRoundTrip(now);
    hide Encode, Decode;
  }

  lemma {:induction false} RunClosedForm(clock: seq<nat>)
    ensures forall k :: 0 <= k < |clock| ==> Run(clock).0[k] == IdOf(clock[k], Repeats(clock, k))
    ensures var n := |clock|;
            Run(clock).1 == if n == 0 then INITIAL
                            else State(Some(Encode(clock[n - 1])), Repeats(clock, n - 1))
  {
    hide Next, IdOf, Encode, Repeats;
    if clock != [] {
      var n := |clock| - 1;
      RunClosedForm(clock[..n]);
      forall k | 0 <= k < n ensures Repeats(clock[..n], k) == Repeats(clock, k) {
        RepeatsOfPrefix(clock, n, k);
      }
      RepeatsOne(clock, n);
      NextClosedForm(if n > 0 then clock[n - 1] else 0, if n > 0 then Repeats(clock, n - 1) else 0, clock[n]);
    }
  }

  lemma RepeatsOne(clock: seq<nat>, k: nat)
    requires k < |clock|
    ensures Repeats(clock, k) == if k > 0 && clock[k - 1] == clock[k] then Repeats(clock, k - 1) + 1 else 0
  {
  }

  predicate Distinct(ids: seq<JsString>) {
    forall i, j :: 0 <= i < j < |ids| ==> ids[i] != ids[j]
  }

  /** Once the clock has moved off a time it does not come back to it; a non-decreasing clock is like this. */
  predicate NeverReturns(clock: seq<nat>) {
    forall i, j, k :: 0 <= i < j < k < |clock| && clock[i] == clock[k] ==> clock[j] == clock[i]
  }

  lemma {:induction false} RepeatsInBlock(clock: seq<nat>, i: nat, k: nat)
    requires i <= k < |clock| && forall j :: i <= j <= k ==> clock[j] == clock[i]
    ensures Repeats(clock, k) == Repeats(clock, i) + (k - i)
  {
    if i < k {
      RepeatsInBlock(clock, i, k - 1);
    }
  }

  lemma {:induction false} BlockStart(clock: seq<nat>, k: nat) returns (start: nat)
    requires k < |clock|
    ensures start <= k && Repeats(clock, start) == 0
    ensures forall j :: start <= j <= k ==> clock[j] == clock[k]
  {
    if k > 0 && clock[k - 1] == clock[k] {
      start := BlockStart(clock, k - 1);
    } else {
      start := k;
    }
  }

  lemma SteadyClockIds(clock: seq<nat>, i: nat, k: nat)
    requires NeverReturns(clock) && i < k < |clock|
    ensures IdOf(clock[i], Repeats(clock, i)) != IdOf(clock[k], Repeats(clock, k))
  {
    hide IdOf;
    IdOfInjective(clock[i], Repeats(clock, i), clock[k], Repeats(clock, k));
    if clock[i] == clock[k] {
      RepeatsInBlock(clock, i, k);
    }
  }

  lemma ReturningClockIds(clock: seq<nat>) returns (first: nat, second: nat)
    requires !NeverReturns(clock)
    ensures first < second < |clock|
    ensures IdOf(clock[first], Repeats(clock, first)) == IdOf(clock[second], Repeats(clock, second))
  {
    var i, j, k :| 0 <= i < j < k < |clock| && clock[i] == clock[k] && clock[j] != clock[i];
    first := BlockStart(clock, i);
    second := BlockStart(clock, k);
    assert j < second;
  }

  /** All ids of a run differ exactly when the clock never comes back to a time it has left. */
  lemma DistinctIds(clock: seq<nat>)
    ensures Distinct(Run(clock).0) <==> NeverReturns(clock)
  {
    hide Run, IdOf, NeverReturns;
    RunClosedForm(clock);
    var ids := Run(clock).0;
    if NeverReturns(clock) {
      forall i, k | 0 <= i < k < |ids| ensures ids[i] != ids[k] {
        SteadyClockIds(clock, i, k);
      }
    } else {
      var first, second := ReturningClockIds(clock);
      assert ids[first] == ids[second];
    }
  }

  lemma MonotoneClock(clock: seq<nat>)
    requires forall i, j :: 0 <= i < j < |clock| ==> clock[i] <= clock[j]
    ensures Distinct(Run(clock).0)
  {
    DistinctIds(clock);
  }
}
