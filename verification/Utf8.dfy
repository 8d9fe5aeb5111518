/** UTF-16 to UTF-8 and back (section 3 of RFC 3629, sections 2.1 and 2.2 of RFC 2781). */
module Utf8 {
  import opened JsText

  // The masks and shifts of the source are written as arithmetic: on a byte `e`, `(224 & e) == 192` is the range
  // 0xC0..0xDF and `31 & e` is then `e - 0xC0`; shifting right is a quotient; `|` of disjoint bits is a sum.
  type CodePoint = c: int | 0 <= c <= 0x10FFFF

  const REPLACEMENT: CodePoint := 0xFFFD

  // ---------- UTF-16 code units and code points ----------

  predicate IsHigh(u: Unit) {
    0xD800 <= u <= 0xDBFF
  }

  predicate IsLow(u: Unit) {
    0xDC00 <= u <= 0xDFFF
  }

  function Combine(hi: Unit, lo: Unit): CodePoint
    requires IsHigh(hi) && IsLow(lo)
  {
    (hi - 0xD800) * 0x400 + (lo - 0xDC00) + 0x10000
  }

  /** The code points of a string: a high unit followed by a low one is a pair, any other unit stands alone. */
  function Ucs2Decode(s: JsString): seq<CodePoint> {
    if s == [] then []
    else if IsHigh(s[0]) && |s| > 1 && IsLow(s[1]) then [Combine(s[0], s[1])] + Ucs2Decode(s[2..])
    else [s[0]] + Ucs2Decode(s[1..])
  }

  method Ucs2DecodeLoop(s: JsString) returns (output: seq<CodePoint>)
    ensures output == Ucs2Decode(s)
  {
    hide Combine;
    output := [];
    var counter := 0;
    while counter < |s|
      invariant 0 <= counter <= |s|
      invariant output + Ucs2Decode(s[counter..]) == Ucs2Decode(s)
    {
      ghost var rest := s[counter..];
      var value := s[counter];
      counter := counter + 1;
      if 0xD800 <= value <= 0xDBFF && counter < |s| {
        var extra := s[counter];
        counter := counter + 1;
        if 0xDC00 <= extra <= 0xDFFF {
          assert s[counter..] == rest[2..];
          Assoc(output, [Combine(value, extra)], Ucs2Decode(s[counter..]));
          output := output + [Combine(value, extra)];
        } else {
          counter := counter - 1;
          assert s[counter..] == rest[1..];
          Assoc(output, [value], Ucs2Decode(s[counter..]));
          output := output + [value];
        }
      } else {
        assert s[counter..] == rest[1..];
        Assoc(output, [value], Ucs2Decode(s[counter..]));
        output := output + [value];
      }
    }
  }

  function UnitsOfCodePoint(c: CodePoint): JsString {
    if c > 0xFFFF then [0xD800 + (c - 0x10000) / 0x400, 0xDC00 + (c - 0x10000) % 0x400] else [c]
  }

  function Ucs2Encode(cs: seq<CodePoint>): JsString {
    if cs == [] then [] else UnitsOfCodePoint(cs[0]) + Ucs2Encode(cs[1..])
  }

  predicate IsSurrogate(c: CodePoint) {
    0xD800 <= c <= 0xDFFF
  }

  // ---------- encoding ----------

  function Continuation(c: nat): Unit {
    0x80 + c % 64
  }

  /** The UTF-8 bytes of one code point, without the surrogate check. */
  function Shortest(c: CodePoint): JsString {
    if c < 0x80 then [c]
    else if c < 0x800 then [0xC0 + c / 64, Continuation(c)]
    else if c < 0x10000 then [0xE0 + c / 4096, Continuation(c / 64), Continuation(c)]
    else [0xF0 + c / 262144, Continuation(c / 4096), Continuation(c / 64), Continuation(c)]
  }

  /** The code point that the non-strict codec puts in the place of `c`. */
  function Scalar(c: CodePoint): CodePoint {
    if IsSurrogate(c) then REPLACEMENT else c
  }

  function Scalars(cs: seq<CodePoint>): seq<CodePoint> {
    seq(|cs|, i requires 0 <= i < |cs| => Scalar(cs[i]))
  }

  /** The concatenated shortest forms of a list of code points. */
  function ShortestAll(cs: seq<CodePoint>): JsString {
    if cs == [] then [] else Shortest(cs[0]) + ShortestAll(cs[1..])
  }

  predicate HasSurrogate(cs: seq<CodePoint>) {
    exists i :: 0 <= i < |cs| && IsSurrogate(cs[i])
  }

  function Encode(s: JsString, strict: bool): Result<JsString> {
    var cs := Ucs2Decode(s);
    if strict && HasSurrogate(cs) then Throws else Ok(ShortestAll(Scalars(cs)))
  }

  /** One code point, as the encoder writes it. */
  method EncodeCodePoint(codePoint: CodePoint, strict: bool) returns (r: Result<JsString>)
    ensures r == if strict && IsSurrogate(codePoint) then Throws else Ok(Shortest(Scalar(codePoint)))
  {
    if codePoint < 0x80 {
      return Ok([codePoint]);
    }
    var c, symbol := codePoint, [];
    if c < 0x800 {
      symbol := [0xC0 + c / 64];
    } else if c < 0x10000 {
      if IsSurrogate(c) {
        if strict {
          return Throws;
        }
        c := 0xFFFD;
      }
      symbol := [0xE0 + c / 4096];
      symbol := symbol + [Continuation(c / 64)];
    } else {
      symbol := [0xF0 + c / 262144];
      symbol := symbol + [Continuation(c / 4096)];
      symbol := symbol + [Continuation(c / 64)];
    }
    symbol := symbol + [Continuation(c)];
    assert symbol == Shortest(c);
    return Ok(symbol);
  }

  method EncodeLoop(s: JsString, strict: bool) returns (r: Result<JsString>)
    ensures r == Encode(s, strict)
  {
    hide Shortest, Scalar;
    var codePoints := Ucs2DecodeLoop(s);
    var index, byteString := 0, [];
    while index < |codePoints|
      invariant 0 <= index <= |codePoints|
      invariant strict ==> !HasSurrogate(codePoints[..index])
      invariant byteString + ShortestAll(Scalars(codePoints)[index..]) == ShortestAll(Scalars(codePoints))
    {
      var symbol := EncodeCodePoint(codePoints[index], strict);
      if symbol.Throws? {
        return Throws;
      }
      ghost var rest := Scalars(codePoints)[index..];
      assert rest[1..] == Scalars(codePoints)[index + 1..];
      Assoc(byteString, symbol.value, ShortestAll(rest[1..]));
      byteString := byteString + symbol.value;
      index := index + 1;
    }
    assert codePoints[..index] == codePoints && Scalars(codePoints)[index..] == [];
    assert byteString + [] == byteString;
    return Ok(byteString);
  }

  // ---------- decoding ----------

  /** A decoded symbol: the code point before the surrogate check, and the number of bytes it took. */
  datatype Symbol = Symbol(raw: CodePoint, length: nat)

  function ContinuationAt(g: seq<CodePoint>, i: nat): Result<nat> {
    if i >= |g| then Throws
    else
      var t: int := g[i] % 256;
      if 0x80 <= t < 0xC0 then Ok(t - 0x80) else Throws
  }

  /** The first symbol of a non-empty byte string; overlong forms and values above U+10FFFF throw. */
  function RawSymbol(g: seq<CodePoint>): Result<Symbol>
    requires g != []
  {
    var e: int := g[0] % 256;
    if e < 0x80 then Ok(Symbol(e, 1))
    else if 0xC0 <= e < 0xE0 then
      var n := ContinuationAt(g, 1);
      if n.Throws? then Throws else
      var i := (e - 0xC0) * 64 + n.value;
      if i >= 128 then Ok(Symbol(i, 2)) else Throws
    else if 0xE0 <= e < 0xF0 then
      var n, r := ContinuationAt(g, 1), ContinuationAt(g, 2);
      if n.Throws? || r.Throws? then Throws else
      var i := (e - 0xE0) * 4096 + n.value * 64 + r.value;
      if i >= 2048 then Ok(Symbol(i, 3)) else Throws
    else if 0xF0 <= e < 0xF8 then
      var n, r, o := ContinuationAt(g, 1), ContinuationAt(g, 2), ContinuationAt(g, 3);
      if n.Throws? || r.Throws? || o.Throws? then Throws else
      var i := (e - 0xF0) * 262144 + n.value * 4096 + r.value * 64 + o.value;
      if 65536 <= i <= 1114111 then Ok(Symbol(i, 4)) else Throws
    else Throws
  }

  lemma RawSymbolLength(g: seq<CodePoint>)
    requires g != [] && RawSymbol(g).Ok?
    ensures 0 < RawSymbol(g).value.length <= |g|
  {
  }

  lemma ContinuationShift(g: seq<CodePoint>, start: nat, i: nat)
    requires start <= |g|
    ensures ContinuationAt(g[start..], i) == ContinuationAt(g, start + i)
  {
  }

  function DecodeSymbols(g: seq<CodePoint>, strict: bool): Result<seq<CodePoint>>
    decreases |g|
  {
    if g == [] then Ok([])
    else
      var first := RawSymbol(g);
      if first.Throws? || (strict && IsSurrogate(first.value.raw)) then Throws
      else
        RawSymbolLength(g);
        var rest := DecodeSymbols(g[first.value.length..], strict);
        if rest.Throws? then Throws else Ok([Scalar(first.value.raw)] + rest.value)
  }

  function Decode(s: JsString, strict: bool): Result<JsString> {
    var codes := DecodeSymbols(Ucs2Decode(s), strict);
    if codes.Throws? then Throws else Ok(Ucs2Encode(codes.value))
  }

  /** The decoder's module-level byte array, its length and the cursor into it. */
  class Decoder {
    var byteArray: seq<CodePoint>
    var byteCount: nat
    var byteIndex: nat

    ghost predicate Valid()
      reads this
    {
      byteCount == |byteArray| && byteIndex <= byteCount
    }

    constructor (s: JsString)
      ensures Valid() && byteArray == Ucs2Decode(s) && byteIndex == 0
    {
      var codes := Ucs2DecodeLoop(s);
      byteArray, byteCount, byteIndex := codes, |codes|, 0;
    }

    method ReadContinuationByte() returns (r: Result<nat>)
      requires Valid()
      modifies this`byteIndex
      ensures Valid()
      ensures r == ContinuationAt(byteArray, old(byteIndex))
      ensures r.Ok? ==> byteIndex == old(byteIndex) + 1
    {
      if byteIndex >= byteCount {
        return Throws;
      }
      var continuationByte: int := byteArray[byteIndex] as int % 256;
      byteIndex := byteIndex + 1;
      if 0x80 <= continuationByte < 0xC0 {
        return Ok(continuationByte - 0x80);
      }
      return Throws;
    }

    /** Reads one symbol at the cursor; `None` at the end of the input. */
    method DecodeSymbol(strict: bool) returns (r: Result<Option<CodePoint>>)
      requires Valid()
      modifies this`byteIndex
      ensures Valid()
      ensures old(byteIndex) == byteCount ==> r == Ok(None) && byteIndex == old(byteIndex)
      ensures old(byteIndex) < byteCount ==>
                var first := RawSymbol(byteArray[old(byteIndex)..]);
                if first.Throws? || (strict && IsSurrogate(first.value.raw)) then r == Throws
                else r == Ok(Some(Scalar(first.value.raw))) && byteIndex == old(byteIndex) + first.value.length
    {
      hide ContinuationAt, RawSymbol;
      if byteIndex == byteCount {
        return Ok(None);
      }
      ghost var g := byteArray[byteIndex..];
      RawOneOrNone(g);
      ContinuationShift(byteArray, byteIndex, 1);
      ContinuationShift(byteArray, byteIndex, 2);
      ContinuationShift(byteArray, byteIndex, 3);
      var byte1: int := byteArray[byteIndex] % 256;
      byteIndex := byteIndex + 1;
      if byte1 < 0x80 {
        return Ok(Some(byte1));
      }
      if 0xC0 <= byte1 < 0xE0 {
        RawTwo(g);
        var byte2 := ReadContinuationByte();
        if byte2.Throws? { return Throws; }
        var codePoint := (byte1 - 0xC0) * 64 + byte2.value;
        if codePoint >= 128 { return Ok(Some(codePoint)); }
        return Throws;
      }
      if 0xE0 <= byte1 < 0xF0 {
        RawThree(g);
        var byte2 := ReadContinuationByte();
        if byte2.Throws? { return Throws; }
        var byte3 := ReadContinuationByte();
        if byte3.Throws? { return Throws; }
        var codePoint := (byte1 - 0xE0) * 4096 + byte2.value * 64 + byte3.value;
        if codePoint >= 2048 {
          if !IsSurrogate(codePoint) { return Ok(Some(codePoint)); }
          if strict { return Throws; }
          return Ok(Some(0xFFFD));
        }
        return Throws;
      }
      if 0xF0 <= byte1 < 0xF8 {
        RawFour(g);
        var byte2 := ReadContinuationByte();
        if byte2.Throws? { return Throws; }
        var byte3 := ReadContinuationByte();
        if byte3.Throws? { return Throws; }
        var byte4 := ReadContinuationByte();
        if byte4.Throws? { return Throws; }
        var codePoint: int := (byte1 - 0xF0) * 262144 + byte2.value * 4096 + byte3.value * 64 + byte4.value;
        if 65536 <= codePoint <= 1114111 { return Ok(Some(codePoint)); }
      }
      return Throws;
    }
  }

  lemma RawOneOrNone(g: seq<CodePoint>)
    requires g != []
    ensures g[0] % 256 < 0x80 ==> RawSymbol(g) == Ok(Symbol(g[0] % 256, 1))
    ensures 0x80 <= g[0] % 256 < 0xC0 || g[0] % 256 >= 0xF8 ==> RawSymbol(g) == Throws
  {
  }

  lemma RawTwo(g: seq<CodePoint>)
    requires g != [] && 0xC0 <= g[0] % 256 < 0xE0
    ensures ContinuationAt(g, 1).Throws? ==> RawSymbol(g) == Throws
    ensures ContinuationAt(g, 1).Ok? ==>
              var i := (g[0] % 256 - 0xC0) * 64 + ContinuationAt(g, 1).value;
              && 0 <= i < 0x800 && !IsSurrogate(i)
              && RawSymbol(g) == if i >= 128 then Ok(Symbol(i, 2)) else Throws
  {
  }

  lemma RawThree(g: seq<CodePoint>)
    requires g != [] && 0xE0 <= g[0] % 256 < 0xF0
    ensures ContinuationAt(g, 1).Throws? || ContinuationAt(g, 2).Throws? ==> RawSymbol(g) == Throws
    ensures ContinuationAt(g, 1).Ok? && ContinuationAt(g, 2).Ok? ==>
              var i := (g[0] % 256 - 0xE0) * 4096 + ContinuationAt(g, 1).value * 64 + ContinuationAt(g, 2).value;
              0 <= i < 0x10000 && RawSymbol(g) == if i >= 2048 then Ok(Symbol(i, 3)) else Throws
  {
  }

  lemma RawFour(g: seq<CodePoint>)
    requires g != [] && 0xF0 <= g[0] % 256 < 0xF8
    ensures ContinuationAt(g, 1).Throws? || ContinuationAt(g, 2).Throws? || ContinuationAt(g, 3).Throws? ==>
              RawSymbol(g) == Throws
    ensures ContinuationAt(g, 1).Ok? && ContinuationAt(g, 2).Ok? && ContinuationAt(g, 3).Ok? ==>
              var i: int := (g[0] % 256 - 0xF0) * 262144 + ContinuationAt(g, 1).value * 4096
                            + ContinuationAt(g, 2).value * 64 + ContinuationAt(g, 3).value;
              RawSymbol(g) == if 65536 <= i <= 1114111 then Ok(Symbol(i, 4)) else Throws
  {
  }

  method DecodeLoop(byteString: JsString, strict: bool) returns (r: Result<JsString>)
    ensures r == Decode(byteString, strict)
  {
    hide RawSymbol;
    var decoder := new Decoder(byteString);
    var codePoints: seq<CodePoint> := [];
    ghost var all := Ucs2Decode(byteString);
    PrependNil(DecodeSymbols(all, strict));
    assert all[0..] == all;
    while true
      invariant decoder.Valid() && decoder.byteArray == all
      invariant DecodeSymbols(all, strict) == Prepend(codePoints, DecodeSymbols(all[decoder.byteIndex..], strict))
      decreases |all| - decoder.byteIndex
    {
      ghost var start := decoder.byteIndex;
      var symbol := decoder.DecodeSymbol(strict);
      if symbol.Throws? {
        return Throws;
      }
      if symbol.value.None? {
        break;
      }
      RawSymbolLength(all[start..]);
      assert all[start..][decoder.byteIndex - start..] == all[decoder.byteIndex..];
      PrependStep(codePoints, symbol.value.value, DecodeSymbols(all[decoder.byteIndex..], strict));
      codePoints := codePoints + [symbol.value.value];
    }
    assert all[decoder.byteIndex..] == [] && codePoints + [] == codePoints;
    var text := Ucs2EncodeLoop(codePoints);
    return Ok(text);
  }

  ghost function Prepend(done: seq<CodePoint>, rest: Result<seq<CodePoint>>): Result<seq<CodePoint>> {
    if rest.Throws? then Throws else Ok(done + rest.value)
  }

  lemma PrependNil(rest: Result<seq<CodePoint>>)
    ensures Prepend([], rest) == rest
  {
    if rest.Ok? {
      assert [] + rest.value == rest.value;
    }
  }

  lemma PrependStep(done: seq<CodePoint>, c: CodePoint, rest: Result<seq<CodePoint>>)
    ensures Prepend(done, Prepend([c], rest)) == Prepend(done + [c], rest)
  {
    if rest.Ok? {
      assert done + ([c] + rest.value) == done + [c] + rest.value;
    }
  }

  lemma Ucs2EncodeStep(codes: seq<CodePoint>, index: nat)
    requires index < |codes|
    ensures Ucs2Encode(codes[index..]) == UnitsOfCodePoint(codes[index]) + Ucs2Encode(codes[index + 1..])
  {
    hide UnitsOfCodePoint;
    assert codes[index..][1..] == codes[index + 1..];
  }

  lemma Ucs2EncodeNone(codes: seq<CodePoint>)
    ensures Ucs2Encode(codes[|codes|..]) == []
  {
  }

  method Ucs2EncodeLoop(codes: seq<CodePoint>) returns (output: JsString)
    ensures output == Ucs2Encode(codes)
  {
    hide Ucs2Encode;
    output := [];
    assert codes[0..] == codes;
    var index := 0;
    while index < |codes|
      invariant 0 <= index <= |codes|
      invariant output + Ucs2Encode(codes[index..]) == Ucs2Encode(codes)
    {
      ghost var before, rest := output, Ucs2Encode(codes[index + 1..]);
      Ucs2EncodeStep(codes, index);
      var value: nat := codes[index];
      if value > 0xFFFF {
        value := value - 0x10000;
        output := output + [0xD800 + value / 0x400];
        value := 0xDC00 + value % 0x400;
        assert output + [value] == before + UnitsOfCodePoint(codes[index]);
      }
      output := output + [value];
      assert output == before + UnitsOfCodePoint(codes[index]);
      hide UnitsOfCodePoint;
      Assoc(before, UnitsOfCodePoint(codes[index]), rest);
      index := index + 1;
    }
    Ucs2EncodeNone(codes);
  }

  // ---------- one symbol ----------

  lemma ShortestIsBytes(c: CodePoint)
    ensures IsByteString(Shortest(c)) && 1 <= |Shortest(c)| <= 4
  {
  }

  lemma ContinuationRead(g: seq<CodePoint>, i: nat, x: nat)
    requires i < |g| && g[i] == Continuation(x)
    ensures ContinuationAt(g, i) == Ok(x % 64)
  {
  }

  lemma SixBitGroups(c: CodePoint)
    ensures c == c / 64 * 64 + c % 64
    ensures c == c / 4096 * 4096 + c / 64 % 64 * 64 + c % 64
    ensures c == c / 262144 * 262144 + c / 4096 % 64 * 4096 + c / 64 % 64 * 64 + c % 64
  {
  }

  lemma RawSymbolOfShortest(c: CodePoint, g: seq<CodePoint>)
    requires Shortest(c) <= g
    ensures g != [] && RawSymbol(g) == Ok(Symbol(c, |Shortest(c)|))
  {
    hide RawSymbol, Continuation;
    var s := Shortest(c);
    assert forall i :: 0 <= i < |s| ==> g[i] == s[i];
    if c < 0x80 {
      SymbolOfOne(c, g);
    } else if 0x80 <= c < 0x800 {
      SymbolOfTwo(c, g);
    } else if 0x800 <= c < 0x10000 {
      SymbolOfThree(c, g);
    } else if 0x10000 <= c {
      SymbolOfFour(c, g);
    }
  }

  lemma SymbolOfOne(c: CodePoint, g: seq<CodePoint>)
    requires c < 0x80 && |g| >= 1 && g[0] == c
    ensures RawSymbol(g) == Ok(Symbol(c, 1))
  {
  }

  lemma SymbolOfTwo(c: CodePoint, g: seq<CodePoint>)
    requires 0x80 <= c < 0x800 && |g| >= 2 && g[0] == 0xC0 + c / 64 && g[1] == Continuation(c)
    ensures RawSymbol(g) == Ok(Symbol(c, 2))
  {
    hide ContinuationAt, Continuation;
    ContinuationRead(g, 1, c);
  }

  lemma SymbolOfThree(c: CodePoint, g: seq<CodePoint>)
    requires 0x800 <= c < 0x10000 && |g| >= 3
    requires g[0] == 0xE0 + c / 4096 && g[1] == Continuation(c / 64) && g[2] == Continuation(c)
    ensures RawSymbol(g) == Ok(Symbol(c, 3))
  {
    hide ContinuationAt, Continuation;
    SixBitGroups(c);
    ContinuationRead(g, 1, c / 64);
    ContinuationRead(g, 2, c);
  }

  lemma SymbolOfFour(c: CodePoint, g: seq<CodePoint>)
    requires 0x10000 <= c && |g| >= 4
    requires g[0] == 0xF0 + c / 262144 && g[1] == Continuation(c / 4096)
    requires g[2] == Continuation(c / 64) && g[3] == Continuation(c)
    ensures RawSymbol(g) == Ok(Symbol(c, 4))
  {
    hide ContinuationAt, Continuation;
    SixBitGroups(c);
    ContinuationRead(g, 1, c / 4096);
    ContinuationRead(g, 2, c / 64);
    ContinuationRead(g, 3, c);
  }

  lemma ContinuationWritten(g: seq<CodePoint>, i: nat, x: nat)
    requires i < |g| && g[i] < 0x100 && ContinuationAt(g, i) == Ok(x % 64)
    ensures g[i] == Continuation(x)
  {
  }

  lemma GroupsOfThree(c: nat, a: nat, n: nat, r: nat)
    requires n < 64 && r < 64 && c == a * 4096 + n * 64 + r
    ensures c / 4096 == a && c / 64 % 64 == n && c % 64 == r
  {
    assert c / 64 == a * 64 + n;
  }

  lemma Regroup(c: nat, high: nat, low: nat)
    requires low < 64 && c == high * 64 + low
    ensures c / 64 == high && c % 64 == low
  {
  }

  lemma GroupsOfFour(c: nat, a: nat, n: nat, r: nat, o: nat)
    requires n < 64 && r < 64 && o < 64 && c == a * 262144 + n * 4096 + r * 64 + o
    ensures c / 262144 == a && c / 4096 % 64 == n && c / 64 % 64 == r && c % 64 == o
  {
    var d, e := a * 4096 + n * 64 + r, a * 64 + n;
    Regroup(c, d, o);
    Regroup(d, e, r);
    Regroup(e, a, n);
    Quotients(c);
  }

  lemma Quotients(c: nat)
    ensures c / 4096 == c / 64 / 64 && c / 262144 == c / 64 / 64 / 64
  {
  }

  lemma ShortestOfRawSymbol(g: seq<CodePoint>)
    requires g != [] && IsByteCodes(g) && RawSymbol(g).Ok?
    ensures RawSymbol(g).value.length <= |g|
    ensures Shortest(RawSymbol(g).value.raw) == g[..RawSymbol(g).value.length]
  {
    RawSymbolLength(g);
    var symbol := RawSymbol(g).value;
    if symbol.length == 2 {
      ShortestOfTwo(g);
    } else if symbol.length == 3 {
      ShortestOfThree(g);
    } else if symbol.length == 4 {
      ShortestOfFour(g);
    }
  }

  lemma ContinuationRange(g: seq<CodePoint>, i: nat)
    requires ContinuationAt(g, i).Ok?
    ensures i < |g| && ContinuationAt(g, i).value < 64
  {
  }

  lemma ShortestOfTwo(g: seq<CodePoint>)
    requires |g| >= 2 && IsByteCodes(g) && RawSymbol(g).Ok? && RawSymbol(g).value.length == 2
    ensures Shortest(RawSymbol(g).value.raw) == g[..2]
  {
    ContinuationRange(g, 1);
    Regroup(RawSymbol(g).value.raw, g[0] - 0xC0, ContinuationAt(g, 1).value);
    ContinuationWritten(g, 1, RawSymbol(g).value.raw);
    hide ContinuationAt, Continuation;
  }

  lemma ShortestOfThree(g: seq<CodePoint>)
    requires |g| >= 3 && IsByteCodes(g) && RawSymbol(g).Ok? && RawSymbol(g).value.length == 3
    ensures Shortest(RawSymbol(g).value.raw) == g[..3]
  {
    hide ContinuationAt, Continuation;
    var n, r, c := ContinuationAt(g, 1).value, ContinuationAt(g, 2).value, RawSymbol(g).value.raw;
    ContinuationRange(g, 1);
    ContinuationRange(g, 2);
    GroupsOfThree(c, g[0] - 0xE0, n, r);
    hide RawSymbol;
    ContinuationWritten(g, 1, c / 64);
    ContinuationWritten(g, 2, c);
  }

  lemma ShortestOfFour(g: seq<CodePoint>)
    requires |g| >= 4 && IsByteCodes(g) && RawSymbol(g).Ok? && RawSymbol(g).value.length == 4
    ensures Shortest(RawSymbol(g).value.raw) == g[..4]
  {
    hide ContinuationAt, Continuation;
    var n, r, o := ContinuationAt(g, 1).value, ContinuationAt(g, 2).value, ContinuationAt(g, 3).value;
    var c := RawSymbol(g).value.raw;
    ContinuationRange(g, 1);
    ContinuationRange(g, 2);
    ContinuationRange(g, 3);
    GroupsOfFour(c, g[0] - 0xF0, n, r, o);
    hide RawSymbol;
    ContinuationWritten(g, 1, c / 4096);
    ContinuationWritten(g, 2, c / 64);
    ContinuationWritten(g, 3, c);
  }

  predicate IsByteCodes(g: seq<CodePoint>) {
    forall i :: 0 <= i < |g| ==> g[i] < 0x100
  }

  /** The length of the first UTF8-char of section 4 of RFC 3629, or 0 when no UTF8-char starts here. */
  function GrammarLength(g: seq<CodePoint>): nat {
    if |g| >= 1 && g[0] <= 0x7F then 1
    else if |g| >= 2 && 0xC2 <= g[0] <= 0xDF && IsTail(g[1]) then 2
    else if |g| >= 3 && IsTail(g[2]) &&
            (|| (g[0] == 0xE0 && 0xA0 <= g[1] <= 0xBF)
             || (0xE1 <= g[0] <= 0xEC && IsTail(g[1]))
             || (g[0] == 0xED && 0x80 <= g[1] <= 0x9F)
             || (0xEE <= g[0] <= 0xEF && IsTail(g[1]))) then 3
    else if |g| >= 4 && IsTail(g[2]) && IsTail(g[3]) &&
            (|| (g[0] == 0xF0 && 0x90 <= g[1] <= 0xBF)
             || (0xF1 <= g[0] <= 0xF3 && IsTail(g[1]))
             || (g[0] == 0xF4 && 0x80 <= g[1] <= 0x8F)) then 4
    else 0
  }

  predicate IsTail(c: CodePoint) {
    0x80 <= c <= 0xBF
  }

  lemma RawSymbolGrammar(g: seq<CodePoint>)
    requires g != [] && IsByteCodes(g)
    ensures GrammarLength(g) > 0 <==> RawSymbol(g).Ok? && !IsSurrogate(RawSymbol(g).value.raw)
    ensures GrammarLength(g) > 0 ==> RawSymbol(g).value.length == GrammarLength(g)
  {
    hide ContinuationAt;
    TailRead(g, 1);
    TailRead(g, 2);
    TailRead(g, 3);
  }

  lemma TailRead(g: seq<CodePoint>, i: nat)
    requires IsByteCodes(g)
    ensures ContinuationAt(g, i).Ok? <==> i < |g| && IsTail(g[i])
    ensures ContinuationAt(g, i).Ok? ==> ContinuationAt(g, i).value == g[i] - 0x80
  {
  }

  // ---------- lists of symbols ----------

  lemma {:induction false} ShortestAllIsBytes(cs: seq<CodePoint>)
    ensures IsByteString(ShortestAll(cs))
  {
    if cs != [] {
      ShortestIsBytes(cs[0]);
      ShortestAllIsBytes(cs[1..]);
    }
  }

  lemma {:induction false} DecodeShortestAll(cs: seq<CodePoint>, strict: bool)
    ensures DecodeSymbols(ShortestAll(cs), strict)
         == if strict && HasSurrogate(cs) then Throws else Ok(Scalars(cs))
  {
    hide RawSymbol, Shortest;
    if cs == [] {
      assert Scalars(cs) == [];
    } else {
      var g: seq<CodePoint> := ShortestAll(cs);
      var k := |Shortest(cs[0])|;
      ShortestIsBytes(cs[0]);
      RawSymbolOfShortest(cs[0], g);
      assert g[k..] == ShortestAll(cs[1..]);
      DecodeShortestAll(cs[1..], strict);
      HasSurrogateCons(cs);
      assert Scalars(cs) == [Scalar(cs[0])] + Scalars(cs[1..]);
    }
  }

  lemma HasSurrogateCons(cs: seq<CodePoint>)
    requires cs != []
    ensures HasSurrogate(cs) <==> IsSurrogate(cs[0]) || HasSurrogate(cs[1..])
  {
  }

  lemma ShortestCons(c: CodePoint, cs: seq<CodePoint>)
    ensures ShortestAll([c] + cs) == Shortest(c) + ShortestAll(cs)
    ensures Scalars([c] + cs) == [Scalar(c)] + Scalars(cs)
    ensures HasSurrogate([c] + cs) <==> IsSurrogate(c) || HasSurrogate(cs)
  {
    hide Shortest, Scalar, IsSurrogate;
    assert ([c] + cs)[1..] == cs;
    HasSurrogateCons([c] + cs);
  }

  /** Whatever the decoder accepts is a list of shortest forms, and it delivers their code points. */
  lemma {:induction false} DecodedIsShortest(g: seq<CodePoint>, strict: bool) returns (cs: seq<CodePoint>)
    requires IsByteCodes(g) && DecodeSymbols(g, strict).Ok?
    ensures g == ShortestAll(cs) && DecodeSymbols(g, strict).value == Scalars(cs)
    ensures strict ==> !HasSurrogate(cs)
    decreases |g|
  {
    hide RawSymbol, Shortest, Scalar, ShortestAll, Scalars, HasSurrogate, IsSurrogate;
    cs := [];
    if g == [] {
      NothingDecoded();
    } else {
      var symbol := RawSymbol(g).value;
      RawSymbolLength(g);
      ShortestOfRawSymbol(g);
      var rest := DecodedIsShortest(g[symbol.length..], strict);
      cs := [symbol.raw] + rest;
      ShortestCons(symbol.raw, rest);
      assert g == g[..symbol.length] + g[symbol.length..];
    }
  }

  lemma NothingDecoded()
    ensures ShortestAll([]) == [] && Scalars([]) == [] && !HasSurrogate([])
  {
  }

  ghost predicate IsRfc3629(g: seq<CodePoint>)
    decreases |g|
  {
    g == [] || (0 < GrammarLength(g) <= |g| && IsRfc3629(g[GrammarLength(g)..]))
  }

  /** Strict decoding accepts exactly the byte strings of the grammar of section 4 of RFC 3629. */
  lemma {:induction false} StrictAcceptsGrammar(g: seq<CodePoint>)
    requires IsByteCodes(g)
    ensures DecodeSymbols(g, true).Ok? <==> IsRfc3629(g)
    decreases |g|
  {
    hide RawSymbol, GrammarLength;
    if g != [] {
      RawSymbolGrammar(g);
      if RawSymbol(g).Ok? {
        RawSymbolLength(g);
        StrictAcceptsGrammar(g[RawSymbol(g).value.length..]);
      }
    }
  }

  // ---------- UTF-16 ----------

  lemma {:induction false} Ucs2DecodeBytes(s: JsString)
    requires IsByteString(s)
    ensures Ucs2Decode(s) == s
  {
    if s != [] {
      Ucs2DecodeBytes(s[1..]);
    }
  }

  lemma CodePointRoundTrip(c: CodePoint)
    requires !IsSurrogate(c)
    ensures var u := UnitsOfCodePoint(c);
            if c > 0xFFFF then |u| == 2 && IsHigh(u[0]) && IsLow(u[1]) && Combine(u[0], u[1]) == c
            else u == [c] && !IsHigh(u[0])
  {
  }

  lemma {:induction false} Ucs2RoundTrip(cs: seq<CodePoint>)
    requires !HasSurrogate(cs)
    ensures Ucs2Decode(Ucs2Encode(cs)) == cs
  {
    hide Combine, UnitsOfCodePoint, HasSurrogate;
    if cs != [] {
      HasSurrogateCons(cs);
      CodePointRoundTrip(cs[0]);
      Ucs2RoundTrip(cs[1..]);
      var s, u := Ucs2Encode(cs), UnitsOfCodePoint(cs[0]);
      assert s[|u|..] == Ucs2Encode(cs[1..]);
    }
  }

  /** A high unit with no low unit after it, or a low unit with no high unit before it. */
  predicate IsLone(s: JsString, i: nat)
    requires i < |s|
  {
    || (IsHigh(s[i]) && !(i + 1 < |s| && IsLow(s[i + 1])))
    || (IsLow(s[i]) && !(i > 0 && IsHigh(s[i - 1])))
  }

  /** `s` with each lone surrogate replaced by U+FFFD. */
  function Sanitized(s: JsString): JsString {
    seq(|s|, i requires 0 <= i < |s| => if IsLone(s, i) then REPLACEMENT else s[i])
  }

  predicate HasLone(s: JsString) {
    exists i :: 0 <= i < |s| && IsLone(s, i)
  }

  /** What is replaced, and by what: a high unit with no low one after it, a low one with no high one before it. */
  lemma SanitizedSpelled(s: JsString, i: nat)
    requires i < |s|
    ensures |Sanitized(s)| == |s|
    ensures var high, low := 0xD800 <= s[i] < 0xDC00, 0xDC00 <= s[i] < 0xE000;
            Sanitized(s)[i]
            == if (high && (i + 1 == |s| || !(0xDC00 <= s[i + 1] < 0xE000)))
                  || (low && (i == 0 || !(0xD800 <= s[i - 1] < 0xDC00)))
               then 0xFFFD else s[i]
  {
  }

  /** Cutting a string where no pair is split keeps which of the later units are lone. */
  lemma LoneAfterCut(s: JsString, k: nat, i: nat)
    requires k <= i < |s|
    requires k == 0 || !(IsHigh(s[k - 1]) && IsLow(s[k]))
    ensures IsLone(s[k..], i - k) <==> IsLone(s, i)
  {
  }

  lemma SanitizedAfterCut(s: JsString, k: nat)
    requires k <= |s|
    requires 0 < k < |s| ==> !(IsHigh(s[k - 1]) && IsLow(s[k]))
    ensures Sanitized(s) == Sanitized(s)[..k] + Sanitized(s[k..])
  {
  }

  lemma {:induction false} SurrogatesAreLone(s: JsString)
    ensures Ucs2Encode(Scalars(Ucs2Decode(s))) == Sanitized(s)
    ensures HasSurrogate(Ucs2Decode(s)) <==> HasLone(s)
  {
    hide Combine, UnitsOfCodePoint, IsLone, Scalar;
    if s == [] {
      assert Sanitized(s) == Scalars([]) == [];
    } else {
      var k := if IsHigh(s[0]) && |s| > 1 && IsLow(s[1]) then 2 else 1;
      var cs := Ucs2Decode(s);
      SurrogatesAreLone(s[k..]);
      HasSurrogateCons(cs);
      assert cs[1..] == Ucs2Decode(s[k..]);
      assert Scalars(cs) == [Scalar(cs[0])] + Scalars(cs[1..]);
      FirstUnits(s, k);
      SanitizedAfterCut(s, k);
      LoneCons(s, k);
    }
  }

  /** The first code point of a string, written back, is the sanitized form of the units it came from. */
  lemma FirstUnits(s: JsString, k: nat)
    requires s != [] && k == if IsHigh(s[0]) && |s| > 1 && IsLow(s[1]) then 2 else 1
    ensures UnitsOfCodePoint(Scalar(Ucs2Decode(s)[0])) == Sanitized(s)[..k]
    ensures IsSurrogate(Ucs2Decode(s)[0]) <==> k == 1 && IsLone(s, 0)
  {
    hide Combine, UnitsOfCodePoint;
    if k == 2 {
      PairRoundTrip(s[0], s[1]);
      assert !IsLone(s, 0) && !IsLone(s, 1);
    } else {
      assert Ucs2Decode(s)[0] == s[0];
      UnitAlone(s[0]);
      assert IsLone(s, 0) <==> IsSurrogate(s[0]);
    }
  }

  lemma UnitAlone(u: Unit)
    ensures UnitsOfCodePoint(Scalar(u)) == [if IsSurrogate(u) then REPLACEMENT else u]
    ensures IsSurrogate(u) <==> IsHigh(u) || IsLow(u)
  {
  }

  lemma PairRoundTrip(hi: Unit, lo: Unit)
    requires IsHigh(hi) && IsLow(lo)
    ensures Combine(hi, lo) > 0xFFFF && UnitsOfCodePoint(Combine(hi, lo)) == [hi, lo]
  {
  }

  lemma LoneCons(s: JsString, k: nat)
    requires s != [] && k == if IsHigh(s[0]) && |s| > 1 && IsLow(s[1]) then 2 else 1
    ensures HasLone(s) <==> (k == 1 && IsLone(s, 0)) || HasLone(s[k..])
  {
    if HasLone(s) {
      var i :| 0 <= i < |s| && IsLone(s, i);
      if i >= k {
        LoneAfterCut(s, k, i);
      }
    }
    if HasLone(s[k..]) {
      var i :| 0 <= i < |s[k..]| && IsLone(s[k..], i);
      LoneAfterCut(s, k, i + k);
    }
  }

  lemma EncodeEmpty()
    ensures Encode([], false) == Ok([])
  {
    assert Scalars([]) == [];
  }

  // ---------- main results ----------

  lemma EncodeIsBytes(s: JsString, strict: bool)
    requires Encode(s, strict).Ok?
    ensures IsByteString(Encode(s, strict).value)
  {
    ShortestAllIsBytes(Scalars(Ucs2Decode(s)));
  }

  /** Non-strict coding never throws, and gives back the text with each lone surrogate replaced. */
  lemma LooseRoundTrip(s: JsString)
    ensures Encode(s, false).Ok?
    ensures Decode(Encode(s, false).value, false) == Ok(Sanitized(s))
  {
    var cs := Scalars(Ucs2Decode(s));
    ShortestAllIsBytes(cs);
    Ucs2DecodeBytes(ShortestAll(cs));
    DecodeShortestAll(cs, false);
    assert Scalars(cs) == cs;
    SurrogatesAreLone(s);
  }

  lemma StrictEncodeThrows(s: JsString)
    ensures Encode(s, true).Throws? <==> HasLone(s)
  {
    SurrogatesAreLone(s);
  }

  /** The bytes that the decoder sees in a string: it keeps the low eight bits of each code point. */
  function BytesRead(text: JsString): JsString {
    LowBytes(Ucs2Decode(text))
  }

  function LowBytes(g: seq<CodePoint>): JsString {
    seq(|g|, i requires 0 <= i < |g| => g[i] % 256)
  }

  lemma ContinuationLow(g: seq<CodePoint>, i: nat)
    ensures ContinuationAt(g, i) == ContinuationAt(LowBytes(g), i)
  {
  }

  lemma RawSymbolLow(g: seq<CodePoint>)
    requires g != []
    ensures RawSymbol(g) == RawSymbol(LowBytes(g))
  {
    hide ContinuationAt;
    ContinuationLow(g, 1);
    ContinuationLow(g, 2);
    ContinuationLow(g, 3);
    assert LowBytes(g)[0] % 256 == g[0] % 256;
  }

  lemma {:induction false} DecodeLow(g: seq<CodePoint>, strict: bool)
    ensures DecodeSymbols(g, strict) == DecodeSymbols(LowBytes(g), strict)
    decreases |g|
  {
    hide RawSymbol;
    if g != [] {
      RawSymbolLow(g);
      if RawSymbol(g).Ok? {
        RawSymbolLength(g);
        var k := RawSymbol(g).value.length;
        assert LowBytes(g)[k..] == LowBytes(g[k..]);
        DecodeLow(g[k..], strict);
      }
    }
  }

  /** Decoding reads nothing of a string but those bytes; of a byte string, nothing is lost. */
  lemma DecodeReadsBytes(text: JsString, strict: bool)
    ensures IsByteString(BytesRead(text)) && Decode(text, strict) == Decode(BytesRead(text), strict)
    ensures IsByteString(text) ==> BytesRead(text) == text
  {
    hide DecodeSymbols, Ucs2Decode, Ucs2Encode;
    DecodeLow(Ucs2Decode(text), strict);
    Ucs2DecodeBytes(BytesRead(text));
    if IsByteString(text) {
      Ucs2DecodeBytes(text);
    }
  }

  /** Strict decoding and strict encoding are inverse relations: no byte string but the shortest form decodes. */
  lemma StrictInverse(s: JsString, text: JsString)
    ensures Decode(text, true) == Ok(s) <==> Encode(s, true) == Ok(BytesRead(text))
  {
    hide Decode, Encode, BytesRead;
    DecodeReadsBytes(text, true);
    StrictInverseOnBytes(s, BytesRead(text));
  }

  lemma StrictInverseOnBytes(s: JsString, bytes: JsString)
    requires IsByteString(bytes)
    ensures Decode(bytes, true) == Ok(s) <==> Encode(s, true) == Ok(bytes)
  {
    hide Ucs2Encode, ShortestAll, HasLone, HasSurrogate, RawSymbol;
    Ucs2DecodeBytes(bytes);
    if Decode(bytes, true) == Ok(s) {
      var cs := DecodedIsShortest(bytes, true);
      NoSurrogatesKept(cs);
      Ucs2RoundTrip(cs);
    }
    if Encode(s, true) == Ok(bytes) {
      var cs := Ucs2Decode(s);
      NoSurrogatesKept(cs);
      DecodeShortestAll(cs, true);
      SurrogatesAreLone(s);
      NoneLone(s);
    }
  }

  lemma NoSurrogatesKept(cs: seq<CodePoint>)
    ensures !HasSurrogate(cs) ==> Scalars(cs) == cs
  {
    if !HasSurrogate(cs) {
      assert forall i :: 0 <= i < |cs| ==> !IsSurrogate(cs[i]);
    }
  }

  lemma NoneLone(s: JsString)
    ensures !HasLone(s) ==> Sanitized(s) == s
  {
  }

  /** Strict decoding accepts a string exactly when the bytes read are UTF-8 by the grammar of RFC 3629. */
  lemma StrictAccepts(text: JsString)
    ensures Decode(text, true).Ok? <==> IsRfc3629(BytesRead(text))
  {
    hide RawSymbol, IsRfc3629;
    var g: seq<CodePoint> := BytesRead(text);
    DecodeReadsBytes(text, true);
    Ucs2DecodeBytes(g);
    StrictAcceptsGrammar(g);
  }

  /** Non-strict decoding accepts exactly the concatenations of shortest forms, surrogates among them. */
  lemma LooseAccepts(text: JsString)
    ensures Decode(text, false).Ok? <==> exists cs :: ShortestAll(cs) == BytesRead(text)
  {
    hide RawSymbol;
    var g: seq<CodePoint> := BytesRead(text);
    DecodeReadsBytes(text, false);
    Ucs2DecodeBytes(g);
    if Decode(text, false).Ok? {
      var cs := DecodedIsShortest(g, false);
    }
    if cs :| ShortestAll(cs) == g {
      DecodeShortestAll(cs, false);
    }
  }
}
