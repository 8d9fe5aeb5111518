/** The base64 codec for byte arrays (section 4 of RFC 4648). */
module Base64 {
  import opened JsText

  const PAD: Unit := 61

  /** The base64 alphabet: A-Z, a-z, 0-9, `+` and `/`. */
  function Letter(i: nat): Unit
    requires i < 64
  {
    if i < 26 then 65 + i else if i < 52 then 97 + (i - 26) else if i < 62 then 48 + (i - 52)
    else if i == 62 then 43 else 47
  }

  /** The 256-entry lookup table; units outside the alphabet, and reads outside the table, count as 0. */
  function Lookup(u: Unit): (v: nat)
    ensures v < 64
  {
    if 65 <= u <= 90 then u - 65 else if 97 <= u <= 122 then u - 97 + 26 else if 48 <= u <= 57 then u - 48 + 52
    else if u == 43 then 62 else if u == 47 then 63 else 0
  }

  /** Reading past the end of a typed array gives `undefined`, which the shifts and masks take as 0. */
  function ByteAt(bytes: seq<Byte>, i: nat): Byte {
    if i < |bytes| then bytes[i] else 0
  }

  function LookupAt(s: JsString, i: nat): nat {
    if i < |s| then Lookup(s[i]) else 0
  }

  function Drop<T>(s: seq<T>, n: nat): seq<T> {
    if |s| > n then s[n..] else []
  }

  /** Table 1 of RFC 4648: `A` to `Z`, `a` to `z`, `0` to `9`, `+`, `/`, and the padding `=`; others count as `A`. */
  lemma LettersRun(i: nat, u: Unit)
    requires i < 64
    ensures Letter(0) == 65 && Letter(26) == 97 && Letter(52) == 48 && Letter(62) == 43 && Letter(63) == 47
    ensures PAD == 61
    ensures i !in {25, 51, 61, 62, 63} ==> Letter(i + 1) == Letter(i) + 1
    ensures Lookup(Letter(i)) == i && (Letter(Lookup(u)) == u || Lookup(u) == 0)
  {
  }

  // ---------- encoding ----------

  function EncodeGroup(a: Byte, b: Byte, c: Byte): (g: JsString)
    ensures |g| == 4
  {
    [Letter(a / 4), Letter(a % 4 * 16 + b / 16), Letter(b % 16 * 4 + c / 64), Letter(c % 64)]
  }

  function EncodeGroups(bytes: seq<Byte>): JsString
    decreases |bytes|
  {
    if bytes == [] then []
    else EncodeGroup(bytes[0], ByteAt(bytes, 1), ByteAt(bytes, 2))
         + EncodeGroups(Drop(bytes, 3))
  }

  lemma {:induction false} EncodeGroupsLength(bytes: seq<Byte>)
    ensures |EncodeGroups(bytes)| == (|bytes| + 2) / 3 * 4
    decreases |bytes|
  {
    hide EncodeGroup;
    if bytes != [] {
      EncodeGroupsLength(Drop(bytes, 3));
    }
  }

  /** Replaces the letters that carry no data by padding. */
  function Padded(text: JsString, length: nat): JsString
    requires length % 3 != 0 ==> |text| >= 4
  {
    if length % 3 == 2 then text[..|text| - 1] + [PAD]
    else if length % 3 == 1 then text[..|text| - 2] + [PAD, PAD]
    else text
  }

  function Encode(bytes: seq<Byte>): JsString {
    EncodeGroupsLength(bytes);
    Padded(EncodeGroups(bytes), |bytes|)
  }

  lemma {:induction false} EncodeGroupsAt(bytes: seq<Byte>, k: nat)
    requires 3 * k < |bytes|
    ensures 4 * k + 4 <= |EncodeGroups(bytes)|
    ensures var s := EncodeGroups(bytes);
            var g := EncodeGroup(bytes[3 * k], ByteAt(bytes, 3 * k + 1), ByteAt(bytes, 3 * k + 2));
            s[4 * k] == g[0] && s[4 * k + 1] == g[1] && s[4 * k + 2] == g[2] && s[4 * k + 3] == g[3]
    decreases k
  {
    hide EncodeGroup;
    if k > 0 {
      var rest := Drop(bytes, 3);
      EncodeGroupsAt(rest, k - 1);
      assert EncodeGroups(bytes)[4..] == EncodeGroups(rest);
    }
  }

  method EncodeLoop(bytes: seq<Byte>) returns (base64: JsString)
    ensures base64 == Encode(bytes)
  {
    hide EncodeGroup, EncodeGroups, Letter, ByteAt;
    var len := |bytes|;
    base64 := [];
    var i := 0;
    EncodeGroupsLength(bytes);
    ghost var all := EncodeGroups(bytes);
    ghost var k := 0;
    while i < len
      invariant i == 3 * k <= len + 2 && 4 * k <= |all|
      invariant base64 == all[..4 * k]
    {
      EncodeGroupsAt(bytes, k);
      ghost var group := EncodeGroup(bytes[i], ByteAt(bytes, i + 1), ByteAt(bytes, i + 2));
      ghost var before := base64;
      base64 := base64 + [Letter(bytes[i] / 4)];
      base64 := base64 + [Letter(bytes[i] % 4 * 16 + ByteAt(bytes, i + 1) / 16)];
      base64 := base64 + [Letter(ByteAt(bytes, i + 1) % 16 * 4 + ByteAt(bytes, i + 2) / 64)];
      base64 := base64 + [Letter(ByteAt(bytes, i + 2) % 64)];
      FourUnits(before, base64, bytes[i], ByteAt(bytes, i + 1), ByteAt(bytes, i + 2));
      assert base64 == all[..4 * k + 4];
      i := i + 3;
      k := k + 1;
    }
    if len % 3 == 2 {
      base64 := base64[..|base64| - 1] + [PAD];
    } else if len % 3 == 1 {
      base64 := base64[..|base64| - 2] + [PAD, PAD];
    }
  }

  lemma FourUnits(before: JsString, after: JsString, a: Byte, b: Byte, c: Byte)
    requires after == before + [Letter(a / 4)] + [Letter(a % 4 * 16 + b / 16)]
                      + [Letter(b % 16 * 4 + c / 64)] + [Letter(c % 64)]
    ensures after == before + EncodeGroup(a, b, c)
  {
  }

  // ---------- decoding ----------

  function DecodeGroup(p: nat, q: nat, r: nat, s: nat): (g: seq<Byte>)
    requires p < 64 && q < 64 && r < 64 && s < 64
    ensures |g| == 3
  {
    [p * 4 + q / 16, q % 16 * 16 + r / 4, r % 4 * 64 + s]
  }

  function DecodeGroups(text: JsString): seq<Byte>
    decreases |text|
  {
    if text == [] then []
    else DecodeGroup(Lookup(text[0]), LookupAt(text, 1), LookupAt(text, 2), LookupAt(text, 3))
         + DecodeGroups(Drop(text, 4))
  }

  lemma {:induction false} DecodeGroupsLength(text: JsString)
    ensures |DecodeGroups(text)| == (|text| + 3) / 4 * 3
    decreases |text|
  {
    hide DecodeGroup;
    if text != [] {
      DecodeGroupsLength(Drop(text, 4));
    }
  }

  /** The size of the output buffer: three quarters of the text, less one for each padding unit, truncated to a size. */
  function BufferLength(text: JsString): nat {
    var len := |text|;
    var quarters := 3 * len - (if len > 0 && text[len - 1] == PAD then
                                 if len > 1 && text[len - 2] == PAD then 8 else 4
                               else 0);
    if quarters < 0 then 0 else quarters / 4
  }

  /** Writes past the end of the buffer are dropped. */
  function Decode(text: JsString): seq<Byte> {
    DecodeGroupsLength(text);
    DecodeGroups(text)[..BufferLength(text)]
  }

  lemma {:induction false} DecodeGroupsAt(text: JsString, k: nat)
    requires 4 * k < |text|
    ensures 3 * k + 3 <= |DecodeGroups(text)|
    ensures var b, g := DecodeGroups(text), DecodeGroup(Lookup(text[4 * k]), LookupAt(text, 4 * k + 1),
                                                        LookupAt(text, 4 * k + 2), LookupAt(text, 4 * k + 3));
            b[3 * k] == g[0] && b[3 * k + 1] == g[1] && b[3 * k + 2] == g[2]
    decreases k
  {
    hide DecodeGroup, Lookup;
    if k > 0 {
      var rest := Drop(text, 4);
      DecodeGroupsAt(rest, k - 1);
      assert DecodeGroups(text)[3..] == DecodeGroups(rest);
    }
  }

  method Store(buffer: array<Byte>, p: nat, value: Byte)
    modifies buffer
    ensures p < buffer.Length ==> buffer[p] == value
    ensures forall k :: 0 <= k < buffer.Length && k != p ==> buffer[k] == old(buffer[k])
  {
    if p < buffer.Length {
      buffer[p] := value;
    }
  }

  method DecodeLoop(text: JsString) returns (buffer: array<Byte>)
    ensures fresh(buffer) && buffer[..] == Decode(text)
  {
    hide DecodeGroups, BufferLength, Lookup, LookupAt;
    var len, p := |text|, 0;
    buffer := new Byte[BufferLength(text)](_ => 0);
    ghost var all := DecodeGroups(text);
    DecodeGroupsLength(text);
    BufferFits(text);
    var i := 0;
    ghost var k := 0;
    while i < len
      invariant i == 4 * k <= len + 3 && p == 3 * k && fresh(buffer) && buffer.Length == BufferLength(text)
      invariant forall j :: 0 <= j < p && j < buffer.Length ==> buffer[j] == all[j]
    {
      DecodeGroupsAt(text, k);
      var encoded1, encoded2 := Lookup(text[i]), LookupAt(text, i + 1);
      var encoded3, encoded4 := LookupAt(text, i + 2), LookupAt(text, i + 3);
      Store(buffer, p, encoded1 * 4 + encoded2 / 16);
      Store(buffer, p + 1, encoded2 % 16 * 16 + encoded3 / 4);
      Store(buffer, p + 2, encoded3 % 4 * 64 + encoded4);
      p := p + 3;
      i := i + 4;
      k := k + 1;
    }
    assert buffer[..] == all[..buffer.Length];
  }

  lemma BufferFits(text: JsString)
    ensures BufferLength(text) <= (|text| + 3) / 4 * 3
  {
  }

  /** The size of what any string decodes to: three quarters of it, less one for each padding unit, rounded down. */
  lemma DecodedLength(text: JsString)
    ensures var n, k := |Decode(text)|, |text|;
            && (k == 0 || text == [61] || text == [61, 61] ==> n == 0)
            && (k > 0 && text[k - 1] != 61 ==> 4 * n <= 3 * k < 4 * n + 4)
            && (k > 1 && text[k - 1] == 61 && text[k - 2] != 61 ==> 4 * n <= 3 * k - 4 < 4 * n + 4)
            && (k > 2 && text[k - 1] == 61 && text[k - 2] == 61 ==> 4 * n <= 3 * k - 8 < 4 * n + 4)
  {
    BufferFits(text);
    DecodeGroupsLength(text);
    hide DecodeGroups;
  }

  /** Units that are missing in the last group count as `A`. */
  lemma MissingUnits(text: JsString, i: nat)
    requires i >= |text|
    ensures LookupAt(text, i) == Lookup(65)
  {
  }

  // ---------- results ----------

  lemma LookupLetter(i: nat)
    requires i < 64
    ensures Lookup(Letter(i)) == i && Letter(i) != PAD
  {
  }

  lemma SextetRange(a: Byte, b: Byte, c: Byte)
    ensures a / 4 < 64 && a % 4 * 16 + b / 16 < 64 && b % 16 * 4 + c / 64 < 64
    ensures (a % 4 * 16 + b / 16) / 16 == a % 4 && (a % 4 * 16 + b / 16) % 16 == b / 16
    ensures (b % 16 * 4 + c / 64) / 4 == b % 16 && (b % 16 * 4 + c / 64) % 4 == c / 64
  {
  }

  lemma GroupRoundTrip(a: Byte, b: Byte, c: Byte)
    ensures var g := EncodeGroup(a, b, c);
            DecodeGroup(Lookup(g[0]), Lookup(g[1]), Lookup(g[2]), Lookup(g[3])) == [a, b, c]
  {
    hide Lookup, Letter;
    SextetRange(a, b, c);
    LookupLetter(a / 4);
    LookupLetter(a % 4 * 16 + b / 16);
    LookupLetter(b % 16 * 4 + c / 64);
    LookupLetter(c % 64);
  }

  /** The four letters of a group, as the 24-bit number of section 4 of RFC 4648. */
  function Sextets(text: JsString, k: nat): nat
    requires 4 * k + 3 < |text|
  {
    Lookup(text[4 * k]) * 262144 + Lookup(text[4 * k + 1]) * 4096
    + Lookup(text[4 * k + 2]) * 64 + Lookup(text[4 * k + 3])
  }

  /** Three input bytes as one 24-bit number, with zeros after the last byte. */
  function Octets(bytes: seq<Byte>, k: nat): nat {
    ByteAt(bytes, 3 * k) * 65536 + ByteAt(bytes, 3 * k + 1) * 256 + ByteAt(bytes, 3 * k + 2)
  }

  predicate IsLetter(u: Unit) {
    exists i: nat :: i < 64 && Letter(i) == u
  }

  function PaddingLength(length: nat): nat {
    if length % 3 == 1 then 2 else if length % 3 == 2 then 1 else 0
  }

  lemma PaddedFrom(n: nat, i: nat)
    requires i < (n + 2) / 3 * 4
    ensures 3 * (i / 4) < n
    ensures i < (n + 2) / 3 * 4 - PaddingLength(n) <==> 3 * (i / 4) + i % 4 <= n
  {
    var q, r, k, j := n / 3, n % 3, i / 4, i % 4;
    assert n == 3 * q + r && i == 4 * k + j;
    assert (n + 2) / 3 == if r == 0 then q else q + 1;
    assert k < (n + 2) / 3;
  }

  lemma PaddedUnit(text: JsString, n: nat, i: nat)
    requires |text| == (n + 2) / 3 * 4 && i < |text|
    ensures |Padded(text, n)| == |text|
    ensures Padded(text, n)[i] == if i < |text| - PaddingLength(n) then text[i] else PAD
  {
  }

  lemma PaddedGroupUnit(text: JsString, n: nat, k: nat, j: nat)
    requires |text| == (n + 2) / 3 * 4 && 3 * k < n && j < 4
    ensures 4 * k + j < |text| == |Padded(text, n)|
    ensures Padded(text, n)[4 * k + j] == if 3 * k + j <= n then text[4 * k + j] else PAD
  {
    assert (4 * k + j) / 4 == k && (4 * k + j) % 4 == j;
    PaddedUnit(text, n, 4 * k + j);
    PaddedFrom(n, 4 * k + j);
    hide Padded;
  }

  /** What the letters of one group say, whatever is padded after it. */
  lemma EncodedUnits(bytes: seq<Byte>, k: nat)
    requires 3 * k < |bytes|
    ensures 4 * k + 4 <= |Encode(bytes)|
    ensures var s, g := Encode(bytes), EncodeGroup(bytes[3 * k], ByteAt(bytes, 3 * k + 1), ByteAt(bytes, 3 * k + 2));
            && s[4 * k] == g[0] && s[4 * k + 1] == g[1]
            && s[4 * k + 2] == (if 3 * k + 1 < |bytes| then g[2] else PAD)
            && s[4 * k + 3] == (if 3 * k + 2 < |bytes| then g[3] else PAD)
  {
    hide EncodeGroup, EncodeGroups, Padded;
    EncodeGroupsAt(bytes, k);
    EncodeGroupsLength(bytes);
    PaddedGroupUnit(EncodeGroups(bytes), |bytes|, k, 0);
    PaddedGroupUnit(EncodeGroups(bytes), |bytes|, k, 1);
    PaddedGroupUnit(EncodeGroups(bytes), |bytes|, k, 2);
    PaddedGroupUnit(EncodeGroups(bytes), |bytes|, k, 3);
  }

  lemma ZeroTail(a: Byte, b: Byte)
    ensures Lookup(EncodeGroup(a, 0, 0)[2]) == 0 && Lookup(EncodeGroup(a, b, 0)[3]) == 0
    ensures Lookup(PAD) == 0
  {
  }

  /** Padding looks up as 0, which is also what the letters it replaces carried. */
  lemma EncodedLookups(bytes: seq<Byte>, k: nat)
    requires 3 * k < |bytes|
    ensures 4 * k + 4 <= |Encode(bytes)|
    ensures var s, g := Encode(bytes), EncodeGroup(bytes[3 * k], ByteAt(bytes, 3 * k + 1), ByteAt(bytes, 3 * k + 2));
            forall j :: 0 <= j < 4 ==> Lookup(s[4 * k + j]) == Lookup(g[j])
  {
    hide EncodeGroup, Lookup, Encode;
    EncodedUnits(bytes, k);
    ZeroTail(bytes[3 * k], ByteAt(bytes, 3 * k + 1));
  }

  lemma GroupLetters(a: Byte, b: Byte, c: Byte)
    ensures var g := EncodeGroup(a, b, c); IsLetter(g[0]) && IsLetter(g[1]) && IsLetter(g[2]) && IsLetter(g[3])
  {
  }

  lemma EncodedLength(bytes: seq<Byte>)
    ensures |Encode(bytes)| == (|bytes| + 2) / 3 * 4
  {
    EncodeGroupsLength(bytes);
  }

  /** The encoded text has 4 units for each 3 bytes begun, padded at the very end as RFC 4648 asks. */
  lemma EncodedShape(bytes: seq<Byte>)
    ensures |Encode(bytes)| == (|bytes| + 2) / 3 * 4
    ensures forall i :: 0 <= i < |Encode(bytes)| ==>
              if i < |Encode(bytes)| - PaddingLength(|bytes|) then IsLetter(Encode(bytes)[i])
              else Encode(bytes)[i] == PAD
  {
    hide Encode, PaddingLength, IsLetter;
    EncodedLength(bytes);
    forall i | 0 <= i < |Encode(bytes)|
      ensures if i < |Encode(bytes)| - PaddingLength(|bytes|) then IsLetter(Encode(bytes)[i])
              else Encode(bytes)[i] == PAD
    {
      PaddedFrom(|bytes|, i);
      EncodedUnitKind(bytes, i / 4, i % 4);
      assert i == 4 * (i / 4) + i % 4;
    }
  }

  lemma EncodedUnitKind(bytes: seq<Byte>, k: nat, j: nat)
    requires j < 4 && 3 * k < |bytes|
    ensures 4 * k + j < |Encode(bytes)|
    ensures if 3 * k + j <= |bytes| then IsLetter(Encode(bytes)[4 * k + j]) else Encode(bytes)[4 * k + j] == PAD
  {
    hide Encode, IsLetter, EncodeGroup;
    EncodedUnits(bytes, k);
    GroupLetters(bytes[3 * k], ByteAt(bytes, 3 * k + 1), ByteAt(bytes, 3 * k + 2));
    assert j == 0 || j == 1 || j == 2 || j == 3;
  }

  /** Each group of letters spells the same 24-bit number as the bytes it encodes. */
  lemma EncodedBits(bytes: seq<Byte>, k: nat)
    requires 3 * k < |bytes|
    ensures 4 * k + 3 < |Encode(bytes)| && Sextets(Encode(bytes), k) == Octets(bytes, k)
  {
    hide Encode, Lookup, Letter;
    EncodedLookups(bytes, k);
    GroupBits(bytes[3 * k], ByteAt(bytes, 3 * k + 1), ByteAt(bytes, 3 * k + 2));
    var s := Encode(bytes);
    assert s[4 * k + 0] == s[4 * k];
  }

  lemma GroupBits(a: Byte, b: Byte, c: Byte)
    ensures var g := EncodeGroup(a, b, c);
            Lookup(g[0]) * 262144 + Lookup(g[1]) * 4096 + Lookup(g[2]) * 64 + Lookup(g[3]) == a * 65536 + b * 256 + c
  {
    hide Lookup, Letter;
    SextetRange(a, b, c);
    LookupLetter(a / 4);
    LookupLetter(a % 4 * 16 + b / 16);
    LookupLetter(b % 16 * 4 + c / 64);
    LookupLetter(c % 64);
  }

  /** Decoding inverts encoding, for every length. */
  lemma RoundTrip(bytes: seq<Byte>)
    ensures Decode(Encode(bytes)) == bytes
  {
    hide Encode, Lookup, EncodeGroup, DecodeGroup, DecodeGroups;
    var s := Encode(bytes);
    EncodedShape(bytes);
    DecodeGroupsLength(s);
    EncodedBuffer(bytes);
    forall i | 0 <= i < |bytes| ensures DecodeGroups(s)[i] == bytes[i] {
      var k := i / 3;
      EncodedLookups(bytes, k);
      DecodeGroupsAt(s, k);
      GroupRoundTrip(bytes[3 * k], ByteAt(bytes, 3 * k + 1), ByteAt(bytes, 3 * k + 2));
      assert s[4 * k + 0] == s[4 * k];
    }
  }

  /** The last two units of an encoding tell its buffer's size. */
  lemma SizeFromPadding(n: nat, text: JsString)
    requires |text| == (n + 2) / 3 * 4
    requires n > 0 ==> (text[|text| - 1] == PAD <==> n % 3 != 0) && (text[|text| - 2] == PAD <==> n % 3 == 1)
    ensures BufferLength(text) == n
  {
    var q, r := n / 3, n % 3;
    assert n == 3 * q + r;
    assert (n + 2) / 3 == if r == 0 then q else q + 1;
  }

  lemma EncodedBuffer(bytes: seq<Byte>)
    ensures BufferLength(Encode(bytes)) == |bytes|
  {
    hide Encode, IsLetter, BufferLength;
    EncodedLength(bytes);
    var s, n := Encode(bytes), |bytes|;
    if n > 0 {
      var k := (n + 2) / 3 - 1;
      assert n == 3 * (n / 3) + n % 3 && 3 * k < n <= 3 * k + 3;
      EncodedUnitKind(bytes, k, 3);
      EncodedUnitKind(bytes, k, 2);
      LettersAreNotPadding(s[|s| - 1]);
      LettersAreNotPadding(s[|s| - 2]);
    }
    SizeFromPadding(n, s);
  }

  lemma LettersAreNotPadding(u: Unit)
    ensures IsLetter(u) ==> u != PAD
  {
  }
}
