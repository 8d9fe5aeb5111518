/** Binary values nested in packet data: finding them, taking them out behind placeholders, and putting them back. */
module Attachments {
  import opened JsText

  /** A JavaScript value; an object lists its keys in enumeration order, each with the value at the same index. */
  datatype Value =
    | Undefined
    | Null
    | Bool(b: bool)
    | Num(n: int)
    | Str(s: JsString)
    | Binary(bytes: seq<Byte>)
    | Arr(items: seq<Value>)
    | Obj(keys: seq<JsString>, values: seq<Value>)

  // "_placeholder", "num" and "__proto__"
  const PLACEHOLDER: JsString := [95, 112, 108, 97, 99, 101, 104, 111, 108, 100, 101, 114]
  const NUM: JsString := [110, 117, 109]
  const PROTO: JsString := [95, 95, 112, 114, 111, 116, 111, 95, 95]

  predicate Truthy(v: Value) {
    match v
    case Undefined => false
    case Null => false
    case Bool(b) => b
    case Num(n) => n != 0
    case Str(s) => s != []
    case _ => true
  }

  /** The value of an object's property; `Undefined` when there is none. */
  function Property(v: Value, key: JsString): Value {
    if v.Obj? then PropertyIn(v.keys, v.values, key) else Undefined
  }

  function PropertyIn(keys: seq<JsString>, values: seq<Value>, key: JsString): Value {
    if keys == [] || values == [] then Undefined
    else if keys[0] == key then values[0]
    else PropertyIn(keys[1..], values[1..], key)
  }

  predicate HasBinary(v: Value) {
    match v
    case Binary(_) => true
    case Arr(items) => exists i :: 0 <= i < |items| && HasBinary(items[i])
    case Obj(_, values) => exists i :: 0 <= i < |values| && HasBinary(values[i])
    case _ => false
  }

  // ---------- taking binary values out ----------

  /** The binary values inside `v`, in the order they are met. */
  function Buffers(v: Value): seq<seq<Byte>> {
    match v
    case Binary(bytes) => [bytes]
    case Arr(items) => AllBuffers(items)
    case Obj(_, values) => AllBuffers(values)
    case _ => []
  }

  function AllBuffers(vs: seq<Value>): seq<seq<Byte>> {
    if vs == [] then [] else Buffers(vs[0]) + AllBuffers(vs[1..])
  }

  function Placeholder(num: nat): Value {
    Obj([PLACEHOLDER, NUM], [Bool(true), Num(num)])
  }

  /** The keys after the first. */
  function Tail(keys: seq<JsString>): seq<JsString> {
    if keys == [] then [] else keys[1..]
  }

  /**
   * What an object gets of `parts` when they are assigned to it under `keys`, one after another: an assignment under
   * `__proto__` sets the prototype, which JSON does not print, and makes no property.
   */
  function Kept<T>(keys: seq<JsString>, parts: seq<T>): seq<T> {
    if parts == [] then []
    else (if keys != [] && keys[0] == PROTO then [] else [parts[0]]) + Kept(Tail(keys), parts[1..])
  }

  /** `v` with its binary values replaced by placeholders numbered from `n`, its objects being built anew. */
  function Strip(v: Value, n: nat): Value {
    match v
    case Binary(_) => Placeholder(n)
    case Arr(items) => Arr(StripAll(items, n))
    case Obj(keys, values) => Obj(Kept(keys, keys), Kept(keys, StripAll(values, n)))
    case _ => v
  }

  function StripAll(vs: seq<Value>, n: nat): seq<Value> {
    if vs == [] then [] else [Strip(vs[0], n)] + StripAll(vs[1..], n + |Buffers(vs[0])|)
  }

  method Deconstruct(data: Value, buffers: seq<seq<Byte>>) returns (pack: Value, buffers': seq<seq<Byte>>)
    ensures pack == Strip(data, |buffers|) && buffers' == buffers + Buffers(data)
    decreases data
  {
    buffers' := buffers;
    match data
    case Binary(bytes) =>
      pack := Placeholder(|buffers|);
      buffers' := buffers' + [bytes];
    case Arr(items) =>
      var newData;
      newData, buffers' := DeconstructAll(items, buffers');
      pack := Arr(newData);
    case Obj(keys, values) =>
      var newData;
      newData, buffers' := DeconstructProperties(keys, values, buffers');
      pack := Obj(Kept(keys, keys), newData);
    case _ =>
      pack := data;
  }

  method DeconstructAll(items: seq<Value>, buffers: seq<seq<Byte>>)
      returns (newData: seq<Value>, buffers': seq<seq<Byte>>)
    ensures newData == StripAll(items, |buffers|) && buffers' == buffers + AllBuffers(items)
    decreases items
  {
    newData, buffers' := [], buffers;
    var i := 0;
    while i < |items|
      invariant 0 <= i <= |items|
      invariant newData + StripAll(items[i..], |buffers'|) == StripAll(items, |buffers|)
      invariant buffers' + AllBuffers(items[i..]) == buffers + AllBuffers(items)
    {
      ghost var rest := items[i..];
      assert rest[1..] == items[i + 1..];
      var pack, more := Deconstruct(items[i], buffers');
      Assoc(newData, [pack], StripAll(rest[1..], |more|));
      Assoc(buffers', Buffers(items[i]), AllBuffers(rest[1..]));
      newData, buffers' := newData + [pack], more;
      i := i + 1;
    }
    assert items[i..] == [];
  }

  /** Each property is deconstructed and assigned to a new object. */
  method DeconstructProperties(keys: seq<JsString>, values: seq<Value>, buffers: seq<seq<Byte>>)
      returns (newData: seq<Value>, buffers': seq<seq<Byte>>)
    ensures newData == Kept(keys, StripAll(values, |buffers|)) && buffers' == buffers + AllBuffers(values)
    decreases values
  {
    hide Kept, StripAll, AllBuffers, Strip, Buffers;
    newData, buffers' := [], buffers;
    var i, left := 0, keys;
    assert values[0..] == values;
    while i < |values|
      invariant 0 <= i <= |values|
      invariant newData + Kept(left, StripAll(values[i..], |buffers'|)) == Kept(keys, StripAll(values, |buffers|))
      invariant buffers' + AllBuffers(values[i..]) == buffers + AllBuffers(values)
    {
      ghost var rest := values[i..];
      assert rest[0] == values[i] && rest[1..] == values[i + 1..];
      PartsStep(rest, |buffers'|);
      var pack, more := Deconstruct(values[i], buffers');
      ghost var later := StripAll(rest[1..], |more|);
      KeptStep(left, pack, later);
      Assoc(newData, [pack], Kept(Tail(left), later));
      Assoc(buffers', Buffers(values[i]), AllBuffers(rest[1..]));
      if left == [] || left[0] != PROTO {
        newData := newData + [pack];
      }
      buffers', left, i := more, Tail(left), i + 1;
    }
    NoParts(left, |buffers'|);
    assert values[i..] == [];
  }

  lemma PartsStep(vs: seq<Value>, n: nat)
    requires vs != []
    ensures StripAll(vs, n) == [Strip(vs[0], n)] + StripAll(vs[1..], n + |Buffers(vs[0])|)
    ensures AllBuffers(vs) == Buffers(vs[0]) + AllBuffers(vs[1..])
  {
  }

  lemma NoParts(keys: seq<JsString>, n: nat)
    ensures Kept(keys, StripAll([], n)) == [] && AllBuffers([]) == []
  {
  }

  lemma KeptStep<T>(keys: seq<JsString>, part: T, parts: seq<T>)
    ensures Kept(keys, [part] + parts)
         == (if keys != [] && keys[0] == PROTO then [] else [part]) + Kept(Tail(keys), parts)
  {
    assert ([part] + parts)[1..] == parts;
  }

  /** The names in the source, and what a placeholder is. */
  lemma PlaceholderSpelled(num: nat)
    ensures Placeholder(num)
         == Obj([[95, 112, 108, 97, 99, 101, 104, 111, 108, 100, 101, 114], [110, 117, 109]], [Bool(true), Num(num)])
  {
  }

  /** The values that count as false in a condition. */
  lemma FalsyValues(v: Value)
    ensures !Truthy(v) <==> v in {Undefined, Null, Bool(false), Num(0), Str([])}
  {
  }

  /** Of a single property the new object has just that, unless its name is `__proto__`. */
  lemma OnlyProtoIsLost<T>(key: JsString, part: T)
    ensures Kept([key], [part]) == if key == [95, 95, 112, 114, 111, 116, 111, 95, 95] then [] else [part]
  {
    NothingKept<T>([]);
    assert [part][1..] == [] && Tail([key]) == [];
  }

  lemma NothingKept<T>(keys: seq<JsString>)
    ensures Kept<T>(keys, []) == []
  {
  }

  /** The first property of that name; absent when there is none, and on anything but an object. */
  lemma {:induction false} PropertyFound(keys: seq<JsString>, values: seq<Value>, key: JsString, i: nat)
    requires |keys| == |values|
    ensures i < |keys| && keys[i] == key && key !in keys[..i] ==> Property(Obj(keys, values), key) == values[i]
    ensures key !in keys ==> Property(Obj(keys, values), key) == Undefined
    ensures forall v: Value :: !v.Obj? ==> Property(v, key) == Undefined
  {
    if keys != [] && i > 0 {
      PropertyFound(keys[1..], values[1..], key, i - 1);
      assert i < |keys| ==> keys[..i][1..] == keys[1..][..i - 1];
      assert i < |keys| ==> keys[..i] == [keys[0]] + keys[..i][1..];
    } else if keys != [] {
      PropertyFound(keys[1..], values[1..], key, 0);
    }
  }

  // ---------- putting them back ----------

  /** What a placeholder stands for: the element of `buffers` at its number. */
  function BufferAt(buffers: seq<seq<Byte>>, num: Value): Value {
    if num.Num? && 0 <= num.n < |buffers| then Binary(buffers[num.n]) else Undefined
  }

  function Restore(v: Value, buffers: seq<seq<Byte>>): Value {
    if Truthy(Property(v, PLACEHOLDER)) then BufferAt(buffers, Property(v, NUM))
    else
      match v
      case Arr(items) => Arr(RestoreAll(items, buffers))
      case Obj(keys, values) => Obj(keys, RestoreAll(values, buffers))
      case _ => v
  }

  function RestoreAll(vs: seq<Value>, buffers: seq<seq<Byte>>): (r: seq<Value>)
    ensures |r| == |vs|
  {
    if vs == [] then [] else [Restore(vs[0], buffers)] + RestoreAll(vs[1..], buffers)
  }

  /** A number finds the buffer at its place; one out of range, and what is no number, finds nothing. */
  lemma BufferFound(buffers: seq<seq<Byte>>, n: int, num: Value)
    ensures 0 <= n < |buffers| ==> BufferAt(buffers, Num(n)) == Binary(buffers[n])
    ensures n < 0 || |buffers| <= n ==> BufferAt(buffers, Num(n)) == Undefined
    ensures !num.Num? ==> BufferAt(buffers, num) == Undefined
  {
  }

  method Reconstruct(data: Value, buffers: seq<seq<Byte>>) returns (r: Value)
    ensures r == Restore(data, buffers)
    decreases data
  {
    if Truthy(Property(data, PLACEHOLDER)) {
      return BufferAt(buffers, Property(data, NUM));
    }
    match data
    case Arr(items) =>
      var restored := ReconstructAll(items, buffers);
      r := Arr(restored);
    case Obj(keys, values) =>
      var restored := ReconstructAll(values, buffers);
      r := Obj(keys, restored);
    case _ =>
      r := data;
  }

  /** Overwrites each element with its restored value, in order. */
  method ReconstructAll(items: seq<Value>, buffers: seq<seq<Byte>>) returns (data: seq<Value>)
    ensures data == RestoreAll(items, buffers)
    decreases items
  {
    data := items;
    var i := 0;
    while i < |items|
      invariant 0 <= i <= |items| == |data|
      invariant data[..i] + RestoreAll(items[i..], buffers) == RestoreAll(items, buffers)
      invariant data[i..] == items[i..]
    {
      assert items[i..][1..] == items[i + 1..];
      var restored := Reconstruct(items[i], buffers);
      Assoc(data[..i], [restored], RestoreAll(items[i + 1..], buffers));
      data := data[i := restored];
      i := i + 1;
    }
    assert items[i..] == [];
  }

  // ---------- properties ----------

  /** No object in `v` looks like a placeholder. */
  predicate IsPlain(v: Value) {
    && !Truthy(Property(v, PLACEHOLDER))
    && match v
       case Arr(items) => forall i :: 0 <= i < |items| ==> IsPlain(items[i])
       case Obj(_, values) => forall i :: 0 <= i < |values| ==> IsPlain(values[i])
       case _ => true
  }

  /** Every property an object has is made anew when it is rebuilt. */
  predicate LacksProto(v: Value) {
    match v
    case Arr(items) => forall i :: 0 <= i < |items| ==> LacksProto(items[i])
    case Obj(keys, values) => PROTO !in keys && forall i :: 0 <= i < |values| ==> LacksProto(values[i])
    case _ => true
  }

  lemma {:induction false} KeptWithoutProto<T>(keys: seq<JsString>, parts: seq<T>)
    requires PROTO !in keys
    ensures Kept(keys, parts) == parts
    decreases |parts|
  {
    if parts != [] {
      KeptWithoutProto(Tail(keys), parts[1..]);
    }
  }

  lemma {:induction false} KeptKeys(keys: seq<JsString>)
    ensures |Kept(keys, keys)| <= |keys|
    ensures Kept(keys, keys) == keys <==> PROTO !in keys
    ensures forall key :: key in Kept(keys, keys) ==> key in keys && key != PROTO
  {
    if keys != [] {
      KeptKeys(keys[1..]);
    }
  }

  /** A property under any other name is found in the new object as in the old one. */
  lemma {:induction false} KeptProperty(keys: seq<JsString>, values: seq<Value>, key: JsString)
    requires key != PROTO
    ensures PropertyIn(Kept(keys, keys), Kept(keys, values), key) == PropertyIn(keys, values, key)
  {
    if keys != [] && values != [] {
      KeptProperty(keys[1..], values[1..], key);
      var own, rest := Kept(keys, keys), Kept(keys, values);
      var own', rest' := Kept(keys[1..], keys[1..]), Kept(keys[1..], values[1..]);
      if keys[0] == PROTO {
        assert own == own' && rest == rest';
      } else {
        assert own == [keys[0]] + own' && rest == [values[0]] + rest';
        assert own[1..] == own' && rest[1..] == rest';
      }
    }
  }

  lemma StripKeepsTruth(v: Value, n: nat)
    ensures Truthy(Strip(v, n)) == Truthy(v)
  {
  }

  lemma {:induction false} StripAllAt(vs: seq<Value>, n: nat)
    ensures |StripAll(vs, n)| == |vs|
  {
    if vs != [] {
      StripAllAt(vs[1..], n + |Buffers(vs[0])|);
    }
  }

  lemma {:induction false} StripKeepsProperties(keys: seq<JsString>, values: seq<Value>, n: nat, key: JsString)
    ensures Truthy(PropertyIn(keys, StripAll(values, n), key)) == Truthy(PropertyIn(keys, values, key))
  {
    StripAllAt(values, n);
    if keys != [] && values != [] {
      StripKeepsTruth(values[0], n);
      StripKeepsProperties(keys[1..], values[1..], n + |Buffers(values[0])|, key);
    }
  }

  /** An object that is rebuilt looks like a placeholder exactly when it did before. */
  lemma StripKeepsLooks(v: Value, n: nat)
    requires v.Obj?
    ensures Truthy(Property(Strip(v, n), PLACEHOLDER)) == Truthy(Property(v, PLACEHOLDER))
  {
    assert PLACEHOLDER[1] != PROTO[1];
    KeptProperty(v.keys, StripAll(v.values, n), PLACEHOLDER);
    StripKeepsProperties(v.keys, v.values, n, PLACEHOLDER);
  }

  lemma PlaceholderProperties(num: nat)
    ensures Property(Placeholder(num), PLACEHOLDER) == Bool(true) && Property(Placeholder(num), NUM) == Num(num)
    ensures Buffers(Placeholder(num)) == []
  {
    var p := Placeholder(num);
    assert AllBuffers([Num(num)]) == [];
    assert AllBuffers(p.values) == Buffers(p.values[0]) + AllBuffers(p.values[1..]);
    assert p.keys[1..] == [NUM] && p.values[1..] == [Num(num)];
    assert PLACEHOLDER[0] != NUM[0];
    assert PropertyIn([NUM], [Num(num)], NUM) == Num(num);
  }

  /**
   * Putting back what was taken out restores the value exactly when no object in it looks like a placeholder or has a
   * property of its own under `__proto__`. `buffers` holds the value's own binaries from number `n` on, among those
   * of the rest of the packet.
   */
  lemma {:induction false} StripRestore(v: Value, n: nat, buffers: seq<seq<Byte>>)
    requires n + |Buffers(v)| <= |buffers| && buffers[n..n + |Buffers(v)|] == Buffers(v)
    ensures Restore(Strip(v, n), buffers) == v <==> IsPlain(v) && LacksProto(v)
    decreases v
  {
    hide Placeholder, PropertyIn, StripAll, RestoreAll, AllBuffers, Kept;
    match v {
      case Binary(bytes) =>
        PlaceholderProperties(n);
        assert buffers[n] == buffers[n..n + 1][0];
      case Arr(items) =>
        StripRestoreAll(items, n, buffers);
      case Obj(keys, values) =>
        StripKeepsLooks(v, n);
        KeptKeys(keys);
        if PROTO !in keys {
          KeptWithoutProto(keys, StripAll(values, n));
        }
        StripRestoreAll(values, n, buffers);
      case _ =>
    }
  }

  lemma SliceParts<T>(s: seq<T>, n: nat, x: seq<T>, y: seq<T>)
    requires n + |x + y| <= |s| && s[n..n + |x + y|] == x + y
    ensures s[n..n + |x|] == x && s[n + |x|..n + |x| + |y|] == y
  {
    assert s[n..n + |x|] == s[n..n + |x + y|][..|x|];
    assert s[n + |x|..n + |x| + |y|] == s[n..n + |x + y|][|x|..];
  }

  /** A value that comes back whole. */
  predicate IsIntact(v: Value) {
    IsPlain(v) && LacksProto(v)
  }

  lemma AllIntactCons(vs: seq<Value>)
    requires vs != []
    ensures (forall i :: 0 <= i < |vs| ==> IsIntact(vs[i]))
       <==> IsIntact(vs[0]) && forall i :: 0 <= i < |vs[1..]| ==> IsIntact(vs[1..][i])
  {
    hide IsIntact;
    if IsIntact(vs[0]) && forall i :: 0 <= i < |vs[1..]| ==> IsIntact(vs[1..][i]) {
      forall i | 0 < i < |vs| ensures IsIntact(vs[i]) {
        assert vs[i] == vs[1..][i - 1];
      }
    }
  }

  lemma RestoreStripCons(vs: seq<Value>, n: nat, buffers: seq<seq<Byte>>)
    requires vs != []
    ensures RestoreAll(StripAll(vs, n), buffers)
         == [Restore(Strip(vs[0], n), buffers)] + RestoreAll(StripAll(vs[1..], n + |Buffers(vs[0])|), buffers)
  {
    hide Restore, Strip, Buffers;
    assert StripAll(vs, n)[1..] == StripAll(vs[1..], n + |Buffers(vs[0])|);
  }

  lemma {:induction false} StripRestoreAll(vs: seq<Value>, n: nat, buffers: seq<seq<Byte>>)
    requires n + |AllBuffers(vs)| <= |buffers| && buffers[n..n + |AllBuffers(vs)|] == AllBuffers(vs)
    ensures RestoreAll(StripAll(vs, n), buffers) == vs <==> forall i :: 0 <= i < |vs| ==> IsIntact(vs[i])
    decreases vs
  {
    if vs != [] {
      var k := |Buffers(vs[0])|;
      SliceParts(buffers, n, Buffers(vs[0]), AllBuffers(vs[1..]));
      StripRestore(vs[0], n, buffers);
      StripRestoreAll(vs[1..], n + k, buffers);
      RestoreStripCons(vs, n, buffers);
      AllIntactCons(vs);
      hide Restore, RestoreAll, Strip, StripAll, Buffers, AllBuffers, IsPlain, LacksProto;
      assert vs == [vs[0]] + vs[1..];
    }
  }

  /** `HasBinary` holds exactly when something is taken out. */
  lemma {:induction false} HasBinaryCounts(v: Value)
    ensures HasBinary(v) <==> Buffers(v) != []
  {
    match v {
      case Arr(items) =>
        HasBinaryCountsAll(items);
      case Obj(_, values) =>
        HasBinaryCountsAll(values);
      case _ =>
    }
  }

  lemma {:induction false} HasBinaryCountsAll(vs: seq<Value>)
    ensures (exists i :: 0 <= i < |vs| && HasBinary(vs[i])) <==> AllBuffers(vs) != []
  {
    if vs != [] {
      HasBinaryCounts(vs[0]);
      HasBinaryCountsAll(vs[1..]);
      if i :| 0 <= i < |vs| && HasBinary(vs[i]) {
        assert i > 0 ==> vs[1..][i - 1] == vs[i];
      }
      if i :| 0 <= i < |vs[1..]| && HasBinary(vs[1..][i]) {
        assert vs[i + 1] == vs[1..][i];
      }
    }
  }

  /** The numbers of the placeholders in `v`, in the order they are met. */
  function Numbers(v: Value): seq<Value> {
    if Truthy(Property(v, PLACEHOLDER)) then [Property(v, NUM)]
    else
      match v
      case Arr(items) => AllNumbers(items)
      case Obj(_, values) => AllNumbers(values)
      case _ => []
  }

  function AllNumbers(vs: seq<Value>): seq<Value> {
    if vs == [] then [] else Numbers(vs[0]) + AllNumbers(vs[1..])
  }

  function Count(n: nat, k: nat): seq<Value> {
    seq(k, i requires 0 <= i < k => Num(n + i))
  }

  lemma CountNone(n: nat)
    ensures Count(n, 0) == []
  {
  }

  lemma CountSplit(n: nat, k: nat, m: nat)
    ensures Count(n, k + m) == Count(n, k) + Count(n + k, m)
  {
  }

  /** Nothing binary is left in what is sent as JSON. */
  lemma {:induction false} StripLeavesNone(v: Value, n: nat)
    ensures Buffers(Strip(v, n)) == []
  {
    match v {
      case Binary(bytes) =>
        PlaceholderProperties(n);
      case Arr(items) =>
        StripLeavesNoneAll(items, n);
      case Obj(keys, values) =>
        StripLeavesNoneAll(values, n);
        KeptHasNone(keys, StripAll(values, n));
      case _ =>
    }
  }

  lemma {:induction false} StripLeavesNoneAll(vs: seq<Value>, n: nat)
    ensures AllBuffers(StripAll(vs, n)) == []
  {
    if vs != [] {
      StripLeavesNone(vs[0], n);
      StripLeavesNoneAll(vs[1..], n + |Buffers(vs[0])|);
      PartsStep(vs, n);
      hide Strip, StripAll, Buffers;
      var rest := StripAll(vs[1..], n + |Buffers(vs[0])|);
      assert ([Strip(vs[0], n)] + rest)[1..] == rest;
      assert AllBuffers(StripAll(vs, n)) == Buffers(Strip(vs[0], n)) + AllBuffers(rest);
    }
  }

  lemma {:induction false} KeptHasNone(keys: seq<JsString>, vs: seq<Value>)
    requires AllBuffers(vs) == []
    ensures AllBuffers(Kept(keys, vs)) == []
    decreases |vs|
  {
    if vs != [] {
      assert |Buffers(vs[0])| + |AllBuffers(vs[1..])| == |AllBuffers(vs)|;
      var kept := Kept(Tail(keys), vs[1..]);
      KeptHasNone(Tail(keys), vs[1..]);
      assert ([vs[0]] + kept)[1..] == kept && [] + kept == kept;
      assert AllBuffers([vs[0]] + kept) == Buffers(vs[0]) + AllBuffers(kept);
    }
  }

  lemma {:induction false} PlainHasNoNumbers(v: Value)
    requires IsPlain(v)
    ensures Numbers(v) == []
  {
    match v {
      case Arr(items) =>
        PlainHasNoNumbersAll(items);
      case Obj(_, values) =>
        PlainHasNoNumbersAll(values);
      case _ =>
    }
  }

  lemma {:induction false} PlainHasNoNumbersAll(vs: seq<Value>)
    requires forall i :: 0 <= i < |vs| ==> IsPlain(vs[i])
    ensures AllNumbers(vs) == []
  {
    if vs != [] {
      PlainHasNoNumbers(vs[0]);
      PlainHasNoNumbersAll(vs[1..]);
    }
  }

  /** Stripping an intact value numbers its placeholders n, n+1, ... once each. */
  lemma {:induction false} PlaceholdersInOrder(v: Value, n: nat)
    requires IsPlain(v) && LacksProto(v)
    ensures Numbers(Strip(v, n)) == Count(n, |Buffers(v)|)
  {
    match v {
      case Binary(bytes) =>
        PlaceholderProperties(n);
        assert Placeholder(n).values[1..] == [Num(n)] && [Num(n)][1..] == [];
        assert Count(n, 1) == [Num(n)];
      case Arr(items) =>
        PlaceholdersInOrderAll(items, n);
      case Obj(keys, values) =>
        StripKeepsLooks(v, n);
        KeptWithoutProto(keys, StripAll(values, n));
        PlaceholdersInOrderAll(values, n);
      case _ =>
        assert Count(n, 0) == [];
    }
  }

  lemma {:induction false} PlaceholdersInOrderAll(vs: seq<Value>, n: nat)
    requires forall i :: 0 <= i < |vs| ==> IsPlain(vs[i]) && LacksProto(vs[i])
    ensures AllNumbers(StripAll(vs, n)) == Count(n, |AllBuffers(vs)|)
  {
    hide Count;
    CountNone(n);
    if vs != [] {
      var k := |Buffers(vs[0])|;
      PlaceholdersInOrder(vs[0], n);
      PlaceholdersInOrderAll(vs[1..], n + k);
      assert StripAll(vs, n)[1..] == StripAll(vs[1..], n + k);
      CountSplit(n, k, |AllBuffers(vs[1..])|);
    }
  }
}
