/** Underscore's `isEqual`: deep equality of values in a possibly cyclic object graph. */
module IsEqual {
  import opened JsText
  import Doubles

  /** A primitive value; numbers other than the special ones are told apart by `real` values. */
  datatype Prim =
    | Undefined
    | Null
    | Bool(b: bool)
    | Str(s: JsString)
    | NaN
    | Infinity(negative: bool)
    | Zero(negative: bool)
    | Number(r: NonZero)

  type NonZero = r: real | r != 0.0 witness 1.0

  type Boxable = p: Prim | p != Undefined && p != Null witness NaN

  /** A value without parts; an object among them is told from others by its number. An invalid date has no time. */
  datatype Atom =
    | Plain(p: Prim)
    | Boxed(id: nat, q: Boxable)
    | Date(id: nat, time: Option<int>)
    | RegExp(id: nat, source: JsString, global: bool, multiline: bool, ignoreCase: bool)
    | Function(id: nat)

  type Address = nat

  datatype Value = Atom(a: Atom) | Ref(r: Address)

  /** An array, or an object with own properties in enumeration order; `ctor` names its constructor. */
  datatype Node = Node(isArray: bool, ctor: nat, keys: seq<JsString>, values: seq<Value>)

  /** The object graph, and the constructors that are instances of themselves, such as `Object`. */
  datatype Heap = Heap(nodes: map<Address, Node>, selfInstances: set<nat>)

  predicate IsIn(h: Heap, v: Value) {
    v.Ref? ==> v.r in h.nodes
  }

  predicate DistinctKeys(keys: seq<JsString>) {
    forall i, j :: 0 <= i < j < |keys| ==> keys[i] != keys[j]
  }

  predicate WellFormed(h: Heap) {
    forall x :: x in h.nodes ==>
      var n := h.nodes[x];
      && (!n.isArray ==> |n.keys| == |n.values| && DistinctKeys(n.keys))
      && forall i :: 0 <= i < |n.values| ==> IsIn(h, n.values[i])
  }

  // ---------- values without parts ----------

  datatype Class = UndefinedClass | NullClass | BooleanClass | StringClass | NumberClass | DateClass | RegExpClass
    | FunctionClass

  function ClassOfPrim(p: Prim): Class {
    match p
    case Undefined => UndefinedClass
    case Null => NullClass
    case Bool(_) => BooleanClass
    case Str(_) => StringClass
    case _ => NumberClass
  }

  function ClassOf(a: Atom): Class {
    match a
    case Plain(p) => ClassOfPrim(p)
    case Boxed(_, p) => ClassOfPrim(p)
    case Date(_, _) => DateClass
    case RegExp(_, _, _, _, _) => RegExpClass
    case Function(_) => FunctionClass
  }

  /** The primitive that a conversion such as `+n` or `String(n)` gets. */
  function PrimOf(a: Atom): Prim
    requires a.Plain? || a.Boxed?
  {
    if a.Plain? then a.p else a.q
  }

  /** The `===` operator. */
  predicate StrictlyEqual(a: Atom, b: Atom) {
    (a == b && a != Plain(NaN)) || (a.Plain? && a.p.Zero? && b.Plain? && b.p.Zero?)
  }

  predicate IsNullish(a: Atom) {
    a == Plain(Undefined) || a == Plain(Null)
  }

  /** A number so small that its reciprocal is too large for a double. */
  predicate IsTiny(r: NonZero) {
    var x: real := r;
    1.0 / (if x < 0.0 then -x else x) >= Doubles.Overflow()
  }

  /** `1/n == 1/t` when `n` is a zero: the same infinity, which the reciprocal of a tiny number is as well. */
  predicate SameReciprocal(negative: bool, t: Prim) {
    (t.Zero? && t.negative == negative) || (t.Number? && IsTiny(t.r) && (t.r < 0.0) == negative)
  }

  /** Two numbers: `n != +n` finds NaN, reciprocals tell the zeros apart. */
  predicate EqualNumbers(n: Prim, t: Prim) {
    if n.NaN? then t.NaN? else if n.Zero? then SameReciprocal(n.negative, t) else n == t
  }

  /** The comparison of two values without parts, class by class. */
  predicate EqualAtoms(a: Atom, b: Atom) {
    if StrictlyEqual(a, b) then a.Plain? && a.p.Zero? ==> SameReciprocal(a.p.negative, b.p)
    else if IsNullish(a) || IsNullish(b) || ClassOf(a) != ClassOf(b) then false
    else
      match ClassOf(a)
      case StringClass => PrimOf(a) == PrimOf(b)
      case NumberClass => EqualNumbers(PrimOf(a), PrimOf(b))
      case BooleanClass => PrimOf(a) == PrimOf(b)
      case DateClass => a.time.Some? && a.time == b.time
      case RegExpClass => a.source == b.source && a.global == b.global && a.multiline == b.multiline
                          && a.ignoreCase == b.ignoreCase
      case _ => false
  }

  /** What a value without parts stands for; a function and an invalid date stand for themselves alone. */
  datatype Meaning =
    | ThePrim(p: Prim)
    | TheTime(t: int)
    | ThePattern(source: JsString, global: bool, multiline: bool, ignoreCase: bool)
    | Itself(a: Atom)

  function MeaningOf(a: Atom): Meaning {
    match a
    case Plain(p) => ThePrim(p)
    case Boxed(_, p) => ThePrim(p)
    case Date(_, Some(t)) => TheTime(t)
    case RegExp(_, source, g, m, i) => ThePattern(source, g, m, i)
    case _ => Itself(a)
  }

  /** A zero on the left passes for a tiny number of its sign on the right. */
  predicate Passes(m: Meaning, n: Meaning) {
    m == n || (m.ThePrim? && m.p.Zero? && n.ThePrim? && n.p.Number? && SameReciprocal(m.p.negative, n.p))
  }

  /** The answer is whether both mean the same, but for a zero compared with a tiny number. */
  lemma EqualAtomsIsMeaning(a: Atom, b: Atom)
    ensures EqualAtoms(a, b) <==> Passes(MeaningOf(a), MeaningOf(b))
  {
    hide IsTiny;
  }

  /** 2^-1074, the least number above zero. */
  function Least(): NonZero {
    LeastPower();
    1.0 / Doubles.Pow(2.0, 1074)
  }

  lemma LeastPower()
    ensures Doubles.Pow(2.0, 1074) >= Doubles.Overflow() && Doubles.Pow(2.0, 1074) >= 1.0
    ensures 1.0 / Doubles.Pow(2.0, 1074) > 0.0
  {
    Doubles.PowNotNegative(2.0, 970);
    Doubles.PowGrows(2.0, 1024, 1074);
    hide Doubles.Pow;
    Reciprocal(Doubles.Pow(2.0, 1074));
  }

  lemma Reciprocal(p: real)
    requires p > 0.0
    ensures 1.0 / p > 0.0 && 1.0 / (1.0 / p) == p
  {
  }

  /** The least number is found equal to zero when it is on the right, and only then. */
  lemma LeastPassesForZero(h: Heap)
    requires WellFormed(h)
    ensures var zero, least := Atom(Plain(Zero(false))), Atom(Plain(Number(Least())));
            Eq(h, zero, least, [], []) && !Eq(h, least, zero, [], [])
  {
    LeastPower();
    hide Doubles.Pow, Doubles.Overflow;
    Reciprocal(Doubles.Pow(2.0, 1074));
    assert IsTiny(Least());
  }

  /**
   * A zero is found equal to another number exactly when that has its sign and is at most the reciprocal of the limit;
   * no number but a zero is found equal to a zero.
   */
  lemma ZeroAgainstNumber(h: Heap, negative: bool, r: real)
    requires WellFormed(h) && r != 0.0
    ensures var zero, other := Atom(Plain(Zero(negative))), Atom(Plain(Number(r)));
            && (Eq(h, zero, other, [], [])
                <==> if negative then r < 0.0 && -r * Doubles.Overflow() <= 1.0
                     else r > 0.0 && r * Doubles.Overflow() <= 1.0)
            && !Eq(h, other, zero, [], [])
  {
    hide Doubles.Overflow;
    var x := if r < 0.0 then -r else r;
    ReciprocalAtLeast(x, Doubles.Overflow());
  }

  lemma ReciprocalAtLeast(x: real, limit: real)
    requires x > 0.0
    ensures 1.0 / x >= limit <==> x * limit <= 1.0
  {
    var y := 1.0 / x;
    assert x * y == 1.0;
    if y >= limit {
      Doubles.Keeps(x, limit, y);
    } else {
      assert x * (limit - y) > 0.0;
    }
  }

  // ---------- the comparison ----------

  predicate SameConstructor(h: Heap, a: nat, b: nat) {
    a == b || (a in h.selfInstances && b in h.selfInstances)
  }

  /** The index of a property, or the number of keys when there is none. */
  function Find(keys: seq<JsString>, key: JsString): (i: nat)
    ensures i <= |keys| && (i < |keys| ==> keys[i] == key) && (i == |keys| ==> key !in keys)
  {
    if keys == [] || keys[0] == key then 0 else 1 + Find(keys[1..], key)
  }

  /** The position of `x` on the stack, searched from the top; the stack's height when it is not there. */
  function Position(stack: seq<Address>, x: Address): (i: nat)
    ensures i <= |stack| && (i < |stack| ==> stack[i] == x) && (i == |stack| ==> x !in stack)
  {
    if stack == [] then 0
    else if stack[|stack| - 1] == x then |stack| - 1
    else
      var i := Position(stack[..|stack| - 1], x);
      if i == |stack| - 1 then |stack| else i
  }

  /** How many nodes are not on the stack: what makes the recursion end. */
  ghost function Unstacked(h: Heap, stack: seq<Address>): nat {
    |h.nodes.Keys - (set x | x in stack)|
  }

  lemma PushShrinks(h: Heap, stack: seq<Address>, x: Address)
    requires x in h.nodes && x !in stack
    ensures Unstacked(h, stack + [x]) < Unstacked(h, stack)
  {
    var before, after := set y | y in stack, set y | y in stack + [x];
    assert after == before + {x};
    assert h.nodes.Keys - after == (h.nodes.Keys - before) - {x};
  }

  /** The stacks have the same height and hold nodes of the graph. */
  predicate IsInput(h: Heap, a: Value, b: Value, aStack: seq<Address>, bStack: seq<Address>) {
    WellFormed(h) && IsIn(h, a) && IsIn(h, b) && |aStack| == |bStack|
  }

  ghost predicate Eq(h: Heap, a: Value, b: Value, aStack: seq<Address>, bStack: seq<Address>)
    requires IsInput(h, a, b, aStack, bStack)
    decreases Unstacked(h, aStack), 0
  {
    if a.Atom? || b.Atom? then a.Atom? && b.Atom? && EqualAtoms(a.a, b.a)
    else if a == b then true
    else
      var m, n, i := h.nodes[a.r], h.nodes[b.r], Position(aStack, a.r);
      if m.isArray != n.isArray then false
      else if i < |aStack| then bStack[i] == b.r
      else if !SameConstructor(h, m.ctor, n.ctor) then false
      else
        PushShrinks(h, aStack, a.r);
        if m.isArray then |m.values| == |n.values| && EqItems(h, m.values, n.values, aStack + [a.r], bStack + [b.r])
        else EqProps(h, m.keys, m.values, n, aStack + [a.r], bStack + [b.r]) && |m.keys| == |n.keys|
  }

  predicate AllIn(h: Heap, vs: seq<Value>) {
    forall i :: 0 <= i < |vs| ==> IsIn(h, vs[i])
  }

  /** Items are compared from the last to the first. */
  ghost predicate EqItems(h: Heap, vs: seq<Value>, ws: seq<Value>, aStack: seq<Address>, bStack: seq<Address>)
    requires WellFormed(h) && |vs| == |ws| && AllIn(h, vs) && AllIn(h, ws) && |aStack| == |bStack|
    decreases Unstacked(h, aStack), |vs|
  {
    vs == [] || (var k := |vs| - 1;
                 Eq(h, vs[k], ws[k], aStack, bStack) && EqItems(h, vs[..k], ws[..k], aStack, bStack))
  }

  /** Each property of the first object is an own property of the second, with an equal value. */
  ghost predicate EqProps(h: Heap, keys: seq<JsString>, vs: seq<Value>, n: Node,
                          aStack: seq<Address>, bStack: seq<Address>)
    requires WellFormed(h) && |keys| == |vs| && AllIn(h, vs) && |aStack| == |bStack|
    requires !n.isArray && |n.keys| == |n.values| && AllIn(h, n.values)
    decreases Unstacked(h, aStack), |vs|
  {
    keys == [] || (var i := Find(n.keys, keys[0]);
                   && i < |n.keys| && Eq(h, vs[0], n.values[i], aStack, bStack)
                   && EqProps(h, keys[1..], vs[1..], n, aStack, bStack))
  }

  /** The two stacks, pushed and popped as the comparison goes down and up. */
  class Comparer {
    var aStack: seq<Address>
    var bStack: seq<Address>

    constructor ()
      ensures aStack == [] && bStack == []
    {
      aStack, bStack := [], [];
    }

    method Compare(h: Heap, a: Value, b: Value) returns (r: bool)
      requires IsInput(h, a, b, aStack, bStack)
      modifies this
      ensures aStack == old(aStack) && bStack == old(bStack)
      ensures r == Eq(h, a, b, aStack, bStack)
      decreases Unstacked(h, aStack), 0
    {
      if a.Atom? || b.Atom? {
        return a.Atom? && b.Atom? && EqualAtoms(a.a, b.a);
      }
      if a == b {
        return true;
      }
      var m, n := h.nodes[a.r], h.nodes[b.r];
      if m.isArray != n.isArray {
        return false;
      }
      var i := Position(aStack, a.r);
      if i < |aStack| {
        return bStack[i] == b.r;
      }
      if !SameConstructor(h, m.ctor, n.ctor) {
        return false;
      }
      PushShrinks(h, aStack, a.r);
      ghost var as0, bs0 := aStack, bStack;
      aStack, bStack := aStack + [a.r], bStack + [b.r];
      if m.isArray {
        r := false;
        if |m.values| == |n.values| {
          r := CompareItems(h, m.values, n.values);
        }
      } else {
        r := CompareProps(h, m, n);
        if r {
          r := CountDown(|m.keys|, n.keys);
        }
      }
      aStack, bStack := aStack[..|aStack| - 1], bStack[..|bStack| - 1];
      assert aStack == as0 && bStack == bs0;
    }

    method CompareItems(h: Heap, vs: seq<Value>, ws: seq<Value>) returns (r: bool)
      requires WellFormed(h) && |vs| == |ws| && AllIn(h, vs) && AllIn(h, ws) && |aStack| == |bStack|
      modifies this
      ensures aStack == old(aStack) && bStack == old(bStack)
      ensures r == EqItems(h, vs, ws, aStack, bStack)
      decreases Unstacked(h, aStack), |vs| + 1
    {
      hide Eq;
      r := true;
      var size := |vs|;
      assert vs[..size] == vs && ws[..size] == ws;
      while size > 0 && r
        invariant 0 <= size <= |vs| && aStack == old(aStack) && bStack == old(bStack)
        invariant EqItems(h, vs, ws, aStack, bStack) == (r && EqItems(h, vs[..size], ws[..size], aStack, bStack))
      {
        size := size - 1;
        assert vs[..size + 1][..size] == vs[..size] && ws[..size + 1][..size] == ws[..size];
        r := Compare(h, vs[size], ws[size]);
      }
    }

    method CompareProps(h: Heap, m: Node, n: Node) returns (r: bool)
      requires WellFormed(h) && |m.keys| == |m.values| && AllIn(h, m.values) && |aStack| == |bStack|
      requires !n.isArray && |n.keys| == |n.values| && AllIn(h, n.values)
      modifies this
      ensures aStack == old(aStack) && bStack == old(bStack)
      ensures r == EqProps(h, m.keys, m.values, n, aStack, bStack)
      decreases Unstacked(h, aStack), |m.values| + 1
    {
      hide Eq, Find;
      r := true;
      var size := 0;
      while size < |m.keys|
        invariant 0 <= size <= |m.keys| && r && aStack == old(aStack) && bStack == old(bStack)
        invariant EqProps(h, m.keys, m.values, n, aStack, bStack)
               == EqProps(h, m.keys[size..], m.values[size..], n, aStack, bStack)
      {
        assert m.keys[size..][1..] == m.keys[size + 1..] && m.values[size..][1..] == m.values[size + 1..];
        var i := Find(n.keys, m.keys[size]);
        if i == |n.keys| {
          return false;
        }
        r := Compare(h, m.values[size], n.values[i]);
        if !r {
          return;
        }
        size := size + 1;
      }
    }
  }

  /** The second loop over keys: counts `size` down once for each key and stops when it would pass zero. */
  method CountDown(size: nat, keys: seq<JsString>) returns (r: bool)
    ensures r <==> size == |keys|
  {
    var left: int, i := size, 0;
    while i < |keys|
      invariant 0 <= i <= |keys| && left == size - i >= 0
    {
      left := left - 1;
      if left == -1 {
        break;
      }
      i := i + 1;
    }
    r := left == 0;
  }

  // ---------- a true answer means the graphs are bisimilar ----------

  type Relation = set<(Address, Address)>

  /** Values without parts that pass for each other, the same node, or nodes that the relation pairs. */
  predicate Related(v: Value, w: Value, pairs: Relation) {
    match (v, w)
    case (Atom(p), Atom(q)) => Passes(MeaningOf(p), MeaningOf(q))
    case (Ref(x), Ref(y)) => x == y || (x, y) in pairs
    case _ => false
  }

  /** The nodes look alike and their parts are related: items by position, properties by name. */
  predicate Alike(h: Heap, x: Address, y: Address, pairs: Relation) {
    && x in h.nodes && y in h.nodes
    && var m, n := h.nodes[x], h.nodes[y];
       && m.isArray == n.isArray && SameConstructor(h, m.ctor, n.ctor) && |m.values| == |n.values|
       && if m.isArray then ItemsRelated(m.values, n.values, pairs)
          else |m.keys| == |n.keys| && PropsRelated(m.keys, m.values, n, pairs)
  }

  predicate ItemsRelated(vs: seq<Value>, ws: seq<Value>, pairs: Relation) {
    |vs| == |ws| && forall i :: 0 <= i < |vs| ==> Related(vs[i], ws[i], pairs)
  }

  predicate PropsRelated(keys: seq<JsString>, vs: seq<Value>, n: Node, pairs: Relation) {
    && |keys| == |vs| && |n.keys| == |n.values|
    && forall i :: 0 <= i < |keys| ==>
         var j := Find(n.keys, keys[i]);
         j < |n.keys| && Related(vs[i], n.values[j], pairs)
  }

  ghost predicate IsBisimulation(h: Heap, pairs: Relation) {
    forall x, y :: (x, y) in pairs ==> Alike(h, x, y, pairs)
  }

  /** The pairs that are on the two stacks. */
  function Stacked(aStack: seq<Address>, bStack: seq<Address>): Relation
    requires |aStack| == |bStack|
  {
    set i | 0 <= i < |aStack| :: (aStack[i], bStack[i])
  }

  lemma StackedPush(aStack: seq<Address>, bStack: seq<Address>, x: Address, y: Address)
    requires |aStack| == |bStack|
    ensures Stacked(aStack + [x], bStack + [y]) == Stacked(aStack, bStack) + {(x, y)}
  {
    var as1, bs1 := aStack + [x], bStack + [y];
    forall p | p in Stacked(aStack, bStack) + {(x, y)} ensures p in Stacked(as1, bs1) {
      if p == (x, y) {
        assert (as1[|aStack|], bs1[|aStack|]) == p;
      } else {
        var i :| 0 <= i < |aStack| && p == (aStack[i], bStack[i]);
        assert (as1[i], bs1[i]) == p;
      }
    }
  }

  /** Every pair of `done` is alike, given the pairs of `done` and of `assumed`. */
  ghost predicate Justified(h: Heap, done: Relation, assumed: Relation) {
    forall x, y :: (x, y) in done ==> Alike(h, x, y, done + assumed)
  }

  lemma JustifiedUnion(h: Heap, done: Relation, done': Relation, assumed: Relation)
    requires Justified(h, done, assumed) && Justified(h, done', assumed)
    ensures Justified(h, done + done', assumed)
  {
  }

  lemma JustifiedAdd(h: Heap, x: Address, y: Address, done: Relation, assumed: Relation)
    requires Justified(h, done, assumed + {(x, y)}) && Alike(h, x, y, done + assumed + {(x, y)})
    ensures Justified(h, done + {(x, y)}, assumed)
  {
  }

  /** A true answer comes with the pairs met on the way, each alike given those still on the stack. */
  lemma {:induction false} EqIsJustified(h: Heap, a: Value, b: Value, aStack: seq<Address>, bStack: seq<Address>)
      returns (done: Relation)
    requires IsInput(h, a, b, aStack, bStack) && Eq(h, a, b, aStack, bStack)
    ensures Justified(h, done, Stacked(aStack, bStack))
    ensures Related(a, b, done + Stacked(aStack, bStack))
    decreases Unstacked(h, aStack), 0
  {
    hide Alike, EqualAtoms;
    done := {};
    if a.Atom? || b.Atom? {
      EqualAtomsIsMeaning(a.a, b.a);
    } else if a != b {
      var m, n, i := h.nodes[a.r], h.nodes[b.r], Position(aStack, a.r);
      if i < |aStack| {
        assert (aStack[i], bStack[i]) in Stacked(aStack, bStack);
      } else {
        PushShrinks(h, aStack, a.r);
        StackedPush(aStack, bStack, a.r, b.r);
        var as1, bs1 := aStack + [a.r], bStack + [b.r];
        if m.isArray {
          done := ItemsJustified(h, m.values, n.values, as1, bs1);
        } else {
          done := PropsJustified(h, m.keys, m.values, n, as1, bs1);
        }
        assert done + Stacked(as1, bs1) == done + Stacked(aStack, bStack) + {(a.r, b.r)};
        NodesAlike(h, a.r, b.r, done + Stacked(as1, bs1));
        JustifiedAdd(h, a.r, b.r, done, Stacked(aStack, bStack));
        done := done + {(a.r, b.r)};
      }
    }
  }

  lemma NodesAlike(h: Heap, x: Address, y: Address, pairs: Relation)
    requires WellFormed(h) && x in h.nodes && y in h.nodes
    requires h.nodes[x].isArray == h.nodes[y].isArray && SameConstructor(h, h.nodes[x].ctor, h.nodes[y].ctor)
    requires h.nodes[x].isArray ==> ItemsRelated(h.nodes[x].values, h.nodes[y].values, pairs)
    requires !h.nodes[x].isArray ==>
               && |h.nodes[x].keys| == |h.nodes[y].keys|
               && PropsRelated(h.nodes[x].keys, h.nodes[x].values, h.nodes[y], pairs)
    ensures Alike(h, x, y, pairs)
  {
  }

  lemma RelatedGrows(v: Value, w: Value, pairs: Relation, more: Relation)
    requires Related(v, w, pairs) && pairs <= more
    ensures Related(v, w, more)
  {
  }

  lemma {:induction false} ItemsJustified(h: Heap, vs: seq<Value>, ws: seq<Value>,
                                          aStack: seq<Address>, bStack: seq<Address>)
      returns (done: Relation)
    requires WellFormed(h) && |vs| == |ws| && AllIn(h, vs) && AllIn(h, ws) && |aStack| == |bStack|
    requires EqItems(h, vs, ws, aStack, bStack)
    ensures Justified(h, done, Stacked(aStack, bStack))
    ensures ItemsRelated(vs, ws, done + Stacked(aStack, bStack))
    decreases Unstacked(h, aStack), |vs|
  {
    hide Alike, Justified, Eq;
    done := {};
    NothingToJustify(h, Stacked(aStack, bStack));
    if vs != [] {
      var k, stacked := |vs| - 1, Stacked(aStack, bStack);
      var last := EqIsJustified(h, vs[k], ws[k], aStack, bStack);
      var rest := ItemsJustified(h, vs[..k], ws[..k], aStack, bStack);
      done := rest + last;
      JustifiedUnion(h, rest, last, stacked);
      forall i | 0 <= i < |vs| ensures Related(vs[i], ws[i], done + stacked) {
        if i < k {
          assert vs[i] == vs[..k][i] && ws[i] == ws[..k][i];
          RelatedGrows(vs[i], ws[i], rest + stacked, done + stacked);
        } else {
          RelatedGrows(vs[i], ws[i], last + stacked, done + stacked);
        }
      }
    }
  }

  lemma NothingToJustify(h: Heap, assumed: Relation)
    ensures Justified(h, {}, assumed)
  {
  }

  lemma {:induction false} PropsJustified(h: Heap, keys: seq<JsString>, vs: seq<Value>, n: Node,
                                          aStack: seq<Address>, bStack: seq<Address>)
      returns (done: Relation)
    requires WellFormed(h) && |keys| == |vs| && AllIn(h, vs) && |aStack| == |bStack|
    requires !n.isArray && |n.keys| == |n.values| && AllIn(h, n.values)
    requires EqProps(h, keys, vs, n, aStack, bStack)
    ensures Justified(h, done, Stacked(aStack, bStack))
    ensures PropsRelated(keys, vs, n, done + Stacked(aStack, bStack))
    decreases Unstacked(h, aStack), |vs|
  {
    hide Alike, Justified, Eq, Find;
    done := {};
    NothingToJustify(h, Stacked(aStack, bStack));
    if keys != [] {
      var stacked, j := Stacked(aStack, bStack), Find(n.keys, keys[0]);
      var first := EqIsJustified(h, vs[0], n.values[j], aStack, bStack);
      var rest := PropsJustified(h, keys[1..], vs[1..], n, aStack, bStack);
      done := first + rest;
      JustifiedUnion(h, first, rest, stacked);
      forall i | 0 <= i < |keys|
        ensures var j := Find(n.keys, keys[i]); j < |n.keys| && Related(vs[i], n.values[j], done + stacked)
      {
        if i > 0 {
          assert keys[i] == keys[1..][i - 1] && vs[i] == vs[1..][i - 1];
          RelatedGrows(vs[i], n.values[Find(n.keys, keys[i])], rest + stacked, done + stacked);
        } else {
          RelatedGrows(vs[i], n.values[j], first + stacked, done + stacked);
        }
      }
    }
  }

  /** The graphs hanging from two values are bisimilar. */
  ghost predicate Bisimilar(h: Heap, a: Value, b: Value) {
    exists pairs :: IsBisimulation(h, pairs) && Related(a, b, pairs)
  }

  /** On any finite graph, cyclic or not, a true answer means bisimilar. */
  lemma TrueMeansBisimilar(h: Heap, a: Value, b: Value)
    requires IsInput(h, a, b, [], []) && Eq(h, a, b, [], [])
    ensures Bisimilar(h, a, b)
  {
    hide Alike;
    var pairs := EqIsJustified(h, a, b, [], []);
    assert pairs + Stacked([], []) == pairs;
    assert IsBisimulation(h, pairs);
  }

  // ---------- on acyclic graphs the answer is exact ----------

  /** A value written out in full: properties by name, self-instance constructors not told apart. */
  datatype Tree =
    | Leaf(m: Meaning)
    | Items(ctor: Option<nat>, items: seq<Tree>)
    | Props(ctor: Option<nat>, props: map<JsString, Tree>)

  /** The same tree, but for zeros on the left that pass for tiny numbers on the right. */
  predicate Match(s: Tree, t: Tree) {
    match (s, t)
    case (Leaf(m), Leaf(n)) => Passes(m, n)
    case (Items(c, ss), Items(d, ts)) => c == d && |ss| == |ts| && forall i :: 0 <= i < |ss| ==> Match(ss[i], ts[i])
    case (Props(c, ss), Props(d, ts)) =>
      c == d && ss.Keys == ts.Keys && forall key :: key in ss && key in ts ==> Match(ss[key], ts[key])
    case _ => false
  }

  lemma {:induction false} MatchSelf(t: Tree)
    ensures Match(t, t)
  {
    match t {
      case Leaf(_) =>
      case Items(_, items) =>
        forall i | 0 <= i < |items| ensures Match(items[i], items[i]) {
          MatchSelf(items[i]);
        }
      case Props(_, props) =>
        forall key | key in props ensures Match(props[key], props[key]) {
          MatchSelf(props[key]);
        }
    }
  }

  predicate IsTinyLeaf(m: Meaning) {
    m.ThePrim? && m.p.Number? && IsTiny(m.p.r)
  }

  predicate HoldsTiny(t: Tree) {
    match t
    case Leaf(m) => IsTinyLeaf(m)
    case Items(_, items) => exists i :: 0 <= i < |items| && HoldsTiny(items[i])
    case Props(_, props) => exists key :: key in props && HoldsTiny(props[key])
  }

  /** Every tiny number replaced by the zero of its sign. */
  function Zeroed(t: Tree): Tree {
    match t
    case Leaf(m) => if IsTinyLeaf(m) then Leaf(ThePrim(Zero(m.p.r < 0.0))) else t
    case Items(c, items) => Items(c, seq(|items|, i requires 0 <= i < |items| => Zeroed(items[i])))
    case Props(c, props) => Props(c, map key | key in props :: Zeroed(props[key]))
  }

  lemma {:induction false} ZeroedMatches(t: Tree)
    ensures Match(Zeroed(t), t) && (HoldsTiny(t) ==> Zeroed(t) != t)
  {
    hide IsTiny;
    match t {
      case Leaf(_) =>
      case Items(_, items) =>
        forall i | 0 <= i < |items|
          ensures Match(Zeroed(items[i]), items[i]) && (HoldsTiny(items[i]) ==> Zeroed(items[i]) != items[i])
        {
          ZeroedMatches(items[i]);
        }
        assert forall i :: 0 <= i < |items| ==> Zeroed(t).items[i] == Zeroed(items[i]);
      case Props(_, props) =>
        forall key | key in props
          ensures Match(Zeroed(props[key]), props[key]) && (HoldsTiny(props[key]) ==> Zeroed(props[key]) != props[key])
        {
          ZeroedMatches(props[key]);
        }
        assert forall key :: key in props ==> Zeroed(t).props[key] == Zeroed(props[key]);
    }
  }

  lemma {:induction false} MatchWithoutTiny(s: Tree, t: Tree)
    requires Match(s, t) && !HoldsTiny(t)
    ensures s == t
  {
    hide IsTiny;
    match (s, t) {
      case (Items(_, ss), Items(_, ts)) =>
        forall i | 0 <= i < |ss| ensures ss[i] == ts[i] {
          MatchWithoutTiny(ss[i], ts[i]);
        }
      case (Props(_, ss), Props(_, ts)) =>
        forall key | key in ss ensures ss[key] == ts[key] {
          MatchWithoutTiny(ss[key], ts[key]);
        }
        assert ss == ts;
      case _ =>
    }
  }

  /** Only the same tree matches one exactly when that holds no tiny number. */
  lemma OnlyTinyMisleads(t: Tree)
    ensures (forall s :: Match(s, t) ==> s == t) <==> !HoldsTiny(t)
  {
    ZeroedMatches(t);
    if !HoldsTiny(t) {
      forall s | Match(s, t) ensures s == t {
        MatchWithoutTiny(s, t);
      }
    }
  }

  /** Every reference of a ranked node leads to one of smaller rank; the rest of the graph may be cyclic. */
  predicate Acyclic(h: Heap, rank: map<Address, nat>) {
    forall x :: x in rank ==> x in h.nodes && PartsBelow(h, rank, h.nodes[x].values, rank[x])
  }

  predicate IsRanked(rank: map<Address, nat>, v: Value) {
    v.Ref? ==> v.r in rank
  }

  predicate AllRanked(rank: map<Address, nat>, vs: seq<Value>) {
    forall i :: 0 <= i < |vs| ==> IsRanked(rank, vs[i])
  }

  predicate PartsBelow(h: Heap, rank: map<Address, nat>, vs: seq<Value>, top: nat) {
    forall i :: 0 <= i < |vs| ==> Below(rank, vs[i], top)
  }

  predicate Below(rank: map<Address, nat>, v: Value, top: nat) {
    v.Ref? ==> v.r in rank && rank[v.r] < top
  }

  function CtorKey(h: Heap, ctor: nat): Option<nat> {
    if ctor in h.selfInstances then None else Some(ctor)
  }

  function Height(rank: map<Address, nat>, v: Value): nat {
    if v.Ref? && v.r in rank then rank[v.r] + 1 else 0
  }

  function Unfold(h: Heap, rank: map<Address, nat>, v: Value): Tree
    requires WellFormed(h) && Acyclic(h, rank) && IsRanked(rank, v)
    decreases Height(rank, v)
  {
    match v
    case Atom(a) => Leaf(MeaningOf(a))
    case Ref(x) =>
      var n := h.nodes[x];
      if n.isArray then Items(CtorKey(h, n.ctor), seq(|n.values|, i requires 0 <= i < |n.values| =>
                                assert Below(rank, n.values[i], rank[x]); Unfold(h, rank, n.values[i])))
      else Props(CtorKey(h, n.ctor), map key | key in n.keys ::
                   assert Below(rank, n.values[Find(n.keys, key)], rank[x]);
                   Unfold(h, rank, n.values[Find(n.keys, key)]))
  }

  /** Everything on the stack lies above the value. */
  predicate StackAbove(rank: map<Address, nat>, stack: seq<Address>, v: Value) {
    forall i :: 0 <= i < |stack| ==> stack[i] in rank && Below(rank, v, rank[stack[i]])
  }

  lemma StackAbovePart(h: Heap, rank: map<Address, nat>, stack: seq<Address>, x: Address, v: Value)
    requires Acyclic(h, rank) && x in rank && v in h.nodes[x].values && StackAbove(rank, stack, Ref(x))
    ensures StackAbove(rank, stack + [x], v)
  {
  }

  predicate AllAbove(rank: map<Address, nat>, stack: seq<Address>, vs: seq<Value>) {
    forall i :: 0 <= i < |vs| ==> StackAbove(rank, stack, vs[i])
  }

  /** For values that no cycle is reached from the answer is true exactly when both unfold to the same tree. */
  lemma {:induction false} EqIsUnfolding(h: Heap, rank: map<Address, nat>, a: Value, b: Value,
                                         aStack: seq<Address>, bStack: seq<Address>)
    requires IsInput(h, a, b, aStack, bStack) && Acyclic(h, rank)
    requires IsRanked(rank, a) && IsRanked(rank, b) && StackAbove(rank, aStack, a)
    ensures Eq(h, a, b, aStack, bStack) <==> Match(Unfold(h, rank, a), Unfold(h, rank, b))
    decreases Unstacked(h, aStack), 0, 1
  {
    hide EqualAtoms, Acyclic;
    if a.Atom? || b.Atom? {
      if a.Atom? && b.Atom? {
        EqualAtomsIsMeaning(a.a, b.a);
      }
    } else if a != b {
      NodesUnfold(h, rank, a.r, b.r, aStack, bStack);
    } else {
      MatchSelf(Unfold(h, rank, a));
    }
    hide Match;
  }

  lemma {:induction false} NodesUnfold(h: Heap, rank: map<Address, nat>, x: Address, y: Address,
                                       aStack: seq<Address>, bStack: seq<Address>)
    requires IsInput(h, Ref(x), Ref(y), aStack, bStack) && x != y
    requires Acyclic(h, rank) && x in rank && y in rank && StackAbove(rank, aStack, Ref(x))
    ensures Eq(h, Ref(x), Ref(y), aStack, bStack) <==> Match(Unfold(h, rank, Ref(x)), Unfold(h, rank, Ref(y)))
    decreases Unstacked(h, aStack), 0, 0
  {
    hide Acyclic, Unfold, Find, Position, DistinctKeys, SameTrees, SamePropTrees, EqItems, EqProps;
    var m, n := h.nodes[x], h.nodes[y];
    NotStacked(rank, aStack, x);
    if Match(Unfold(h, rank, Ref(x)), Unfold(h, rank, Ref(y))) {
      UnlikeNodes(h, rank, x, y);
    }
    if m.isArray == n.isArray && SameConstructor(h, m.ctor, n.ctor) {
      PushShrinks(h, aStack, x);
      var as1, bs1 := aStack + [x], bStack + [y];
      PartsRanked(h, rank, x);
      PartsRanked(h, rank, y);
      forall i | 0 <= i < |m.values| ensures StackAbove(rank, as1, m.values[i]) {
        StackAbovePart(h, rank, aStack, x, m.values[i]);
      }
      if !m.isArray {
        PropsUnfold(h, rank, m.keys, m.values, n, as1, bs1);
        SameProps(h, rank, x, y);
      } else if |m.values| == |n.values| {
        ItemsUnfold(h, rank, m.values, n.values, as1, bs1);
        SameItems(h, rank, x, y);
      }
    }
  }

  lemma PartsRanked(h: Heap, rank: map<Address, nat>, x: Address)
    requires Acyclic(h, rank) && x in rank
    ensures x in h.nodes && AllRanked(rank, h.nodes[x].values)
  {
  }

  lemma UnlikeNodes(h: Heap, rank: map<Address, nat>, x: Address, y: Address)
    requires WellFormed(h) && Acyclic(h, rank) && x in rank && y in rank
    requires Match(Unfold(h, rank, Ref(x)), Unfold(h, rank, Ref(y)))
    ensures h.nodes[x].isArray == h.nodes[y].isArray && SameConstructor(h, h.nodes[x].ctor, h.nodes[y].ctor)
    ensures h.nodes[x].isArray ==> |h.nodes[x].values| == |h.nodes[y].values|
  {
    if h.nodes[x].isArray && h.nodes[y].isArray {
      assert |Unfold(h, rank, Ref(x)).items| == |h.nodes[x].values|;
      assert |Unfold(h, rank, Ref(y)).items| == |h.nodes[y].values|;
    }
  }

  lemma NotStacked(rank: map<Address, nat>, stack: seq<Address>, x: Address)
    requires StackAbove(rank, stack, Ref(x))
    ensures Position(stack, x) == |stack|
  {
  }

  predicate SameTrees(h: Heap, rank: map<Address, nat>, vs: seq<Value>, ws: seq<Value>)
    requires WellFormed(h) && Acyclic(h, rank) && AllRanked(rank, vs) && AllRanked(rank, ws) && |vs| == |ws|
  {
    forall i :: 0 <= i < |vs| ==> Match(Unfold(h, rank, vs[i]), Unfold(h, rank, ws[i]))
  }

  lemma {:induction false} ItemsUnfold(h: Heap, rank: map<Address, nat>, vs: seq<Value>, ws: seq<Value>,
                                       aStack: seq<Address>, bStack: seq<Address>)
    requires WellFormed(h) && |vs| == |ws| && AllIn(h, vs) && AllIn(h, ws) && |aStack| == |bStack|
    requires Acyclic(h, rank) && AllAbove(rank, aStack, vs) && AllRanked(rank, vs) && AllRanked(rank, ws)
    ensures EqItems(h, vs, ws, aStack, bStack) <==> SameTrees(h, rank, vs, ws)
    decreases Unstacked(h, aStack), |vs|
  {
    hide Eq, Acyclic, Unfold;
    if vs != [] {
      var k := |vs| - 1;
      EqIsUnfolding(h, rank, vs[k], ws[k], aStack, bStack);
      ItemsUnfold(h, rank, vs[..k], ws[..k], aStack, bStack);
      if SameTrees(h, rank, vs[..k], ws[..k]) && Match(Unfold(h, rank, vs[k]), Unfold(h, rank, ws[k])) {
        forall i | 0 <= i < |vs| ensures Match(Unfold(h, rank, vs[i]), Unfold(h, rank, ws[i])) {
          assert i < k ==> vs[i] == vs[..k][i] && ws[i] == ws[..k][i];
        }
      }
      if SameTrees(h, rank, vs, ws) {
        forall i | 0 <= i < k ensures Match(Unfold(h, rank, vs[..k][i]), Unfold(h, rank, ws[..k][i])) {
          assert vs[i] == vs[..k][i] && ws[i] == ws[..k][i];
        }
      }
    }
  }

  lemma SameItems(h: Heap, rank: map<Address, nat>, x: Address, y: Address)
    requires WellFormed(h) && Acyclic(h, rank) && x in rank && y in rank
    requires h.nodes[x].isArray && h.nodes[y].isArray && |h.nodes[x].values| == |h.nodes[y].values|
    requires SameConstructor(h, h.nodes[x].ctor, h.nodes[y].ctor)
    ensures SameTrees(h, rank, h.nodes[x].values, h.nodes[y].values)
       <==> Match(Unfold(h, rank, Ref(x)), Unfold(h, rank, Ref(y)))
  {
    var m, n := h.nodes[x], h.nodes[y];
    var s, t := Unfold(h, rank, Ref(x)).items, Unfold(h, rank, Ref(y)).items;
    assert forall i :: 0 <= i < |s| ==> s[i] == Unfold(h, rank, m.values[i]) && t[i] == Unfold(h, rank, n.values[i]);
    if Match(Unfold(h, rank, Ref(x)), Unfold(h, rank, Ref(y))) {
      forall i | 0 <= i < |s| ensures Match(Unfold(h, rank, m.values[i]), Unfold(h, rank, n.values[i])) {
        assert Match(s[i], t[i]);
      }
    }
  }

  /** Each property in the list is one of the second object's, and unfolds to the same tree there. */
  predicate SamePropTrees(h: Heap, rank: map<Address, nat>, keys: seq<JsString>, vs: seq<Value>, n: Node)
    requires WellFormed(h) && Acyclic(h, rank) && AllRanked(rank, vs) && AllRanked(rank, n.values)
    requires |keys| == |vs| && |n.keys| == |n.values|
  {
    forall i :: 0 <= i < |keys| ==>
      var j := Find(n.keys, keys[i]);
      j < |n.keys| && Match(Unfold(h, rank, vs[i]), Unfold(h, rank, n.values[j]))
  }

  lemma {:induction false} PropsUnfold(h: Heap, rank: map<Address, nat>, keys: seq<JsString>, vs: seq<Value>, n: Node,
                                       aStack: seq<Address>, bStack: seq<Address>)
    requires WellFormed(h) && |keys| == |vs| && AllIn(h, vs) && |aStack| == |bStack|
    requires !n.isArray && |n.keys| == |n.values| && AllIn(h, n.values)
    requires Acyclic(h, rank) && AllAbove(rank, aStack, vs) && AllRanked(rank, vs) && AllRanked(rank, n.values)
    ensures EqProps(h, keys, vs, n, aStack, bStack) <==> SamePropTrees(h, rank, keys, vs, n)
    decreases Unstacked(h, aStack), |vs|
  {
    hide Eq, Acyclic, Unfold, Find;
    if keys != [] {
      var j := Find(n.keys, keys[0]);
      if j < |n.keys| {
        EqIsUnfolding(h, rank, vs[0], n.values[j], aStack, bStack);
      }
      PropsUnfold(h, rank, keys[1..], vs[1..], n, aStack, bStack);
      if SamePropTrees(h, rank, keys, vs, n) {
        forall i | 0 <= i < |keys[1..]|
          ensures var j := Find(n.keys, keys[1..][i]);
                  j < |n.keys| && Match(Unfold(h, rank, vs[1..][i]), Unfold(h, rank, n.values[j]))
        {
          assert keys[i + 1] == keys[1..][i] && vs[i + 1] == vs[1..][i];
        }
      }
      if EqProps(h, keys, vs, n, aStack, bStack) {
        forall i | 0 <= i < |keys|
          ensures var j := Find(n.keys, keys[i]);
                  j < |n.keys| && Match(Unfold(h, rank, vs[i]), Unfold(h, rank, n.values[j]))
        {
          assert i > 0 ==> keys[i] == keys[1..][i - 1] && vs[i] == vs[1..][i - 1];
        }
      }
    }
  }

  function KeySet(keys: seq<JsString>): set<JsString> {
    set key | key in keys
  }

  lemma {:induction false} DistinctCount(keys: seq<JsString>)
    requires DistinctKeys(keys)
    ensures |KeySet(keys)| == |keys|
  {
    if keys != [] {
      DistinctCount(keys[1..]);
      assert KeySet(keys) == {keys[0]} + KeySet(keys[1..]);
    }
  }

  /** The key count: when all keys of one object are keys of the other, equal counts mean equal key sets. */
  lemma SameKeyCount(ks: seq<JsString>, ls: seq<JsString>)
    requires DistinctKeys(ks) && DistinctKeys(ls) && KeySet(ks) <= KeySet(ls)
    ensures |ks| == |ls| <==> KeySet(ks) == KeySet(ls)
  {
    DistinctCount(ks);
    DistinctCount(ls);
    if |ks| == |ls| {
      SubsetSameSize(KeySet(ks), KeySet(ls));
    }
  }

  lemma SubsetSameSize(a: set<JsString>, b: set<JsString>)
    requires a <= b && |a| == |b|
    ensures a == b
  {
    assert b == a + (b - a);
  }

  lemma FindDistinct(keys: seq<JsString>, i: nat)
    requires DistinctKeys(keys) && i < |keys|
    ensures Find(keys, keys[i]) == i
  {
  }

  lemma TreeOfObject(h: Heap, rank: map<Address, nat>, x: Address)
    requires WellFormed(h) && Acyclic(h, rank) && x in rank && !h.nodes[x].isArray
    ensures var t := Unfold(h, rank, Ref(x));
            t.Props? && t.ctor == CtorKey(h, h.nodes[x].ctor) && t.props.Keys == KeySet(h.nodes[x].keys)
    ensures DistinctKeys(h.nodes[x].keys) && |h.nodes[x].keys| == |h.nodes[x].values|
    ensures AllRanked(rank, h.nodes[x].values)
  {
    hide Find;
  }

  lemma PropOfTree(h: Heap, rank: map<Address, nat>, x: Address, i: nat)
    requires WellFormed(h) && Acyclic(h, rank) && x in rank && !h.nodes[x].isArray && i < |h.nodes[x].keys|
    ensures i < |h.nodes[x].values| && IsRanked(rank, h.nodes[x].values[i])
    ensures var n, t := h.nodes[x], Unfold(h, rank, Ref(x));
            t.Props? && n.keys[i] in t.props && t.props[n.keys[i]] == Unfold(h, rank, n.values[i])
  {
    FindDistinct(h.nodes[x].keys, i);
    hide Find, DistinctKeys;
  }

  /** Two objects with equally many keys, the first one's all shared and of equal value, unfold to one tree. */
  lemma SamePropsForward(h: Heap, rank: map<Address, nat>, x: Address, y: Address)
    requires WellFormed(h) && Acyclic(h, rank) && x in rank && y in rank
    requires !h.nodes[x].isArray && !h.nodes[y].isArray
    requires SameConstructor(h, h.nodes[x].ctor, h.nodes[y].ctor)
    requires |h.nodes[x].keys| == |h.nodes[x].values| && |h.nodes[y].keys| == |h.nodes[y].values|
    requires AllRanked(rank, h.nodes[x].values) && AllRanked(rank, h.nodes[y].values)
    requires SamePropTrees(h, rank, h.nodes[x].keys, h.nodes[x].values, h.nodes[y])
    requires |h.nodes[x].keys| == |h.nodes[y].keys|
    ensures Match(Unfold(h, rank, Ref(x)), Unfold(h, rank, Ref(y)))
  {
    var m, n := h.nodes[x], h.nodes[y];
    TreeOfObject(h, rank, x);
    TreeOfObject(h, rank, y);
    hide Unfold, Acyclic, Find, DistinctKeys, WellFormed, Match;
    var s, t := Unfold(h, rank, Ref(x)).props, Unfold(h, rank, Ref(y)).props;
    forall i | 0 <= i < |m.keys| ensures m.keys[i] in t && m.keys[i] in s && Match(s[m.keys[i]], t[m.keys[i]]) {
      PropOfTree(h, rank, x, i);
      PropOfTree(h, rank, y, Find(n.keys, m.keys[i]));
    }
    assert KeySet(m.keys) <= KeySet(n.keys);
    SameKeyCount(m.keys, n.keys);
    hide KeySet;
    MapsAgree(m.keys, s, t);
    PropsMatch(Unfold(h, rank, Ref(x)), Unfold(h, rank, Ref(y)));
  }

  lemma MapsAgree(keys: seq<JsString>, s: map<JsString, Tree>, t: map<JsString, Tree>)
    requires s.Keys == KeySet(keys) == t.Keys
    requires forall i :: 0 <= i < |keys| ==> keys[i] in s && keys[i] in t && Match(s[keys[i]], t[keys[i]])
    ensures forall key :: key in s && key in t ==> Match(s[key], t[key])
  {
    hide Match;
  }

  lemma PropsMatch(s: Tree, t: Tree)
    requires s.Props? && t.Props? && s.ctor == t.ctor && s.props.Keys == t.props.Keys
    requires forall key :: key in s.props && key in t.props ==> Match(s.props[key], t.props[key])
    ensures Match(s, t)
  {
  }

  lemma SamePropsBackward(h: Heap, rank: map<Address, nat>, x: Address, y: Address)
    requires WellFormed(h) && Acyclic(h, rank) && x in rank && y in rank
    requires !h.nodes[x].isArray && !h.nodes[y].isArray
    requires |h.nodes[x].keys| == |h.nodes[x].values| && |h.nodes[y].keys| == |h.nodes[y].values|
    requires AllRanked(rank, h.nodes[x].values) && AllRanked(rank, h.nodes[y].values)
    requires Match(Unfold(h, rank, Ref(x)), Unfold(h, rank, Ref(y)))
    ensures SamePropTrees(h, rank, h.nodes[x].keys, h.nodes[x].values, h.nodes[y])
    ensures |h.nodes[x].keys| == |h.nodes[y].keys|
  {
    var m, n := h.nodes[x], h.nodes[y];
    TreeOfObject(h, rank, x);
    TreeOfObject(h, rank, y);
    hide Unfold, Acyclic, Find, DistinctKeys, WellFormed;
    SameKeyCount(m.keys, n.keys);
    forall i | 0 <= i < |m.keys|
      ensures var j := Find(n.keys, m.keys[i]);
              j < |n.keys| && Match(Unfold(h, rank, m.values[i]), Unfold(h, rank, n.values[j]))
    {
      assert m.keys[i] in KeySet(n.keys);
      PropOfTree(h, rank, x, i);
      PropOfTree(h, rank, y, Find(n.keys, m.keys[i]));
    }
  }

  lemma SameProps(h: Heap, rank: map<Address, nat>, x: Address, y: Address)
    requires WellFormed(h) && Acyclic(h, rank) && x in rank && y in rank
    requires !h.nodes[x].isArray && !h.nodes[y].isArray
    requires |h.nodes[x].keys| == |h.nodes[x].values| && |h.nodes[y].keys| == |h.nodes[y].values|
    requires AllRanked(rank, h.nodes[x].values) && AllRanked(rank, h.nodes[y].values)
    requires SameConstructor(h, h.nodes[x].ctor, h.nodes[y].ctor)
    ensures var m, n := h.nodes[x], h.nodes[y];
            SamePropTrees(h, rank, m.keys, m.values, n) && |m.keys| == |n.keys|
            <==> Match(Unfold(h, rank, Ref(x)), Unfold(h, rank, Ref(y)))
  {
    hide SamePropTrees, Unfold;
    var m, n := h.nodes[x], h.nodes[y];
    if SamePropTrees(h, rank, m.keys, m.values, n) && |m.keys| == |n.keys| {
      SamePropsForward(h, rank, x, y);
    }
    if Match(Unfold(h, rank, Ref(x)), Unfold(h, rank, Ref(y))) {
      SamePropsBackward(h, rank, x, y);
    }
  }

  /** The theorem at the entry point: with empty stacks, for values that no cycle is reached from, in every graph. */
  lemma ExactOnTrees(h: Heap, rank: map<Address, nat>, a: Value, b: Value)
    requires IsInput(h, a, b, [], []) && Acyclic(h, rank) && IsRanked(rank, a) && IsRanked(rank, b)
    ensures Eq(h, a, b, [], []) <==> Match(Unfold(h, rank, a), Unfold(h, rank, b))
  {
    EqIsUnfolding(h, rank, a, b, [], []);
  }

  /** Where the second value holds no tiny number, that is to be the same tree. */
  lemma ExactWithoutTiny(h: Heap, rank: map<Address, nat>, a: Value, b: Value)
    requires IsInput(h, a, b, [], []) && Acyclic(h, rank) && IsRanked(rank, a) && IsRanked(rank, b)
    requires !HoldsTiny(Unfold(h, rank, b))
    ensures Eq(h, a, b, [], []) <==> Unfold(h, rank, a) == Unfold(h, rank, b)
  {
    ExactOnTrees(h, rank, a, b);
    MatchSelf(Unfold(h, rank, a));
    OnlyTinyMisleads(Unfold(h, rank, b));
    hide Match, Unfold, HoldsTiny, Eq;
  }

  // ---------- on any graph: exactly what the stacks can see ----------

  /** Where the second node keeps what corresponds to part `i` of the first: at that index, or under that key. */
  function Counterpart(m: Node, n: Node, i: nat): nat
    requires !m.isArray ==> i < |m.keys|
  {
    if m.isArray then i else Find(n.keys, m.keys[i])
  }

  /** `v` and `w` are corresponding parts of two nodes, found at index `i` of the first. */
  predicate ArePart(m: Node, n: Node, i: nat, v: Value, w: Value) {
    && i < |m.values| && (!m.isArray ==> i < |m.keys|)
    && Counterpart(m, n, i) < |n.values| && m.values[i] == v && n.values[Counterpart(m, n, i)] == w
  }

  ghost predicate Leads(h: Heap, x: Address, y: Address, v: Value, w: Value) {
    x in h.nodes && y in h.nodes && exists i :: ArePart(h.nodes[x], h.nodes[y], i, v, w)
  }

  /** Two walks side by side through corresponding parts; on the left no node is left twice. */
  ghost predicate Walk(h: Heap, xs: seq<Address>, ys: seq<Address>) {
    && |xs| == |ys| > 0
    && forall k :: 0 <= k < |xs| - 1 ==> WalkStep(h, xs, ys, k)
  }

  ghost predicate WalkStep(h: Heap, xs: seq<Address>, ys: seq<Address>, k: nat)
    requires k + 1 < |xs| == |ys|
  {
    Leads(h, xs[k], ys[k], Ref(xs[k + 1]), Ref(ys[k + 1])) && xs[k] != ys[k] && xs[k] !in xs[..k]
  }

  /** When the left walk ends at a node it has passed, the right one ends at the node it passed at the same time. */
  predicate ClosesAlike(xs: seq<Address>, ys: seq<Address>)
    requires |xs| == |ys| > 0
  {
    var n := |xs| - 1;
    xs[n] == ys[n] || forall i :: 0 <= i < n && xs[i] == xs[n] ==> ys[i] == ys[n]
  }

  /** Every loop on the left is matched by a loop of the same length on the right. */
  ghost predicate LoopsMatch(h: Heap, a: Value, b: Value) {
    a.Ref? && b.Ref? ==>
      forall xs, ys :: Walk(h, xs, ys) && xs[0] == a.r && ys[0] == b.r ==> ClosesAlike(xs, ys)
  }

  lemma {:induction false} EqItemsEach(h: Heap, vs: seq<Value>, ws: seq<Value>,
                                       aStack: seq<Address>, bStack: seq<Address>)
    requires WellFormed(h) && |vs| == |ws| && AllIn(h, vs) && AllIn(h, ws) && |aStack| == |bStack|
    ensures EqItems(h, vs, ws, aStack, bStack) <==> forall i :: 0 <= i < |vs| ==> Eq(h, vs[i], ws[i], aStack, bStack)
  {
    hide Eq;
    if vs != [] {
      var k := |vs| - 1;
      EqItemsEach(h, vs[..k], ws[..k], aStack, bStack);
      assert forall i :: 0 <= i < k ==> vs[..k][i] == vs[i] && ws[..k][i] == ws[i];
    }
  }

  lemma {:induction false} EqPropsEach(h: Heap, keys: seq<JsString>, vs: seq<Value>, n: Node,
                                       aStack: seq<Address>, bStack: seq<Address>)
    requires WellFormed(h) && |keys| == |vs| && AllIn(h, vs) && |aStack| == |bStack|
    requires !n.isArray && |n.keys| == |n.values| && AllIn(h, n.values)
    ensures EqProps(h, keys, vs, n, aStack, bStack)
       <==> forall i :: 0 <= i < |keys| ==> EqProp(h, keys[i], vs[i], n, aStack, bStack)
  {
    hide Eq, Find;
    if keys != [] {
      EqPropsEach(h, keys[1..], vs[1..], n, aStack, bStack);
      assert forall i :: 0 < i < |keys| ==> keys[i] == keys[1..][i - 1] && vs[i] == vs[1..][i - 1];
      assert EqProp(h, keys[0], vs[0], n, aStack, bStack)
        <==> (Find(n.keys, keys[0]) < |n.keys| && Eq(h, vs[0], n.values[Find(n.keys, keys[0])], aStack, bStack));
    }
  }

  ghost predicate EqProp(h: Heap, key: JsString, v: Value, n: Node, aStack: seq<Address>, bStack: seq<Address>)
    requires WellFormed(h) && IsIn(h, v) && |n.keys| == |n.values| && AllIn(h, n.values) && |aStack| == |bStack|
  {
    Find(n.keys, key) < |n.keys| && Eq(h, v, n.values[Find(n.keys, key)], aStack, bStack)
  }

  /** Part `i` of the first node has a counterpart, found equal to it. */
  ghost predicate EqPart(h: Heap, m: Node, n: Node, i: nat, aStack: seq<Address>, bStack: seq<Address>)
    requires WellFormed(h) && AllIn(h, m.values) && AllIn(h, n.values) && i < |m.values| && |aStack| == |bStack|
    requires !m.isArray ==> i < |m.keys|
  {
    Counterpart(m, n, i) < |n.values| && Eq(h, m.values[i], n.values[Counterpart(m, n, i)], aStack, bStack)
  }

  /** Two nodes met for the first time are equal when they look alike and all their parts are equal. */
  lemma EqOfParts(h: Heap, x: Address, y: Address, aStack: seq<Address>, bStack: seq<Address>)
    requires IsInput(h, Ref(x), Ref(y), aStack, bStack) && x != y && x !in aStack
    ensures var m, n := h.nodes[x], h.nodes[y];
            Eq(h, Ref(x), Ref(y), aStack, bStack)
            <==> && m.isArray == n.isArray && SameConstructor(h, m.ctor, n.ctor) && |m.values| == |n.values|
                 && forall i :: 0 <= i < |m.values| ==> EqPart(h, m, n, i, aStack + [x], bStack + [y])
  {
    hide SameConstructor, Find, DistinctKeys, Position;
    var m, n, as1, bs1 := h.nodes[x], h.nodes[y], aStack + [x], bStack + [y];
    assert Position(aStack, x) == |aStack|;
    if m.isArray && n.isArray && |m.values| == |n.values| {
      EqItemsEach(h, m.values, n.values, as1, bs1);
      hide EqItems;
      assert forall i :: 0 <= i < |m.values| ==>
        (EqPart(h, m, n, i, as1, bs1) <==> Eq(h, m.values[i], n.values[i], as1, bs1));
    } else if !m.isArray && !n.isArray {
      EqPropsEach(h, m.keys, m.values, n, as1, bs1);
      hide EqProps;
      assert forall i :: 0 <= i < |m.values| ==>
        (EqPart(h, m, n, i, as1, bs1) <==> EqProp(h, m.keys[i], m.values[i], n, as1, bs1));
    }
  }

  /** A true answer at the start of a walk is a true answer all along it. */
  lemma {:induction false} EqAlong(h: Heap, xs: seq<Address>, ys: seq<Address>, k: nat)
    requires Walk(h, xs, ys) && k < |xs|
    requires IsInput(h, Ref(xs[0]), Ref(ys[0]), [], []) && Eq(h, Ref(xs[0]), Ref(ys[0]), [], [])
    ensures IsInput(h, Ref(xs[k]), Ref(ys[k]), xs[..k], ys[..k]) && Eq(h, Ref(xs[k]), Ref(ys[k]), xs[..k], ys[..k])
  {
    hide Eq;
    if k == 0 {
      assert xs[..0] == [] && ys[..0] == [];
    } else {
      EqAlong(h, xs, ys, k - 1);
      assert WalkStep(h, xs, ys, k - 1);
      var x, y := xs[k - 1], ys[k - 1];
      var i :| ArePart(h.nodes[x], h.nodes[y], i, Ref(xs[k]), Ref(ys[k]));
      EqOfParts(h, x, y, xs[..k - 1], ys[..k - 1]);
      assert EqPart(h, h.nodes[x], h.nodes[y], i, xs[..k - 1] + [x], ys[..k - 1] + [y]);
      assert xs[..k - 1] + [x] == xs[..k] && ys[..k - 1] + [y] == ys[..k];
    }
  }

  lemma LeftDistinct(h: Heap, xs: seq<Address>, ys: seq<Address>)
    requires Walk(h, xs, ys)
    ensures forall i, j :: 0 <= i < j < |xs| - 1 ==> xs[i] != xs[j]
  {
    hide Leads;
    forall i, j | 0 <= i < j < |xs| - 1 ensures xs[i] != xs[j] {
      assert WalkStep(h, xs, ys, j);
      assert xs[..j][i] == xs[i];
    }
  }

  lemma EqClosesAlike(h: Heap, xs: seq<Address>, ys: seq<Address>)
    requires Walk(h, xs, ys)
    requires IsInput(h, Ref(xs[0]), Ref(ys[0]), [], []) && Eq(h, Ref(xs[0]), Ref(ys[0]), [], [])
    ensures ClosesAlike(xs, ys)
  {
    var n := |xs| - 1;
    EqAlong(h, xs, ys, n);
    var p := Position(xs[..n], xs[n]);
    LeftDistinct(h, xs, ys);
    forall i | 0 <= i < n && xs[n] != ys[n] && xs[i] == xs[n] ensures ys[i] == ys[n] {
      assert xs[..n][i] == xs[n];
      assert p < n && xs[..n][p] == xs[n] && ys[..n][p] == ys[n];
    }
  }

  /** Every continuation of a walk closes alike. */
  ghost predicate AllCloseAlike(h: Heap, xs: seq<Address>, ys: seq<Address>) {
    forall xs', ys' :: Walk(h, xs', ys') && xs <= xs' && ys <= ys' ==> ClosesAlike(xs', ys')
  }

  /** At the end of a walk through a bisimulation whose loops match, the answer is true. */
  lemma {:induction false} EqAtEnd(h: Heap, pairs: Relation, xs: seq<Address>, ys: seq<Address>)
    requires WellFormed(h) && IsBisimulation(h, pairs) && Walk(h, xs, ys) && AllCloseAlike(h, xs, ys)
    requires var x, y := xs[|xs| - 1], ys[|ys| - 1]; x in h.nodes && y in h.nodes && (x == y || (x, y) in pairs)
    ensures var n := |xs| - 1; Eq(h, Ref(xs[n]), Ref(ys[n]), xs[..n], ys[..n])
    decreases Unstacked(h, xs[..|xs| - 1]), 1
  {
    hide Alike, IsBisimulation, EqItems, EqProps, WalkStep, WellFormed;
    var n := |xs| - 1;
    if xs[n] != ys[n] {
      hide Eq;
      if xs[n] in xs[..n] {
        PairAlike(h, pairs, xs[n], ys[n]);
        assert ClosesAlike(xs, ys);
        StackedIsEqual(h, xs, ys);
      } else {
        EqAtFreshEnd(h, pairs, xs, ys);
      }
    }
  }

  lemma {:induction false} EqAtFreshEnd(h: Heap, pairs: Relation, xs: seq<Address>, ys: seq<Address>)
    requires WellFormed(h) && IsBisimulation(h, pairs) && Walk(h, xs, ys) && AllCloseAlike(h, xs, ys)
    requires var x, y := xs[|xs| - 1], ys[|ys| - 1];
             x in h.nodes && y in h.nodes && x != y && (x, y) in pairs && x !in xs[..|xs| - 1]
    ensures var n := |xs| - 1; Eq(h, Ref(xs[n]), Ref(ys[n]), xs[..n], ys[..n])
    decreases Unstacked(h, xs[..|xs| - 1]), 0
  {
    hide Alike, IsBisimulation, Eq, WalkStep, AllCloseAlike, EqPart, SameConstructor, DistinctKeys;
    var n := |xs| - 1;
    var x, y := xs[n], ys[n];
    PairAlike(h, pairs, x, y);
    assert xs[..n] + [x] == xs && ys[..n] + [y] == ys;
    PushShrinks(h, xs[..n], x);
    hide Unstacked, Walk;
    forall i | 0 <= i < |h.nodes[x].values| ensures EqPart(h, h.nodes[x], h.nodes[y], i, xs, ys) {
      EqChild(h, pairs, xs, ys, i);
    }
    EqOfParts(h, x, y, xs[..n], ys[..n]);
  }

  lemma StackedIsEqual(h: Heap, xs: seq<Address>, ys: seq<Address>)
    requires Walk(h, xs, ys) && ClosesAlike(xs, ys)
    requires var n := |xs| - 1;
             && IsInput(h, Ref(xs[n]), Ref(ys[n]), xs[..n], ys[..n]) && xs[n] in xs[..n] && xs[n] != ys[n]
             && h.nodes[xs[n]].isArray == h.nodes[ys[n]].isArray
    ensures var n := |xs| - 1; Eq(h, Ref(xs[n]), Ref(ys[n]), xs[..n], ys[..n])
  {
    hide WalkStep, WellFormed, EqItems, EqProps;
    var n := |xs| - 1;
    var p := Position(xs[..n], xs[n]);
    hide Position;
    assert p < n && xs[p] == xs[n] && ys[p] == ys[n];
  }

  lemma PairAlike(h: Heap, pairs: Relation, x: Address, y: Address)
    requires IsBisimulation(h, pairs) && (x, y) in pairs
    ensures Alike(h, x, y, pairs)
    ensures x in h.nodes && y in h.nodes
    ensures h.nodes[x].isArray == h.nodes[y].isArray && |h.nodes[x].values| == |h.nodes[y].values|
    ensures SameConstructor(h, h.nodes[x].ctor, h.nodes[y].ctor)
  {
  }

  lemma PartsRelated(h: Heap, pairs: Relation, x: Address, y: Address, i: nat)
    requires WellFormed(h) && Alike(h, x, y, pairs) && i < |h.nodes[x].values|
    ensures var m, n := h.nodes[x], h.nodes[y];
            && Counterpart(m, n, i) < |n.values| && ArePart(m, n, i, m.values[i], n.values[Counterpart(m, n, i)])
            && Related(m.values[i], n.values[Counterpart(m, n, i)], pairs)
  {
    hide Find, DistinctKeys, SameConstructor;
  }

  lemma {:induction false} EqChild(h: Heap, pairs: Relation, xs: seq<Address>, ys: seq<Address>, i: nat)
    requires WellFormed(h) && IsBisimulation(h, pairs) && Walk(h, xs, ys) && AllCloseAlike(h, xs, ys)
    requires var x, y := xs[|xs| - 1], ys[|ys| - 1]; (x, y) in pairs && x in h.nodes && x != y && x !in xs[..|xs| - 1]
    requires i < |h.nodes[xs[|xs| - 1]].values|
    ensures ys[|ys| - 1] in h.nodes && EqPart(h, h.nodes[xs[|xs| - 1]], h.nodes[ys[|ys| - 1]], i, xs, ys)
    decreases Unstacked(h, xs), 2
  {
    hide Alike, IsBisimulation, EqualAtoms, Find, WalkStep;
    var x, y := xs[|xs| - 1], ys[|ys| - 1];
    PairAlike(h, pairs, x, y);
    PartsRelated(h, pairs, x, y, i);
    var m, n := h.nodes[x], h.nodes[y];
    var v, w := m.values[i], n.values[Counterpart(m, n, i)];
    if v.Atom? {
      EqualAtomsIsMeaning(v.a, w.a);
    } else if v != w {
      var xs', ys' := xs + [v.r], ys + [w.r];
      LongerWalk(h, xs, ys, v.r, w.r);
      assert xs'[..|xs|] == xs && ys'[..|ys|] == ys;
      assert AllCloseAlike(h, xs', ys');
      EqAtEnd(h, pairs, xs', ys');
    }
  }

  lemma LongerWalk(h: Heap, xs: seq<Address>, ys: seq<Address>, x: Address, y: Address)
    requires Walk(h, xs, ys) && Leads(h, xs[|xs| - 1], ys[|ys| - 1], Ref(x), Ref(y))
    requires xs[|xs| - 1] != ys[|ys| - 1] && xs[|xs| - 1] !in xs[..|xs| - 1]
    ensures Walk(h, xs + [x], ys + [y])
  {
    hide Leads;
    var xs', ys' := xs + [x], ys + [y];
    forall k | 0 <= k < |xs'| - 1 ensures WalkStep(h, xs', ys', k) {
      assert xs'[..k] == xs[..k];
      assert k < |xs| - 1 ==> WalkStep(h, xs, ys, k);
    }
  }

  /** On any finite graph the answer is true exactly when the values are bisimilar and their loops match. */
  lemma ExactOnGraphs(h: Heap, a: Value, b: Value)
    requires IsInput(h, a, b, [], [])
    ensures Eq(h, a, b, [], []) <==> Bisimilar(h, a, b) && LoopsMatch(h, a, b)
  {
    hide Alike, IsBisimulation, WalkStep, ClosesAlike;
    if Eq(h, a, b, [], []) {
      TrueMeansBisimilar(h, a, b);
      hide Eq;
      if a.Ref? && b.Ref? {
        forall xs, ys | Walk(h, xs, ys) && xs[0] == a.r && ys[0] == b.r ensures ClosesAlike(xs, ys) {
          EqClosesAlike(h, xs, ys);
        }
      }
    }
    if Bisimilar(h, a, b) && LoopsMatch(h, a, b) {
      var pairs :| IsBisimulation(h, pairs) && Related(a, b, pairs);
      MatchingIsEqual(h, pairs, a, b);
    }
  }

  lemma MatchingIsEqual(h: Heap, pairs: Relation, a: Value, b: Value)
    requires IsInput(h, a, b, [], []) && IsBisimulation(h, pairs) && Related(a, b, pairs) && LoopsMatch(h, a, b)
    ensures Eq(h, a, b, [], [])
  {
    hide IsBisimulation, EqualAtoms, ClosesAlike;
    if a.Atom? {
      EqualAtomsIsMeaning(a.a, b.a);
    } else if a != b {
      var xs, ys := [a.r], [b.r];
      assert Walk(h, xs, ys);
      forall xs', ys' | Walk(h, xs', ys') && xs <= xs' && ys <= ys' ensures ClosesAlike(xs', ys') {
        assert xs'[0] == a.r && ys'[0] == b.r;
      }
      EqAtEnd(h, pairs, xs, ys);
      assert xs[..0] == [] && ys[..0] == [];
    }
  }

  // ---------- the order of the arguments matters ----------

  /** One array that holds itself, and two that hold each other. */
  const LOOPS := Heap(map[0 := Node(true, 0, [], [Ref(0)]), 1 := Node(true, 0, [], [Ref(2)]),
                          2 := Node(true, 0, [], [Ref(1)])], {0})

  function Held(x: Address): Address {
    if x == 1 then 2 else if x == 2 then 1 else x
  }

  lemma HeldItem(x: Address)
    requires x <= 2
    ensures WellFormed(LOOPS) && x in LOOPS.nodes && LOOPS.nodes[x] == Node(true, 0, [], [Ref(Held(x))]) && Held(x) <= 2
  {
  }

  /** Two arrays of the example met for the first time are compared by what they hold. */
  lemma LoopStep(x: Address, y: Address, aStack: seq<Address>, bStack: seq<Address>)
    requires x <= 2 && y <= 2 && x != y && x !in aStack && |aStack| == |bStack|
    ensures IsInput(LOOPS, Ref(x), Ref(y), aStack, bStack)
    ensures IsInput(LOOPS, Ref(Held(x)), Ref(Held(y)), aStack + [x], bStack + [y])
    ensures Eq(LOOPS, Ref(x), Ref(y), aStack, bStack)
       <==> Eq(LOOPS, Ref(Held(x)), Ref(Held(y)), aStack + [x], bStack + [y])
  {
    HeldItem(x);
    HeldItem(y);
    HeldItem(Held(x));
    HeldItem(Held(y));
    hide Eq, WellFormed, Held;
    EqOfParts(LOOPS, x, y, aStack, bStack);
    assert EqPart(LOOPS, LOOPS.nodes[x], LOOPS.nodes[y], 0, aStack + [x], bStack + [y])
      <==> Eq(LOOPS, Ref(Held(x)), Ref(Held(y)), aStack + [x], bStack + [y]);
  }

  /** One met again is equal to what it was paired with. */
  lemma LoopMet(x: Address, y: Address, aStack: seq<Address>, bStack: seq<Address>)
    requires x <= 2 && y <= 2 && x != y && |aStack| == |bStack| > 0 && aStack[0] == x && x !in aStack[1..]
    ensures IsInput(LOOPS, Ref(x), Ref(y), aStack, bStack)
    ensures Eq(LOOPS, Ref(x), Ref(y), aStack, bStack) <==> bStack[0] == y
  {
    HeldItem(x);
    HeldItem(y);
    assert forall k :: 0 < k < |aStack| ==> aStack[k] == aStack[1..][k - 1];
    assert Position(aStack, x) == 0;
    hide EqItems, EqProps, Position;
  }

  lemma LoopsBisimilar()
    ensures Bisimilar(LOOPS, Ref(0), Ref(1))
  {
    var pairs := {(0, 1), (0, 2)};
    assert IsBisimulation(LOOPS, pairs);
    assert Related(Ref(0), Ref(1), pairs);
  }

  /** A loop of one array and a loop of two are bisimilar, yet found equal in one order of arguments only. */
  lemma LoopsCompareOneWay()
    ensures IsInput(LOOPS, Ref(0), Ref(1), [], []) && IsInput(LOOPS, Ref(1), Ref(0), [], [])
    ensures Bisimilar(LOOPS, Ref(0), Ref(1))
    ensures !Eq(LOOPS, Ref(0), Ref(1), [], []) && Eq(LOOPS, Ref(1), Ref(0), [], [])
  {
    LoopsBisimilar();
    hide Eq, IsInput, Bisimilar;
    assert [] + [0] == [0] && [] + [1] == [1] && [1] + [2] == [1, 2] && [0] + [0] == [0, 0];
    LoopStep(0, 1, [], []);
    LoopMet(0, 2, [0], [1]);
    LoopStep(1, 0, [], []);
    LoopStep(2, 0, [1], [0]);
    LoopMet(1, 0, [1, 2], [0, 0]);
  }
}
