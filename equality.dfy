/**
 * The equality comparator `equals(target1, target2, type)` and its two entry
 * points `shallowEquals` and `deepEquals`.
 *
 * A value is a primitive (compared by value under `===`) or a reference to an
 * object (compared by identity under `===`). The identity of an object is its
 * `id`; what the object holds is `obj`. Numbers are integers.
 */
module Equality {

  /** The comparator's `type` argument. */
  datatype Mode = Shallow | Deep

  /** The wrapper classes the comparator tests with `instanceof`. */
  datatype WrapperKind = NumberWrapper | StringWrapper | BooleanWrapper | SymbolWrapper | BigIntWrapper

  /** The results of the `typeof` operator. */
  datatype TypeTag =
    | UndefinedType | ObjectType | BooleanType | NumberType | BigIntType | StringType | SymbolType | FunctionType

  /** The class of a non-array object: a plain object literal, or an instance of a named class. */
  datatype RecordClass = PlainObject | ClassInstance(name: string)

  /** What `target.constructor` yields for an object. */
  datatype Constructor =
    | ObjectConstructor
    | ArrayConstructor
    | FunctionConstructor
    | WrapperConstructor(kind: WrapperKind)
    | ClassConstructor(name: string)

  datatype Value =
    | Undefined
    | Null
    | Num(n: int)
    | Str(s: string)
    | Bool(b: bool)
    | Sym(symbol: nat)
    | BigInt(big: int)
    | Ref(id: nat, obj: Object)

  datatype Object =
    | Wrapper(kind: WrapperKind, primitive: Value)   // new Number(1), new String("a"), ...
    | Array(elems: seq<Value>)
    | Record(cls: RecordClass, props: seq<Property>)  // own enumerable properties, in key order
    | Function

  datatype Property = Property(key: string, value: Value)

  function TypeOf(v: Value): TypeTag {
    match v
    case Undefined => UndefinedType
    case Null => ObjectType
    case Num(_) => NumberType
    case Str(_) => StringType
    case Bool(_) => BooleanType
    case Sym(_) => SymbolType
    case BigInt(_) => BigIntType
    case Ref(_, o) => if o.Function? then FunctionType else ObjectType
  }

  /** `===`: primitives by value, objects by identity. */
  predicate StrictEquals(a: Value, b: Value) {
    if a.Ref? || b.Ref? then a.Ref? && b.Ref? && a.id == b.id else a == b
  }

  /** Both operands are instances of one of the wrapper classes. */
  predicate SameWrapperType(a: Value, b: Value) {
    a.Ref? && b.Ref? && a.obj.Wrapper? && b.obj.Wrapper? && a.obj.kind == b.obj.kind
  }

  function ConstructorOf(o: Object): Constructor {
    match o
    case Wrapper(k, _) => WrapperConstructor(k)
    case Array(_) => ArrayConstructor
    case Record(PlainObject, _) => ObjectConstructor
    case Record(ClassInstance(name), _) => ClassConstructor(name)
    case Function => FunctionConstructor
  }

  /** `Object.keys(o).length`. */
  function KeyCount(o: Object): nat {
    match o
    case Array(elems) => |elems|
    case Record(_, props) => |props|
    case _ => 0
  }

  /** `o[key]` on a record: the first property with that key, or undefined. */
  function Lookup(props: seq<Property>, key: string): Value {
    if props == [] then Undefined
    else if props[0].key == key then props[0].value
    else Lookup(props[1..], key)
  }

  function PropertyOf(o: Object, key: string): Value {
    if o.Record? then Lookup(o.props, key) else Undefined
  }

  function ElementAt(o: Object, i: nat): Value {
    if o.Array? && i < |o.elems| then o.elems[i] else Undefined
  }

  /** The test made on one key: `===` in shallow mode, a deep comparison in deep mode. */
  predicate KeyMatches(x: Value, y: Value, mode: Mode)
    decreases x, 3
  {
    match mode
    case Shallow => StrictEquals(x, y)
    case Deep => Equals(x, y, Deep)
  }

  /** `equals(a, b, mode)`. */
  predicate Equals(a: Value, b: Value, mode: Mode)
    decreases a, 2
  {
    if StrictEquals(a, b) then true
    else if TypeOf(a) != TypeOf(b) then false
    else if a.Null? || b.Null? then false
    else if SameWrapperType(a, b) then false
    else if TypeOf(a) == ObjectType && TypeOf(b) == ObjectType then ObjectsEqual(a, b, mode)
    else false
  }

  /** The object branch: constructors, then key counts, then the walk over the first operand's keys. */
  predicate ObjectsEqual(a: Value, b: Value, mode: Mode)
    requires a.Ref? && b.Ref?
    decreases a, 1
  {
    if ConstructorOf(a.obj) != ConstructorOf(b.obj) then false
    else if KeyCount(a.obj) != KeyCount(b.obj) then false
    else match a.obj
      case Array(_) => ElementsMatch(a, b.obj, 0, mode)
      case Record(_, _) => PropertiesMatch(a, b.obj, 0, mode)
      case _ => true
  }

  /** The `for...in` walk over an array operand's indices, from index i on. */
  predicate ElementsMatch(a: Value, other: Object, i: nat, mode: Mode)
    requires a.Ref? && a.obj.Array? && i <= |a.obj.elems|
    decreases a, 0, |a.obj.elems| - i
  {
    if i == |a.obj.elems| then true
    else KeyMatches(a.obj.elems[i], ElementAt(other, i), mode) && ElementsMatch(a, other, i + 1, mode)
  }

  /** The `for...in` walk over a record operand's keys, from position i on. */
  predicate PropertiesMatch(a: Value, other: Object, i: nat, mode: Mode)
    requires a.Ref? && a.obj.Record? && i <= |a.obj.props|
    decreases a, 0, |a.obj.props| - i
  {
    if i == |a.obj.props| then true
    else
      KeyMatches(a.obj.props[i].value, PropertyOf(other, a.obj.props[i].key), mode)
      && PropertiesMatch(a, other, i + 1, mode)
  }

  predicate ShallowEquals(a: Value, b: Value) {
    Equals(a, b, Shallow)
  }

  predicate DeepEquals(a: Value, b: Value) {
    Equals(a, b, Deep)
  }

  // ---------------------------------------------------------------------------
  // Well-formedness and structural sameness (used by the deep-equality lemma)
  // ---------------------------------------------------------------------------

  predicate DistinctKeys(props: seq<Property>) {
    forall i, j | 0 <= i < j < |props| :: props[i].key != props[j].key
  }

  /** Every record reachable from v has distinct keys, as every JavaScript object does. */
  predicate WellFormed(v: Value) {
    match v
    case Ref(_, Array(elems)) => forall i | 0 <= i < |elems| :: WellFormed(elems[i])
    case Ref(_, Record(_, props)) =>
      DistinctKeys(props) && forall i | 0 <= i < |props| :: WellFormed(props[i].value)
    case _ => true
  }

  /**
   * a and b have the same structure and the same primitives at every depth,
   * whatever the identities of their arrays and records; wrappers and
   * functions must be the very same objects.
   */
  predicate Alike(a: Value, b: Value) {
    match a
    case Ref(_, Array(elems)) =>
      && b.Ref? && b.obj.Array? && |elems| == |b.obj.elems|
      && forall i | 0 <= i < |elems| :: Alike(elems[i], b.obj.elems[i])
    case Ref(_, Record(cls, props)) =>
      && b.Ref? && b.obj.Record? && cls == b.obj.cls && |props| == |b.obj.props|
      && forall i | 0 <= i < |props| ::
           props[i].key == b.obj.props[i].key && Alike(props[i].value, b.obj.props[i].value)
    case _ => StrictEquals(a, b)
  }

  /**
   * a and b have arrays of the same lengths and records of the same classes
   * and key sequences at the same positions, at every depth; and wherever the
   * two hold references with one identity, those are the very same object,
   * as in any JavaScript heap. The leaves may differ.
   */
  predicate SameShape(a: Value, b: Value) {
    && (a.Ref? && b.Ref? && a.id == b.id ==> a == b)
    && match a
       case Ref(_, Array(elems)) =>
         && b.Ref? && b.obj.Array? && |elems| == |b.obj.elems|
         && forall i | 0 <= i < |elems| :: SameShape(elems[i], b.obj.elems[i])
       case Ref(_, Record(cls, props)) =>
         && b.Ref? && b.obj.Record? && cls == b.obj.cls && |props| == |b.obj.props|
         && forall i | 0 <= i < |props| ::
              props[i].key == b.obj.props[i].key && SameShape(props[i].value, b.obj.props[i].value)
       case _ => true
  }

  // ---------------------------------------------------------------------------
  // Fast paths (lines 4-14 and 34)
  // ---------------------------------------------------------------------------

  /** The early exits of the comparator, in the order it takes them. */
  lemma FastPaths(a: Value, b: Value, mode: Mode)
    ensures Equals(a, a, mode)
    ensures StrictEquals(a, b) ==> Equals(a, b, mode)
    ensures !StrictEquals(a, b) && TypeOf(a) != TypeOf(b) ==> !Equals(a, b, mode)
    ensures !StrictEquals(a, b) && (a.Null? || b.Null?) ==> !Equals(a, b, mode)
    ensures !StrictEquals(a, b) && SameWrapperType(a, b) ==> !Equals(a, b, mode)
    ensures !StrictEquals(a, b) && TypeOf(a) != ObjectType ==> !Equals(a, b, mode)
  {
  }

  /** On two primitives both modes are exactly `===`, that is, equality of values. */
  lemma Primitives(a: Value, b: Value, mode: Mode)
    requires !a.Ref? && !b.Ref?
    ensures Equals(a, b, mode) <==> a == b
  {
  }

  /**
   * Two boxed wrappers of one kind are never equal unless they are the same
   * object, even when they wrap the same primitive; a wrapper never equals
   * the primitive it wraps.
   */
  lemma WrappersNeverEqual(i: nat, j: nat, kind: WrapperKind, p: Value, mode: Mode)
    requires i != j
    ensures !Equals(Ref(i, Wrapper(kind, p)), Ref(j, Wrapper(kind, p)), mode)
    ensures !p.Ref? ==> !Equals(Ref(i, Wrapper(kind, p)), p, mode) && !Equals(p, Ref(i, Wrapper(kind, p)), mode)
  {
  }

  // ---------------------------------------------------------------------------
  // Object operands (lines 16-31)
  // ---------------------------------------------------------------------------

  lemma {:induction false} ElementsMatchAll(a: Value, other: Object, i: nat, mode: Mode)
    requires a.Ref? && a.obj.Array? && i <= |a.obj.elems|
    ensures ElementsMatch(a, other, i, mode) <==>
              forall j | i <= j < |a.obj.elems| :: KeyMatches(a.obj.elems[j], ElementAt(other, j), mode)
    decreases |a.obj.elems| - i
  {
    if i < |a.obj.elems| {
      ElementsMatchAll(a, other, i + 1, mode);
    }
  }

  lemma {:induction false} PropertiesMatchAll(a: Value, other: Object, i: nat, mode: Mode)
    requires a.Ref? && a.obj.Record? && i <= |a.obj.props|
    ensures PropertiesMatch(a, other, i, mode) <==>
              forall j | i <= j < |a.obj.props| ::
                KeyMatches(a.obj.props[j].value, PropertyOf(other, a.obj.props[j].key), mode)
    decreases |a.obj.props| - i
  {
    if i < |a.obj.props| {
      PropertiesMatchAll(a, other, i + 1, mode);
    }
  }

  /** Objects whose constructors differ are never equal, unless they are the same object. */
  lemma ConstructorsDiffer(a: Value, b: Value, mode: Mode)
    requires a.Ref? && b.Ref? && a.id != b.id
    requires ConstructorOf(a.obj) != ConstructorOf(b.obj)
    ensures !Equals(a, b, mode)
  {
  }

  /**
   * Two distinct arrays are equal exactly when their lengths agree and each
   * index of the first passes the per-key test against the same index of the second.
   */
  lemma ArrayOperands(a: Value, b: Value, mode: Mode)
    requires a.Ref? && b.Ref? && a.id != b.id && a.obj.Array? && b.obj.Array?
    ensures Equals(a, b, mode) <==>
              && |a.obj.elems| == |b.obj.elems|
              && forall i | 0 <= i < |a.obj.elems| :: KeyMatches(a.obj.elems[i], b.obj.elems[i], mode)
  {
    ElementsMatchAll(a, b.obj, 0, mode);
    if |a.obj.elems| == |b.obj.elems| {
      forall i | 0 <= i < |a.obj.elems| ensures ElementAt(b.obj, i) == b.obj.elems[i] { }
    }
  }

  /**
   * Two distinct records are equal exactly when their classes agree, their key
   * counts agree, and each key of the FIRST record passes the per-key test
   * against what the second record holds under that key (undefined if nothing).
   */
  lemma RecordOperands(a: Value, b: Value, mode: Mode)
    requires a.Ref? && b.Ref? && a.id != b.id && a.obj.Record? && b.obj.Record?
    ensures Equals(a, b, mode) <==>
              && a.obj.cls == b.obj.cls
              && |a.obj.props| == |b.obj.props|
              && forall i | 0 <= i < |a.obj.props| ::
                   KeyMatches(a.obj.props[i].value, Lookup(b.obj.props, a.obj.props[i].key), mode)
  {
    PropertiesMatchAll(a, b.obj, 0, mode);
    assert ConstructorOf(a.obj) == ConstructorOf(b.obj) <==> a.obj.cls == b.obj.cls;
  }

  lemma {:induction false} LookupOtherKey(props: seq<Property>, j: nat, v: Value, key: string)
    requires j < |props| && key != props[j].key
    ensures Lookup(props[j := Property(props[j].key, v)], key) == Lookup(props, key)
  {
    if j > 0 {
      LookupOtherKey(props[1..], j - 1, v, key);
      assert props[j := Property(props[j].key, v)][1..] == props[1..][j - 1 := Property(props[j].key, v)];
    }
  }

  /**
   * Keys held only by the second record are never read: replacing the value
   * the second record holds under a key the first record lacks never changes the verdict.
   */
  lemma SecondOperandOnlyKeysIgnored(a: Value, b: Value, j: nat, v: Value, mode: Mode)
    requires a.Ref? && b.Ref? && a.id != b.id && a.obj.Record? && b.obj.Record?
    requires j < |b.obj.props|
    requires forall i | 0 <= i < |a.obj.props| :: a.obj.props[i].key != b.obj.props[j].key
    ensures
      var props' := b.obj.props[j := Property(b.obj.props[j].key, v)];
      Equals(a, b, mode) == Equals(a, Ref(b.id, Record(b.obj.cls, props')), mode)
  {
    var props' := b.obj.props[j := Property(b.obj.props[j].key, v)];
    var b' := Ref(b.id, Record(b.obj.cls, props'));
    RecordOperands(a, b, mode);
    RecordOperands(a, b', mode);
    forall i | 0 <= i < |a.obj.props|
      ensures Lookup(props', a.obj.props[i].key) == Lookup(b.obj.props, a.obj.props[i].key)
    {
      LookupOtherKey(b.obj.props, j, v, a.obj.props[i].key);
    }
  }

  /**
   * The walk over the first operand's keys makes the comparator asymmetric:
   * `{x: undefined}` equals `{y: 1}` (both have one key, and `{y: 1}.x` is
   * undefined), but `{y: 1}` does not equal `{x: undefined}`.
   */
  lemma AsymmetricKeySets(mode: Mode)
    ensures
      var a := Ref(1, Record(PlainObject, [Property("x", Undefined)]));
      var b := Ref(2, Record(PlainObject, [Property("y", Num(1))]));
      Equals(a, b, mode) && !Equals(b, a, mode)
  {
  }

  // ---------------------------------------------------------------------------
  // Shallow implies deep (lines 4 and 26-29)
  // ---------------------------------------------------------------------------

  /** A key that passes `===` passes the deep test too, through its identity check. */
  lemma ShallowKeyImpliesDeepKey(x: Value, y: Value)
    requires KeyMatches(x, y, Shallow)
    ensures KeyMatches(x, y, Deep)
  {
  }

  /** shallowEquals(a, b) implies deepEquals(a, b). */
  lemma ShallowImpliesDeep(a: Value, b: Value)
    requires ShallowEquals(a, b)
    ensures DeepEquals(a, b)
  {
    if !StrictEquals(a, b) {
      assert a.Ref? && b.Ref? && ObjectsEqual(a, b, Shallow);
      if a.obj.Array? {
        assert ElementsMatch(a, b.obj, 0, Shallow);
        ElementsMatchAll(a, b.obj, 0, Shallow);
        forall j | 0 <= j < |a.obj.elems| ensures KeyMatches(a.obj.elems[j], ElementAt(b.obj, j), Deep) {
          ShallowKeyImpliesDeepKey(a.obj.elems[j], ElementAt(b.obj, j));
        }
        ElementsMatchAll(a, b.obj, 0, Deep);
      } else if a.obj.Record? {
        assert PropertiesMatch(a, b.obj, 0, Shallow);
        PropertiesMatchAll(a, b.obj, 0, Shallow);
        forall j | 0 <= j < |a.obj.props|
          ensures KeyMatches(a.obj.props[j].value, PropertyOf(b.obj, a.obj.props[j].key), Deep)
        {
          ShallowKeyImpliesDeepKey(a.obj.props[j].value, PropertyOf(b.obj, a.obj.props[j].key));
        }
        PropertiesMatchAll(a, b.obj, 0, Deep);
      }
    }
  }

  // ---------------------------------------------------------------------------
  // Deep equality of values that look alike (nested structures)
  // ---------------------------------------------------------------------------

  lemma {:induction false} LookupDistinct(props: seq<Property>, i: nat)
    requires DistinctKeys(props) && i < |props|
    ensures Lookup(props, props[i].key) == props[i].value
  {
    if i > 0 {
      LookupDistinct(props[1..], i - 1);
    }
  }

  /**
   * deepEquals holds of two values with the same structure and the same
   * primitives at every depth, however their arrays and records are shared.
   */
  lemma {:induction false} AlikeDeepEquals(a: Value, b: Value)
    requires Alike(a, b) && WellFormed(b)
    ensures DeepEquals(a, b)
  {
    if !StrictEquals(a, b) {
      match a
      case Ref(_, Array(elems)) =>
        forall i | 0 <= i < |elems| ensures KeyMatches(elems[i], b.obj.elems[i], Deep) {
          AlikeDeepEquals(elems[i], b.obj.elems[i]);
        }
        ArrayOperands(a, b, Deep);
      case Ref(_, Record(_, props)) =>
        forall i | 0 <= i < |props| ensures KeyMatches(props[i].value, Lookup(b.obj.props, props[i].key), Deep) {
          LookupDistinct(b.obj.props, i);
          AlikeDeepEquals(props[i].value, b.obj.props[i].value);
        }
        RecordOperands(a, b, Deep);
    }
  }

  lemma {:induction false} AlikeReflexive(a: Value)
    ensures Alike(a, a)
  {
    match a
    case Ref(_, Array(elems)) =>
      forall i | 0 <= i < |elems| ensures Alike(elems[i], elems[i]) {
        AlikeReflexive(elems[i]);
      }
    case Ref(_, Record(_, props)) =>
      forall i | 0 <= i < |props| ensures Alike(props[i].value, props[i].value) {
        AlikeReflexive(props[i].value);
      }
    case _ =>
  }

  /**
   * The converse, for operands of the same shape: deepEquals fails as soon as
   * one leaf differs, since the walk compares every position of the first operand.
   */
  lemma {:induction false} DeepEqualsAlike(a: Value, b: Value)
    requires SameShape(a, b) && WellFormed(b) && DeepEquals(a, b)
    ensures Alike(a, b)
  {
    if a.Ref? && b.Ref? && a.id == b.id {
      AlikeReflexive(a);
    } else if a.Ref? && a.obj.Array? {
      ArrayOperands(a, b, Deep);
      forall i | 0 <= i < |a.obj.elems| ensures Alike(a.obj.elems[i], b.obj.elems[i]) {
        DeepEqualsAlike(a.obj.elems[i], b.obj.elems[i]);
      }
    } else if a.Ref? && a.obj.Record? {
      RecordOperands(a, b, Deep);
      forall i | 0 <= i < |a.obj.props| ensures Alike(a.obj.props[i].value, b.obj.props[i].value) {
        LookupDistinct(b.obj.props, i);
        DeepEqualsAlike(a.obj.props[i].value, b.obj.props[i].value);
      }
    } else if a.Ref? && b.Ref? && a.obj.Wrapper? && !SameWrapperType(a, b) {
      ConstructorsDiffer(a, b, Deep);
    }
  }

  /**
   * On two values of the same shape, deepEquals holds exactly when every leaf
   * of the first is `===` to the leaf at the same position of the second.
   */
  lemma SameShapeDeepEquals(a: Value, b: Value)
    requires SameShape(a, b) && WellFormed(b)
    ensures DeepEquals(a, b) <==> Alike(a, b)
  {
    if DeepEquals(a, b) {
      DeepEqualsAlike(a, b);
    }
    if Alike(a, b) {
      AlikeDeepEquals(a, b);
    }
  }
}
