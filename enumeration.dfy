/**
 * The enumeration primitives `forEach`, `map`, `filter`, `every` and `some`.
 *
 * A target is an array or a plain object, given by its own properties in
 * `Object.getOwnPropertyNames` order (an array's indices come first, then
 * its `length`). Each primitive walks those properties, skips the one named
 * "length", and hands the callback the value and the name after the
 * coercion `Number.isInteger(+x) ? +x : x`. The callback is a pure function;
 * `forEach` reports the arguments of its invocations, in order.
 */
module Enumeration {

  import Decimal

  /** An argument after the coercion `Number.isInteger(+x) ? +x : x`: the number, or x unchanged. */
  datatype Arg<T> = Int(n: int) | Raw(x: T)

  /** Stands for `Number.isInteger(+x)` and, where that holds, `+x`. */
  datatype NumberCast<!T> = NumberCast(isInteger: T -> bool, toNumber: T -> int)

  /** The coercions applied to values and to property names. */
  datatype Casts<!V> = Casts(value: NumberCast<V>, name: NumberCast<string>)

  function Coerce<T>(cast: NumberCast<T>, x: T): Arg<T> {
    if cast.isInteger(x) then Int(cast.toNumber(x)) else Raw(x)
  }

  /** Whether `Array.isArray(target)` holds. */
  datatype Shape = ArrayShape | ObjectShape

  datatype Property<T> = Property(name: string, value: T)

  datatype Target<V> = Target(shape: Shape, props: seq<Property<V>>)

  /** The arguments of one invocation `callback(value, key)`. */
  datatype Call<V> = Call(value: Arg<V>, key: Arg<string>)

  /** A value of an object built by `map`: a callback result, or undefined. */
  datatype Slot<R> = Undefined | Defined(result: R)

  datatype Mapped<R> = MappedArray(elems: seq<R>) | MappedObject(props: seq<Property<Slot<R>>>)

  datatype Filtered<V> = FilteredArray(elems: seq<Arg<V>>) | FilteredObject(props: seq<Property<Arg<V>>>)

  const SkippedName := "length"

  // ---------------------------------------------------------------------------
  // The walk shared by all five primitives
  // ---------------------------------------------------------------------------

  function CallOf<V>(casts: Casts<V>, p: Property<V>): Call<V> {
    Call(Coerce(casts.value, p.value), Coerce(casts.name, p.name))
  }

  /** The invocations made while walking props, in order. */
  function Calls<V>(props: seq<Property<V>>, casts: Casts<V>): seq<Call<V>> {
    if props == [] then []
    else
      var p := props[|props| - 1];
      Calls(props[..|props| - 1], casts) + (if p.name == SkippedName then [] else [CallOf(casts, p)])
  }

  /** How many of props are not named "length". */
  function Visited<V>(props: seq<Property<V>>): nat {
    if props == [] then 0
    else Visited(props[..|props| - 1]) + (if props[|props| - 1].name == SkippedName then 0 else 1)
  }

  /** The callback runs once per property not named "length". */
  lemma {:induction false} CallsCount<V>(props: seq<Property<V>>, casts: Casts<V>)
    ensures |Calls(props, casts)| == Visited(props)
  {
    if props != [] {
      CallsCount(props[..|props| - 1], casts);
    }
  }

  /**
   * The property at index i, unless it is "length", is handed to the callback
   * in invocation number Visited(props[..i]): after exactly the properties
   * before it that are not "length".
   */
  lemma {:induction false} CallAt<V>(props: seq<Property<V>>, casts: Casts<V>, i: nat)
    requires i < |props| && props[i].name != SkippedName
    ensures Visited(props[..i]) < |Calls(props, casts)|
    ensures Calls(props, casts)[Visited(props[..i])] == CallOf(casts, props[i])
  {
    var init := props[..|props| - 1];
    CallsCount(init, casts);
    if i == |props| - 1 {
      assert props[..i] == init;
    } else {
      assert init[..i] == props[..i];
      CallAt(init, casts, i);
    }
  }

  /** Every invocation comes from a property not named "length". */
  lemma {:induction false} CallFrom<V>(props: seq<Property<V>>, casts: Casts<V>, j: nat)
    requires j < |Calls(props, casts)|
    ensures exists i :: 0 <= i < |props| && props[i].name != SkippedName && Visited(props[..i]) == j
  {
    var init := props[..|props| - 1];
    CallsCount(init, casts);
    CallsCount(props, casts);
    if j < |Calls(init, casts)| {
      CallFrom(init, casts, j);
      var i :| 0 <= i < |init| && init[i].name != SkippedName && Visited(init[..i]) == j;
      assert init[..i] == props[..i];
    } else {
      assert props[..|props| - 1] == init;
    }
  }

  lemma {:induction false} VisitedPrefix<V>(props: seq<Property<V>>, i: nat, k: nat)
    requires i <= k <= |props|
    ensures Visited(props[..i]) <= Visited(props[..k])
    ensures i < k && props[i].name != SkippedName ==> Visited(props[..i]) < Visited(props[..k])
    decreases k - i
  {
    if i < k {
      VisitedPrefix(props, i, k - 1);
      assert props[..k][..k - 1] == props[..k - 1];
      if i == k - 1 {
        assert props[..k][k - 1] == props[i];
      }
    }
  }

  /** Invocations follow the order of the property names. */
  lemma CallsInOrder<V>(props: seq<Property<V>>, casts: Casts<V>, i: nat, k: nat)
    requires i < k < |props| && props[i].name != SkippedName && props[k].name != SkippedName
    ensures Visited(props[..i]) < Visited(props[..k]) < |Calls(props, casts)|
    ensures Calls(props, casts)[Visited(props[..i])] == CallOf(casts, props[i])
    ensures Calls(props, casts)[Visited(props[..k])] == CallOf(casts, props[k])
  {
    VisitedPrefix(props, i, k);
    CallAt(props, casts, i);
    CallAt(props, casts, k);
  }

  /** "Every invocation passes" is "every property other than `length` passes". */
  lemma AllCalls<V>(props: seq<Property<V>>, casts: Casts<V>, test: (Arg<V>, Arg<string>) -> bool)
    ensures (forall j | 0 <= j < |Calls(props, casts)| :: test(Calls(props, casts)[j].value, Calls(props, casts)[j].key))
            <==> (forall i | 0 <= i < |props| && props[i].name != SkippedName ::
                    test(CallOf(casts, props[i]).value, CallOf(casts, props[i]).key))
  {
    var calls := Calls(props, casts);
    if forall j | 0 <= j < |calls| :: test(calls[j].value, calls[j].key) {
      forall i | 0 <= i < |props| && props[i].name != SkippedName
        ensures test(CallOf(casts, props[i]).value, CallOf(casts, props[i]).key)
      {
        CallAt(props, casts, i);
      }
    }
    if forall i | 0 <= i < |props| && props[i].name != SkippedName ::
         test(CallOf(casts, props[i]).value, CallOf(casts, props[i]).key)
    {
      forall j | 0 <= j < |calls| ensures test(calls[j].value, calls[j].key) {
        CallFrom(props, casts, j);
        var i :| 0 <= i < |props| && props[i].name != SkippedName && Visited(props[..i]) == j;
        CallAt(props, casts, i);
      }
    }
  }

  // ---------------------------------------------------------------------------
  // forEach (lines 104-113)
  // ---------------------------------------------------------------------------

  /** `forEach(target, callback)`: the arguments of its invocations, in order. */
  method ForEach<V>(target: Target<V>, casts: Casts<V>) returns (calls: seq<Call<V>>)
    ensures calls == Calls(target.props, casts)
  {
    var props := target.props;
    calls := [];
    var i := 0;
    while i < |props|
      invariant 0 <= i <= |props|
      invariant calls == Calls(props[..i], casts)
    {
      var p := props[i];
      assert props[..i + 1][..i] == props[..i];
      if p.name != SkippedName {
        calls := calls + [Call(Coerce(casts.value, p.value), Coerce(casts.name, p.name))];
      }
      i := i + 1;
    }
    assert props[..i] == props;
  }

  // ---------------------------------------------------------------------------
  // Building objects by assignment: `result[key] = value`, `{...acc, [key]: value}`
  // ---------------------------------------------------------------------------

  ghost function Names<T>(props: seq<Property<T>>): set<string> {
    set p | p in props :: p.name
  }

  predicate DistinctNames<T>(props: seq<Property<T>>) {
    forall i, j | 0 <= i < j < |props| :: props[i].name != props[j].name
  }

  /** Assigning a property: an existing one keeps its place and takes the value, a new one goes last. */
  function Assign<T>(props: seq<Property<T>>, name: string, v: T): seq<Property<T>> {
    if props == [] then [Property(name, v)]
    else if props[0].name == name then [Property(name, v)] + props[1..]
    else [props[0]] + Assign(props[1..], name, v)
  }

  lemma NameAbsent<T>(props: seq<Property<T>>, name: string)
    requires forall i | 0 <= i < |props| :: props[i].name != name
    ensures name !in Names(props)
  {
  }

  /** Assignment adds the name, and no other. */
  lemma {:induction false} AssignNames<T>(props: seq<Property<T>>, name: string, v: T)
    ensures Names(Assign(props, name, v)) == Names(props) + {name}
  {
    if props != [] {
      var tail := props[1..];
      assert props == [props[0]] + tail;
      assert Names(props) == {props[0].name} + Names(tail);
      AssignNames(tail, name, v);
      var r := Assign(props, name, v);
      if props[0].name == name {
        assert r == [Property(name, v)] + tail;
        assert Names(r) == {name} + Names(tail);
      } else {
        assert r == [props[0]] + Assign(tail, name, v);
        assert Names(r) == {props[0].name} + Names(Assign(tail, name, v));
      }
    }
  }

  /** After assignment the object holds the new property, and otherwise only properties it held before. */
  lemma {:induction false} AssignContents<T>(props: seq<Property<T>>, name: string, v: T)
    ensures Property(name, v) in Assign(props, name, v)
    ensures forall q | q in Assign(props, name, v) :: q == Property(name, v) || q in props
  {
    if props != [] && props[0].name != name {
      AssignContents(props[1..], name, v);
      assert Assign(props, name, v) == [props[0]] + Assign(props[1..], name, v);
    }
  }

  lemma {:induction false} AssignSize<T>(props: seq<Property<T>>, name: string, v: T)
    ensures |props| <= |Assign(props, name, v)| <= |props| + 1
  {
    if props != [] && props[0].name != name {
      AssignSize(props[1..], name, v);
    }
  }

  /** Assigning a name the object lacks appends the property. */
  lemma {:induction false} AssignNew<T>(props: seq<Property<T>>, name: string, v: T)
    requires name !in Names(props)
    ensures Assign(props, name, v) == props + [Property(name, v)]
  {
    if props != [] {
      assert props[0] in props;
      assert Names(props[1..]) <= Names(props) by {
        forall q | q in props[1..] ensures q in props { }
      }
      AssignNew(props[1..], name, v);
      assert props == [props[0]] + props[1..];
    }
  }

  /** Assignment keeps the names of an object distinct. */
  lemma {:induction false} AssignDistinct<T>(props: seq<Property<T>>, name: string, v: T)
    requires DistinctNames(props)
    ensures DistinctNames(Assign(props, name, v))
  {
    if props != [] && props[0].name != name {
      var tail := props[1..];
      AssignDistinct(tail, name, v);
      AssignNames(tail, name, v);
      forall i | 0 <= i < |tail| ensures tail[i].name != props[0].name {
        assert tail[i] == props[i + 1];
      }
      NameAbsent(tail, props[0].name);
      var r := Assign(props, name, v);
      assert r == [props[0]] + Assign(tail, name, v);
      forall j | 1 <= j < |r| ensures r[j].name != r[0].name {
        assert r[j] == Assign(tail, name, v)[j - 1];
        assert r[j].name in Names(Assign(tail, name, v));
      }
    }
  }

  // ---------------------------------------------------------------------------
  // map (lines 115-133)
  // ---------------------------------------------------------------------------

  /** The callback's results for the given invocations, one each, in order. */
  function Results<V, R>(calls: seq<Call<V>>, callback: Arg<V> -> R): seq<R> {
    seq(|calls|, j requires 0 <= j < |calls| => callback(calls[j].value))
  }

  function SlotAt<R>(results: seq<R>, i: nat): Slot<R> {
    if i < |results| then Defined(results[i]) else Undefined
  }

  /** `keys.reduce((acc, cur, index) => ({...acc, [cur]: result[index]}), {})`. */
  function ZipNames<V, R>(props: seq<Property<V>>, results: seq<R>): seq<Property<Slot<R>>> {
    if props == [] then []
    else
      var n := |props| - 1;
      Assign(ZipNames(props[..n], results), props[n].name, SlotAt(results, n))
  }

  /** With distinct names, the object built by `map` pairs the i-th name with the i-th result. */
  lemma {:induction false} ZipNamesDistinct<V, R>(props: seq<Property<V>>, results: seq<R>)
    requires DistinctNames(props)
    ensures |ZipNames(props, results)| == |props|
    ensures forall i | 0 <= i < |props| :: ZipNames(props, results)[i] == Property(props[i].name, SlotAt(results, i))
  {
    if props != [] {
      var n := |props| - 1;
      var init := props[..n];
      ZipNamesDistinct(init, results);
      var zipped := ZipNames(init, results);
      forall i | 0 <= i < |zipped| ensures zipped[i].name != props[n].name {
        assert zipped[i].name == props[i].name;
      }
      NameAbsent(zipped, props[n].name);
      AssignNew(zipped, props[n].name, SlotAt(results, n));
    }
  }

  /**
   * On a plain object with distinct names and no "length" property, `map`
   * keeps every name and replaces its value with the callback's result for it.
   */
  lemma MapObjectPairs<V, R>(props: seq<Property<V>>, casts: Casts<V>, callback: Arg<V> -> R, i: nat)
    requires DistinctNames(props) && i < |props|
    requires forall k | 0 <= k < |props| :: props[k].name != SkippedName
    ensures var zipped := ZipNames(props, Results(Calls(props, casts), callback));
      |zipped| == |props| && zipped[i] == Property(props[i].name, Defined(callback(Coerce(casts.value, props[i].value))))
  {
    var calls := Calls(props, casts);
    ZipNamesDistinct(props, Results(calls, callback));
    AllVisited(props);
    CallAt(props, casts, i);
    CallsCount(props, casts);
  }

  /**
   * On a plain object that has its own "length" property the results shift:
   * `map({a: 1, length: 5, b: 2}, f)` is `{a: f(1), length: f(2), b: undefined}`,
   * because the results skip "length" while the names they are paired with do not.
   */
  lemma MapObjectLengthShift<R>(callback: Arg<int> -> R, names: NumberCast<string>)
    ensures
      var casts := Casts(NumberCast(_ => true, x => x), names);
      var props := [Property("a", 1), Property("length", 5), Property("b", 2)];
      ZipNames(props, Results(Calls(props, casts), callback))
        == [Property("a", Defined(callback(Int(1)))), Property("length", Defined(callback(Int(2)))), Property("b", Undefined)]
  {
    var casts := Casts(NumberCast(_ => true, x => x), names);
    var props := [Property("a", 1), Property("length", 5), Property("b", 2)];
    assert props[..3] == props && props[..3][..2] == props[..2];
    assert props[..2][..1] == props[..1] && props[..1][..0] == [];
    assert Calls(props[..1], casts) == [CallOf(casts, props[0])];
    assert Calls(props[..2], casts) == [CallOf(casts, props[0])];
    assert Calls(props, casts) == [CallOf(casts, props[0]), CallOf(casts, props[2])];
    ZipNamesDistinct(props, Results(Calls(props, casts), callback));
  }

  /** With no "length" property, every property is visited. */
  lemma {:induction false} AllVisited<V>(props: seq<Property<V>>)
    requires forall k | 0 <= k < |props| :: props[k].name != SkippedName
    ensures forall i | 0 <= i <= |props| :: Visited(props[..i]) == i
  {
    if props != [] {
      var n := |props| - 1;
      AllVisited(props[..n]);
      forall i | 0 <= i <= |props| ensures Visited(props[..i]) == i {
        if i <= n {
          assert props[..n][..i] == props[..i];
        } else {
          assert props[..i][..n] == props[..n];
        }
      }
    }
  }

  /**
   * `map(target, callback)`: the callback's results, one per property other
   * than "length", in order; an array gets them as an array, a plain object
   * as an object that pairs its names, "length" included, with the results by position.
   */
  method Map<V, R>(target: Target<V>, casts: Casts<V>, callback: Arg<V> -> R) returns (r: Mapped<R>)
    ensures var calls := Calls(target.props, casts);
      target.shape == ArrayShape ==>
        r.MappedArray? && |r.elems| == |calls| && forall j | 0 <= j < |calls| :: r.elems[j] == callback(calls[j].value)
    ensures target.shape == ObjectShape ==>
      r == MappedObject(ZipNames(target.props, Results(Calls(target.props, casts), callback)))
  {
    var props := target.props;
    var results: seq<R> := [];
    var i := 0;
    while i < |props|
      invariant 0 <= i <= |props|
      invariant results == Results(Calls(props[..i], casts), callback)
    {
      var p := props[i];
      assert props[..i + 1][..i] == props[..i];
      if p.name != SkippedName {
        results := results + [callback(Coerce(casts.value, p.value))];
      }
      i := i + 1;
    }
    assert props[..i] == props;
    if target.shape == ArrayShape {
      return MappedArray(results);
    }
    var acc: seq<Property<Slot<R>>> := [];
    var k := 0;
    while k < |props|
      invariant 0 <= k <= |props|
      invariant acc == ZipNames(props[..k], results)
    {
      assert props[..k + 1][..k] == props[..k];
      acc := Assign(acc, props[k].name, if k < |results| then Defined(results[k]) else Undefined);
      k := k + 1;
    }
    assert props[..k] == props;
    r := MappedObject(acc);
  }

  // ---------------------------------------------------------------------------
  // filter (lines 135-149)
  // ---------------------------------------------------------------------------

  /** The invocations the callback accepts, in order. */
  function Selected<V>(calls: seq<Call<V>>, callback: (Arg<V>, Arg<string>) -> bool): seq<Call<V>> {
    if calls == [] then []
    else
      var c := calls[|calls| - 1];
      Selected(calls[..|calls| - 1], callback) + (if callback(c.value, c.key) then [c] else [])
  }

  /** The name `result[key] = value` assigns: a number key becomes its decimal text. */
  function KeyName(key: Arg<string>): string {
    match key
    case Int(n) => Decimal.IntText(n)
    case Raw(s) => s
  }

  /** The object `filter` builds from the accepted invocations. */
  function AssignAll<V>(selected: seq<Call<V>>): seq<Property<Arg<V>>> {
    if selected == [] then []
    else
      var c := selected[|selected| - 1];
      Assign(AssignAll(selected[..|selected| - 1]), KeyName(c.key), c.value)
  }

  function Values<V>(calls: seq<Call<V>>): seq<Arg<V>> {
    seq(|calls|, j requires 0 <= j < |calls| => calls[j].value)
  }

  function Filtering<V>(shape: Shape, calls: seq<Call<V>>, callback: (Arg<V>, Arg<string>) -> bool): Filtered<V> {
    var selected := Selected(calls, callback);
    if shape == ArrayShape then FilteredArray(Values(selected)) else FilteredObject(AssignAll(selected))
  }

  /** An invocation is kept exactly when it is one of the walk's and the callback accepts it. */
  lemma {:induction false} SelectedMembers<V>(calls: seq<Call<V>>, callback: (Arg<V>, Arg<string>) -> bool, c: Call<V>)
    ensures c in Selected(calls, callback) <==> c in calls && callback(c.value, c.key)
  {
    if calls != [] {
      var init := calls[..|calls| - 1];
      SelectedMembers(init, callback, c);
      assert calls == init + [calls[|calls| - 1]];
    }
  }

  /** Filtering never keeps more invocations than were made. */
  lemma {:induction false} SelectedSize<V>(calls: seq<Call<V>>, callback: (Arg<V>, Arg<string>) -> bool)
    ensures |Selected(calls, callback)| <= |calls|
  {
    if calls != [] {
      SelectedSize(calls[..|calls| - 1], callback);
    }
  }

  /** Filtering keeps order: the kept part of a concatenation is the concatenation of the kept parts. */
  lemma {:induction false} SelectedAppend<V>(a: seq<Call<V>>, b: seq<Call<V>>, callback: (Arg<V>, Arg<string>) -> bool)
    ensures Selected(a + b, callback) == Selected(a, callback) + Selected(b, callback)
  {
    if b != [] {
      var n := |b| - 1;
      SelectedAppend(a, b[..n], callback);
      assert (a + b)[..|a + b| - 1] == a + b[..n];
    } else {
      assert a + b == a;
    }
  }

  /** The object `filter` builds has no more properties than accepted invocations. */
  lemma {:induction false} AssignAllSize<V>(selected: seq<Call<V>>)
    ensures |AssignAll(selected)| <= |selected|
  {
    if selected != [] {
      var n := |selected| - 1;
      AssignAllSize(selected[..n]);
      AssignSize(AssignAll(selected[..n]), KeyName(selected[n].key), selected[n].value);
    }
  }

  /** The object `filter` builds has distinct names. */
  lemma {:induction false} AssignAllDistinct<V>(selected: seq<Call<V>>)
    ensures DistinctNames(AssignAll(selected))
  {
    if selected != [] {
      var n := |selected| - 1;
      AssignAllDistinct(selected[..n]);
      AssignDistinct(AssignAll(selected[..n]), KeyName(selected[n].key), selected[n].value);
    }
  }

  /** The object `filter` builds has a property for the key of every accepted invocation. */
  lemma {:induction false} AssignAllNames<V>(selected: seq<Call<V>>)
    ensures forall c | c in selected :: KeyName(c.key) in Names(AssignAll(selected))
  {
    if selected != [] {
      var n := |selected| - 1;
      var init := selected[..n];
      var c := selected[n];
      AssignAllNames(init);
      AssignNames(AssignAll(init), KeyName(c.key), c.value);
      assert selected == init + [c];
      forall d | d in selected ensures KeyName(d.key) in Names(AssignAll(selected)) {
        if d != c {
          assert d in init;
        }
      }
    }
  }

  ghost predicate AssignedBy<V>(q: Property<Arg<V>>, selected: seq<Call<V>>) {
    exists c :: c in selected && q == Property(KeyName(c.key), c.value)
  }

  /** Each property of the object `filter` builds is the key and value of an accepted invocation. */
  lemma {:induction false} AssignAllFrom<V>(selected: seq<Call<V>>)
    ensures forall q | q in AssignAll(selected) :: AssignedBy(q, selected)
  {
    if selected != [] {
      var n := |selected| - 1;
      var init := selected[..n];
      var c := selected[n];
      AssignAllFrom(init);
      AssignContents(AssignAll(init), KeyName(c.key), c.value);
      forall q | q in AssignAll(selected) ensures AssignedBy(q, selected) {
        if q == Property(KeyName(c.key), c.value) {
          assert c in selected;
        } else {
          assert AssignedBy(q, init);
          var d :| d in init && q == Property(KeyName(d.key), d.value);
          assert d in selected;
        }
      }
    }
  }

  /**
   * `filter(target, callback)`: the invocations the callback accepts, in
   * order; an array gets their values appended, a plain object gets
   * `result[key] = value` for each.
   */
  method Filter<V>(target: Target<V>, casts: Casts<V>, callback: (Arg<V>, Arg<string>) -> bool) returns (r: Filtered<V>)
    ensures r == Filtering(target.shape, Calls(target.props, casts), callback)
    ensures r.FilteredArray? <==> target.shape == ArrayShape
    ensures r.FilteredArray? ==> |r.elems| <= Visited(target.props)
    ensures r.FilteredObject? ==> |r.props| <= Visited(target.props)
  {
    var calls := ForEach(target, casts);
    r := if target.shape == ArrayShape then FilteredArray([]) else FilteredObject([]);
    var i := 0;
    while i < |calls|
      invariant 0 <= i <= |calls|
      invariant r == Filtering(target.shape, calls[..i], callback)
    {
      var c := calls[i];
      assert calls[..i + 1][..i] == calls[..i];
      ghost var before := Selected(calls[..i], callback);
      if callback(c.value, c.key) {
        assert Selected(calls[..i + 1], callback) == before + [c];
        if target.shape == ArrayShape {
          assert Values(before + [c]) == Values(before) + [c.value];
          r := FilteredArray(r.elems + [c.value]);
        } else {
          assert (before + [c])[..|before|] == before;
          r := FilteredObject(Assign(r.props, KeyName(c.key), c.value));
        }
      } else {
        assert Selected(calls[..i + 1], callback) == before;
      }
      i := i + 1;
    }
    assert calls[..i] == calls;
    CallsCount(target.props, casts);
    SelectedSize(calls, callback);
    AssignAllSize(Selected(calls, callback));
  }

  // ---------------------------------------------------------------------------
  // every and some (lines 151-172)
  // ---------------------------------------------------------------------------

  /**
   * `every(target, callback)`: true exactly when the callback accepts every
   * property other than "length". The invocations it makes, `visited`, are
   * all of the walk's: there is no early exit on the first rejection.
   */
  method Every<V>(target: Target<V>, casts: Casts<V>, callback: (Arg<V>, Arg<string>) -> bool)
    returns (result: bool, visited: seq<Call<V>>)
    ensures visited == Calls(target.props, casts)
    ensures result <==> forall i | 0 <= i < |target.props| && target.props[i].name != SkippedName ::
                          callback(CallOf(casts, target.props[i]).value, CallOf(casts, target.props[i]).key)
  {
    var calls := ForEach(target, casts);
    result := true;
    visited := [];
    var i := 0;
    while i < |calls|
      invariant 0 <= i <= |calls|
      invariant visited == calls[..i]
      invariant result <==> forall j | 0 <= j < i :: callback(calls[j].value, calls[j].key)
    {
      visited := visited + [calls[i]];
      if !callback(calls[i].value, calls[i].key) {
        result := false;
      }
      i := i + 1;
    }
    assert calls[..i] == calls;
    AllCalls(target.props, casts, callback);
  }

  /**
   * `some(target, callback)`: true exactly when the callback accepts at least
   * one property other than "length". The invocations it makes, `visited`,
   * are all of the walk's: there is no early exit on the first acceptance.
   */
  method Some<V>(target: Target<V>, casts: Casts<V>, callback: (Arg<V>, Arg<string>) -> bool)
    returns (result: bool, visited: seq<Call<V>>)
    ensures visited == Calls(target.props, casts)
    ensures result <==> exists i | 0 <= i < |target.props| && target.props[i].name != SkippedName ::
                          callback(CallOf(casts, target.props[i]).value, CallOf(casts, target.props[i]).key)
  {
    var calls := ForEach(target, casts);
    result := false;
    visited := [];
    var i := 0;
    while i < |calls|
      invariant 0 <= i <= |calls|
      invariant visited == calls[..i]
      invariant result <==> exists j | 0 <= j < i :: callback(calls[j].value, calls[j].key)
    {
      visited := visited + [calls[i]];
      if callback(calls[i].value, calls[i].key) {
        result := true;
      }
      i := i + 1;
    }
    assert calls[..i] == calls;
    AllCalls(target.props, casts, (v, k) => !callback(v, k));
  }
}
