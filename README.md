# Object utilities of assignment 2, modelled in Dafny

The file `packages/assignment-2/src/basic/basic.js` is a small collection of
JavaScript object utilities. This project models three of its parts and proves
what they promise:

- **The equality comparator** `equals(target1, target2, type)` with its entry
  points `shallowEquals` and `deepEquals` (module `Equality`, file
  `equality.dfy`). JavaScript values form the datatype `Value`: `undefined`,
  `null`, integer numbers, strings, booleans, symbols, big integers, and
  references `Ref(id, obj)` to objects. An object is a boxed wrapper
  (`new Number(..)`, `new String(..)`, ...), an array, a record (a plain
  object or a class instance, with its own enumerable properties in key
  order) or a function. `===` (`StrictEquals`) compares primitives by value
  and objects by their `id`, so shallow mode sees identity and not
  structure. `Equals` follows the source branch by branch: the identity
  check, the `typeof` check, the `null` check, the same-wrapper-class check,
  then for two objects the constructor check, the key-count check and the
  `for...in` walk over the first operand's keys. Two quirks of the source
  are kept and proved: wrappers of one class are never equal, and keys held
  only by the second operand are never read.
- **The `CustomNumber` instance pool** (module `CustomNumbers`, file
  `custom_number.dfy`). The class's private static `#instancePool` is an
  explicit `InstancePool` object with a `map<int, CustomNumber>` field, and
  `new CustomNumber(n)` is its `Construct` method: it looks the key up,
  otherwise it creates and stores one instance, and it never replaces an
  entry. `valueOf`, `toString` and `toJSON` are members of `CustomNumber`.
  The decimal text that `toString` gives comes from module `Decimal`
  (`decimal.dfy`), whose parser proves that the text reads back as the key.
- **The enumeration primitives** `forEach`, `map`, `filter`, `every` and
  `some` (module `Enumeration`, file `enumeration.dfy`). A target is an
  array or a plain object, given by its own properties in
  `Object.getOwnPropertyNames` order. Each primitive is a method with a loop
  over those properties. Each loop skips the name `"length"` and applies
  the coercion `Number.isInteger(+x) ? +x : x` to the value and to the
  name. That coercion is an abstract pair of functions (`NumberCast`). The
  callback is a pure function parameter. `ForEach` returns the arguments
  of its invocations in order. `Filter`, `Every` and `Some` are built on
  it, as in the source. Each method is proved against specification
  functions (`Calls`, `Results`, `ZipNames`, `Selected`, `AssignAll`), and
  lemmas give those functions their meaning. They cover invocation counts,
  invocation order, what `filter` keeps and the shape of the objects built.

`options.dfy` holds the `Option` datatype used by the parser.

Three behaviours of the code worth knowing, each modelled as written:
- `map` on a plain object pairs ALL property names, `"length"` included,
  with the results by position (`keys.reduce` at lines 127-132). The results
  skip `"length"`, so an object with its own `length` property gets shifted
  values and a trailing `undefined` (`Enumeration.MapObjectLengthShift`).
- `filter` on a plain object stores each kept value under the COERCED key
  (`result[key] = value` at line 143). An integer-like name is stored under
  the decimal text of its number (`Enumeration.KeyName`).
- The comparator is not symmetric: `{x: undefined}` equals `{y: 1}`, but not
  the other way round (`Equality.AsymmetricKeySets`).

## Model

| member | source | states |
|---|---|---|
| `Equality.FastPaths` | packages/assignment-2/src/basic/basic.js:4-14 | every value equals itself; `===` operands are equal; operands with different `typeof`, exactly one `null`, or two wrappers of the same class are unequal; two non-identical operands whose `typeof` is not "object" are unequal (line 34) |
| `Equality.Primitives` | packages/assignment-2/src/basic/basic.js:4-34 | on two primitives both modes hold exactly when the values are equal |
| `Equality.WrappersNeverEqual` | packages/assignment-2/src/basic/basic.js:8-14 | two distinct wrappers of one class are unequal in both modes even when they wrap the same primitive, and a wrapper never equals its primitive |
| `Equality.ConstructorsDiffer` | packages/assignment-2/src/basic/basic.js:20 | distinct objects with different constructors are unequal |
| `Equality.ElementsMatchAll` | packages/assignment-2/src/basic/basic.js:26-30 | the walk over an array operand succeeds iff every remaining index passes the per-key test (`===` in shallow mode, deep comparison in deep mode) |
| `Equality.PropertiesMatchAll` | packages/assignment-2/src/basic/basic.js:26-30 | the walk over a record operand succeeds iff every remaining key of the first operand passes the per-key test against the second operand's value under that key |
| `Equality.ArrayOperands` | packages/assignment-2/src/basic/basic.js:19-31 | two distinct arrays are equal iff their lengths agree and each index passes the per-key test |
| `Equality.RecordOperands` | packages/assignment-2/src/basic/basic.js:19-31 | two distinct records are equal iff their classes agree, their key counts agree, and every key of the first passes the per-key test against the second's value under that key (undefined when it lacks the key) |
| `Equality.SecondOperandOnlyKeysIgnored` | packages/assignment-2/src/basic/basic.js:21-30 | changing the value the second record holds under a key the first record lacks never changes the verdict |
| `Equality.AsymmetricKeySets` | packages/assignment-2/src/basic/basic.js:21-30 | `{x: undefined}` equals `{y: 1}` but `{y: 1}` does not equal `{x: undefined}`, in both modes |
| `Equality.ShallowKeyImpliesDeepKey` | packages/assignment-2/src/basic/basic.js:27-28 | a key that passes `===` passes the deep test |
| `Equality.ShallowImpliesDeep` | packages/assignment-2/src/basic/basic.js:37-43 | `shallowEquals(a, b)` implies `deepEquals(a, b)` |
| `Equality.AlikeDeepEquals` | packages/assignment-2/src/basic/basic.js:41-43 | `deepEquals` holds of two values with the same structure and the same primitives at every depth, whatever the identities of their arrays and records |
| `Equality.DeepEqualsAlike` | packages/assignment-2/src/basic/basic.js:16-43 | on two operands of the same shape (same array lengths, same record classes and key sequences at every depth, one identity meaning one object), `deepEquals` implies that every leaf is `===` to its counterpart: a single differing leaf makes it false |
| `Equality.SameShapeDeepEquals` | packages/assignment-2/src/basic/basic.js:16-43 | on two operands of the same shape, `deepEquals` holds iff every leaf is `===` to its counterpart |
| `Decimal.ParseIntText` | packages/assignment-2/src/basic/basic.js:82-84 | the decimal text of every integer reads back as that integer |
| `Decimal.IntTextInjective` | packages/assignment-2/src/basic/basic.js:82-84 | distinct integers have distinct decimal texts |
| `CustomNumbers.CustomNumber.ToString` | packages/assignment-2/src/basic/basic.js:82-84 | `toString()` yields a text that reads back as the key `valueOf()` returns |
| `CustomNumbers.CustomNumber.ToJSON` | packages/assignment-2/src/basic/basic.js:85-87 | `toJSON()` yields the text `toString()` gives, which reads back as the key |
| `CustomNumbers.InstancePool.constructor` | packages/assignment-2/src/basic/basic.js:71 | the pool starts empty |
| `CustomNumbers.InstancePool.Construct` | packages/assignment-2/src/basic/basic.js:72-78 | a known key returns the pooled instance and leaves the pool unchanged; a new key returns a fresh instance whose `valueOf()` is the key and adds exactly that one entry; no entry is ever replaced; every entry's instance holds its own key |
| `CustomNumbers.ConstructTwice` | packages/assignment-2/src/basic/basic.js:70-87 | two constructions return the identical instance iff their keys are equal, and their `toJSON()` texts agree iff their keys are equal |
| `Enumeration.CallsCount` | packages/assignment-2/src/basic/basic.js:105-112 | the callback runs exactly once per property not named "length" |
| `Enumeration.CallAt` | packages/assignment-2/src/basic/basic.js:105-112 | the property at index i, unless it is "length", is passed (coerced value, coerced name) in invocation number "properties before i not named length" |
| `Enumeration.CallFrom` | packages/assignment-2/src/basic/basic.js:105-112 | every invocation comes from a property not named "length" |
| `Enumeration.VisitedPrefix` | packages/assignment-2/src/basic/basic.js:105-107 | the number of visited properties grows with the prefix, strictly past a property not named "length" |
| `Enumeration.CallsInOrder` | packages/assignment-2/src/basic/basic.js:105-112 | invocations follow the `getOwnPropertyNames` order of the properties |
| `Enumeration.AllCalls` | packages/assignment-2/src/basic/basic.js:105-112 | a test holds of every invocation iff it holds of every property not named "length" |
| `Enumeration.ForEach` | packages/assignment-2/src/basic/basic.js:104-113 | the invocations of `forEach` are exactly `Calls(props)`: one per non-"length" property, in order, with integer-like values and names passed as numbers |
| `Enumeration.AssignNames` | packages/assignment-2/src/basic/basic.js:143 | assigning a property adds its name and no other |
| `Enumeration.AssignContents` | packages/assignment-2/src/basic/basic.js:143 | after `result[key] = value` the object holds that property and otherwise only properties it held before |
| `Enumeration.AssignSize` | packages/assignment-2/src/basic/basic.js:143 | assignment adds at most one property |
| `Enumeration.AssignNew` | packages/assignment-2/src/basic/basic.js:127-132 | assigning a name the object lacks appends the property last |
| `Enumeration.AssignDistinct` | packages/assignment-2/src/basic/basic.js:143 | assignment keeps property names distinct |
| `Enumeration.ZipNamesDistinct` | packages/assignment-2/src/basic/basic.js:127-132 | with distinct names, the object `map` builds pairs the i-th name with the i-th result (undefined past the last result) |
| `Enumeration.AllVisited` | packages/assignment-2/src/basic/basic.js:106-107 | with no "length" property, the first i properties are all visited |
| `Enumeration.MapObjectPairs` | packages/assignment-2/src/basic/basic.js:115-133 | on a plain object with distinct names and no "length", `map` keeps every name and gives it the callback's result for that property's coerced value |
| `Enumeration.MapObjectLengthShift` | packages/assignment-2/src/basic/basic.js:118-132 | `map({a: 1, length: 5, b: 2}, f)` builds `{a: f(1), length: f(2), b: undefined}` |
| `Enumeration.Map` | packages/assignment-2/src/basic/basic.js:115-133 | on an array: one result per invocation, in order, result j being the callback on invocation j's coerced value; on a plain object: the names zipped with those results by position |
| `Enumeration.SelectedMembers` | packages/assignment-2/src/basic/basic.js:138-146 | an invocation is kept iff it is one of the walk's and the callback accepts it |
| `Enumeration.SelectedSize` | packages/assignment-2/src/basic/basic.js:138-146 | no more invocations are kept than were made |
| `Enumeration.SelectedAppend` | packages/assignment-2/src/basic/basic.js:138-146 | the kept part of a concatenation is the concatenation of the kept parts, so filtering keeps order |
| `Enumeration.AssignAllSize` | packages/assignment-2/src/basic/basic.js:142-144 | the object `filter` builds has no more properties than accepted invocations |
| `Enumeration.AssignAllDistinct` | packages/assignment-2/src/basic/basic.js:142-144 | the object `filter` builds has distinct names |
| `Enumeration.AssignAllNames` | packages/assignment-2/src/basic/basic.js:142-144 | every accepted invocation's key names a property of the object `filter` builds |
| `Enumeration.AssignAllFrom` | packages/assignment-2/src/basic/basic.js:142-144 | every property of the object `filter` builds is the key and value of an accepted invocation |
| `Enumeration.Filter` | packages/assignment-2/src/basic/basic.js:135-149 | an array target gives the values of the accepted invocations in order, a plain object gives them assigned under their keys; the shape follows `Array.isArray`; the output has no more entries than visited properties |
| `Enumeration.Every` | packages/assignment-2/src/basic/basic.js:151-161 | true iff the callback accepts every property not named "length" (so true on an empty target); the invocations it makes are exactly `Calls(props)`, every one of the walk's, with no early exit on a rejection |
| `Enumeration.Some` | packages/assignment-2/src/basic/basic.js:162-172 | true iff the callback accepts at least one property not named "length" (so false on an empty target); the invocations it makes are exactly `Calls(props)`, every one of the walk's, with no early exit on an acceptance |

## Left out

- `createNumber1`, `createNumber2` and `createNumber3` (lines 45-68): the first two are bare `new Number` / `new String` calls, whose one interesting trait (boxed wrappers never compare equal) is the comparator's `Wrapper` variant; the third relies on the runtime calling `valueOf`, `toString` and `toJSON` during coercion and serialization, which is host behaviour.
- `createUnenumerableObject` (lines 90-102): it rests on `structuredClone`, property descriptors and `Object.defineProperty`, which are host-object machinery.
- The `NodeList` branches (lines 125, 136, 140): a DOM host type; the shape test is `Array.isArray` only.
- Numbers are integers: NaN (which is not `===` to itself), +0/-0 and fractions are not modelled, in the comparator or elsewhere.
- `Decimal.IntText`, `CustomNumbers.CustomNumber.ToString`, `Enumeration.KeyName`: numbers are unbounded integers, so neither the 2^53 precision limit of JavaScript numbers nor the exponential text `${n}` gives from 10^21 on (`"1e+21"`) is modelled; the decimal text is exact for |n| < 10^21 only.
- The coercion `Number.isInteger(+x) ? +x : x` is abstract (`NumberCast`): JavaScript's string-to-number rules, and the TypeError `+x` raises on a symbol, on a BigInt value (`forEach({a: 1n}, f)` throws at line 109, `map` at line 121) and on an object whose `valueOf` returns either, are not modelled: `NumberCast` is total.
- Prototype chains: `for...in` also walks inherited enumerable keys, and `constructor` may be inherited or overwritten; the model walks own keys and takes the constructor from the object's kind. The reads `target1[key]` and `target2[key]` at lines 27-28 also find inherited members such as `valueOf`, `toString` and `constructor` on `Object.prototype`; `Lookup` reads undefined for a key the record does not own. So `deepEquals({valueOf: undefined}, {a: 1})` is false in JavaScript (`{a: 1}.valueOf` is a function) but holds in the model.
- Non-enumerable own properties in the comparator: `Object.keys` and `for...in` skip them, but the lookup `target2[key]` at line 27 does see one on the second operand (`shallowEquals({x: 1}, b)` is true in JavaScript when `b` has the enumerable `y: 2` and a non-enumerable `x: 1`); a record holds its enumerable properties only, so the model reads undefined there.
- The index keys of a `String` wrapper: wrapper pairs are stopped by the same-class test or the constructor test and never reach the key walk.
- Arrays are dense and carry only their indices: holes (`[,]`, which `Object.keys` skips, so `deepEquals([,], [])` is true) and named own properties of an array (which `Object.keys` lists) are not modelled.
- Cyclic objects: deep mode would not terminate on them, and an inductive datatype has none.
- Records with a repeated key cannot arise in JavaScript; the model admits them, a lookup reads the first one, and `AlikeDeepEquals` requires distinct keys (`WellFormed`).
- The comparator's `type` argument takes only "shallow" and "deep"; any other string (which would skip both per-key tests) is not modelled.
- `CustomNumber` keys are integers: the JavaScript `Map` compares any value by SameValueZero. The field `n` is a constant; the source never writes it after construction. The pool is an explicit object rather than a process-wide static field; there is no concurrency to model.
- `CustomNumbers.CustomNumber.ToString`: its contract states that the text reads back as the key rather than spelling out every digit; the body computes the exact decimal text.
- Callback side effects: the callback is a pure function; `ForEach` returns the arguments it would be called with instead of running it.
- The name `"__proto__"` in `filter` on a plain object: `result[key] = value` at line 143 calls the inherited `__proto__` setter instead of creating a property, so `filter(JSON.parse('{"__proto__": 1}'), () => true)` returns `{}`; `Assign` adds a property of that name.
- The object `filter` builds is kept in assignment order: JavaScript's rule that array-index names come first in property order is not modelled.
