/**
 * `CustomNumber`: a number-like class whose constructor hands out one
 * canonical instance per key. The process-wide `#instancePool` map is an
 * explicit `InstancePool` object here, and `new CustomNumber(n)` is its
 * `Construct` method.
 */
module CustomNumbers {

  import opened Options
  import Decimal

  /** An instance: the key `n` it was first constructed with. */
  class CustomNumber {
    const n: int

    constructor (n: int)
      ensures this.n == n
    {
      this.n := n;
    }

    /** `valueOf()`. */
    function ValueOf(): int {
      n
    }

    /** `toString()`: `${this.n}`, the decimal text of the key, which reads back as the key. */
    function ToString(): (s: string)
      ensures Decimal.ParseInt(s) == Some(ValueOf())
    {
      Decimal.ParseIntText(n);
      Decimal.IntText(n)
    }

    /** `toJSON()`: the text `toString()` gives. */
    function ToJSON(): (s: string)
      ensures s == ToString() && Decimal.ParseInt(s) == Some(ValueOf())
    {
      ToString()
    }
  }

  class InstancePool {
    /** The canonical instance for each key constructed so far. */
    var instances: map<int, CustomNumber>

    /** Every instance is stored under its own key. */
    ghost predicate Valid()
      reads this
    {
      forall k | k in instances :: instances[k].n == k
    }

    constructor ()
      ensures Valid() && instances == map[]
    {
      instances := map[];
    }

    /**
     * `new CustomNumber(n)`: the pooled instance when the key is known;
     * otherwise a new instance, stored under n. Existing entries are never replaced.
     */
    method Construct(n: int) returns (c: CustomNumber)
      requires Valid()
      modifies this
      ensures Valid()
      ensures c.ValueOf() == n && n in instances && instances[n] == c
      ensures n in old(instances) ==> c == old(instances[n]) && instances == old(instances)
      ensures n !in old(instances) ==> fresh(c) && instances == old(instances)[n := c]
      ensures forall k | k in old(instances) :: k in instances && instances[k] == old(instances[k])
    {
      if n in instances {
        c := instances[n];
      } else {
        c := new CustomNumber(n);
        instances := instances[n := c];
      }
    }
  }

  /**
   * Two constructions return the very same instance exactly when their keys
   * are equal, whatever the pool held before: `new CustomNumber(5) ===
   * new CustomNumber(5)` and `new CustomNumber(5) !== new CustomNumber(6)`.
   */
  method ConstructTwice(pool: InstancePool, m: int, n: int) returns (first: CustomNumber, second: CustomNumber)
    requires pool.Valid()
    modifies pool
    ensures pool.Valid()
    ensures first == second <==> m == n
    ensures first.ToJSON() == second.ToJSON() <==> m == n
  {
    first := pool.Construct(m);
    second := pool.Construct(n);
    if first.ToJSON() == second.ToJSON() {
      Decimal.IntTextInjective(m, n);
    }
  }
}
