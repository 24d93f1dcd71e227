/** Finite sums of a count over a set of keys, used to state that every
    wildcard entry of the statistics equals the sum of its refinements. */
module Sums {

  ghost function Pick(keys: set<string>): (k: string)
    requires keys != {}
    ensures k in keys
  {
    var k :| k in keys; k
  }

  ghost function SumSet(keys: set<string>, f: string -> nat): nat
    decreases keys
  {
    if keys == {} then 0 else f(Pick(keys)) + SumSet(keys - {Pick(keys)}, f)
  }

  /** The sum does not depend on which key is taken out first. */
  lemma {:induction false} SumRemove(keys: set<string>, f: string -> nat, a: string)
    requires a in keys
    ensures SumSet(keys, f) == f(a) + SumSet(keys - {a}, f)
    decreases keys
  {
    var p := Pick(keys);
    if p != a {
      SumRemove(keys - {p}, f, a);
      SumRemove(keys - {a}, f, p);
      assert keys - {p} - {a} == keys - {a} - {p};
    }
  }

  /** Sums of two counts that agree on the keys are equal. */
  lemma {:induction false} SumCongruent(keys: set<string>, f: string -> nat, g: string -> nat)
    requires forall k :: k in keys ==> f(k) == g(k)
    ensures SumSet(keys, f) == SumSet(keys, g)
    decreases keys
  {
    if keys != {} {
      SumCongruent(keys - {Pick(keys)}, f, g);
    }
  }

  /** Raising the count of one key `a` by `c`, and adding `a` to the keys if it
      was missing (with count 0 before), raises the sum by exactly `c`. */
  lemma {:induction false} SumBump(keys: set<string>, f: string -> nat, g: string -> nat, a: string, c: nat)
    requires forall k :: k in keys + {a} ==> g(k) == f(k) + (if k == a then c else 0)
    requires a !in keys ==> f(a) == 0
    ensures SumSet(keys + {a}, g) == SumSet(keys, f) + c
  {
    SumRemove(keys + {a}, g, a);
    var rest := keys + {a} - {a};
    SumCongruent(rest, f, g);
    if a in keys {
      assert keys + {a} == keys;
      SumRemove(keys, f, a);
      assert rest == keys - {a};
    } else {
      assert rest == keys;
    }
  }
}
