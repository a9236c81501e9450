/** Sums of a real-valued function over a finite set of paths. */
module Sums {

  /** The sum of f(k) over the keys. */
  ghost function SumOver(keys: set<string>, f: string -> real): real
    decreases keys
  {
    if keys == {} then 0.0 else var k :| k in keys; f(k) + SumOver(keys - {k}, f)
  }

  /** Any key can be taken out of the sum first. */
  lemma SumOverRemove(keys: set<string>, f: string -> real, k: string)
    requires k in keys
    ensures SumOver(keys, f) == f(k) + SumOver(keys - {k}, f)
    decreases keys
  {
    var j :| j in keys && SumOver(keys, f) == f(j) + SumOver(keys - {j}, f);
    if j != k {
      SumOverRemove(keys - {j}, f, k);
      SumOverRemove(keys - {k}, f, j);
      assert keys - {j} - {k} == keys - {k} - {j};
    }
  }

  /** Functions that agree on the keys have the same sum. */
  lemma SumOverCongruent(keys: set<string>, f: string -> real, g: string -> real)
    requires forall k :: k in keys ==> f(k) == g(k)
    ensures SumOver(keys, f) == SumOver(keys, g)
    decreases keys
  {
    if keys != {} {
      var k :| k in keys;
      SumOverRemove(keys, f, k);
      SumOverRemove(keys, g, k);
      SumOverCongruent(keys - {k}, f, g);
    }
  }

  /** A function that is zero on the keys sums to zero. */
  lemma SumOverZero(keys: set<string>, f: string -> real)
    requires forall k :: k in keys ==> f(k) == 0.0
    ensures SumOver(keys, f) == 0.0
    decreases keys
  {
    if keys != {} {
      var k :| k in keys;
      SumOverRemove(keys, f, k);
      SumOverZero(keys - {k}, f);
    }
  }

  /** Raising f at one key by delta raises the sum by delta. */
  lemma SumOverBump(keys: set<string>, f: string -> real, g: string -> real, k: string, delta: real)
    requires k in keys && g(k) == f(k) + delta
    requires forall j :: j in keys && j != k ==> g(j) == f(j)
    ensures SumOver(keys, g) == SumOver(keys, f) + delta
  {
    SumOverRemove(keys, f, k);
    SumOverRemove(keys, g, k);
    SumOverCongruent(keys - {k}, f, g);
  }
}
