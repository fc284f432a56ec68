/** What every module needs. */
module Common {
  datatype Option<+T> = None | Some(value: T)

  function Max(a: int, b: int): int { if a >= b then a else b }

  function Min(a: int, b: int): int { if a <= b then a else b }

  /** Gives a set of numbers its witness. */
  lemma AnyElement<T>(s: set<T>) returns (x: T)
    requires s != {}
    ensures x in s
  {
    x :| x in s;
  }

  predicate Positive(v: seq<int>) { forall i | 0 <= i < |v| :: v[i] > 0 }
}
