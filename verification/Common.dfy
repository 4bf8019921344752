/** Small shared vocabulary: optional values, the arithmetic the settings use,
    and the prefix test on keys. */
module Common {
  datatype Option<+T> = None | Some(value: T)

  function Max(a: int, b: int): int {
    if a < b then b else a
  }

  function Min(a: int, b: int): int {
    if b < a then b else a
  }

  predicate StartsWith(s: string, prefix: string) {
    prefix <= s
  }

  /** A set inside another has no more elements than it. */
  lemma SubsetCard<T>(a: set<T>, b: set<T>)
    requires a <= b
    ensures |a| <= |b|
  {
    if a != {} {
      var x :| x in a;
      SubsetCard(a - {x}, b - {x});
    }
  }

  lemma Member<T>(s: set<T>) returns (x: T)
    requires s != {}
    ensures x in s
  {
    x :| x in s;
  }

  /** A set of more than one element has two of them. */
  lemma TwoMembers<T>(s: set<T>) returns (x: T, y: T)
    requires |s| > 1
    ensures x in s && y in s && x != y
  {
    x :| x in s;
    assert |s - {x}| > 0;
    y :| y in s - {x};
  }
}
