/** Sizes of finite sets. */
module Sets {

  lemma Pick<T>(among: set<T>) returns (x: T)
    requires among != {}
    ensures x in among
  {
    x :| x in among;
  }

  lemma AddOne<T>(a: set<T>, x: T)
    requires x !in a
    ensures |a + {x}| == |a| + 1
  {
  }

  lemma Without<T>(a: set<T>, x: T)
    requires x in a
    ensures |a - {x}| < |a|
  {
  }

  lemma SubsetSize<T>(a: set<T>, b: set<T>)
    requires a <= b
    ensures |a| <= |b| && (|a| == |b| ==> a == b)
  {
    assert b == a + (b - a);
  }

  lemma Disjoint<T>(a: set<T>, b: set<T>)
    requires a !! b
    ensures |a + b| == |a| + |b|
  {
  }
}
