/**
 * The underscore.js list operations the event collection is built on:
 * `_.union` and `_.difference`. Both compare items by identity and keep the
 * order of their first argument.
 */
module Collections {

  predicate Distinct<T(==)>(s: seq<T>) {
    forall i, j | 0 <= i < j < |s| :: s[i] != s[j]
  }

  /** `_.uniq`: each item once, where it first occurs. */
  function Dedup<T(==)>(s: seq<T>): seq<T>
  {
    if s == [] then []
    else
      var r := Dedup(s[..|s| - 1]);
      if s[|s| - 1] in r then r else r + [s[|s| - 1]]
  }

  /** `_.union(a, b)`: the items of `a` and then of `b`, each once, in order of first occurrence. */
  function Union<T(==)>(a: seq<T>, b: seq<T>): seq<T>
  {
    Dedup(a + b)
  }

  /** `_.difference(a, b)`: the items of `a` that are not in `b`, in their order. */
  function Difference<T(==)>(a: seq<T>, b: seq<T>): seq<T>
  {
    if a == [] then []
    else
      var r := Difference(a[..|a| - 1], b);
      if a[|a| - 1] in b then r else r + [a[|a| - 1]]
  }

  /** `Dedup` keeps the same items and lists each once. */
  lemma {:induction false} DedupSpec<T>(s: seq<T>)
    ensures forall x :: x in Dedup(s) <==> x in s
    ensures Distinct(Dedup(s))
  {
    if s != [] {
      var init := s[..|s| - 1];
      DedupSpec(init);
      assert s == init + [s[|s| - 1]];
    }
  }

  /** A list whose items are already distinct is its own `Dedup`. */
  lemma {:induction false} DedupOfDistinct<T>(s: seq<T>)
    requires Distinct(s)
    ensures Dedup(s) == s
  {
    if s != [] {
      var init := s[..|s| - 1];
      DedupOfDistinct(init);
      assert s == init + [s[|s| - 1]];
    }
  }

  /** What `a` contributes comes first and is not disturbed by what follows. */
  lemma {:induction false} DedupPrefix<T>(a: seq<T>, b: seq<T>)
    ensures |Dedup(a)| <= |Dedup(a + b)| && Dedup(a + b)[..|Dedup(a)|] == Dedup(a)
  {
    if b == [] {
      assert a + b == a;
    } else {
      var init := b[..|b| - 1];
      DedupPrefix(a, init);
      assert (a + b)[..|a + b| - 1] == a + init;
    }
  }

  /** Items already present add nothing. */
  lemma {:induction false} DedupAbsorbs<T>(a: seq<T>, c: seq<T>)
    requires Distinct(a)
    requires forall x :: x in c ==> x in a
    ensures Dedup(a + c) == a
  {
    if c == [] {
      assert a + c == a;
      DedupOfDistinct(a);
    } else {
      var init := c[..|c| - 1];
      DedupAbsorbs(a, init);
      assert (a + c)[..|a + c| - 1] == a + init;
    }
  }

  /**
   * The union holds exactly the items of both lists, each once; when the first
   * list is already duplicate-free it is kept, unchanged, at the front.
   */
  lemma UnionSpec<T>(a: seq<T>, b: seq<T>)
    ensures forall x :: x in Union(a, b) <==> x in a || x in b
    ensures Distinct(Union(a, b))
    ensures Distinct(a) ==> |a| <= |Union(a, b)| && Union(a, b)[..|a|] == a
  {
    DedupSpec(a + b);
    if Distinct(a) {
      DedupPrefix(a, b);
      DedupOfDistinct(a);
    }
  }

  /** Adding the same items a second time changes nothing. */
  lemma UnionIdempotent<T>(a: seq<T>, b: seq<T>)
    ensures Union(Union(a, b), b) == Union(a, b)
  {
    UnionSpec(a, b);
    DedupAbsorbs(Union(a, b), b);
  }

  /**
   * The difference holds exactly the items of `a` not in `b`, each as many
   * times as in `a`.
   */
  lemma {:induction false} DifferenceSpec<T>(a: seq<T>, b: seq<T>)
    ensures forall x :: x in Difference(a, b) <==> x in a && x !in b
    ensures forall x | x !in b :: multiset(Difference(a, b))[x] == multiset(a)[x]
  {
    if a != [] {
      var init := a[..|a| - 1];
      DifferenceSpec(init, b);
      assert a == init + [a[|a| - 1]];
    }
  }

  /** Removal works item by item: it distributes over concatenation, so the order of what stays is kept. */
  lemma {:induction false} DifferenceAppend<T>(a1: seq<T>, a2: seq<T>, b: seq<T>)
    ensures Difference(a1 + a2, b) == Difference(a1, b) + Difference(a2, b)
  {
    if a2 == [] {
      assert a1 + a2 == a1;
    } else {
      var init := a2[..|a2| - 1];
      DifferenceAppend(a1, init, b);
      assert (a1 + a2)[..|a1 + a2| - 1] == a1 + init;
    }
  }

  /** Removing nothing keeps the list as it is. */
  lemma {:induction false} DifferenceNothing<T>(a: seq<T>)
    ensures Difference(a, []) == a
  {
    if a != [] {
      DifferenceNothing(a[..|a| - 1]);
    }
  }
}
