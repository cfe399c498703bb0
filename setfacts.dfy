/** Facts about finite sets that the model's proofs use. */
module SetFacts {
  /** A set is empty or has an element to pick. */
  lemma Inhabited<T>(s: set<T>)
    ensures s == {} || exists x :: x in s
  {
    if forall x :: x !in s {
      assert s == {};
    }
  }

  /** `Inhabited` for a set of node ids: stated at type `int` so that a
      caller's `:|` over the set finds the witness. */
  lemma IntsInhabited(s: set<int>)
    ensures s == {} || exists x :: x in s
  {
    if forall x :: x !in s {
      assert s == {};
    }
  }

  /** `Inhabited` for a set of edges. */
  lemma PairsInhabited(s: set<(int, int)>)
    ensures s == {} || exists x :: x in s
  {
    if forall x :: x !in s {
      assert s == {};
    }
  }

  /** Adding to the empty set gives what was added. */
  lemma EmptyUnion<T>(a: set<T>)
    ensures {} + a == a
  {
  }

  /** A subset is no larger than its superset. */
  lemma {:induction false} SubsetCard<T>(a: set<T>, b: set<T>)
    requires a <= b
    ensures |a| <= |b|
    decreases b
  {
    Inhabited(a);
    if a != {} {
      var x :| x in a;
      SubsetCard(a - {x}, b - {x});
    }
  }
}
