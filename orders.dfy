/** Visiting the elements of a finite set one at a time, in an order the
    program does not choose: the keys of a `HashMap` as its iterator yields
    them. */
module Orders {
  /** A non-empty set has a member to pick. */
  lemma NonEmptyHasMember<T>(s: set<T>)
    requires s != {}
    ensures exists x :: x in s
  {
    if forall x :: x !in s {
      assert false;
    }
  }

  /** Some order of the elements of a finite set, each once. */
  ghost function SomeOrder<T>(s: set<T>): (o: seq<T>)
    ensures multiset(o) == multiset(s)
    decreases |s|
  {
    if s == {} then []
    else
      NonEmptyHasMember(s);
      var x :| x in s;
      assert multiset(s) == multiset(s - {x}) + multiset{x};
      SomeOrder(s - {x}) + [x]
  }

  /** A subset is no larger than its superset. */
  lemma SubsetSize<T>(a: set<T>, b: set<T>)
    requires a <= b
    ensures |a| <= |b|
  {
    assert b == a + (b - a) && a * (b - a) == {};
  }

  /** Moving one element from the unvisited ones to the visit order. */
  lemma VisitOne<T>(keys: set<T>, remaining: set<T>, order: seq<T>, t: T)
    requires t in remaining && remaining <= keys
    requires multiset(order) == multiset(keys - remaining)
    ensures multiset(order + [t]) == multiset(keys - (remaining - {t}))
  {
    assert keys - (remaining - {t}) == (keys - remaining) + {t};
  }
}
