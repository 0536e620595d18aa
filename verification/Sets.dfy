/** Picking from a set of numbers. */
module Sets {
  lemma SomeMember(s: set<int>)
    requires s != {}
    ensures exists x :: x in s
  {
    if forall x: int :: x !in s {
      assert false;
    }
  }

  lemma SameMembers(a: set<int>, b: set<int>)
    requires forall x :: x in a <==> x in b
    ensures a == b
  {
    assert forall x :: x in a ==> x in b;
    assert forall x :: x in b ==> x in a;
  }
}
