/** Facts about finite sets that the loops over dictionary keys rely on. */
module Sets {

  /** A non-empty set has a member, so a loop over its elements may pick one. */
  lemma Member<T>(s: set<T>) returns (x: T)
    requires s != {}
    ensures x in s
  {
    if forall y :: y !in s {
      assert false;
    }
    x :| x in s;
  }
}
