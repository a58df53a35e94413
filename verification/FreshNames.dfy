/** There is always a name that is not in use. */
module FreshNames {
  lemma {:induction false} Fresh(names: set<nat>) returns (n: nat)
    ensures forall m <- names :: m < n
    decreases names
  {
    if names == {} {
      n := 0;
    } else {
      var m :| m in names;
      var rest := Fresh(names - {m});
      n := if m < rest then rest else m + 1;
      assert forall k <- names :: k == m || k in names - {m};
    }
  }
}
