/** The option type that the components share. */
module Wrappers {
  datatype Option<+T> = None | Some(value: T)
}

/** Sizes of finite sets. */
module FiniteSets {

  /** A set of numbers below `n` has at most `n` members. */
  lemma {:induction false} SizeBelow(s: set<nat>, n: nat)
    requires forall p :: p in s ==> p < n
    ensures |s| <= n
  {
    if n > 0 {
      SizeBelow(s - {n - 1}, n - 1);
      if n - 1 in s {
        assert s == (s - {n - 1}) + {n - 1};
      } else {
        assert s == s - {n - 1};
      }
    } else {
      assert s == {};
    }
  }
}
