/** Small shared datatypes and facts about finite sets. */
module Util {

  datatype Option<+T> = None | Some(value: T)

  datatype Result<+T, +E> = Ok(value: T) | Err(error: E)

  ghost predicate IsLeast(s: set<nat>, m: nat) {
    m in s && forall k | k in s :: m <= k
  }

  /** The least element of a non-empty set of ids. */
  function Least(s: set<nat>): (m: nat)
    requires s != {}
    ensures m in s && forall k | k in s :: m <= k
  {
    LeastExists(s);
    var m: nat :| m in s && forall k | k in s :: m <= k;
    m
  }

  lemma LeastExists(s: set<nat>)
    requires s != {}
    ensures exists m: nat :: IsLeast(s, m)
    decreases |s|
  {
    var x :| x in s;
    var rest := s - {x};
    if rest == {} {
      assert s == {x} && IsLeast(s, x);
    } else {
      LeastExists(rest);
      var m: nat :| IsLeast(rest, m);
      assert forall k | k in s :: k == x || k in rest;
      assert IsLeast(s, if x <= m then x else m);
    }
  }
}
