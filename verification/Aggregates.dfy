/** Greatest and least elements of finite sets of integers: SQL's MAX and MIN. */
module Aggregates {

  datatype Option<+T> = None | Some(value: T)

  lemma Member(s: set<int>)
    requires s != {}
    ensures exists x :: x in s
  {
    if forall x :: x !in s { assert false; }
  }

  lemma {:induction false} MaxExists(s: set<int>)
    requires s != {}
    ensures exists m :: m in s && forall x :: x in s ==> x <= m
  {
    Member(s);
    var x :| x in s;
    if s != {x} {
      MaxExists(s - {x});
      var m :| m in s - {x} && forall y :: y in s - {x} ==> y <= m;
      assert forall y :: y in s ==> y == x || y in s - {x};
      assert (if x <= m then m else x) in s;
    }
  }

  /** SQL's MAX: null (None) on no rows. */
  function MaxOf(s: set<int>): (m: Option<int>)
    ensures m.None? <==> s == {}
    ensures m.Some? ==> m.value in s && forall x :: x in s ==> x <= m.value
  {
    if s == {} then None else
    MaxExists(s);
    var m :| m in s && forall x :: x in s ==> x <= m;
    Some(m)
  }

  /** The least element, None if there is none: SQL's MIN. */
  function MinOf(s: set<int>): (m: Option<int>)
    ensures m.None? <==> s == {}
    ensures m.Some? ==> m.value in s && forall x :: x in s ==> m.value <= x
  {
    var negated := set x | x in s :: -x;
    assert forall x :: x in s ==> -x in negated;
    var n := MaxOf(negated);
    if n.None? then None else Some(-n.value)
  }
}
