/** The canonical order in which a set of units or rows is locked. */
module Sorting {

  /** An id is the rank of a uuid in byte order, so `<` on ids is the canonical lock order. */
  type Id = nat

  ghost predicate StrictlySorted(s: seq<Id>) {
    forall i, j :: 0 <= i < j < |s| ==> s[i] < s[j]
  }

  ghost predicate NoRepeats<T>(s: seq<T>) {
    forall i, j :: 0 <= i < j < |s| ==> s[i] != s[j]
  }

  function Elements(s: seq<Id>): set<Id> {
    set x | x in s
  }

  lemma {:induction false} MinExists(s: set<Id>)
    requires s != {}
    ensures exists m :: m in s && forall x :: x in s ==> m <= x
  {
    var m :| m in s;
    var smaller := s - {m};
    if smaller == {} {
      assert forall x :: x in s ==> x == m || x in smaller;
    } else {
      MinExists(smaller);
      var n :| n in smaller && forall x :: x in smaller ==> n <= x;
      var least := if m < n then m else n;
      assert forall x :: x in s ==> x == m || x in smaller;
      assert least in s && forall x :: x in s ==> least <= x;
    }
  }

  lemma PrependLeast(m: Id, s: set<Id>, rest: seq<Id>)
    requires m in s && forall x :: x in s ==> m <= x
    requires StrictlySorted(rest) && Elements(rest) == s - {m}
    requires |rest| == |s - {m}|
    ensures StrictlySorted([m] + rest) && Elements([m] + rest) == s && |[m] + rest| == |s|
  {
    forall k | 0 <= k < |rest| ensures m < rest[k] {
      assert rest[k] in Elements(rest);
    }
    forall x ensures x in Elements([m] + rest) <==> x in s {
      assert x in rest <==> x in Elements(rest);
    }
  }

  /** The elements of a set in increasing order, each once. */
  function InOrder(s: set<Id>): (q: seq<Id>)
    ensures StrictlySorted(q) && Elements(q) == s && |q| == |s|
  {
    if s == {} then [] else
      MinExists(s);
      var m :| m in s && forall x :: x in s ==> m <= x;
      var rest := InOrder(s - {m});
      PrependLeast(m, s, rest);
      [m] + rest
  }

  /** An id not issued before. */
  function FreshId(issued: set<Id>): (r: Id)
    ensures r !in issued
  {
    var ids := InOrder(issued);
    if ids == [] then 0 else
    assert forall x :: x in issued ==> x in Elements(ids);
    ids[|ids| - 1] + 1
  }
}
