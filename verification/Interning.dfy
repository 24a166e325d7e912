/**
 The tables of stops, routes, headsigns and services that the bundle refers into by position. What the files mean
 rests on two facts: a position, once given out, keeps its name, and no name has two positions.
 */
module Interning {
  import opened Util

  ghost predicate Distinct(values: seq<Id>) {
    forall i, j :: 0 <= i < j < |values| ==> values[i] != values[j]
  }

  function Interned(values: seq<Id>, s: Id): seq<Id> {
    if s in values then values else values + [s]
  }

  /** All of `ids`, each at its first place. */
  function InternedAll(ids: seq<Id>, n: nat): seq<Id>
    requires n <= |ids|
  {
    if n == 0 then [] else Interned(InternedAll(ids, n - 1), ids[n - 1])
  }

  lemma {:induction false} InternedAllHas(ids: seq<Id>, n: nat)
    requires n <= |ids|
    ensures Distinct(InternedAll(ids, n))
    ensures forall s :: s in InternedAll(ids, n) <==> exists i :: 0 <= i < n && ids[i] == s
  {
    if n > 0 {
      InternedAllHas(ids, n - 1);
    }
  }

  class Interner {
    var values: seq<Id>
    var index: map<Id, nat>

    ghost predicate Valid()
      reads this
    {
      && (forall i :: 0 <= i < |values| ==> values[i] in index && index[values[i]] == i)
      && (forall s :: s in index ==> index[s] < |values| && values[index[s]] == s)
    }

    constructor ()
      ensures Valid() && values == []
    {
      values, index := [], map[];
    }

    method Intern(s: Id) returns (i: nat)
      requires Valid()
      modifies this
      ensures Valid() && values == Interned(old(values), s)
      ensures i < |values| && values[i] == s && Distinct(values)
    {
      if s in index {
        i := index[s];
      } else {
        i := |values|;
        index := index[s := i];
        values := values + [s];
      }
      Injective();
    }

    function Find(s: Id): (r: Option<nat>)
      requires Valid()
      reads this
      ensures r.Some? <==> s in values
      ensures r.Some? ==> r.value < |values| && values[r.value] == s
    {
      Get(index, s)
    }

    lemma Injective()
      requires Valid()
      ensures Distinct(values)
    {}
  }
}
