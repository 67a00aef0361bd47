/** Row ids (uuids in the database) with their total order, and `ORDER BY id`. */
module Ids {

  datatype Id = Id(n: nat)

  predicate IsLeast(ids: set<Id>, m: Id) {
    m in ids && forall x | x in ids :: m.n <= x.n
  }

  lemma {:induction false} LeastExists(ids: set<Id>, start: Id)
    requires start in ids
    ensures exists m :: IsLeast(ids, m)
    decreases ids
  {
    if y :| y in ids && y.n < start.n {
      LeastExists(ids - {start}, y);
      var m :| IsLeast(ids - {start}, m);
      forall x | x in ids ensures m.n <= x.n {
        assert x == start || x in ids - {start};
      }
      assert IsLeast(ids, m);
    } else {
      assert IsLeast(ids, start);
    }
  }

  function Least(ids: set<Id>): (m: Id)
    requires ids != {}
    ensures IsLeast(ids, m)
  {
    assert exists x :: IsLeast(ids, x) by {
      var start :| start in ids;
      LeastExists(ids, start);
    }
    var m :| IsLeast(ids, m);
    m
  }

  /** `ORDER BY id`. */
  predicate IsOrdered(order: seq<Id>) {
    forall i, j | 0 <= i < j < |order| :: order[i].n < order[j].n
  }

  lemma LeastGoesFirst(first: Id, rest: seq<Id>)
    requires IsOrdered(rest) && forall x | x in rest :: first.n < x.n
    ensures IsOrdered([first] + rest)
  {
  }

  function OrderById(ids: set<Id>): (order: seq<Id>)
    ensures forall x :: x in order <==> x in ids
    ensures IsOrdered(order)
    ensures |order| == |ids|
  {
    if ids == {} then []
    else
      var first := Least(ids);
      var rest := OrderById(ids - {first});
      LeastGoesFirst(first, rest);
      [first] + rest
  }
}
