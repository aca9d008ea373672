/**
 * Iteration over a hash map or hash set visits every element once, in an order the
 * program does not control. An enumeration is such a visiting order.
 */
module Enumerations {

  predicate Distinct<T(==)>(order: seq<T>) {
    forall i, j :: 0 <= i < j < |order| ==> order[i] != order[j]
  }

  /** `order` visits every element of `s` exactly once and nothing else. */
  predicate IsEnumeration<T(==)>(order: seq<T>, s: set<T>) {
    Distinct(order) && (forall i :: 0 <= i < |order| ==> order[i] in s) && (forall x :: x in s ==> x in order)
  }

  lemma {:induction false} DistinctCardinality<T>(order: seq<T>)
    requires Distinct(order)
    ensures |set i | 0 <= i < |order| :: order[i]| == |order|
  {
    if |order| > 0 {
      var last := order[|order| - 1];
      var init := order[..|order| - 1];
      DistinctCardinality(init);
      var all := set i | 0 <= i < |order| :: order[i];
      var front := set i | 0 <= i < |init| :: init[i];
      assert all == front + {last} by {
        forall x | x in all ensures x in front + {last} {
          var i :| 0 <= i < |order| && order[i] == x;
          if i < |init| { assert init[i] == x; }
        }
        forall x | x in front + {last} ensures x in all {
          if x in front {
            var i :| 0 <= i < |init| && init[i] == x;
            assert order[i] == x;
          } else {
            assert order[|order| - 1] == x;
          }
        }
      }
      assert last !in front by {
        forall i | 0 <= i < |init| ensures init[i] != last {
          assert init[i] == order[i];
        }
      }
    }
  }

  /** An enumeration has exactly as many entries as the set has elements. */
  lemma EnumerationLength<T>(order: seq<T>, s: set<T>)
    requires IsEnumeration(order, s)
    ensures |order| == |s|
  {
    DistinctCardinality(order);
    var elems := set i | 0 <= i < |order| :: order[i];
    assert elems == s by {
      forall x | x in s ensures x in elems {
        var i :| 0 <= i < |order| && order[i] == x;
      }
    }
  }

  /** Every finite set can be enumerated. */
  lemma {:induction false} EnumerationExists<T>(s: set<T>)
    ensures exists order :: IsEnumeration(order, s)
    decreases |s|
  {
    if s == {} {
      assert IsEnumeration([], s);
    } else {
      var x :| x in s;
      EnumerationExists(s - {x});
      var rest :| IsEnumeration(rest, s - {x});
      var order := [x] + rest;
      assert IsEnumeration(order, s) by {
        forall y | y in s ensures y in order {
          if y != x {
            assert y in rest;
            var i :| 0 <= i < |rest| && rest[i] == y;
            assert order[i + 1] == y;
          }
        }
        forall i | 0 <= i < |order| ensures order[i] in s {
          if i > 0 { assert order[i] == rest[i - 1]; }
        }
      }
    }
  }
}
