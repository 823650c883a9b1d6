/**
 `order by <column>, <id>`: the order in which the source walks the rows of a
 query before it settles them one by one.
 */
module RowOrder {

  predicate Before(column: map<nat, int>, a: nat, b: nat)
    requires a in column && b in column
  {
    column[a] < column[b] || (column[a] == column[b] && a < b)
  }

  predicate IsFirst(column: map<nat, int>, ids: set<nat>, e: nat)
    requires ids <= column.Keys
  {
    e in ids && forall o :: o in ids && o != e ==> Before(column, e, o)
  }

  lemma {:induction false} FirstExists(column: map<nat, int>, ids: set<nat>)
    requires ids <= column.Keys && ids != {}
    ensures exists e :: IsFirst(column, ids, e)
    decreases ids
  {
    var a :| a in ids;
    if ids == {a} {
      assert IsFirst(column, ids, a);
    } else {
      FirstExists(column, ids - {a});
      var b :| IsFirst(column, ids - {a}, b);
      if Before(column, a, b) {
        forall o | o in ids && o != a ensures Before(column, a, o) {
          assert o in ids - {a};
        }
        assert IsFirst(column, ids, a);
      } else {
        assert IsFirst(column, ids, b);
      }
    }
  }

  /** The given rows, sorted by the column and then by id. */
  function Ordered(column: map<nat, int>, ids: set<nat>): (rows: seq<nat>)
    requires ids <= column.Keys
    ensures forall e :: e in rows <==> e in ids
    ensures forall i, j :: 0 <= i < j < |rows| ==> Before(column, rows[i], rows[j])
    decreases ids
  {
    if ids == {} then []
    else
      FirstExists(column, ids);
      var e :| IsFirst(column, ids, e);
      [e] + Ordered(column, ids - {e})
  }
}
