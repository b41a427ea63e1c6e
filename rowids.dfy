/**
 * Rowid allocation for an INTEGER PRIMARY KEY column in SQLite: a new row gets
 * one more than the largest key in the table, or 1 when the table is empty.
 */
module RowIds {

  lemma {:induction false} HasMaximum(s: set<int>)
    requires s != {}
    ensures exists m :: m in s && forall k :: k in s ==> k <= m
  {
    assert (forall y :: y !in s) ==> s == {};
    var x :| x in s;
    if s == {x} {
      assert forall k :: k in s ==> k <= x;
    } else {
      HasMaximum(s - {x});
      var m :| m in s - {x} && forall k :: k in s - {x} ==> k <= m;
      var top := if x < m then m else x;
      forall k | k in s ensures k <= top {
        if k != x {
          assert k in s - {x};
        }
      }
      assert top in s;
    }
  }

  /** The largest element of a non-empty set of keys. */
  function Maximum(s: set<int>): (m: int)
    requires s != {}
    ensures m in s
    ensures forall k :: k in s ==> k <= m
  {
    HasMaximum(s);
    var m :| m in s && forall k :: k in s ==> k <= m;
    m
  }

  /** The key SQLite gives the next row inserted into a table whose keys are `keys`. */
  function NextRowId(keys: set<int>): (r: int)
    ensures r !in keys
    ensures forall k :: k in keys ==> k < r
    ensures keys == {} ==> r == 1
    ensures keys != {} ==> r - 1 in keys
  {
    if keys == {} then 1 else Maximum(keys) + 1
  }

  /** Inserting a key above every existing one makes the next key its successor. */
  lemma NextRowIdAfterInsert(keys: set<int>, x: int)
    requires forall k :: k in keys ==> k < x
    ensures NextRowId(keys + {x}) == x + 1
  {
    var r := NextRowId(keys + {x});
    assert r - 1 in keys + {x};
  }
}
