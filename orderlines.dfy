/**
 * ORDER_LIST, the junction table between ORDERS and ITEMS, kept as a sequence
 * of rows in rowid order, and the facts about it that the order handlers need.
 */
module OrderLines {
  import opened Schema
  import opened RowIds

  /** The rowids in use in ORDER_LIST. */
  function LineIds(ls: seq<Line>): set<int>
  {
    set l | l in ls :: l.lineId
  }

  /** Rows are stored in rowid order; in particular no rowid occurs twice. */
  ghost predicate IncreasingIds(ls: seq<Line>)
  {
    forall i, j :: 0 <= i < j < |ls| ==> ls[i].lineId < ls[j].lineId
  }

  /** The item ids that order `o`'s lines refer to, in rowid order, duplicates kept. */
  function ItemsOf(ls: seq<Line>, o: int): (r: seq<int>)
    ensures |r| <= |ls|
    ensures forall x :: x in r <==> exists l :: l in ls && l.orderId == o && l.itemId == x
  {
    if ls == [] then []
    else
      var init, l := ls[..|ls| - 1], ls[|ls| - 1];
      assert ls == init + [l];
      if l.orderId == o then ItemsOf(init, o) + [l.itemId] else ItemsOf(init, o)
  }

  /** Appending one row extends the item list of its own order and of no other. */
  lemma ItemsOfSnoc(ls: seq<Line>, l: Line)
    ensures forall p :: ItemsOf(ls + [l], p) == ItemsOf(ls, p) + (if l.orderId == p then [l.itemId] else [])
  {
    assert (ls + [l])[..|ls|] == ls;
  }

  /** An order that no row points at has no items. */
  lemma ItemsOfAbsent(ls: seq<Line>, o: int)
    requires forall l :: l in ls ==> l.orderId != o
    ensures ItemsOf(ls, o) == []
  {
  }

  lemma LineIdsSnoc(ls: seq<Line>, l: Line)
    ensures LineIds(ls + [l]) == LineIds(ls) + {l.lineId}
  {
    forall x | x in LineIds(ls + [l]) ensures x in LineIds(ls) + {l.lineId} {
      var m :| m in ls + [l] && m.lineId == x;
      if m != l {
        assert m in ls;
      }
    }
    forall x | x in LineIds(ls) ensures x in LineIds(ls + [l]) {
      var m :| m in ls && m.lineId == x;
      assert m in ls + [l];
    }
  }

  /**
   * DELETE FROM ORDER_LIST WHERE order_id = o, which is also what the cascade on
   * ORDERS deletion does: the remaining rows in their original order.
   */
  function LinesWithout(ls: seq<Line>, o: int): (r: seq<Line>)
    ensures forall l :: l in r <==> l in ls && l.orderId != o
  {
    if ls == [] then []
    else
      var init, l := ls[..|ls| - 1], ls[|ls| - 1];
      assert ls == init + [l];
      if l.orderId == o then LinesWithout(init, o) else LinesWithout(init, o) + [l]
  }

  /** Deleting rows keeps the survivors in rowid order. */
  lemma {:induction false} LinesWithoutOrdered(ls: seq<Line>, o: int)
    requires IncreasingIds(ls)
    ensures IncreasingIds(LinesWithout(ls, o))
  {
    if ls != [] {
      var init, l := ls[..|ls| - 1], ls[|ls| - 1];
      assert ls == init + [l];
      LinesWithoutOrdered(init, o);
      var rest := LinesWithout(init, o);
      forall m | m in rest ensures m.lineId < l.lineId {
        assert m in init;
        var i :| 0 <= i < |init| && init[i] == m;
        assert ls[i] == m && ls[|ls| - 1] == l;
      }
      if l.orderId != o {
        SnocOrdered(rest, l);
      }
    }
  }

  /** After the delete, order `o` has no items and every other order keeps its item list. */
  lemma {:induction false} ItemsOfLinesWithout(ls: seq<Line>, o: int)
    ensures ItemsOf(LinesWithout(ls, o), o) == []
    ensures forall p :: p != o ==> ItemsOf(LinesWithout(ls, o), p) == ItemsOf(ls, p)
  {
    if ls != [] {
      var init, l := ls[..|ls| - 1], ls[|ls| - 1];
      assert ls == init + [l];
      ItemsOfLinesWithout(init, o);
      ItemsOfSnoc(init, l);
      ItemsOfSnoc(LinesWithout(init, o), l);
    }
  }

  /** A row above every rowid present can go at the end. */
  lemma SnocOrdered(ls: seq<Line>, l: Line)
    requires IncreasingIds(ls)
    requires forall m :: m in ls ==> m.lineId < l.lineId
    ensures IncreasingIds(ls + [l])
  {
    forall i, j | 0 <= i < j < |ls + [l]| ensures (ls + [l])[i].lineId < (ls + [l])[j].lineId {
      if j == |ls| {
        assert ls[i] in ls;
      }
    }
  }

  /** Appending a row under the next rowid keeps rowid order and moves the next rowid on by one. */
  lemma AppendNextLine(ls: seq<Line>, l: Line)
    requires IncreasingIds(ls)
    requires l.lineId == NextRowId(LineIds(ls))
    ensures IncreasingIds(ls + [l])
    ensures NextRowId(LineIds(ls + [l])) == l.lineId + 1
  {
    assert forall k :: 0 <= k < |ls| ==> ls[k].lineId in LineIds(ls);
    LineIdsSnoc(ls, l);
    NextRowIdAfterInsert(LineIds(ls), l.lineId);
  }

  /**
   * The rows that inserting the first `n` entries of `ids` one at a time for order `o`
   * produces, from rowid `first` on.
   */
  function LinesFor(first: int, o: int, ids: seq<int>, n: nat): (r: seq<Line>)
    requires n <= |ids|
    ensures |r| == n
  {
    if n == 0 then [] else LinesFor(first, o, ids, n - 1) + [Line(first + n - 1, o, ids[n - 1])]
  }

  /** Row `k` of the appended rows carries rowid `first + k` and the `k`-th item id. */
  lemma {:induction false} LinesForAt(first: int, o: int, ids: seq<int>, n: nat, k: nat)
    requires k < n <= |ids|
    ensures LinesFor(first, o, ids, n)[k] == Line(first + k, o, ids[k])
  {
    if k < n - 1 {
      LinesForAt(first, o, ids, n - 1, k);
    }
  }

  /** Every line of an order's appended rows, and of the rows before them, has an existing order. */
  lemma {:induction false} LinesForOwned(base: seq<Line>, keys: set<int>, first: int, o: int, ids: seq<int>, n: nat)
    requires n <= |ids|
    requires o in keys
    requires forall l :: l in base ==> l.orderId in keys
    ensures forall l :: l in base + LinesFor(first, o, ids, n) ==> l.orderId in keys
  {
    if n > 0 {
      LinesForOwned(base, keys, first, o, ids, n - 1);
      assert base + LinesFor(first, o, ids, n) == (base + LinesFor(first, o, ids, n - 1)) + [Line(first + n - 1, o, ids[n - 1])];
    }
  }

  /**
   * Rows inserted one at a time under SQLite's next rowid keep the table in rowid
   * order, and take the rowids `first`, `first + 1`, ... in turn.
   */
  lemma {:induction false} LinesForOrdered(base: seq<Line>, first: int, o: int, ids: seq<int>, n: nat)
    requires n <= |ids|
    requires IncreasingIds(base) && first == NextRowId(LineIds(base))
    ensures IncreasingIds(base + LinesFor(first, o, ids, n))
    ensures NextRowId(LineIds(base + LinesFor(first, o, ids, n))) == first + n
  {
    if n == 0 {
      assert base + LinesFor(first, o, ids, n) == base;
    } else {
      LinesForOrdered(base, first, o, ids, n - 1);
      var acc := base + LinesFor(first, o, ids, n - 1);
      assert base + LinesFor(first, o, ids, n) == acc + [Line(first + n - 1, o, ids[n - 1])];
      AppendNextLine(acc, Line(first + n - 1, o, ids[n - 1]));
    }
  }

  /**
   * Appending an order's rows gives that order exactly those item ids after its
   * old ones, and leaves every other order's item list as it was.
   */
  lemma {:induction false} ItemsOfLinesFor(ls: seq<Line>, first: int, o: int, ids: seq<int>, n: nat)
    requires n <= |ids|
    ensures ItemsOf(ls + LinesFor(first, o, ids, n), o) == ItemsOf(ls, o) + ids[..n]
    ensures forall p :: p != o ==> ItemsOf(ls + LinesFor(first, o, ids, n), p) == ItemsOf(ls, p)
  {
    if n == 0 {
      assert ls + LinesFor(first, o, ids, n) == ls;
    } else {
      var l := Line(first + n - 1, o, ids[n - 1]);
      assert ls + LinesFor(first, o, ids, n) == (ls + LinesFor(first, o, ids, n - 1)) + [l];
      ItemsOfLinesFor(ls, first, o, ids, n - 1);
      ItemsOfSnoc(ls + LinesFor(first, o, ids, n - 1), l);
      assert ids[..n] == ids[..n - 1] + [ids[n - 1]];
    }
  }

  /** The ITEMS rows whose id some line of order `o` names: `item_id IN (SELECT ...)`. */
  function ReferencedItems(its: map<int, ItemRow>, ls: seq<Line>, o: int): map<int, ItemRow>
  {
    var wanted := set x | x in ItemsOf(ls, o);
    map k | k in its && k in wanted :: its[k]
  }

  /** When every item id of the order exists, the order shows exactly those items. */
  lemma ReferencedItemsOf(its: map<int, ItemRow>, ls: seq<Line>, o: int, ids: seq<int>)
    requires ItemsOf(ls, o) == ids
    requires forall k :: k in ids ==> k in its
    ensures ReferencedItems(its, ls, o) == map k | k in ids :: its[k]
  {
  }
}
