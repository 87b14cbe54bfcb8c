// Transactions: the transaction list of internal/repository/db/transaction.go. It shares the query
// and the boundary flags with the token list but keeps the row read ahead on any boundary and then
// cuts an overlong list at its end.
module TrxList {
  import opened Common
  import opened Pages
  import opened ErcTrxList

  function LoadedTrx(q: seq<Row>, cursor: Option<nat>, count: int): Page<Row> {
    var n := if q == [] then 0 else |q| - 1;
    var isEnd, isStart := AtEnd(n, cursor, count), AtStart(n, cursor, count);
    Page(if isStart || isEnd then q else q[..n], isStart, isEnd)
  }

  // Reversal for a negative count, then the cut. None stands for the panic of cutting an empty list.
  function Finished(p: Page<Row>, count: int): Option<Page<Row>> {
    var rows := if count < 0 then Reversed(p.rows) else p.rows;
    var limit := if count < 0 then Negated(count) else count;
    if |rows| <= limit then Some(p.(rows := rows))
    else if rows == [] then None
    else Some(p.(rows := rows[..|rows| - 1]))
  }

  function TrxPage(rows: seq<Row>, cursor: Option<nat>, count: int): Option<Page<Row>> {
    if rows == [] then Some(Page([], true, true))
    else
      var q := QueryFor(rows, cursor, count, Border(rows, cursor, count));
      Finished(LoadedTrx(q, cursor, count), count)
  }

  // txListLoad on the list object.
  method Load(q: seq<Row>, cursor: Option<nat>, count: int, list: RowList<Row>)
    requires count != 0 && list.collection == []
    modifies list
    ensures list.View() == LoadedTrx(q, cursor, count)
  {
    var trx := ReadRows(q, list);
    list.isEnd := AtEnd(|list.collection|, cursor, count);
    list.isStart := AtStart(|list.collection|, cursor, count);
    if (list.isStart || list.isEnd) && trx.Some? {
      list.collection := list.collection + [trx.value];
    }
  }

  // The tail of Transactions; false stands for the panic.
  method Finish(count: int, list: RowList<Row>) returns (ok: bool)
    modifies list
    ensures ok == Finished(old(list.View()), count).Some?
    ensures ok ==> Some(list.View()) == Finished(old(list.View()), count)
  {
    var limit := count;
    if count < 0 {
      list.Reverse();
      limit := Negated(count);
    }
    if |list.collection| > limit {
      if list.collection == [] {
        return false;
      }
      list.collection := list.collection[..|list.collection| - 1];
    }
    return true;
  }

  // The whole request; the collection is seen as in ErcTrxList. A null list is an error.
  method Transactions(db: ErcTrxDb, cursor: Option<nat>, count: int)
    returns (list: RowList?<Row>, panicked: bool)
    ensures list == null && !panicked <==>
              count == 0 || (db.rows != [] && cursor.Some? && cursor.value !in db.ordinals)
    ensures list != null ==> fresh(list) && !panicked
    ensures list != null || panicked ==>
              TrxPage(db.rows, db.Ordinal(cursor), count) == if panicked then None else Some(list.View())
  {
    panicked := false;
    if count == 0 {
      return null, false;
    }
    list := db.ListInit(cursor, count);
    if list == null || |db.rows| == 0 {
      return;
    }
    var q := QueryFor(db.rows, db.Ordinal(cursor), count, list.first);
    Load(q, db.Ordinal(cursor), count, list);
    var ok := Finish(count, list);
    if !ok {
      return null, true;
    }
  }

  // Reading up from the bottom without a cursor, with more rows than asked for.
  predicate Overshoots(rows: seq<Row>, cursor: Option<nat>, count: int) {
    cursor.None? && count < 0 && |rows| > Abs(count)
  }

  // The page is the wanted one except when it overshoots, and for the smallest 32-bit count.
  lemma TrxPageExactly(rows: seq<Row>, cursor: Option<nat>, count: int)
    requires NewestFirst(rows) && DistinctOrdinals(rows)
    requires ListedCursor(rows, cursor) && IsInt32(count) && count != 0
    ensures TrxPage(rows, cursor, count) == Some(Wanted(rows, cursor, count))
       <==> rows == [] || (count != MIN_INT32 && !Overshoots(rows, cursor, count))
  {
    if rows != [] {
      if Overshoots(rows, cursor, count) {
        OvershootShifts(rows, count);
      } else {
        QueryReadsSide(rows, cursor, count);
        SideBounds(rows, cursor, count);
        FinishedSide(Side(rows, cursor, count), cursor, count, |rows|);
      }
    }
  }

  // Without overshooting, only the smallest count spoils the end of a request.
  lemma FinishedSide(side: seq<Row>, cursor: Option<nat>, count: int, total: nat)
    requires IsInt32(count) && count != 0 && (|side| == total <==> cursor.None?)
    requires cursor.None? ==> side != [] && (count < 0 ==> |side| <= -count)
    ensures Finished(LoadedTrx(Reading(side, count), cursor, count), count)
              == Some(WantedOf(side, total, count))
       <==> count != MIN_INT32
  {
    if count > 0 {
      FinishedDown(side, cursor, count);
    } else if count == MIN_INT32 {
      FinishedHuge(side, cursor);
    } else {
      FinishedUp(side, cursor, count);
    }
  }

  lemma FinishedDown(side: seq<Row>, cursor: Option<nat>, count: int)
    requires 0 < count <= MAX_INT32 && (cursor.None? ==> side != [])
    ensures Finished(LoadedTrx(side[..Min(count + 1, |side|)], cursor, count), count)
         == Some(Page(side[..Min(count, |side|)], cursor.None?, Min(count, |side|) == |side|))
  {
    var q := side[..Min(count + 1, |side|)];
    assert |q| > count ==> q[..|q| - 1] == side[..count];
  }

  lemma FinishedUp(side: seq<Row>, cursor: Option<nat>, count: int)
    requires MIN_INT32 < count < 0
    requires cursor.None? ==> side != [] && |side| <= -count
    ensures var n := Min(-count, |side|);
      Finished(LoadedTrx(Reversed(side)[..Min(-count + 1, |side|)], cursor, count), count)
      == Some(Page(side[|side| - n..], n == |side|, cursor.None?))
  {
    var q := Reversed(side)[..Min(-count + 1, |side|)];
    var p, n := LoadedTrx(q, cursor, count), Min(-count, |side|);
    assert p.rows == Reversed(side)[..n];
    assert Reversed(p.rows) == side[|side| - n..];
  }

  // With the smallest count every list loses its last row, and an empty one panics.
  lemma FinishedHuge(side: seq<Row>, cursor: Option<nat>)
    requires cursor.None? ==> side != []
    ensures var r := Finished(LoadedTrx(Reversed(side)[..Min(HUGE + 1, |side|)], cursor, MIN_INT32), MIN_INT32);
      r.None? || |r.value.rows| < Min(HUGE, |side|) || (cursor.None? && |side| > HUGE)
  {
  }

  lemma FinishedOvershoot(q: seq<Row>, count: int)
    requires MIN_INT32 <= count < 0 && |q| == -count + 1
    ensures Finished(LoadedTrx(q, None, count), count).Some?
    ensures Finished(LoadedTrx(q, None, count), count).value.rows == Reversed(q)[..|q| - 1]
  {
  }

  lemma WindowBeforeLast(rows: seq<Row>, n: nat)
    requires DistinctOrdinals(rows) && 0 < n < |rows|
    ensures Reversed(Reversed(rows)[..n + 1])[..n] == rows[|rows| - n - 1..|rows| - 1]
    ensures rows[|rows| - n - 1..|rows| - 1] != rows[|rows| - n..]
  {
    var k := |rows| - n;
    assert rows[k - 1..|rows| - 1][0] == rows[k - 1] && rows[k..][0] == rows[k];
  }

  lemma BottomQuery(rows: seq<Row>, count: int, n: nat)
    requires NewestFirst(rows) && rows != [] && count < 0 && n == Min(Abs(count) + 1, |rows|)
    ensures TrxPage(rows, None, count) == Finished(LoadedTrx(Reversed(rows)[..n], None, count), count)
  {
    QueryReadsSide(rows, None, count);
    assert QueryFor(rows, None, count, Border(rows, None, count)) == Reversed(Side(rows, None, count))[..n];
  }

  // An overshooting page is shifted by one row: it starts one row too new and lacks the oldest row.
  lemma OvershootShifts(rows: seq<Row>, count: int)
    requires NewestFirst(rows) && DistinctOrdinals(rows) && MIN_INT32 <= count < 0 && |rows| > -count
    ensures TrxPage(rows, None, count).Some?
    ensures TrxPage(rows, None, count).value.rows == rows[|rows| + count - 1..|rows| - 1]
    ensures Wanted(rows, None, count).rows == rows[|rows| + count..]
    ensures TrxPage(rows, None, count).value.rows != Wanted(rows, None, count).rows
  {
    var n := Min(Abs(count) + 1, |rows|);
    BottomQuery(rows, count, n);
    FinishedOvershoot(Reversed(rows)[..n], count);
    WindowBeforeLast(rows, n - 1);
  }

  // Downwards both lists deliver the same pages, so walking the transactions from the top is
  // complete exactly when no page boundary parts a tie, as for token transactions; with the distinct
  // ordinals of transactions it always is.
  lemma TrxWalkDown(rows: seq<Row>, cursor: Option<nat>, count: int)
    requires NewestFirst(rows) && ListedCursor(rows, cursor) && 0 < count <= MAX_INT32 && rows != []
    ensures TrxPage(rows, cursor, count) == Some(ErcPage(rows, cursor, count))
    ensures WalkDown(rows, None, count) == rows <==> PartsNoTieDown(rows, count)
    ensures DistinctOrdinals(rows) ==> WalkDown(rows, None, count) == rows
  {
    SameDown(rows, cursor, count);
    WalkDownExactly(rows, None, count);
    if DistinctOrdinals(rows) {
      DistinctPartsNoTie(rows, count);
    }
  }

  lemma SameDown(rows: seq<Row>, cursor: Option<nat>, count: int)
    requires NewestFirst(rows) && ListedCursor(rows, cursor) && 0 < count <= MAX_INT32 && rows != []
    ensures TrxPage(rows, cursor, count) == Some(ErcPage(rows, cursor, count))
  {
    QueryReadsSide(rows, cursor, count);
    SideBounds(rows, cursor, count);
    FinishedSide(Side(rows, cursor, count), cursor, count, |rows|);
    ErcPageExactly(rows, cursor, count);
  }
}
