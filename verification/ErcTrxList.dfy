// Erc20Transactions: one page of token transactions, and walking the whole list page by page
// (internal/repository/db/erc_trx.go).
module ErcTrxList {
  import opened Common
  import opened Pages

  // Go's -count on an int32.
  function Negated(count: int): int {
    ToInt32(-count)
  }

  predicate AtEnd(loaded: nat, cursor: Option<nat>, count: int) {
    (cursor.None? && count < 0) || (count > 0 && ToInt32(loaded) < count)
  }

  predicate AtStart(loaded: nat, cursor: Option<nat>, count: int) {
    (cursor.None? && count > 0) || (count < 0 && ToInt32(loaded) < Negated(count))
  }

  // The list once the query result has been looped over and the boundaries checked: the last row
  // read is kept only on a boundary.
  function Loaded(q: seq<Row>, cursor: Option<nat>, count: int): Page<Row> {
    var n := if q == [] then 0 else |q| - 1;
    var isEnd, isStart := AtEnd(n, cursor, count), AtStart(n, cursor, count);
    var keep := (count < 0 && isStart) || (count > 0 && isEnd);
    Page(if keep then q else q[..n], isStart, isEnd)
  }

  function QueryFor(rows: seq<Row>, cursor: Option<nat>, count: int, first: nat): seq<Row> {
    Query(rows, BoundFor(cursor, count, first), count < 0, Abs(count) + 1)
  }

  function ErcPage(rows: seq<Row>, cursor: Option<nat>, count: int): Page<Row> {
    if rows == [] then Page([], true, true)
    else
      var p := Loaded(QueryFor(rows, cursor, count, Border(rows, cursor, count)), cursor, count);
      if count < 0 then p.(rows := Reversed(p.rows)) else p
  }

  // The collection as one base filter sees it: `rows` are the selected documents, newest first,
  // and `ordinals` finds the ordinal of any document by its id.
  class ErcTrxDb {
    const rows: seq<Row>
    const ordinals: map<nat, nat>

    constructor (rows: seq<Row>, ordinals: map<nat, nat>)
      ensures this.rows == rows && this.ordinals == ordinals
    {
      this.rows, this.ordinals := rows, ordinals;
    }

    // None when the cursor's document does not exist.
    method ListInit(cursor: Option<nat>, count: int) returns (list: RowList?<Row>)
      requires count != 0
      ensures list == null <==> rows != [] && cursor.Some? && cursor.value !in ordinals
      ensures list != null ==> fresh(list) && list.collection == []
      ensures list != null && rows == [] ==> list.View() == Page([], true, true)
      ensures list != null && rows != [] ==> list.first == Border(rows, Ordinal(cursor), count)
    {
      list := new RowList(|rows| == 0, |rows| == 0);
      if |rows| == 0 {
        return;
      }
      if cursor.None? && count > 0 {
        list.first := rows[0].ord;
        list.isStart := true;
      } else if cursor.None? && count < 0 {
        list.first := rows[|rows| - 1].ord;
        list.isEnd := true;
      } else {
        if cursor.value !in ordinals {
          return null;
        }
        list.first := ordinals[cursor.value];
      }
    }

    function Ordinal(cursor: Option<nat>): Option<nat> {
      if cursor.Some? && cursor.value in ordinals then Some(ordinals[cursor.value]) else None
    }

    method Load(cursor: Option<nat>, count: int, list: RowList<Row>)
      requires count != 0 && list.collection == [] && 0 <= list.first
      requires cursor.Some? ==> cursor.value in ordinals
      modifies list
      ensures list.View() == Loaded(QueryFor(rows, Ordinal(cursor), count, old(list.first)), Ordinal(cursor), count)
    {
      var ld := QueryFor(rows, Ordinal(cursor), count, list.first);
      var trx := ReadRows(ld, list);
      ghost var n := if ld == [] then 0 else |ld| - 1;
      assert list.collection == ld[..n] && (trx.Some? ==> ld[..n] + [trx.value] == ld);
      list.isEnd := AtEnd(|list.collection|, Ordinal(cursor), count);
      list.isStart := AtStart(|list.collection|, Ordinal(cursor), count);
      if ((count < 0 && list.isStart) || (count > 0 && list.isEnd)) && trx.Some? {
        list.collection := list.collection + [trx.value];
      }
    }

    // Null stands for an error: nothing requested, or an unknown cursor.
    method Erc20Transactions(cursor: Option<nat>, count: int) returns (list: RowList?<Row>)
      ensures list == null <==>
                count == 0 || (rows != [] && cursor.Some? && cursor.value !in ordinals)
      ensures list != null ==> fresh(list)
      ensures list != null ==> list.View() == ErcPage(rows, Ordinal(cursor), count)
    {
      if count == 0 {
        return null;
      }
      list := ListInit(cursor, count);
      if list == null {
        return;
      }
      if |rows| > 0 {
        Load(cursor, count, list);
        if count < 0 {
          list.Reverse();
        }
      }
    }
  }

  // How many rows the smallest 32-bit count asks for.
  const HUGE: int := 0x8000_0000

  // What a request delivers after reading a side of the list.
  function Delivered(side: seq<Row>, cursor: Option<nat>, count: int): Page<Row> {
    var p := Loaded(Reading(side, count), cursor, count);
    if count < 0 then p.(rows := Reversed(p.rows)) else p
  }

  lemma PageReadsSide(rows: seq<Row>, cursor: Option<nat>, count: int)
    requires NewestFirst(rows) && rows != []
    ensures ErcPage(rows, cursor, count) == Delivered(Side(rows, cursor, count), cursor, count)
  {
    QueryReadsSide(rows, cursor, count);
  }

  // For every list, every listed cursor (or none) and every non-zero 32-bit
  // count, the page is the wanted one, except for the smallest count: its negation overflows, so a
  // boundary within reach is neither recognised nor is the last row delivered.
  lemma ErcPageExactly(rows: seq<Row>, cursor: Option<nat>, count: int)
    requires NewestFirst(rows) && ListedCursor(rows, cursor) && IsInt32(count) && count != 0
    ensures ErcPage(rows, cursor, count) == Wanted(rows, cursor, count)
       <==> rows == [] || count != MIN_INT32 || |Side(rows, cursor, count)| > HUGE
  {
    if rows != [] {
      PageReadsSide(rows, cursor, count);
      SideBounds(rows, cursor, count);
      DeliveredExactly(Side(rows, cursor, count), cursor, count, |rows|);
    }
  }

  lemma DeliveredExactly(side: seq<Row>, cursor: Option<nat>, count: int, total: nat)
    requires IsInt32(count) && count != 0
    requires (|side| == total <==> cursor.None?) && (cursor.None? ==> side != [])
    ensures Delivered(side, cursor, count) == WantedOf(side, total, count)
       <==> count != MIN_INT32 || |side| > HUGE
  {
    if count > 0 {
      KeptDown(side, cursor, count);
    } else if count != MIN_INT32 || |side| > HUGE {
      KeptUp(side, cursor, count);
      ReversedWindow(side, Min(Abs(count), |side|));
    } else {
      NeverAtStart(side, cursor);
    }
  }

  lemma KeptDown(side: seq<Row>, cursor: Option<nat>, count: int)
    requires 0 < count <= MAX_INT32 && (cursor.None? ==> side != [])
    ensures var n := Min(count, |side|);
      Loaded(Reading(side, count), cursor, count) == Page(side[..n], cursor.None?, n == |side|)
  {
  }

  lemma NeverAtStart(side: seq<Row>, cursor: Option<nat>)
    ensures !Delivered(side, cursor, MIN_INT32).isStart
  {
  }

  lemma ReversedWindow(side: seq<Row>, n: nat)
    requires n <= |side|
    ensures Reversed(Reversed(side)[..n]) == side[|side| - n..]
  {
  }

  lemma KeptUp(side: seq<Row>, cursor: Option<nat>, count: int)
    requires MIN_INT32 <= count < 0 && (count != MIN_INT32 || |side| > HUGE)
    requires cursor.None? ==> side != []
    ensures var n := Min(Abs(count), |side|);
      Loaded(Reading(side, count), cursor, count)
      == Page(Reversed(side)[..n], n == |side|, cursor.None?)
  {
  }

  // Where the side lies in the list: at its end for older rows, at its start for newer ones. It never
  // holds the cursor's own row.
  lemma SideBounds(rows: seq<Row>, cursor: Option<nat>, count: int)
    requires NewestFirst(rows) && ListedCursor(rows, cursor) && count != 0
    ensures var side := Side(rows, cursor, count);
      && |side| <= |rows| && (|side| == |rows| <==> cursor.None?)
      && side == if count > 0 then rows[|rows| - |side|..] else rows[..|side|]
  {
    if cursor.Some? {
      var i :| 0 <= i < |rows| && rows[i].ord == cursor.value;
      var newer, older := SidesOf(rows, i);
    }
  }

  // ---- Walking the list ----

  // What is left of a side after reading its first `count` rows and going on below the last of them:
  // the rest, without the rows that tie with it.
  lemma RestOfSide(side: seq<Row>, count: nat)
    requires NewestFirst(side) && 0 < count < |side|
    ensures var next := Older(side, side[count - 1].ord);
      && NewestFirst(next) && (forall r :: r in next ==> r.ord < side[count - 1].ord)
      && (if side[count - 1].ord != side[count].ord then next == side[count..]
          else |next| < |side| - count)
  {
    var newer, older := SidesOf(side, count - 1);
    assert forall i :: 0 <= i < |side| - older ==> side[older..][i] == side[older + i];
    assert older < |side| ==> side[older].ord < side[count - 1].ord by {
      OlderIsBelow(side, side[count - 1].ord);
      assert older < |side| ==> side[older] == side[older..][0];
    }
  }

  lemma RestOfSideUp(side: seq<Row>, k: nat)
    requires NewestFirst(side) && 0 < k < |side|
    ensures var next := Newer(side, side[k].ord);
      NewestFirst(next) && (if side[k - 1].ord != side[k].ord then next == side[..k] else |next| < k)
  {
    var newer, older := SidesOf(side, k);
  }

  lemma {:induction false} OlderIsBelow(rows: seq<Row>, ord: nat)
    requires NewestFirst(rows)
    ensures forall r :: r in Older(rows, ord) ==> r.ord < ord
  {
    if rows != [] {
      TailIsOlder(rows);
      OlderIsBelow(rows[1..], ord);
    }
  }

  // A row of a side has the same older or newer rows in the side as in the whole list.
  lemma {:induction false} OlderOfSide(rows: seq<Row>, from: nat, ord: nat)
    requires from <= |rows| && forall j :: 0 <= j < from ==> rows[j].ord >= ord
    ensures Older(rows, ord) == Older(rows[from..], ord)
  {
    if from > 0 {
      OlderOfSide(rows[1..], from - 1, ord);
      assert rows[1..][from - 1..] == rows[from..];
    } else {
      assert rows[0..] == rows;
    }
  }

  lemma {:induction false} NewerOfSide(rows: seq<Row>, n: nat, ord: nat)
    requires 0 < n <= |rows| && rows[n - 1].ord <= ord
    ensures Newer(rows, ord) == Newer(rows[..n], ord)
  {
    if rows[0].ord > ord {
      NewerOfSide(rows[1..], n - 1, ord);
      assert rows[..n][1..] == rows[1..][..n - 1];
    }
  }

  // A page downwards that is not the last one ends at a row whose cursor reads the older rows of the
  // side; likewise upwards.
  lemma NextDown(rows: seq<Row>, cursor: Option<nat>, count: int)
    requires NewestFirst(rows) && ListedCursor(rows, cursor) && 0 < count <= MAX_INT32 && rows != []
    ensures var p, side := ErcPage(rows, cursor, count), Side(rows, cursor, count);
      if |side| <= count then p.isEnd && p.rows == side
      else
        var last := side[count - 1].ord;
        && !p.isEnd && p.rows == side[..count] && ListedCursor(rows, Some(last))
        && Older(rows, last) == Older(side, last) && |Older(side, last)| < |side|
  {
    hide ErcPage;
    var side := Side(rows, cursor, count);
    ErcPageExactly(rows, cursor, count);
    SideBounds(rows, cursor, count);
    if |side| > count {
      var from := |rows| - |side|;
      assert side[count - 1] == rows[from + count - 1];
      OlderOfSide(rows, from, side[count - 1].ord);
      RestOfSide(side, count);
    }
  }

  lemma NextUp(rows: seq<Row>, cursor: Option<nat>, count: int)
    requires NewestFirst(rows) && ListedCursor(rows, cursor) && MIN_INT32 < count < 0 && rows != []
    ensures var p, side := ErcPage(rows, cursor, count), Side(rows, cursor, count);
      var k := |side| + count;
      if k <= 0 then p.isStart && p.rows == side
      else
        var first := side[k].ord;
        && !p.isStart && p.rows == side[k..] && ListedCursor(rows, Some(first))
        && Newer(rows, first) == Newer(side, first) && |Newer(side, first)| < |side|
  {
    hide ErcPage;
    var side := Side(rows, cursor, count);
    ErcPageExactly(rows, cursor, count);
    SideBounds(rows, cursor, count);
    if |side| + count > 0 {
      assert side[|side| + count] == rows[|side| + count];
      NewerOfSide(rows, |side|, side[|side| + count].ord);
      RestOfSideUp(side, |side| + count);
    }
  }

  // Reading on from the last row of each page until IsEnd.
  ghost function WalkDown(rows: seq<Row>, cursor: Option<nat>, count: int): seq<Row>
    requires NewestFirst(rows) && ListedCursor(rows, cursor) && 0 < count <= MAX_INT32 && rows != []
    decreases |Side(rows, cursor, count)|
  {
    var p := ErcPage(rows, cursor, count);
    NextDown(rows, cursor, count);
    if p.isEnd then p.rows
    else p.rows + WalkDown(rows, Some(p.rows[|p.rows| - 1].ord), count)
  }

  // Reading on from the first row of each page until IsStart.
  ghost function WalkUp(rows: seq<Row>, cursor: Option<nat>, count: int): seq<Row>
    requires NewestFirst(rows) && ListedCursor(rows, cursor) && MIN_INT32 < count < 0 && rows != []
    decreases |Side(rows, cursor, count)|
  {
    var p := ErcPage(rows, cursor, count);
    NextUp(rows, cursor, count);
    if p.isStart then p.rows
    else WalkUp(rows, Some(p.rows[0].ord), count) + p.rows
  }

  // The same walks on the side alone.
  ghost function StepsDown(side: seq<Row>, size: nat): seq<Row>
    requires NewestFirst(side) && size > 0
    decreases |side|
  {
    if |side| <= size then side
    else
      RestOfSide(side, size);
      side[..size] + StepsDown(Older(side, side[size - 1].ord), size)
  }

  ghost function StepsUp(side: seq<Row>, size: nat): seq<Row>
    requires NewestFirst(side) && size > 0
    decreases |side|
  {
    var k := |side| - size;
    if k <= 0 then side
    else
      RestOfSideUp(side, k);
      StepsUp(Newer(side, side[k].ord), size) + side[k..]
  }

  // One page of either walk.
  lemma WalkDownStep(rows: seq<Row>, cursor: Option<nat>, count: int)
    requires NewestFirst(rows) && ListedCursor(rows, cursor) && 0 < count <= MAX_INT32 && rows != []
    ensures var side := Side(rows, cursor, count);
      && NewestFirst(side)
      && if |side| <= count then WalkDown(rows, cursor, count) == side
         else
           var last := side[count - 1].ord;
           && ListedCursor(rows, Some(last)) && |Older(side, last)| < |side|
           && Side(rows, Some(last), count) == Older(side, last)
           && WalkDown(rows, cursor, count) == side[..count] + WalkDown(rows, Some(last), count)
  {
    hide ErcPage;
    SideBounds(rows, cursor, count);
    NextDown(rows, cursor, count);
  }

  lemma WalkUpStep(rows: seq<Row>, cursor: Option<nat>, count: int)
    requires NewestFirst(rows) && ListedCursor(rows, cursor) && MIN_INT32 < count < 0 && rows != []
    ensures var side := Side(rows, cursor, count);
      var k := |side| + count;
      && NewestFirst(side)
      && if k <= 0 then WalkUp(rows, cursor, count) == side
         else
           var first := side[k].ord;
           && ListedCursor(rows, Some(first)) && |Newer(side, first)| < |side|
           && Side(rows, Some(first), count) == Newer(side, first)
           && WalkUp(rows, cursor, count) == WalkUp(rows, Some(first), count) + side[k..]
  {
    hide ErcPage;
    SideBounds(rows, cursor, count);
    NextUp(rows, cursor, count);
  }

  lemma StepsDownStep(side: seq<Row>, size: nat)
    requires NewestFirst(side) && size > 0
    ensures |side| <= size ==> StepsDown(side, size) == side
    ensures |side| > size ==> var next := Older(side, side[size - 1].ord);
      NewestFirst(next) && StepsDown(side, size) == side[..size] + StepsDown(next, size)
  {
    if |side| > size {
      RestOfSide(side, size);
    }
  }

  lemma StepsUpStep(side: seq<Row>, size: nat)
    requires NewestFirst(side) && size > 0
    ensures |side| <= size ==> StepsUp(side, size) == side
    ensures |side| > size ==> var next := Newer(side, side[|side| - size].ord);
      NewestFirst(next) && StepsUp(side, size) == StepsUp(next, size) + side[|side| - size..]
  {
    if |side| > size {
      RestOfSideUp(side, |side| - size);
    }
  }

  lemma {:induction false} WalkDownSteps(rows: seq<Row>, cursor: Option<nat>, count: int)
    requires NewestFirst(rows) && ListedCursor(rows, cursor) && 0 < count <= MAX_INT32 && rows != []
    ensures NewestFirst(Side(rows, cursor, count))
    ensures WalkDown(rows, cursor, count) == StepsDown(Side(rows, cursor, count), count)
    decreases |Side(rows, cursor, count)|
  {
    hide *;
    var side := Side(rows, cursor, count);
    WalkDownStep(rows, cursor, count);
    StepsDownStep(side, count);
    if |side| > count {
      WalkDownSteps(rows, Some(side[count - 1].ord), count);
    }
  }

  lemma {:induction false} WalkUpSteps(rows: seq<Row>, cursor: Option<nat>, count: int)
    requires NewestFirst(rows) && ListedCursor(rows, cursor) && MIN_INT32 < count < 0 && rows != []
    ensures NewestFirst(Side(rows, cursor, count))
    ensures WalkUp(rows, cursor, count) == StepsUp(Side(rows, cursor, count), -count)
    decreases |Side(rows, cursor, count)|
  {
    hide *;
    var side := Side(rows, cursor, count);
    WalkUpStep(rows, cursor, count);
    StepsUpStep(side, -count);
    if |side| + count > 0 {
      WalkUpSteps(rows, Some(side[|side| + count].ord), count);
    }
  }

  // No page boundary, counted from the top or from the bottom, parts two rows with one ordinal.
  ghost predicate PartsNoTieDown(side: seq<Row>, size: nat)
    requires size > 0
  {
    |side| <= size || (side[size - 1].ord != side[size].ord && PartsNoTieDown(side[size..], size))
  }

  ghost predicate PartsNoTieUp(side: seq<Row>, size: nat)
    requires size > 0
  {
    |side| <= size ||
    var k := |side| - size;
    side[k - 1].ord != side[k].ord && PartsNoTieUp(side[..k], size)
  }

  lemma SameEnds<T>(a: seq<T>, x: seq<T>, y: seq<T>)
    ensures a + x == a + y <==> x == y
    ensures x + a == y + a <==> x == y
  {
    if a + x == a + y {
      assert (a + x)[|a|..] == x && (a + y)[|a|..] == y;
    }
    if x + a == y + a {
      assert (x + a)[..|x|] == x && (y + a)[..|y|] == y;
    }
  }

  lemma PartsDownStep(side: seq<Row>, size: nat)
    requires size > 0
    ensures |side| <= size ==> PartsNoTieDown(side, size)
    ensures |side| > size ==>
      && side == side[..size] + side[size..]
      && PartsNoTieDown(side, size)
         == (side[size - 1].ord != side[size].ord && PartsNoTieDown(side[size..], size))
  {
  }

  lemma PartsUpStep(side: seq<Row>, size: nat)
    requires size > 0
    ensures |side| <= size ==> PartsNoTieUp(side, size)
    ensures |side| > size ==> var k := |side| - size;
      && side == side[..k] + side[k..]
      && PartsNoTieUp(side, size) == (side[k - 1].ord != side[k].ord && PartsNoTieUp(side[..k], size))
  {
  }

  lemma {:induction false} StepsDownExactly(side: seq<Row>, size: nat)
    requires NewestFirst(side) && size > 0
    ensures |StepsDown(side, size)| <= |side|
    ensures StepsDown(side, size) == side <==> PartsNoTieDown(side, size)
    decreases |side|
  {
    hide *;
    StepsDownStep(side, size);
    PartsDownStep(side, size);
    if |side| > size {
      var next := Older(side, side[size - 1].ord);
      RestOfSide(side, size);
      StepsDownExactly(next, size);
      SameEnds(side[..size], StepsDown(next, size), side[size..]);
    }
  }

  lemma {:induction false} StepsUpExactly(side: seq<Row>, size: nat)
    requires NewestFirst(side) && size > 0
    ensures |StepsUp(side, size)| <= |side|
    ensures StepsUp(side, size) == side <==> PartsNoTieUp(side, size)
    decreases |side|
  {
    hide *;
    StepsUpStep(side, size);
    PartsUpStep(side, size);
    if |side| > size {
      var k := |side| - size;
      var next := Newer(side, side[k].ord);
      RestOfSideUp(side, k);
      StepsUpExactly(next, size);
      SameEnds(side[k..], StepsUp(next, size), side[..k]);
    }
  }

  // From any cursor, a walk with any page size delivers exactly the rows on its side, each once and
  // in order, if and only if no page boundary falls between two rows with one ordinal.
  lemma WalkDownExactly(rows: seq<Row>, cursor: Option<nat>, count: int)
    requires NewestFirst(rows) && ListedCursor(rows, cursor) && 0 < count <= MAX_INT32 && rows != []
    ensures WalkDown(rows, cursor, count) == Side(rows, cursor, count)
       <==> PartsNoTieDown(Side(rows, cursor, count), count)
  {
    hide *;
    WalkDownSteps(rows, cursor, count);
    StepsDownExactly(Side(rows, cursor, count), count);
  }

  lemma WalkUpExactly(rows: seq<Row>, cursor: Option<nat>, count: int)
    requires NewestFirst(rows) && ListedCursor(rows, cursor) && MIN_INT32 < count < 0 && rows != []
    ensures WalkUp(rows, cursor, count) == Side(rows, cursor, count)
       <==> PartsNoTieUp(Side(rows, cursor, count), -count)
  {
    hide *;
    WalkUpSteps(rows, cursor, count);
    StepsUpExactly(Side(rows, cursor, count), -count);
  }

  // Distinct ordinals never tie, whatever the page size.
  lemma {:induction false} DistinctPartsNoTie(side: seq<Row>, size: nat)
    requires size > 0 && DistinctOrdinals(side)
    ensures PartsNoTieDown(side, size) && PartsNoTieUp(side, size)
    decreases |side|
  {
    if |side| > size {
      DistinctPartsNoTie(side[size..], size);
      DistinctPartsNoTie(side[..|side| - size], size);
    }
  }

  // Single-row pages part every tie.
  lemma {:induction false} SinglePagesPartTies(side: seq<Row>)
    requires NewestFirst(side)
    ensures PartsNoTieDown(side, 1) <==> DistinctOrdinals(side)
    ensures PartsNoTieUp(side, 1) <==> DistinctOrdinals(side)
  {
    if |side| > 1 {
      var n := |side| - 1;
      assert NewestFirst(side[1..]) && NewestFirst(side[..n]);
      SinglePagesPartTies(side[1..]);
      SinglePagesPartTies(side[..n]);
      DistinctByNeighbours(side);
    }
  }

  lemma DistinctByNeighbours(side: seq<Row>)
    requires NewestFirst(side) && |side| > 1
    ensures var n := |side| - 1;
      && (DistinctOrdinals(side) <==> side[0].ord != side[1].ord && DistinctOrdinals(side[1..]))
      && (DistinctOrdinals(side) <==> side[n - 1].ord != side[n].ord && DistinctOrdinals(side[..n]))
  {
    var n := |side| - 1;
    if side[0].ord != side[1].ord && DistinctOrdinals(side[1..]) {
      forall i, j | 0 <= i < j <= n ensures side[i].ord != side[j].ord {
        assert i > 0 ==> side[1..][i - 1].ord != side[1..][j - 1].ord;
      }
    }
    if side[n - 1].ord != side[n].ord && DistinctOrdinals(side[..n]) {
      forall i, j | 0 <= i < j <= n ensures side[i].ord != side[j].ord {
        assert j < n ==> side[..n][i].ord != side[..n][j].ord;
      }
    }
  }

  // Walking the whole list is complete for every page size, in either direction, if and only if the
  // ordinals are distinct.
  lemma WalksCompleteExactly(rows: seq<Row>)
    requires NewestFirst(rows) && rows != []
    ensures (forall count :: 0 < count <= MAX_INT32 ==> WalkDown(rows, None, count) == rows)
       <==> DistinctOrdinals(rows)
    ensures (forall count :: MIN_INT32 < count < 0 ==> WalkUp(rows, None, count) == rows)
       <==> DistinctOrdinals(rows)
  {
    SinglePagesPartTies(rows);
    WalkDownExactly(rows, None, 1);
    WalkUpExactly(rows, None, -1);
    if DistinctOrdinals(rows) {
      forall count | 0 < count <= MAX_INT32 ensures WalkDown(rows, None, count) == rows {
        WalkDownComplete(rows, None, count);
      }
      forall count | MIN_INT32 < count < 0 ensures WalkUp(rows, None, count) == rows {
        WalkUpComplete(rows, None, count);
      }
    }
  }

  lemma SideIsDistinct(rows: seq<Row>, cursor: Option<nat>, count: int)
    requires NewestFirst(rows) && DistinctOrdinals(rows) && ListedCursor(rows, cursor) && count != 0
    ensures DistinctOrdinals(Side(rows, cursor, count))
  {
    SideBounds(rows, cursor, count);
  }

  // With distinct ordinals a walk from any cursor delivers exactly the rows on its side, each once and
  // in order, for every page size.
  lemma WalkDownComplete(rows: seq<Row>, cursor: Option<nat>, count: int)
    requires NewestFirst(rows) && DistinctOrdinals(rows)
    requires ListedCursor(rows, cursor) && 0 < count <= MAX_INT32 && rows != []
    ensures WalkDown(rows, cursor, count) == Side(rows, cursor, count)
  {
    hide *;
    SideIsDistinct(rows, cursor, count);
    DistinctPartsNoTie(Side(rows, cursor, count), count);
    WalkDownExactly(rows, cursor, count);
  }

  lemma WalkUpComplete(rows: seq<Row>, cursor: Option<nat>, count: int)
    requires NewestFirst(rows) && DistinctOrdinals(rows)
    requires ListedCursor(rows, cursor) && MIN_INT32 < count < 0 && rows != []
    ensures WalkUp(rows, cursor, count) == Side(rows, cursor, count)
  {
    hide *;
    SideIsDistinct(rows, cursor, count);
    DistinctPartsNoTie(Side(rows, cursor, count), -count);
    WalkUpExactly(rows, cursor, count);
  }

  // Wherever two neighbouring rows tie, the page that ends between them loses the second one: no
  // page read on from there, of whatever size, contains it.
  lemma TieLosesRow(rows: seq<Row>, i: nat, count: int)
    requires NewestFirst(rows) && i + 1 < |rows| && i < MAX_INT32 && 0 < count <= MAX_INT32
    requires rows[i].ord == rows[i + 1].ord
    ensures ErcPage(rows, None, i + 1) == Page(rows[..i + 1], true, false)
    ensures rows[i + 1] !in WalkDown(rows, Some(rows[i].ord), count)
  {
    ErcPageExactly(rows, None, i + 1);
    WalkDownSteps(rows, Some(rows[i].ord), count);
    OlderIsBelow(rows, rows[i].ord);
    StepsBelow(Older(rows, rows[i].ord), count, rows[i].ord);
  }

  lemma {:induction false} StepsBelow(side: seq<Row>, size: nat, ord: nat)
    requires NewestFirst(side) && size > 0 && forall r :: r in side ==> r.ord < ord
    ensures forall r :: r in StepsDown(side, size) ==> r.ord < ord
    decreases |side|
  {
    if |side| > size {
      RestOfSide(side, size);
      assert side[size - 1] in side;
      StepsBelow(Older(side, side[size - 1].ord), size, ord);
    }
  }
}
