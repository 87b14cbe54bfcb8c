// Lists of stored rows read page by page: the list object with its in-place reversal, the database
// query behind it, and what a page ought to be (internal/types/erc20_trx_list.go, trx_list.go,
// block_list.go; the query side of internal/repository/db).
module Pages {
  import opened Common

  function Reversed<T>(s: seq<T>): (r: seq<T>)
    ensures |r| == |s|
    ensures forall i :: 0 <= i < |s| ==> r[i] == s[|s| - 1 - i]
  {
    seq(|s|, i requires 0 <= i < |s| => s[|s| - 1 - i])
  }

  // What a caller sees of a list.
  datatype Page<T> = Page(rows: seq<T>, isStart: bool, isEnd: bool)

  class RowList<T> {
    var collection: seq<T>
    var first: int
    var last: int
    var isStart: bool
    var isEnd: bool

    function View(): Page<T>
      reads this
    {
      Page(collection, isStart, isEnd)
    }

    constructor (isStart: bool, isEnd: bool)
      ensures View() == Page([], isStart, isEnd) && first == last == 0
    {
      collection, first, last := [], 0, 0;
      this.isStart, this.isEnd := isStart, isEnd;
    }

    method Reverse()
      modifies this
      ensures collection == Reversed(old(collection))
      ensures (first, last) == if |collection| < 2 then old((first, last)) else old((last, first))
      ensures isStart == old(isStart) && isEnd == old(isEnd)
    {
      if |collection| < 2 {
        return;
      }
      ghost var was := collection;
      var i, j := 0, |collection| - 1;
      while i < j
        invariant 0 <= i <= j + 1 && i + j == |was| - 1 == |collection| - 1
        invariant forall k :: 0 <= k < i || j < k < |was| ==> collection[k] == was[|was| - 1 - k]
        invariant forall k :: i <= k <= j ==> collection[k] == was[k]
        invariant first == old(first) && last == old(last)
        invariant isStart == old(isStart) && isEnd == old(isEnd)
      {
        ghost var before := collection;
        collection := collection[i := collection[j]][j := collection[i]];
        assert collection[i] == before[j] && collection[j] == before[i];
        assert forall k :: 0 <= k < |was| && k != i && k != j ==> collection[k] == before[k];
        i, j := i + 1, j - 1;
      }
      first, last := last, first;
    }
  }

  // ---- Stored rows ----

  datatype Row = Row(id: nat, ord: nat)

  // The rows a base filter selects, in the order the database sorts them by ordinal.
  ghost predicate NewestFirst(rows: seq<Row>) {
    forall i, j :: 0 <= i < j < |rows| ==> rows[i].ord >= rows[j].ord
  }

  ghost predicate DistinctOrdinals(rows: seq<Row>) {
    forall i, j :: 0 <= i < j < |rows| ==> rows[i].ord != rows[j].ord
  }

  datatype Bound = AtMost(n: nat) | AtLeast(n: nat) | Below(n: nat) | Above(n: nat)

  predicate Within(b: Bound, ord: nat) {
    match b
    case AtMost(n) => ord <= n
    case AtLeast(n) => ord >= n
    case Below(n) => ord < n
    case Above(n) => ord > n
  }

  function Matching(rows: seq<Row>, b: Bound): seq<Row> {
    if rows == [] then []
    else (if Within(b, rows[0].ord) then [rows[0]] else []) + Matching(rows[1..], b)
  }

  // Find with an ordinal bound, a sort direction and a limit.
  function Query(rows: seq<Row>, b: Bound, ascending: bool, limit: nat): (q: seq<Row>)
    ensures |q| == Min(limit, |Matching(rows, b)|)
  {
    var m := Matching(rows, b);
    (if ascending then Reversed(m) else m)[..Min(limit, |m|)]
  }

  // Rows strictly newer or older than an ordinal.
  function Newer(rows: seq<Row>, ord: nat): seq<Row> {
    if rows != [] && rows[0].ord > ord then [rows[0]] + Newer(rows[1..], ord) else []
  }

  function Older(rows: seq<Row>, ord: nat): seq<Row> {
    if rows == [] || rows[0].ord < ord then rows else Older(rows[1..], ord)
  }

  lemma TailIsOlder(rows: seq<Row>)
    requires NewestFirst(rows) && rows != []
    ensures NewestFirst(rows[1..])
    ensures forall i :: 0 <= i < |rows[1..]| ==> rows[1..][i].ord <= rows[0].ord
  {
  }

  lemma {:induction false} MatchingSides(rows: seq<Row>, ord: nat)
    requires NewestFirst(rows)
    ensures Matching(rows, Below(ord)) == Older(rows, ord)
    ensures Matching(rows, Above(ord)) == Newer(rows, ord)
  {
    if rows != [] {
      TailIsOlder(rows);
      MatchingSides(rows[1..], ord);
      if rows[0].ord <= ord {
        NewerNone(rows[1..], ord);
      }
      if rows[0].ord < ord {
        OlderWhole(rows[1..], ord);
        assert [rows[0]] + rows[1..] == rows;
      }
    }
  }

  lemma OlderWhole(rows: seq<Row>, ord: nat)
    requires forall i :: 0 <= i < |rows| ==> rows[i].ord < ord
    ensures Older(rows, ord) == rows
  {
  }

  lemma NewerNone(rows: seq<Row>, ord: nat)
    requires forall i :: 0 <= i < |rows| ==> rows[i].ord <= ord
    ensures Newer(rows, ord) == []
  {
  }

  lemma {:induction false} MatchingAll(rows: seq<Row>, b: Bound)
    requires forall i :: 0 <= i < |rows| ==> Within(b, rows[i].ord)
    ensures Matching(rows, b) == rows
  {
    if rows != [] {
      MatchingAll(rows[1..], b);
      assert [rows[0]] + rows[1..] == rows;
    }
  }

  // The older rows begin at the first position below the ordinal, and the newer rows end where it is
  // reached.
  lemma {:induction false} OlderFrom(rows: seq<Row>, ord: nat, k: nat)
    requires k <= |rows| && (forall i :: 0 <= i < k ==> rows[i].ord >= ord)
    requires k < |rows| ==> rows[k].ord < ord
    ensures Older(rows, ord) == rows[k..]
  {
    if k > 0 {
      OlderFrom(rows[1..], ord, k - 1);
      assert rows[1..][k - 1..] == rows[k..];
    }
  }

  lemma {:induction false} NewerUpTo(rows: seq<Row>, ord: nat, k: nat)
    requires k <= |rows| && (forall i :: 0 <= i < k ==> rows[i].ord > ord)
    requires k < |rows| ==> rows[k].ord <= ord
    ensures Newer(rows, ord) == rows[..k]
  {
    if k > 0 {
      NewerUpTo(rows[1..], ord, k - 1);
      assert [rows[0]] + rows[1..][..k - 1] == rows[..k];
    }
  }

  // Where a row's ordinal cuts the list; ties with the row belong to neither side.
  lemma SidesOf(rows: seq<Row>, i: nat) returns (newer: nat, older: nat)
    requires NewestFirst(rows) && i < |rows|
    ensures newer <= i < older <= |rows|
    ensures Newer(rows, rows[i].ord) == rows[..newer] && Older(rows, rows[i].ord) == rows[older..]
    ensures newer == i <==> i == 0 || rows[i - 1].ord != rows[i].ord
    ensures older == i + 1 <==> i + 1 == |rows| || rows[i + 1].ord != rows[i].ord
  {
    newer, older := i, i + 1;
    while newer > 0 && rows[newer - 1].ord == rows[i].ord
      invariant 0 <= newer <= i
      invariant forall j :: newer <= j <= i ==> rows[j].ord == rows[i].ord
    {
      newer := newer - 1;
    }
    while older < |rows| && rows[older].ord == rows[i].ord
      invariant i < older <= |rows|
      invariant forall j :: i <= j < older ==> rows[j].ord == rows[i].ord
    {
      older := older + 1;
    }
    NewerUpTo(rows, rows[i].ord, newer);
    OlderFrom(rows, rows[i].ord, older);
  }

  // With distinct ordinals a row splits the list into the newer rows, itself and the older rows.
  lemma SplitAt(rows: seq<Row>, i: nat)
    requires NewestFirst(rows) && DistinctOrdinals(rows) && i < |rows|
    ensures Newer(rows, rows[i].ord) == rows[..i] && Older(rows, rows[i].ord) == rows[i + 1..]
  {
    var newer, older := SidesOf(rows, i);
  }

  // ---- What a page ought to be ----

  // The rows on the side of the cursor a request reads: older ones for a positive count, newer
  // ones for a negative count, and all rows without a cursor.
  function Side(rows: seq<Row>, cursor: Option<nat>, count: int): seq<Row> {
    if cursor.None? then rows
    else if count > 0 then Older(rows, cursor.value)
    else Newer(rows, cursor.value)
  }

  // At most |count| rows of a side, next to the cursor. A boundary flag holds exactly when no row of
  // the whole list lies beyond the page in that direction.
  function WantedOf(side: seq<Row>, total: nat, count: int): Page<Row> {
    var n := Min(Abs(count), |side|);
    if count > 0 then Page(side[..n], |side| == total, n == |side|)
    else Page(side[|side| - n..], n == |side|, |side| == total)
  }

  // At most |count| rows next to the cursor, newest first, with truthful flags.
  function Wanted(rows: seq<Row>, cursor: Option<nat>, count: int): Page<Row> {
    WantedOf(Side(rows, cursor, count), |rows|, count)
  }

  // The cursor of a well-formed request: none, or the ordinal of a listed row.
  ghost predicate ListedCursor(rows: seq<Row>, cursor: Option<nat>) {
    cursor.Some? ==> exists i :: 0 <= i < |rows| && rows[i].ord == cursor.value
  }

  // Around row i a page is literally a slice of the list next to it.
  lemma WantedIsAdjacent(rows: seq<Row>, i: nat, count: int)
    requires NewestFirst(rows) && DistinctOrdinals(rows) && i < |rows| && count != 0
    ensures Wanted(rows, Some(rows[i].ord), count).rows
         == if count > 0 then rows[i + 1..Min(i + 1 + count, |rows|)]
            else rows[if i + count > 0 then i + count else 0..i]
    ensures Wanted(rows, Some(rows[i].ord), count).isEnd == (count > 0 && i + 1 + count >= |rows|)
    ensures Wanted(rows, Some(rows[i].ord), count).isStart == (count < 0 && i + count <= 0)
  {
    SplitAt(rows, i);
    if count > 0 {
      var n := Min(count, |rows| - i - 1);
      assert rows[i + 1..][..n] == rows[i + 1..i + 1 + n];
    } else {
      var n := Min(-count, i);
      assert rows[..i][i - n..] == rows[i - n..i];
    }
  }

  // The list's start for a query: the highest or lowest ordinal, or the cursor's own.
  function Border(rows: seq<Row>, cursor: Option<nat>, count: int): nat
    requires rows != []
  {
    if cursor.Some? then cursor.value
    else if count > 0 then rows[0].ord
    else rows[|rows| - 1].ord
  }

  function BoundFor(cursor: Option<nat>, count: int, first: nat): Bound {
    if cursor.None? then (if count > 0 then AtMost(first) else AtLeast(first))
    else if count > 0 then Below(first)
    else Above(first)
  }

  // A side in reading order, one row further than asked for.
  function Reading(side: seq<Row>, count: int): seq<Row> {
    (if count < 0 then Reversed(side) else side)[..Min(Abs(count) + 1, |side|)]
  }

  // The query reads exactly that.
  lemma QueryReadsSide(rows: seq<Row>, cursor: Option<nat>, count: int)
    requires NewestFirst(rows) && rows != []
    ensures Query(rows, BoundFor(cursor, count, Border(rows, cursor, count)), count < 0, Abs(count) + 1)
         == Reading(Side(rows, cursor, count), count)
  {
    var first := Border(rows, cursor, count);
    if cursor.None? {
      MatchingAll(rows, BoundFor(cursor, count, first));
    } else {
      MatchingSides(rows, first);
    }
  }

  // The loading loop: every row but the last goes into the list, the last one is held back.
  method ReadRows(q: seq<Row>, list: RowList<Row>) returns (trx: Option<Row>)
    requires list.collection == []
    modifies list
    ensures list.collection == if q == [] then [] else q[..|q| - 1]
    ensures trx == if q == [] then None else Some(q[|q| - 1])
    ensures list.first == old(list.first) && list.last == old(list.last)
  {
    trx := None;
    var i := 0;
    while i < |q|
      invariant 0 <= i <= |q|
      invariant trx == if i == 0 then None else Some(q[i - 1])
      invariant list.collection == if i == 0 then [] else q[..i - 1]
      invariant list.first == old(list.first) && list.last == old(list.last)
    {
      if trx.Some? {
        list.collection := list.collection + [trx.value];
      }
      trx := Some(q[i]);
      i := i + 1;
    }
  }
}
