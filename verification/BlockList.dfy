// makeBlocksList: a run of consecutive blocks pulled one by one from the node, with 64-bit block
// numbers and 32-bit counters (internal/repository/block.go).
module BlockList {
  import opened Common
  import opened Pages

  const TWO_64: int := 0x1_0000_0000_0000_0000

  // A node with the fixed chain of blocks 0..height; None is a block that does not exist.
  predicate IsHeight(height: int) {
    0 <= height < TWO_64 - 1
  }

  function BlockAt(height: int, tag: int): Option<int> {
    if 0 <= tag <= height then Some(tag) else None
  }

  // The number of the following block in the direction of the request, as a uint64.
  function NextTag(current: int, count: int): int {
    (if count > 0 then current - 1 else current + 1) % TWO_64
  }

  // The first block of the list: the given one, else the top or the bottom of the chain.
  function FirstBlock(height: int, num: Option<int>, count: int): Option<int> {
    if num.Some? then BlockAt(height, num.value)
    else if count < 0 then Some(0)
    else Some(height)
  }

  // How many blocks to pull at most, in 32-bit arithmetic.
  function ToPull(num: Option<int>, count: int): int {
    ToInt32((if count < 0 then ToInt32(-count) else count) + (if num.Some? then 1 else 0))
  }

  function Listed(num: Option<int>, b: int): seq<int> {
    if num == Some(b) then [] else [b]
  }

  class BlockSource {
    const height: int

    constructor (height: int)
      requires IsHeight(height)
      ensures this.height == height
    {
      this.height := height;
    }

    method BlockByNumber(tag: int) returns (b: Option<int>)
      ensures b == BlockAt(height, tag)
    {
      b := if 0 <= tag <= height then Some(tag) else None;
    }

    // Appends the blocks pulled and settles the boundary flags.
    method PullBlocks(num: Option<int>, count: int, toPull: int, first: int, list: RowList<int>)
      requires IsHeight(height) && 0 <= first <= height && count != 0
      requires list.collection == []
      requires num.Some? ==> num.value == first
      modifies list
      ensures list.View() == Pulled(height, num, count, toPull, first, old(list.isStart), old(list.isEnd))
    {
      hide RunFrom;
      RunMore(num, first, count, 0);
      ghost var room := Room(height, first, count);
      ghost var kept := 0;
      var current := first;
      var next: Option<int> := None;
      var i := 0;
      while i < toPull
        invariant 0 <= i <= room && (i <= toPull || i == 0)
        invariant kept == if i == 0 then 0 else i - 1
        invariant current == Along(first, count, kept)
        invariant next == if i == 0 then None else Some(Along(first, count, i))
        invariant list.collection == RunFrom(num, first, count, kept)
        invariant list.isStart == old(list.isStart) && list.isEnd == old(list.isEnd)
      {
        RunMore(num, first, count, kept);
        if next.Some? {
          list.collection := list.collection + Listed(num, current);
          current := next.value;
          kept := kept + 1;
        }
        NextBlock(height, first, count, i);
        next := BlockByNumber(NextTag(current, count));
        if next.None? {
          assert i == room;
          break;
        }
        i := i + 1;
      }
      RunMore(num, first, count, kept);
      assert kept + 1 == if toPull <= 0 then 1 else Min(toPull, room + 1);
      list.collection := list.collection + Listed(num, current);
      assert list.collection == RunFrom(num, first, count, kept + 1);
      list.isStart := list.isStart || (count < 0 && next.None?);
      list.isEnd := list.isEnd || (count > 0 && next.None?);
    }

    // Null stands for an error: the starting block does not exist.
    method MakeBlocksList(num: Option<int>, count: int) returns (list: RowList?<int>)
      requires IsHeight(height) && IsInt32(count) && count != 0
      requires num.Some? ==> 0 <= num.value < TWO_64
      ensures list == null <==> num.Some? && num.value > height
      ensures list != null ==> fresh(list) && list.View() == BlockPage(height, num, count)
    {
      var current := FirstBlock(height, num, count);
      if current.None? {
        return null;
      }
      list := new RowList(num.None? && count > 0, num.None? && count < 0);
      PullBlocks(num, count, ToPull(num, count), current.value, list);
      if count < 0 {
        list.Reverse();
      }
    }
  }

  // ---- What the loop leaves behind ----

  // The block i steps from `first` in the direction of the request.
  function Along(first: int, count: int, i: int): int {
    if count > 0 then first - i else first + i
  }

  // How many blocks follow `first` in that direction.
  function Room(height: int, first: int, count: int): int {
    if count > 0 then first else height - first
  }

  // The uint64 step finds the following block if there is one; below block 0 it finds nothing.
  lemma NextBlock(height: int, first: int, count: int, i: nat)
    requires IsHeight(height) && 0 <= first <= height && i <= Room(height, first, count)
    ensures BlockAt(height, NextTag(Along(first, count, i), count))
         == if i < Room(height, first, count) then Some(Along(first, count, i + 1)) else None
  {
  }

  // The first n blocks from `first` on, without the requested number itself.
  function RunFrom(num: Option<int>, first: int, count: int, n: nat): seq<int> {
    if n == 0 then [] else RunFrom(num, first, count, n - 1) + Listed(num, Along(first, count, n - 1))
  }

  lemma RunMore(num: Option<int>, first: int, count: int, n: nat)
    ensures RunFrom(num, first, count, 0) == []
    ensures RunFrom(num, first, count, n + 1)
         == RunFrom(num, first, count, n) + Listed(num, Along(first, count, n))
  {
  }

  // With toPull > 0 the loop ends at the toPull-th block from `first`, knowing whether one more
  // exists, or at the end of the chain; without any iteration it keeps the first block only.
  function Pulled(height: int, num: Option<int>, count: int, toPull: int, first: int,
                  isStart: bool, isEnd: bool): Page<int>
    requires 0 <= first <= height
  {
    var room := Room(height, first, count);
    var n := if toPull <= 0 then 1 else Min(toPull, room + 1);
    var ended := toPull <= 0 || toPull > room;
    Page(RunFrom(num, first, count, n), isStart || (count < 0 && ended), isEnd || (count > 0 && ended))
  }

  function BlockPage(height: int, num: Option<int>, count: int): Page<int>
    requires IsHeight(height) && (num.Some? ==> 0 <= num.value <= height)
  {
    var p := Pulled(height, num, count, ToPull(num, count), FirstBlock(height, num, count).value,
                    num.None? && count > 0, num.None? && count < 0);
    if count < 0 then p.(rows := Reversed(p.rows)) else p
  }

  // ---- What a page of blocks ought to be ----

  // Blocks from..to, exclusive at the top, newest first.
  function Descending(from: int, to: int): seq<int> {
    seq(if from <= to then to - from else 0, i => to - 1 - i)
  }

  // The |count| or fewer consecutive blocks next to `num`, without it, or from the top or the
  // bottom of the chain; a flag holds exactly when no block lies beyond the page on that side.
  function WantedBlocks(height: int, num: Option<int>, count: int): Page<int> {
    if count > 0 then
      var to := if num.Some? then num.value else height + 1;
      var from := if to - count > 0 then to - count else 0;
      Page(Descending(from, to), to == height + 1, from == 0)
    else
      var from := if num.Some? then num.value + 1 else 0;
      var to := if from - count <= height + 1 then from - count else height + 1;
      Page(Descending(from, to), to == height + 1, from == 0)
  }

  // The counter of blocks to pull does not fit 32 bits.
  predicate CounterOverflows(num: Option<int>, count: int) {
    count == MIN_INT32 || (num.Some? && Abs(count) == MAX_INT32)
  }

  // Nothing lies on the requested side beyond the starting block.
  predicate NothingBeyond(height: int, num: Option<int>, count: int)
    requires IsHeight(height) && (num.Some? ==> 0 <= num.value <= height)
  {
    Room(height, FirstBlock(height, num, count).value, count) == 0
  }

  lemma {:induction false} RunDown(num: Option<int>, first: int, count: int, n: nat)
    requires count > 0 && (num.Some? ==> num.value == first)
    ensures RunFrom(num, first, count, n)
         == Descending(first - n + 1, if num.Some? then first else first + 1)
  {
    if n > 0 {
      RunDown(num, first, count, n - 1);
    }
  }

  lemma {:induction false} RunUp(num: Option<int>, first: int, count: int, n: nat)
    requires count < 0 && (num.Some? ==> num.value == first)
    ensures Reversed(RunFrom(num, first, count, n))
         == Descending(if num.Some? then first + 1 else first, first + n)
  {
    if n > 0 {
      RunUp(num, first, count, n - 1);
      ReversedAppend(RunFrom(num, first, count, n - 1), Listed(num, first + n - 1));
    }
  }

  lemma ReversedAppend(run: seq<int>, last: seq<int>)
    requires |last| <= 1
    ensures Reversed(run + last) == last + Reversed(run)
  {
  }

  // The pull counter is the number of blocks to look at, unless it overflows and is negative.
  lemma ToPullValue(num: Option<int>, count: int)
    requires IsInt32(count) && count != 0
    ensures CounterOverflows(num, count) ==> ToPull(num, count) < 0
    ensures !CounterOverflows(num, count) ==>
      ToPull(num, count) == Abs(count) + (if num.Some? then 1 else 0)
  {
  }

  lemma PulledDown(height: int, num: Option<int>, count: int, toPull: int, first: int)
    requires IsHeight(height) && count > 0 && 0 <= first <= height
    requires first == (if num.Some? then num.value else height)
    requires toPull < 0 || toPull == count + (if num.Some? then 1 else 0)
    requires toPull < 0 ==> count >= 2
    ensures Pulled(height, num, count, toPull, first, num.None?, false) == WantedBlocks(height, num, count)
       <==> 0 <= toPull || first == 0
  {
    RunDown(num, first, count, if toPull <= 0 then 1 else Min(toPull, first + 1));
    if toPull < 0 && first > 0 {
      assert |WantedBlocks(height, num, count).rows| > (if num.Some? then 0 else 1);
    }
  }

  lemma PulledUp(height: int, num: Option<int>, count: int, toPull: int, first: int)
    requires IsHeight(height) && count < 0 && 0 <= first <= height
    requires first == (if num.Some? then num.value else 0)
    requires toPull < 0 || toPull == -count + (if num.Some? then 1 else 0)
    requires toPull < 0 ==> count <= -2
    ensures var p := Pulled(height, num, count, toPull, first, false, num.None?);
      p.(rows := Reversed(p.rows)) == WantedBlocks(height, num, count)
      <==> 0 <= toPull || first == height
  {
    RunUp(num, first, count, if toPull <= 0 then 1 else Min(toPull, height - first + 1));
    if toPull < 0 && first < height {
      assert |WantedBlocks(height, num, count).rows| > (if num.Some? then 0 else 1);
    }
  }

  // A request gets exactly the wanted blocks and truthful flags, including the step below block 0
  // where the unsigned number wraps. Only the counts whose pull counter overflows go wrong, and
  // those exactly when there is a block to deliver beyond the starting one.
  lemma BlockPageExactly(height: int, num: Option<int>, count: int)
    requires IsHeight(height) && IsInt32(count) && count != 0
    requires num.Some? ==> 0 <= num.value <= height
    ensures BlockPage(height, num, count) == WantedBlocks(height, num, count)
       <==> !CounterOverflows(num, count) || NothingBeyond(height, num, count)
  {
    ToPullValue(num, count);
    if count > 0 {
      PulledDown(height, num, count, ToPull(num, count), FirstBlock(height, num, count).value);
    } else {
      PulledUp(height, num, count, ToPull(num, count), FirstBlock(height, num, count).value);
    }
  }
}
