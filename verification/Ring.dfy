// The circular buffer of internal/repository/cache/ring: the newest `capacity` values.
module Ring {
  import opened Common

  // What one Add does to the values read newest first.
  function Pushed<T>(capacity: nat, newestFirst: seq<T>, v: T): seq<T> {
    ([v] + newestFirst)[..Min(capacity, |newestFirst| + 1)]
  }

  lemma PushedAt<T>(capacity: nat, newestFirst: seq<T>, v: T)
    requires 0 < capacity
    ensures var r := Pushed(capacity, newestFirst, v);
      && |r| == Min(capacity, |newestFirst| + 1) && r[0] == v
      && forall i :: 0 < i < |r| ==> r[i] == newestFirst[i - 1]
  {
  }

  // The last `capacity` entries of a log, newest first.
  function Latest<T>(capacity: nat, log: seq<T>): (r: seq<T>)
    ensures |r| == Min(capacity, |log|)
    ensures forall i :: 0 <= i < |r| ==> r[i] == log[|log| - 1 - i]
  {
    seq(Min(capacity, |log|), i requires 0 <= i < Min(capacity, |log|) => log[|log| - 1 - i])
  }

  function PushAll<T>(capacity: nat, log: seq<T>): seq<T> {
    if log == [] then [] else Pushed(capacity, PushAll(capacity, log[..|log| - 1]), log[|log| - 1])
  }

  lemma PushedIsLatest<T>(capacity: nat, log: seq<T>, v: T)
    ensures Pushed(capacity, Latest(capacity, log), v) == Latest(capacity, log + [v])
  {
    var a, b := Pushed(capacity, Latest(capacity, log), v), Latest(capacity, log + [v]);
    assert forall i :: 0 <= i < |a| ==> a[i] == b[i];
  }

  // Whatever was added since the last Reset, the buffer holds exactly the most recent entries.
  lemma {:induction false} KeepsTheLatest<T>(capacity: nat, log: seq<T>)
    ensures PushAll(capacity, log) == Latest(capacity, log)
  {
    if log != [] {
      KeepsTheLatest(capacity, log[..|log| - 1]);
      PushedIsLatest(capacity, log[..|log| - 1], log[|log| - 1]);
      assert log[..|log| - 1] + [log[|log| - 1]] == log;
    }
  }

  class Ring<T> {
    var nodes: array<Option<T>>
    const capacity: nat
    var head: nat
    var depth: nat

    ghost predicate Valid()
      reads this, nodes
    {
      && 2 <= capacity == nodes.Length
      && head < capacity
      && depth <= capacity
      && forall i :: 0 <= i < depth ==> nodes[Slot(head, i)].Some?
    }

    function Slot(h: nat, i: nat): (k: int)
      ensures h < capacity && i < capacity ==> 0 <= k < capacity
    {
      if i <= h then h - i else h - i + capacity
    }

    // The stored values, newest first.
    ghost function Contents(): (s: seq<T>)
      reads this, nodes
      requires Valid()
      ensures |s| == depth
    {
      seq(depth, i requires 0 <= i < depth && Valid() reads this, nodes => nodes[Slot(head, i)].value)
    }

    constructor (capacity: nat)
      requires 2 <= capacity
      ensures Valid() && Contents() == [] && this.capacity == capacity
      ensures fresh(nodes)
    {
      this.capacity := capacity;
      nodes := new Option<T>[capacity](_ => None);
      head, depth := 0, 0;
    }

    // Moving the head by one, around the end, moves every older value one place back, out of its way.
    lemma HeadMoves(h: nat, moved: nat, i: nat)
      requires 2 <= capacity && h < capacity && moved == (if h + 1 == capacity then 0 else h + 1)
      requires 0 < i < capacity
      ensures Slot(moved, i) == Slot(h, i - 1) != moved
      ensures Slot(moved, 0) == moved
    {
    }

    method Add(value: T)
      requires Valid()
      modifies this`head, this`depth, nodes
      ensures Valid()
      ensures Contents() == Pushed(capacity, old(Contents()), value)
    {
      hide Pushed, Slot;
      ghost var was := Contents();
      head := head + 1;
      if head == capacity {
        head := 0;
      }
      depth := depth + 1;
      if depth > capacity {
        depth := capacity;
      }
      nodes[head] := Some(value);
      HeadMoves(old(head), head, 1);
      forall i | 0 < i < depth
        ensures nodes[Slot(head, i)] == Some(was[i - 1])
      {
        HeadMoves(old(head), head, i);
      }
      PushedAt(capacity, was, value);
      assert Contents() == Pushed(capacity, was, value);
    }

    method Reset()
      requires Valid()
      modifies this`depth
      ensures Valid() && Contents() == []
    {
      depth := 0;
    }

    method List(length: nat) returns (l: seq<T>)
      requires Valid()
      ensures l == Contents()[..Min(length, depth)]
    {
      var tl := length;
      if tl > depth {
        tl := depth;
      }
      l := [];
      var i := 0;
      while i < tl
        invariant 0 <= i <= tl
        invariant l == Contents()[..i]
      {
        var ix := head - i;
        if ix < 0 {
          ix := ix + capacity;
        }
        assert ix == Slot(head, i);
        if nodes[ix].None? {
          assert false;
          return;
        }
        l := l + [nodes[ix].value];
        i := i + 1;
      }
    }
  }
}
