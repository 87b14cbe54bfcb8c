// When the last seen block can be trusted: a restarted scanner begins there, so no transaction below
// it should still be missing (internal/svc/dispatch_trx.go).
module TrxLastSeen {
  import opened Common
  import opened TrxWork
  import opened TrxFanOut

  // Some transaction of a block below the last seen one has not been stored.
  ghost predicate Ahead(input: seq<Shape>, s: State) {
    exists e :: 0 <= e < |input| && input[e].block < s.lastSeen && e !in s.stored
  }

  // No run ever gets there.
  ghost predicate NeverAhead(input: seq<Shape>) {
    forall acts :: After(input, acts).Some? ==> !Ahead(input, After(input, acts).value)
  }

  // ---- Driving events through the queues, one work item at a time ----

  lemma Extend(input: seq<Shape>, acts: seq<Action>, s: State, a: Action)
    returns (longer: seq<Action>, t: State)
    requires After(input, acts) == Some(s) && Enabled(input, s, a)
    ensures After(input, longer) == Some(t) && t == Step(input, s, a)
  {
    longer, t := acts + [a], Step(input, s, a);
    assert longer[..|longer| - 1] == acts;
  }

  // Nothing is in flight; `open` work items of the last event are not done.
  ghost predicate Quiet(input: seq<Shape>, s: State, open: nat) {
    && Shaped(input, s)
    && (forall e :: 0 <= e < |s.wg| ==> s.wg[e] == if e == s.Evt() then open else 0)
  }

  ghost predicate Empty(s: State) {
    s.accounts == [] && s.logs == [] && s.accountWorker.None? && s.logWorker.None?
  }

  // Storing has not gone on, and no event was taken.
  ghost predicate SameStores(s: State, t: State) {
    && t.waiting == s.waiting && t.stored == s.stored && t.closing == s.closing
    && t.observed == s.observed && t.lastSeen == s.lastSeen && |t.added| == |s.added|
  }

  lemma AddItem(input: seq<Shape>, s: State)
    requires Quiet(input, s, 0) && s.at.Adding? && s.at.idx < input[s.Evt()].size
    ensures Enabled(input, s, Add)
    ensures var t := Step(input, s, Add);
      Quiet(input, t, 1) && SameStores(s, t) && t.at == Pushing(s.at.idx) && (Empty(s) ==> Empty(t))
  {
  }

  lemma PushItem(input: seq<Shape>, s: State)
    requires Quiet(input, s, 1) && Empty(s) && s.at.Pushing?
    ensures Enabled(input, s, Push)
    ensures var t, item := Step(input, s, Push), Item(s.Evt(), s.at.idx);
      && Quiet(input, t, 1) && SameStores(s, t) && t.at == Adding(s.at.idx + 1)
      && t.accountWorker.None? && t.logWorker.None?
      && ((t.accounts == [item] && t.logs == []) || (t.accounts == [] && t.logs == [item]))
  {
  }

  lemma TakeItem(input: seq<Shape>, s: State, item: Item, a: Action)
    requires Quiet(input, s, 1) && s.at.Adding? && s.accountWorker.None? && s.logWorker.None?
    requires (s.accounts == [item] && s.logs == [] && a.TakeAccount?)
          || (s.accounts == [] && s.logs == [item] && a.TakeLog?)
    ensures Enabled(input, s, a)
    ensures var t := Step(input, s, a);
      && Quiet(input, t, 1) && SameStores(s, t) && t.at == s.at && t.accounts == t.logs == []
      && t.accountWorker == (if a.TakeAccount? then Some(item) else None)
      && t.logWorker == (if a.TakeAccount? then None else Some(item))
  {
  }

  lemma FinishItem(input: seq<Shape>, s: State, item: Item, a: Action)
    requires Quiet(input, s, 1) && s.at.Adding? && s.accounts == s.logs == [] && item.evt == s.Evt()
    requires (s.accountWorker == Some(item) && s.logWorker.None? && a.FinishAccount?)
          || (s.accountWorker.None? && s.logWorker == Some(item) && a.FinishLog?)
    ensures Enabled(input, s, a)
    ensures var t := Step(input, s, a);
      Quiet(input, t, 0) && SameStores(s, t) && t.at == s.at && Empty(t)
  {
  }

  lemma StillSame(s: State, t: State, u: State)
    requires SameStores(s, t) && SameStores(t, u)
    ensures SameStores(s, u) && s.Evt() == t.Evt() == u.Evt()
  {
  }

  // The dispatcher adds and pushes its next item.
  lemma PushNext(input: seq<Shape>, acts: seq<Action>, s: State)
    returns (longer: seq<Action>, t: State)
    requires After(input, acts) == Some(s) && Quiet(input, s, 0) && Empty(s)
    requires s.at.Adding? && s.at.idx < input[s.Evt()].size
    ensures After(input, longer) == Some(t) && Quiet(input, t, 1) && SameStores(s, t)
    ensures t.at == Adding(s.at.idx + 1) && t.accountWorker.None? && t.logWorker.None?
    ensures s.Evt() >= 0 && var item := Item(s.Evt(), s.at.idx);
      (t.accounts == [item] && t.logs == []) || (t.accounts == [] && t.logs == [item])
  {
    assert s.Evt() >= 0;
    hide *;
    AddItem(input, s);
    longer, t := Extend(input, acts, s, Add);
    var u := t;
    PushItem(input, u);
    longer, t := Extend(input, longer, u, Push);
    StillSame(s, u, t);
  }

  lemma DriveItem(input: seq<Shape>, acts: seq<Action>, s: State)
    returns (longer: seq<Action>, t: State)
    requires After(input, acts) == Some(s) && Quiet(input, s, 0) && Empty(s)
    requires s.at.Adding? && s.at.idx < input[s.Evt()].size
    ensures After(input, longer) == Some(t) && Quiet(input, t, 0) && Empty(t)
    ensures SameStores(s, t) && t.at == Adding(s.at.idx + 1)
  {
    hide *;
    longer, t := PushNext(input, acts, s);
    var item, account, u := Item(s.Evt(), s.at.idx), t.accounts != [], t;
    TakeItem(input, u, item, if account then TakeAccount else TakeLog);
    longer, t := Extend(input, longer, u, if account then TakeAccount else TakeLog);
    var v := t;
    StillSame(s, u, v);
    FinishItem(input, v, item, if account then FinishAccount else FinishLog);
    longer, t := Extend(input, longer, v, if account then FinishAccount else FinishLog);
    StillSame(s, v, t);
  }

  lemma DriveItems(input: seq<Shape>, acts: seq<Action>, s: State)
    returns (longer: seq<Action>, t: State)
    requires After(input, acts) == Some(s) && Quiet(input, s, 0) && Empty(s)
    requires s.at.Adding? && s.at.idx <= input[s.Evt()].size
    ensures After(input, longer) == Some(t) && Quiet(input, t, 0) && Empty(t)
    ensures SameStores(s, t) && t.at == Adding(input[s.Evt()].size)
    decreases input[s.Evt()].size - s.at.idx
  {
    hide After;
    longer, t := acts, s;
    if s.at.idx < input[s.Evt()].size {
      longer, t := DriveItem(input, acts, s);
      longer, t := DriveItems(input, longer, t);
    }
  }

  lemma BeginEvent(input: seq<Shape>, acts: seq<Action>, s: State)
    returns (longer: seq<Action>, t: State)
    requires After(input, acts) == Some(s) && Quiet(input, s, 0) && Empty(s)
    requires s.at.Ready? && |s.added| < |input|
    ensures After(input, longer) == Some(t) && Quiet(input, t, 0) && Empty(t)
    ensures t.at == Adding(0) && t.Evt() == |s.added|
    ensures t.waiting == s.waiting && t.stored == s.stored && t.closing == s.closing
    ensures t.observed == s.observed && t.lastSeen == s.lastSeen
  {
    hide After;
    longer, t := Extend(input, acts, s, TakeEvent);
    longer, t := Extend(input, longer, t, SendBurn);
  }

  lemma EndEvent(input: seq<Shape>, acts: seq<Action>, s: State)
    returns (longer: seq<Action>, t: State)
    requires After(input, acts) == Some(s) && Quiet(input, s, 0) && Empty(s)
    requires s.at.Adding? && s.at.idx >= input[s.Evt()].size
    ensures After(input, longer) == Some(t) && Quiet(input, t, 0) && Empty(t)
    ensures t == s.(at := Ready, waiting := s.waiting + {s.Evt()})
  {
    hide After;
    longer, t := Extend(input, acts, s, Spawn);
    longer, t := Extend(input, longer, t, Broadcast);
  }

  lemma DriveEvent(input: seq<Shape>, acts: seq<Action>, s: State)
    returns (longer: seq<Action>, t: State)
    requires After(input, acts) == Some(s) && Quiet(input, s, 0) && Empty(s)
    requires s.at.Ready? && |s.added| < |input|
    ensures After(input, longer) == Some(t) && Quiet(input, t, 0) && Empty(t)
    ensures t.at.Ready? && |t.added| == |s.added| + 1 && t.waiting == s.waiting + {|s.added|}
    ensures t.stored == s.stored && t.closing == s.closing
    ensures t.observed == s.observed && t.lastSeen == s.lastSeen
  {
    hide After, Quiet;
    longer, t := BeginEvent(input, acts, s);
    longer, t := DriveItems(input, longer, t);
    longer, t := EndEvent(input, longer, t);
  }

  lemma NothingYet(input: seq<Shape>)
    ensures After(input, []) == Some(Initial()) && Quiet(input, Initial(), 0) && Empty(Initial())
  {
  }

  // The first n events pushed and all their work done, none of them stored.
  lemma {:induction false} AllWaiting(input: seq<Shape>, n: nat)
    returns (acts: seq<Action>, t: State)
    requires n <= |input|
    ensures After(input, acts) == Some(t) && Quiet(input, t, 0) && Empty(t) && t.at.Ready?
    ensures |t.added| == n && (forall e: nat :: e in t.waiting <==> e < n)
    ensures t.stored == [] && t.closing == {} && t.observed == [] && t.lastSeen == 1
  {
    hide After, Quiet;
    if n == 0 {
      acts, t := [], Initial();
      NothingYet(input);
    } else {
      acts, t := AllWaiting(input, n - 1);
      acts, t := DriveEvent(input, acts, t);
    }
  }

  lemma StoreOne(input: seq<Shape>, acts: seq<Action>, s: State, e: nat)
    returns (longer: seq<Action>, t: State)
    requires After(input, acts) == Some(s) && Quiet(input, s, 0) && |s.added| == |input|
    requires e < |input| && e in s.waiting
    ensures After(input, longer) == Some(t) && Quiet(input, t, 0) && |t.added| == |input|
    ensures t == s.(waiting := s.waiting - {e}, stored := s.stored + [e], closing := s.closing + {e})
  {
    hide After;
    longer, t := Extend(input, acts, s, Store(e));
  }

  lemma ObserveOne(input: seq<Shape>, acts: seq<Action>, s: State, e: nat)
    returns (longer: seq<Action>, t: State)
    requires After(input, acts) == Some(s) && Quiet(input, s, 0) && |s.added| == |input|
    requires e < |input| && e in s.closing
    ensures After(input, longer) == Some(t) && Quiet(input, t, 0) && |t.added| == |input|
    ensures t == s.(closing := s.closing - {e}, observed := s.observed + [e], lastSeen := input[e].block)
  {
    hide After;
    longer, t := Extend(input, acts, s, Observe(e));
  }

  // Whatever the transactions are, any of them can overtake all others: all work is done, only it is
  // stored, and its block is the last seen one while the others still wait.
  lemma Overtakes(input: seq<Shape>, e: nat) returns (acts: seq<Action>, t: State)
    requires e < |input|
    ensures After(input, acts) == Some(t) && t.lastSeen == input[e].block
    ensures forall d :: 0 <= d < |input| && d != e ==> d in t.waiting && d !in t.stored
  {
    hide After;
    acts, t := AllWaiting(input, |input|);
    acts, t := StoreOne(input, acts, t, e);
    acts, t := ObserveOne(input, acts, t, e);
  }

  // For a stream of transactions the last seen block is safe in every run exactly when all of them are
  // of one block, and that is not block zero: with two blocks, some run sees the later one while a
  // transaction of the earlier one is still to be stored.
  lemma NeverAheadExactly(input: seq<Shape>)
    ensures NeverAhead(input)
       <==> (forall e :: 0 <= e < |input| ==> 1 <= input[e].block)
            && (forall d, e :: 0 <= d < |input| && 0 <= e < |input| ==> input[d].block == input[e].block)
  {
    hide Structure, Joins;
    if (forall e :: 0 <= e < |input| ==> 1 <= input[e].block)
      && (forall d, e :: 0 <= d < |input| && 0 <= e < |input| ==> input[d].block == input[e].block) {
      forall acts | After(input, acts).Some? ensures !Ahead(input, After(input, acts).value) {
        OneBlockNeverAhead(input, acts, After(input, acts).value);
      }
    } else if exists e :: 0 <= e < |input| && input[e].block < 1 {
      var e :| 0 <= e < |input| && input[e].block < 1;
      assert After(input, []) == Some(Initial()) && Ahead(input, Initial());
    } else {
      var d, e :| 0 <= d < |input| && 0 <= e < |input| && input[d].block < input[e].block;
      var acts, t := Overtakes(input, e);
      assert Ahead(input, t);
    }
  }

  lemma OneBlockNeverAhead(input: seq<Shape>, acts: seq<Action>, t: State)
    requires After(input, acts) == Some(t)
    requires forall e :: 0 <= e < |input| ==> 1 <= input[e].block
    requires forall d, e :: 0 <= d < |input| && 0 <= e < |input| ==> input[d].block == input[e].block
    ensures !Ahead(input, t)
  {
    JoinAlways(input, acts, t);
    assert LastSeen(input, t.observed, t.lastSeen);
  }

  // With events in block order it is enough that they write the observer in that order, none left out.
  lemma InOrderNeverAhead(input: seq<Shape>, acts: seq<Action>, t: State)
    requires After(input, acts) == Some(t)
    requires forall e :: 0 <= e < |input| ==> 1 <= input[e].block
    requires forall d, e :: 0 <= d < e < |input| ==> input[d].block <= input[e].block
    requires forall i :: 0 <= i < |t.observed| ==> t.observed[i] == i
    ensures !Ahead(input, t)
  {
    JoinAlways(input, acts, t);
    forall e | 0 <= e < |input| && input[e].block < t.lastSeen ensures e in t.stored {
      assert e < |t.observed| ==> t.observed[e] in t.observed;
    }
  }

  // ---- Two runs that go wrong ----

  // Two transactions of blocks 1 and 2 with a sender only.
  function TwoBlocks(): seq<Trx> {
    [Trx(1, 7, None, None, []), Trx(2, 8, None, None, [])]
  }

  lemma TwoShapes()
    ensures Shapes(TwoBlocks()) == [Shape(1, 1, 1), Shape(2, 1, 1)]
  {
  }

  // The goroutine of the second transaction overtakes the first one: block 2 is the last seen block
  // while the transaction of block 1 is still to be stored.
  lemma SecondOvertakesFirst() returns (acts: seq<Action>, t: State)
    ensures After(Shapes(TwoBlocks()), acts) == Some(t)
    ensures t.lastSeen == 2 && 0 in t.waiting && TwoBlocks()[0].block == 1
    ensures Ahead(Shapes(TwoBlocks()), t)
  {
    var input := Shapes(TwoBlocks());
    TwoShapes();
    acts, t := Overtakes(input, 1);
    assert input[0].block < t.lastSeen && 0 !in t.stored;
  }

  // Storing and writing are separate: the last seen block may also fall back to block 1 after both
  // transactions were stored, so it is not the block of the transaction stored last.
  lemma LastSeenFallsBack() returns (acts: seq<Action>, t: State)
    ensures After(Shapes(TwoBlocks()), acts) == Some(t)
    ensures t.stored == [0, 1] && t.observed == [1, 0] && t.lastSeen == 1
  {
    hide After;
    var input := Shapes(TwoBlocks());
    TwoShapes();
    acts, t := AllWaiting(input, 2);
    acts, t := StoreOne(input, acts, t, 0);
    acts, t := StoreOne(input, acts, t, 1);
    acts, t := ObserveOne(input, acts, t, 1);
    acts, t := ObserveOne(input, acts, t, 0);
  }
}
