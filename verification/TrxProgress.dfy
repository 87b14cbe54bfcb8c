// The fan-out never locks up: whenever something is left to do, some goroutine can do it
// (internal/svc/dispatch_trx.go, dispatch_acc.go, dispatch_log.go).
module TrxProgress {
  import opened Common
  import opened TrxWork
  import opened TrxFanOut

  // No goroutine can move; only a stop signal could still be sent.
  ghost predicate AtRest(input: seq<Shape>, s: State) {
    forall a :: Enabled(input, s, a) ==> a.Close?
  }

  // Every event taken was interrupted, is awaited, stored, or being pushed.
  ghost predicate Followed(s: State) {
    forall e :: 0 <= e < |s.added| ==>
      e in s.interrupted || e in s.waiting || e in s.stored
      || (e == s.Evt() && (s.at.Burning? || s.at.Adding? || s.at.Pushing?))
  }

  lemma FollowedStep(input: seq<Shape>, s: State, a: Action)
    requires Followed(s) && Enabled(input, s, a)
    ensures Followed(Step(input, s, a))
  {
  }

  lemma {:induction false} FollowedAlways(input: seq<Shape>, acts: seq<Action>, t: State)
    requires After(input, acts) == Some(t)
    ensures Followed(t)
  {
    if acts != [] {
      var n := |acts| - 1;
      var s := After(input, acts[..n]).value;
      FollowedAlways(input, acts[..n], s);
      FollowedStep(input, s, acts[n]);
    }
  }

  ghost predicate NothingInFlight(s: State) {
    s.accounts == [] && s.logs == [] && s.accountWorker.None? && s.logWorker.None?
  }

  // A worker with an item can finish it, and a free worker can take one.
  lemma WorkersMove(input: seq<Shape>, s: State)
    requires Structure(input, s) && Joins(s)
    ensures s.accountWorker.Some? ==> Enabled(input, s, FinishAccount)
    ensures s.logWorker.Some? ==> Enabled(input, s, FinishLog)
    ensures s.accountWorker.None? && s.accounts != [] ==> Enabled(input, s, TakeAccount)
    ensures s.logWorker.None? && s.logs != [] ==> Enabled(input, s, TakeLog)
  {
    assert s.accountWorker.Some? ==> s.accountWorker.value in InFlight(s);
    assert s.logWorker.Some? ==> s.logWorker.value in InFlight(s);
  }

  lemma WorkersAtRest(input: seq<Shape>, s: State)
    requires Structure(input, s) && Joins(s) && AtRest(input, s)
    ensures NothingInFlight(s)
  {
    WorkersMove(input, s);
    assert !Enabled(input, s, TakeAccount) && !Enabled(input, s, TakeLog);
    assert !Enabled(input, s, FinishAccount) && !Enabled(input, s, FinishLog);
  }

  // A dispatcher at rest has returned or has taken every event; a full queue can not hold it up.
  lemma DispatcherAtRest(input: seq<Shape>, s: State)
    requires Structure(input, s) && AtRest(input, s) && NothingInFlight(s)
    ensures s.at.Ended? || (s.at.Ready? && |s.added| == |input| && s.stop == 0)
  {
    assert !Enabled(input, s, TakeEvent) && !Enabled(input, s, SendBurn) && !Enabled(input, s, Add);
    assert !Enabled(input, s, Push) && !Enabled(input, s, Spawn) && !Enabled(input, s, Broadcast);
    assert !Enabled(input, s, TakeStop) && !Enabled(input, s, PutStop);
  }

  // With nothing in flight an awaited event has all of its work done.
  lemma AwaitedDone(input: seq<Shape>, s: State, e: nat)
    requires Structure(input, s) && Joins(s) && NothingInFlight(s) && e in s.waiting
    requires !s.at.Pushing?
    ensures Enabled(input, s, Store(e))
  {
    assert InFlight(s) == multiset{};
    assert s.added[e] == s.out[e];
    forall i | 0 <= i < s.added[e] ensures Item(e, i) in s.handled {
      assert Item(e, i) in InFlight(s) || Item(e, i) in s.handled;
    }
    assert Open(s.handled, e, s.added[e]) == {};
  }

  lemma RestIsDone(input: seq<Shape>, s: State)
    requires Structure(input, s) && Joins(s) && AtRest(input, s)
    ensures NothingInFlight(s) && s.waiting == {} && s.closing == {}
    ensures s.at.Ended? || (s.at.Ready? && |s.added| == |input| && s.stop == 0)
  {
    WorkersAtRest(input, s);
    DispatcherAtRest(input, s);
    hide Joins;
    forall e | e in s.waiting ensures Enabled(input, s, Store(e)) {
      AwaitedDone(input, s, e);
    }
    assert forall e :: e in s.closing ==> e in s.stored && Enabled(input, s, Observe(e));
    assert forall e :: !Enabled(input, s, Store(e)) && !Enabled(input, s, Observe(e));
  }

  lemma DoneIsRest(input: seq<Shape>, s: State)
    requires NothingInFlight(s) && s.waiting == {} && s.closing == {}
    requires s.at.Ended? || (s.at.Ready? && |s.added| == |input| && s.stop == 0)
    ensures AtRest(input, s)
  {
  }

  // Nothing can move exactly when nothing is left to do: no item is queued or in work, no transaction
  // waits to be stored or to write the last seen block, and the dispatcher has returned or taken every
  // event.
  lemma AtRestExactly(input: seq<Trx>, acts: seq<Action>, t: State)
    requires After(Shapes(input), acts) == Some(t)
    ensures AtRest(Shapes(input), t)
       <==> NothingInFlight(t) && t.waiting == {} && t.closing == {}
            && (t.at.Ended? || (t.at.Ready? && |t.added| == |input| && t.stop == 0))
  {
    hide AtRest, Structure, Joins;
    assert |Shapes(input)| == |input|;
    JoinAlways(Shapes(input), acts, t);
    if AtRest(Shapes(input), t) {
      RestIsDone(Shapes(input), t);
    } else if NothingInFlight(t) && t.waiting == {} && t.closing == {} {
      if t.at.Ended? || (t.at.Ready? && |t.added| == |input| && t.stop == 0) {
        DoneIsRest(Shapes(input), t);
      }
    }
  }

  // So when everything has come to rest, each event the dispatcher took was stored once, all of its
  // work done, and wrote the last seen block, unless a stop cut its pushing short.
  lemma RestIsComplete(input: seq<Trx>, acts: seq<Action>, t: State, e: nat)
    requires After(Shapes(input), acts) == Some(t) && AtRest(Shapes(input), t) && e < |t.added|
    ensures e in t.interrupted <==> e !in t.stored
    ensures e in t.stored <==> e in t.observed
    ensures e !in t.interrupted ==>
      e < |input| && forall i :: 0 <= i < |Plan(input[e])| ==> Item(e, i) in t.handled
  {
    AtRestExactly(input, acts, t);
    JoinAlways(Shapes(input), acts, t);
    FollowedAlways(Shapes(input), acts, t);
    if e !in t.interrupted {
      StoredOnlyWhenProcessed(input, acts, t, e);
    }
  }

  // ---- Waiting and stopping ----

  ghost predicate Bounded(s: State) {
    |s.accounts| <= ACCOUNT_QUEUE && |s.logs| <= LOG_QUEUE
  }

  lemma BoundedStep(input: seq<Shape>, s: State, a: Action)
    requires Enabled(input, s, a) && Bounded(s)
    ensures Bounded(Step(input, s, a))
  {
  }

  lemma {:induction false} BoundedAlways(input: seq<Shape>, acts: seq<Action>, t: State)
    requires After(input, acts) == Some(t)
    ensures Bounded(t)
  {
    if acts != [] {
      var n := |acts| - 1;
      var s := After(input, acts[..n]).value;
      BoundedAlways(input, acts[..n], s);
      BoundedStep(input, s, acts[n]);
    }
  }

  // The dispatcher has to wait with a log record exactly while 5000 of them are queued, and with an
  // account exactly while 1000 are.
  lemma WaitsExactly(input: seq<Trx>, acts: seq<Action>, t: State)
    requires After(Shapes(input), acts) == Some(t) && t.at.Pushing?
    ensures 0 <= t.Evt() < |input| && t.at.idx < |Plan(input[t.Evt()])|
    ensures !Enabled(Shapes(input), t, Push) <==>
      if Plan(input[t.Evt()])[t.at.idx].LogRecord? then |t.logs| == 5000 else |t.accounts| == 1000
  {
    JoinAlways(Shapes(input), acts, t);
    BoundedAlways(Shapes(input), acts, t);
    WorkKind(input[t.Evt()], t.at.idx);
  }

  lemma OneMore(input: seq<Shape>, acts: seq<Action>, s: State, a: Action)
    requires After(input, acts) == Some(s) && Enabled(input, s, a)
    ensures After(input, acts + [a]) == Some(Step(input, s, a))
  {
    assert (acts + [a])[..|acts|] == acts;
  }

  // Once closed, the dispatcher can end by its own next steps from its main select and from a push it
  // waits with; the latter is given up and its event marked as interrupted. Nothing else changes.
  lemma StopEnds(input: seq<Trx>, acts: seq<Action>, t: State)
    requires After(Shapes(input), acts) == Some(t) && t.closed
    requires t.at.Ready? || t.at.Pushing? || t.at.Restopping?
    ensures var own := if t.at.Ready? then [TakeStop]
                       else if t.at.Pushing? then [TakeStop, PutStop, TakeStop] else [PutStop, TakeStop];
      After(Shapes(input), acts + own)
      == Some(t.(at := Ended, stop := 0,
                 interrupted := t.interrupted + if t.at.Pushing? then {t.Evt()} else {}))
  {
    JoinAlways(Shapes(input), acts, t);
    WaitGroupExact(input, acts, t);
    Stops(Shapes(input), acts, t);
  }

  lemma Stops(input: seq<Shape>, acts: seq<Action>, t: State)
    requires After(input, acts) == Some(t) && Shaped(input, t) && TokenKept(t) && t.closed
    requires t.at.Ready? || t.at.Pushing? || t.at.Restopping?
    ensures var own := if t.at.Ready? then [TakeStop]
                       else if t.at.Pushing? then [TakeStop, PutStop, TakeStop] else [PutStop, TakeStop];
      After(input, acts + own)
      == Some(t.(at := Ended, stop := 0,
                 interrupted := t.interrupted + if t.at.Pushing? then {t.Evt()} else {}))
  {
    hide After, Enabled, Step;
    assert t.interrupted + {} == t.interrupted;
    if t.at.Ready? {
      Ends(input, acts, t);
    } else if t.at.Restopping? {
      Returns(input, acts, t);
      Ends(input, acts + [PutStop], t.(at := Ready, stop := 1));
      assert acts + [PutStop] + [TakeStop] == acts + [PutStop, TakeStop];
    } else {
      var up := t.(at := Restopping, stop := 0, interrupted := t.interrupted + {t.Evt()});
      GivesUp(input, acts, t);
      Returns(input, acts + [TakeStop], up);
      Ends(input, acts + [TakeStop] + [PutStop], up.(at := Ready, stop := 1));
      assert acts + [TakeStop] + [PutStop] + [TakeStop] == acts + [TakeStop, PutStop, TakeStop];
    }
  }

  lemma GivesUp(input: seq<Shape>, acts: seq<Action>, s: State)
    requires After(input, acts) == Some(s) && Shaped(input, s) && s.stop == 1 && s.at.Pushing?
    ensures var t := s.(at := Restopping, stop := 0, interrupted := s.interrupted + {s.Evt()});
      After(input, acts + [TakeStop]) == Some(t) && Shaped(input, t)
  {
    hide After;
    OneMore(input, acts, s, TakeStop);
  }

  lemma Returns(input: seq<Shape>, acts: seq<Action>, s: State)
    requires After(input, acts) == Some(s) && Shaped(input, s) && s.stop == 0 && s.at.Restopping?
    ensures var t := s.(at := Ready, stop := 1);
      After(input, acts + [PutStop]) == Some(t) && Shaped(input, t)
  {
    hide After;
    OneMore(input, acts, s, PutStop);
  }

  lemma Ends(input: seq<Shape>, acts: seq<Action>, s: State)
    requires After(input, acts) == Some(s) && Shaped(input, s) && s.stop == 1 && s.at.Ready?
    ensures After(input, acts + [TakeStop]) == Some(s.(at := Ended, stop := 0))
  {
    hide After;
    OneMore(input, acts, s, TakeStop);
  }
}
