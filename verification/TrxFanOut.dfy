// Fan-out of transactions to the account and log queues and the join that gates their storage,
// with all goroutines interleaved (internal/svc/dispatch_trx.go, dispatch_acc.go, dispatch_log.go).
module TrxFanOut {
  import opened Common
  import opened TrxWork

  const ACCOUNT_QUEUE: nat := 1000
  const LOG_QUEUE: nat := 5000

  // What the dispatcher needs to know of a transaction: its block, how many work items it has and
  // how many of them, the first ones, go to the account queue.
  datatype Shape = Shape(block: nat, size: nat, accounts: nat)

  function ShapeOf(x: Trx): Shape {
    Shape(x.block, |Plan(x)|, |AccountWork(x)|)
  }

  function Shapes(input: seq<Trx>): seq<Shape> {
    seq(|input|, i requires 0 <= i < |input| => ShapeOf(input[i]))
  }

  // Work item `idx` of the event taken as number `evt`.
  datatype Item = Item(evt: nat, idx: nat)

  // The transaction dispatcher: in its main select, sending the event to the burn queue, about to
  // add a work item to the WaitGroup, waiting to push it, broadcasting, putting a stop token
  // back, or returned.
  datatype Point =
    | Ready | Burning | Adding(idx: nat) | Pushing(idx: nat) | Broadcasting | Restopping | Ended

  datatype State = State(
    at: Point,
    added: seq<nat>,         // per event taken: WaitGroup additions
    out: seq<nat>,           // per event taken: work items that reached a queue
    wg: seq<int>,            // per event taken: WaitGroup counter
    accounts: seq<Item>, logs: seq<Item>,                    // the two queues
    accountWorker: Option<Item>, logWorker: Option<Item>,    // items being processed
    handled: set<Item>,      // items marked done
    interrupted: set<nat>,   // events whose pushing a stop cut short
    waiting: set<nat>,       // events whose waitAndStore goroutine has not stored them yet
    stored: seq<nat>,        // StoreTransaction calls in order
    closing: set<nat>,       // events stored whose block number is still to be written
    observed: seq<nat>,      // writes to the block observer in order
    lastSeen: nat,           // the block observer
    stop: nat, closed: bool)
  {
    // The event being pushed: the last one taken.
    function Evt(): int {
      |added| - 1
    }
  }

  datatype Action =
    | TakeEvent | SendBurn | Add | Push | Spawn | Broadcast
    | TakeAccount | FinishAccount | TakeLog | FinishLog
    | Store(evt: nat) | Observe(evt: nat)
    | Close | TakeStop | PutStop

  function Initial(): State {
    State(Ready, [], [], [], [], [], None, None, {}, {}, {}, [], {}, [], 1, 0, false)
  }

  predicate Shaped(input: seq<Shape>, s: State) {
    && |s.added| == |s.wg| == |s.out| <= |input|
    && (s.at.Burning? || s.at.Adding? || s.at.Pushing? ==> 0 < |s.added|)
  }

  // Holds for every item in a worker and every event awaited, by the invariant below.
  predicate Taken(s: State, evt: nat) {
    evt < |s.wg|
  }

  predicate Enabled(input: seq<Shape>, s: State, a: Action) {
    Shaped(input, s) &&
    match a
    case TakeEvent => s.at.Ready? && |s.added| < |input|
    case SendBurn => s.at.Burning?
    case Add => s.at.Adding? && s.at.idx < input[s.Evt()].size
    case Push =>
      && s.at.Pushing?
      && (if s.at.idx < input[s.Evt()].accounts then |s.accounts| < ACCOUNT_QUEUE
          else |s.logs| < LOG_QUEUE)
    case Spawn => s.at.Adding? && s.at.idx >= input[s.Evt()].size
    case Broadcast => s.at.Broadcasting?
    case TakeAccount => s.accountWorker.None? && s.accounts != []
    case FinishAccount => s.accountWorker.Some? && Taken(s, s.accountWorker.value.evt)
    case TakeLog => s.logWorker.None? && s.logs != []
    case FinishLog => s.logWorker.Some? && Taken(s, s.logWorker.value.evt)
    case Store(e) => e in s.waiting && Taken(s, e) && s.wg[e] == 0
    case Observe(e) => e in s.closing && Taken(s, e)
    case Close => !s.closed
    case TakeStop => s.stop > 0 && (s.at.Ready? || s.at.Pushing?)
    case PutStop => s.at.Restopping? && s.stop < 1
  }

  function Pushed(input: seq<Shape>, s: State): State
    requires Shaped(input, s) && s.at.Pushing?
  {
    var e := s.Evt();
    var item := Item(e, s.at.idx);
    var t := s.(at := Adding(s.at.idx + 1), out := s.out[e := s.out[e] + 1]);
    if s.at.idx < input[e].accounts then t.(accounts := s.accounts + [item])
    else t.(logs := s.logs + [item])
  }

  // WatchDog.Done for a processed item.
  function Finished(s: State, item: Item): State
    requires item.evt < |s.wg|
  {
    s.(handled := s.handled + {item}, wg := s.wg[item.evt := s.wg[item.evt] - 1])
  }

  function Step(input: seq<Shape>, s: State, a: Action): State
    requires Enabled(input, s, a)
  {
    match a
    case TakeEvent =>
      s.(at := Burning, added := s.added + [0], out := s.out + [0], wg := s.wg + [0])
    case SendBurn => s.(at := Adding(0))
    case Add =>
      var e := s.Evt();
      s.(at := Pushing(s.at.idx), added := s.added[e := s.added[e] + 1], wg := s.wg[e := s.wg[e] + 1])
    case Push => Pushed(input, s)
    case Spawn => s.(at := Broadcasting, waiting := s.waiting + {s.Evt()})
    case Broadcast => s.(at := Ready)
    case TakeAccount => s.(accountWorker := Some(s.accounts[0]), accounts := s.accounts[1..])
    case FinishAccount => Finished(s, s.accountWorker.value).(accountWorker := None)
    case TakeLog => s.(logWorker := Some(s.logs[0]), logs := s.logs[1..])
    case FinishLog => Finished(s, s.logWorker.value).(logWorker := None)
    case Store(e) =>
      s.(waiting := s.waiting - {e}, stored := s.stored + [e], closing := s.closing + {e})
    case Observe(e) =>
      s.(closing := s.closing - {e}, observed := s.observed + [e], lastSeen := input[e].block)
    case Close => s.(closed := true, stop := s.stop + 1)
    case TakeStop =>
      if s.at.Ready? then s.(stop := s.stop - 1, at := Ended)
      else s.(stop := s.stop - 1, at := Restopping, interrupted := s.interrupted + {s.Evt()})
    case PutStop => s.(stop := s.stop + 1, at := Ready)
  }

  // ---- The invariant, each part a relation between the fields it concerns ----

  // Work of event e added to its WaitGroup and not marked done.
  ghost function Open(handled: set<Item>, e: nat, added: nat): set<nat> {
    set i | 0 <= i < added && Item(e, i) !in handled
  }

  ghost predicate Counts(added: seq<nat>, wg: seq<int>, handled: set<Item>) {
    |added| == |wg| && forall e :: 0 <= e < |added| ==> wg[e] == |Open(handled, e, added[e])|
  }

  function Held(worker: Option<Item>): multiset<Item> {
    if worker.Some? then multiset{worker.value} else multiset{}
  }

  function InFlight(s: State): multiset<Item> {
    multiset(s.accounts) + multiset(s.logs) + Held(s.accountWorker) + Held(s.logWorker)
  }

  // The items that reached a queue are each in exactly one place: in flight once, or handled.
  ghost predicate Placed(out: seq<nat>, flight: multiset<Item>, handled: set<Item>) {
    && (forall x :: x in flight ==> flight[x] == 1 && x !in handled)
    && (forall x :: x in flight || x in handled <==> x.evt < |out| && x.idx < out[x.evt])
  }

  // An event has one addition more than pushes exactly while or after a push was cut short.
  ghost predicate Balanced(at: Point, added: seq<nat>, out: seq<nat>, interrupted: set<nat>) {
    && |added| == |out|
    && forall e :: 0 <= e < |added| ==>
         added[e] == out[e] + (if e in interrupted || (at.Pushing? && e == |added| - 1) then 1 else 0)
  }

  ghost predicate Current(input: seq<Shape>, s: State) {
    s.at.Burning? || s.at.Adding? || s.at.Pushing? ==>
      var e := s.Evt();
      && 0 <= e < |input| && e !in s.waiting && e !in s.stored && e !in s.interrupted
      && s.added[e] == (if s.at.Burning? then 0 else if s.at.Adding? then s.at.idx else s.at.idx + 1)
      && s.added[e] <= input[e].size
  }

  ghost predicate Complete(input: seq<Shape>, added: seq<nat>, interrupted: set<nat>, e: nat) {
    e < |added| <= |input| && added[e] == input[e].size && e !in interrupted
  }

  // The block observer holds the block of the event that wrote it last.
  ghost predicate LastSeen(input: seq<Shape>, observed: seq<nat>, lastSeen: nat) {
    if observed == [] then lastSeen == 1
    else observed[|observed| - 1] < |input| && lastSeen == input[observed[|observed| - 1]].block
  }

  // Every stored event writes the block observer once, after it was stored.
  ghost predicate Written(stored: seq<nat>, closing: set<nat>, observed: seq<nat>) {
    && (forall e :: e in stored <==> e in closing || e in observed)
    && (forall e :: e in observed ==> e !in closing)
    && (forall i, j :: 0 <= i < j < |observed| ==> observed[i] != observed[j])
  }

  // Events awaited or stored were pushed completely, and none is stored twice.
  ghost predicate Awaited(input: seq<Shape>, s: State) {
    && (forall e :: e in s.waiting || e in s.stored ==> Complete(input, s.added, s.interrupted, e))
    && (forall e :: e in s.stored ==> e !in s.waiting)
    && (forall i, j :: 0 <= i < j < |s.stored| ==> s.stored[i] != s.stored[j])
    && (forall e :: e in s.interrupted ==> e < |s.added|)
    && Written(s.stored, s.closing, s.observed)
    && LastSeen(input, s.observed, s.lastSeen)
  }

  ghost predicate TokenKept(s: State) {
    s.stop + (if s.at.Restopping? then 1 else 0) + (if s.at.Ended? then 1 else 0)
    == (if s.closed then 1 else 0)
  }

  ghost predicate Structure(input: seq<Shape>, s: State) {
    && Shaped(input, s) && Balanced(s.at, s.added, s.out, s.interrupted)
    && Current(input, s) && Awaited(input, s) && TokenKept(s)
  }

  ghost predicate Settled(added: seq<nat>, handled: set<Item>, stored: seq<nat>) {
    forall e :: e in stored ==> e < |added| && Open(handled, e, added[e]) == {}
  }

  ghost predicate Joins(s: State) {
    && Counts(s.added, s.wg, s.handled)
    && Placed(s.out, InFlight(s), s.handled)
    && Settled(s.added, s.handled, s.stored)
  }

  // ---- How the parts change ----

  lemma CountsAdd(added: seq<nat>, wg: seq<int>, handled: set<Item>, e: nat)
    requires Counts(added, wg, handled) && e < |added| && Item(e, added[e]) !in handled
    ensures Counts(added[e := added[e] + 1], wg[e := wg[e] + 1], handled)
  {
    assert Open(handled, e, added[e] + 1) == Open(handled, e, added[e]) + {added[e]};
  }

  lemma CountsNew(added: seq<nat>, wg: seq<int>, handled: set<Item>)
    requires Counts(added, wg, handled)
    ensures Counts(added + [0], wg + [0], handled)
  {
    assert Open(handled, |added|, 0) == {};
  }

  lemma CountsDone(added: seq<nat>, wg: seq<int>, handled: set<Item>, x: Item)
    requires Counts(added, wg, handled) && x.evt < |added| && x.idx < added[x.evt] && x !in handled
    ensures Counts(added, wg[x.evt := wg[x.evt] - 1], handled + {x})
  {
    assert Open(handled + {x}, x.evt, added[x.evt]) == Open(handled, x.evt, added[x.evt]) - {x.idx};
    assert forall e :: 0 <= e < |added| && e != x.evt ==>
      Open(handled + {x}, e, added[e]) == Open(handled, e, added[e]);
  }

  lemma PlacedPush(out: seq<nat>, flight: multiset<Item>, handled: set<Item>, e: nat)
    requires Placed(out, flight, handled) && e < |out|
    ensures Placed(out[e := out[e] + 1], flight + multiset{Item(e, out[e])}, handled)
  {
  }

  lemma PlacedDone(out: seq<nat>, flight: multiset<Item>, handled: set<Item>, x: Item)
    requires Placed(out, flight, handled) && x in flight
    ensures Placed(out, flight - multiset{x}, handled + {x})
    ensures x !in handled && x.evt < |out| && x.idx < out[x.evt]
  {
  }

  lemma QueueSplit(q: seq<Item>)
    requires q != []
    ensures multiset(q) == multiset{q[0]} + multiset(q[1..])
  {
    assert q == [q[0]] + q[1..];
  }

  lemma StructureQueueStep(input: seq<Shape>, s: State, a: Action)
    requires Structure(input, s) && Enabled(input, s, a)
    requires a.TakeAccount? || a.TakeLog? || a.FinishAccount? || a.FinishLog?
    ensures Structure(input, Step(input, s, a))
  {
  }

  lemma StructureStopStep(input: seq<Shape>, s: State, a: Action)
    requires Structure(input, s) && Enabled(input, s, a)
    requires a.Close? || a.TakeStop? || a.PutStop?
    ensures Structure(input, Step(input, s, a))
  {
  }

  lemma StructureStoreStep(input: seq<Shape>, s: State, a: Action)
    requires Structure(input, s) && Enabled(input, s, a)
    requires a.Store? || a.Observe?
    ensures Structure(input, Step(input, s, a))
  {
  }

  lemma StructureEventStep(input: seq<Shape>, s: State, a: Action)
    requires Structure(input, s) && Enabled(input, s, a)
    requires a.TakeEvent? || a.SendBurn? || a.Add? || a.Push? || a.Spawn? || a.Broadcast?
    ensures Structure(input, Step(input, s, a))
  {
  }

  lemma {:induction false} StructureStep(input: seq<Shape>, s: State, a: Action)
    requires Structure(input, s) && Enabled(input, s, a)
    ensures Structure(input, Step(input, s, a))
  {
    if a.TakeAccount? || a.TakeLog? || a.FinishAccount? || a.FinishLog? {
      StructureQueueStep(input, s, a);
    } else if a.Close? || a.TakeStop? || a.PutStop? {
      StructureStopStep(input, s, a);
    } else if a.Store? || a.Observe? {
      StructureStoreStep(input, s, a);
    } else {
      StructureEventStep(input, s, a);
    }
  }

  lemma SettledDone(added: seq<nat>, handled: set<Item>, stored: seq<nat>, x: Item)
    requires Settled(added, handled, stored)
    ensures Settled(added, handled + {x}, stored)
  {
    assert forall e :: 0 <= e < |added| ==>
      Open(handled + {x}, e, added[e]) <= Open(handled, e, added[e]);
  }

  lemma FinishedJoins(s: State, x: Item, t: State)
    requires Joins(s) && x in InFlight(s) && Balanced(s.at, s.added, s.out, s.interrupted)
    requires x.evt < |s.wg| && InFlight(t) == InFlight(s) - multiset{x}
    requires t.added == s.added && t.out == s.out && t.stored == s.stored
    requires t.wg == Finished(s, x).wg && t.handled == Finished(s, x).handled
    ensures Joins(t)
  {
    PlacedDone(s.out, InFlight(s), s.handled, x);
    CountsDone(s.added, s.wg, s.handled, x);
    SettledDone(s.added, s.handled, s.stored, x);
  }

  lemma FlightPushed(input: seq<Shape>, s: State)
    requires Shaped(input, s) && s.at.Pushing?
    ensures InFlight(Pushed(input, s)) == InFlight(s) + multiset{Item(s.Evt(), s.at.idx)}
  {
  }

  lemma PushedJoins(s: State, t: State, e: nat)
    requires Joins(s) && e < |s.out|
    requires InFlight(t) == InFlight(s) + multiset{Item(e, s.out[e])} && t.out == s.out[e := s.out[e] + 1]
    requires t.added == s.added && t.wg == s.wg && t.handled == s.handled && t.stored == s.stored
    ensures Joins(t)
  {
    PlacedPush(s.out, InFlight(s), s.handled, e);
  }

  lemma FlightTaken(s: State, t: State)
    requires
      || (s.accounts != [] && s.accountWorker.None?
          && t == s.(accountWorker := Some(s.accounts[0]), accounts := s.accounts[1..]))
      || (s.logs != [] && s.logWorker.None?
          && t == s.(logWorker := Some(s.logs[0]), logs := s.logs[1..]))
    ensures InFlight(t) == InFlight(s)
  {
    if s.accounts != [] {
      QueueSplit(s.accounts);
    }
    if s.logs != [] {
      QueueSplit(s.logs);
    }
  }

  lemma FlightFinished(s: State, t: State)
    requires t.accounts == s.accounts && t.logs == s.logs
    ensures s.accountWorker.Some? && t.accountWorker.None? && t.logWorker == s.logWorker ==>
      InFlight(t) == InFlight(s) - multiset{s.accountWorker.value} && s.accountWorker.value in InFlight(s)
    ensures s.logWorker.Some? && t.logWorker.None? && t.accountWorker == s.accountWorker ==>
      InFlight(t) == InFlight(s) - multiset{s.logWorker.value} && s.logWorker.value in InFlight(s)
  {
  }

  lemma TakenJoins(s: State, t: State)
    requires Joins(s) && Balanced(s.at, s.added, s.out, s.interrupted)
    requires InFlight(t) == InFlight(s) && t.handled == s.handled && t.stored == s.stored
    requires t.added == s.added + [0] && t.out == s.out + [0] && t.wg == s.wg + [0]
    ensures Joins(t)
  {
    hide Counts, InFlight;
    CountsNew(s.added, s.wg, s.handled);
  }

  lemma AddedJoins(s: State, t: State, e: nat)
    requires Joins(s) && e < |s.added| == |s.wg| == |s.out| && s.added[e] == s.out[e] && e !in s.stored
    requires InFlight(t) == InFlight(s) && t.handled == s.handled && t.stored == s.stored
    requires t.out == s.out && t.added == s.added[e := s.added[e] + 1] && t.wg == s.wg[e := s.wg[e] + 1]
    ensures Joins(t)
  {
    assert Item(e, s.added[e]) !in s.handled;
    hide Counts, InFlight;
    CountsAdd(s.added, s.wg, s.handled, e);
  }

  lemma StoredJoins(s: State, t: State, e: nat)
    requires Joins(s) && e < |s.wg| && s.wg[e] == 0
    requires InFlight(t) == InFlight(s) && t.handled == s.handled && t.stored == s.stored + [e]
    requires t.added == s.added && t.wg == s.wg && t.out == s.out
    ensures Joins(t)
  {
  }

  lemma JoinsQueueStep(input: seq<Shape>, s: State, a: Action)
    requires Shaped(input, s) && Joins(s) && Enabled(input, s, a)
    requires Balanced(s.at, s.added, s.out, s.interrupted)
    requires a.TakeAccount? || a.TakeLog? || a.FinishAccount? || a.FinishLog?
    ensures Joins(Step(input, s, a))
  {
    var t := Step(input, s, a);
    if a.TakeAccount? || a.TakeLog? {
      FlightTaken(s, t);
    } else {
      FlightFinished(s, t);
      FinishedJoins(s, (if a.FinishAccount? then s.accountWorker else s.logWorker).value, t);
    }
  }

  lemma JoinsAddStep(input: seq<Shape>, s: State)
    requires Structure(input, s) && Joins(s) && Enabled(input, s, Add)
    ensures Joins(Step(input, s, Add))
  {
    assert s.added[s.Evt()] == s.out[s.Evt()];
    AddedJoins(s, Step(input, s, Add), s.Evt());
  }

  lemma JoinsPushStep(input: seq<Shape>, s: State)
    requires Joins(s) && Enabled(input, s, Push) && s.out[s.Evt()] == s.at.idx
    ensures Joins(Pushed(input, s))
  {
    var e := s.Evt();
    assert Item(e, s.out[e]) == Item(e, s.at.idx);
    FlightPushed(input, s);
    PushedJoins(s, Pushed(input, s), e);
  }

  lemma JoinsOtherStep(input: seq<Shape>, s: State, a: Action)
    requires Joins(s) && Enabled(input, s, a)
    requires a.SendBurn? || a.Spawn? || a.Broadcast? || a.Observe? || a.Close? || a.TakeStop? || a.PutStop?
    ensures Joins(Step(input, s, a))
  {
    assert InFlight(Step(input, s, a)) == InFlight(s);
  }

  lemma JoinsStep(input: seq<Shape>, s: State, a: Action)
    requires Structure(input, s) && Joins(s) && Enabled(input, s, a)
    ensures Joins(Step(input, s, a))
  {
    if a.Add? {
      JoinsAddStep(input, s);
    } else if a.Push? {
      JoinsPushStep(input, s);
    } else if a.TakeEvent? {
      TakenJoins(s, Step(input, s, a));
    } else if a.Store? {
      StoredJoins(s, Step(input, s, a), a.evt);
    } else if a.TakeAccount? || a.TakeLog? || a.FinishAccount? || a.FinishLog? {
      JoinsQueueStep(input, s, a);
    } else {
      JoinsOtherStep(input, s, a);
    }
  }

  // The state a sequence of actions leads to, or None when one of them is not enabled.
  function After(input: seq<Shape>, acts: seq<Action>): Option<State> {
    if acts == [] then Some(Initial())
    else
      var n := |acts| - 1;
      match After(input, acts[..n])
      case None => None
      case Some(s) =>
        if Enabled(input, s, acts[n]) then Some(Step(input, s, acts[n])) else None
  }

  lemma {:induction false} JoinAlways(input: seq<Shape>, acts: seq<Action>, t: State)
    requires After(input, acts) == Some(t)
    ensures Structure(input, t) && Joins(t)
  {
    if acts != [] {
      var n := |acts| - 1;
      JoinAlways(input, acts[..n], After(input, acts[..n]).value);
      StructureStep(input, After(input, acts[..n]).value, acts[n]);
      JoinsStep(input, After(input, acts[..n]).value, acts[n]);
    }
  }

  // ---- Which queue an item goes to ----

  // Account items lie before the first log item of their event, log items from there on.
  ghost predicate ForAccounts(input: seq<Shape>, x: Item) {
    x.evt < |input| && x.idx < input[x.evt].accounts
  }

  ghost predicate ForLogs(input: seq<Shape>, x: Item) {
    x.evt < |input| && input[x.evt].accounts <= x.idx < input[x.evt].size
  }

  ghost predicate Routed(input: seq<Shape>, s: State) {
    && (forall x :: x in s.accounts ==> ForAccounts(input, x))
    && (s.accountWorker.Some? ==> ForAccounts(input, s.accountWorker.value))
    && (forall x :: x in s.logs ==> ForLogs(input, x))
    && (s.logWorker.Some? ==> ForLogs(input, s.logWorker.value))
  }

  lemma RoutedPush(input: seq<Shape>, s: State)
    requires Routed(input, s) && Enabled(input, s, Push) && s.at.idx < input[s.Evt()].size
    ensures Routed(input, Pushed(input, s))
  {
  }

  lemma RoutedQueues(input: seq<Shape>, s: State, a: Action)
    requires Routed(input, s) && Enabled(input, s, a)
    requires a.TakeAccount? || a.TakeLog? || a.FinishAccount? || a.FinishLog?
    ensures Routed(input, Step(input, s, a))
  {
  }

  lemma RoutedOthers(input: seq<Shape>, s: State, a: Action)
    requires Routed(input, s) && Enabled(input, s, a) && !a.Push?
    requires !a.TakeAccount? && !a.TakeLog? && !a.FinishAccount? && !a.FinishLog?
    ensures Routed(input, Step(input, s, a))
  {
  }

  lemma RoutedStep(input: seq<Shape>, s: State, a: Action)
    requires Structure(input, s) && Routed(input, s) && Enabled(input, s, a)
    ensures Routed(input, Step(input, s, a))
  {
    if a.Push? {
      assert s.added[s.Evt()] == s.at.idx + 1;
      hide Routed;
      RoutedPush(input, s);
    } else if a.TakeAccount? || a.TakeLog? || a.FinishAccount? || a.FinishLog? {
      hide Routed, Structure;
      RoutedQueues(input, s, a);
    } else {
      hide Routed, Structure;
      RoutedOthers(input, s, a);
    }
  }

  lemma {:induction false} RoutedAlways(input: seq<Shape>, acts: seq<Action>, t: State)
    requires After(input, acts) == Some(t)
    ensures Routed(input, t)
  {
    hide Structure, Routed;
    if acts == [] {
      NothingRouted(input);
    } else {
      var n := |acts| - 1;
      RoutedAlways(input, acts[..n], After(input, acts[..n]).value);
      JoinAlways(input, acts[..n], After(input, acts[..n]).value);
      RoutedStep(input, After(input, acts[..n]).value, acts[n]);
    }
  }

  lemma NothingRouted(input: seq<Shape>)
    ensures Routed(input, Initial())
  {
  }

  ghost predicate IsLogWork(input: seq<Trx>, x: Item) {
    x.evt < |input| && x.idx < |Plan(input[x.evt])| && Plan(input[x.evt])[x.idx].LogRecord?
  }

  ghost predicate IsAccountWork(input: seq<Trx>, x: Item) {
    x.evt < |input| && x.idx < |Plan(input[x.evt])| && !Plan(input[x.evt])[x.idx].LogRecord?
  }

  // In every reachable state the log queue and its worker hold log records only, and the account queue
  // and its worker everything else.
  lemma QueuesExactly(input: seq<Trx>, acts: seq<Action>, t: State)
    requires After(Shapes(input), acts) == Some(t)
    ensures forall x :: x in t.logs || t.logWorker == Some(x) ==> IsLogWork(input, x)
    ensures forall x :: x in t.accounts || t.accountWorker == Some(x) ==> IsAccountWork(input, x)
  {
    RoutedAlways(Shapes(input), acts, t);
    forall x: Item | ForLogs(Shapes(input), x) ensures IsLogWork(input, x) {
      WorkKind(input[x.evt], x.idx);
    }
    forall x: Item | ForAccounts(Shapes(input), x) ensures IsAccountWork(input, x) {
      WorkKind(input[x.evt], x.idx);
    }
  }

  lemma WorkKind(x: Trx, idx: nat)
    ensures ShapeOf(x).accounts <= ShapeOf(x).size == |Plan(x)|
    ensures idx < |Plan(x)| ==> (Plan(x)[idx].LogRecord? <==> ShapeOf(x).accounts <= idx)
  {
  }

  // ---- What the join guarantees ----

  // The WaitGroup of an event counts its items added and not yet marked done; so it never drops
  // below zero, and the one stop token is in its channel, about to go back, or consumed.
  lemma WaitGroupExact(input: seq<Trx>, acts: seq<Action>, t: State)
    requires After(Shapes(input), acts) == Some(t)
    ensures forall e :: 0 <= e < |t.wg| ==> t.wg[e] == |Open(t.handled, e, t.added[e])|
    ensures TokenKept(t)
    ensures t.at.Restopping? ==> Enabled(Shapes(input), t, PutStop)
  {
    JoinAlways(Shapes(input), acts, t);
  }

  // Every work item that reached a queue is in exactly one queue or worker, or marked done.
  lemma NoItemLostOrDoubled(input: seq<Trx>, acts: seq<Action>, t: State, x: Item)
    requires After(Shapes(input), acts) == Some(t)
    ensures x.evt < |t.out| && x.idx < t.out[x.evt] <==>
              InFlight(t)[x] + (if x in t.handled then 1 else 0) == 1
    ensures InFlight(t)[x] + (if x in t.handled then 1 else 0) <= 1
  {
    JoinAlways(Shapes(input), acts, t);
  }

  // A transaction is stored only after its sender, recipient, created contract and every log have
  // been processed, at most once, and never when a stop cut its pushing short.
  lemma StoredOnlyWhenProcessed(input: seq<Trx>, acts: seq<Action>, t: State, e: nat)
    requires After(Shapes(input), acts) == Some(t) && e in t.stored
    ensures e < |input| && e !in t.interrupted && multiset(t.stored)[e] == 1
    ensures forall i :: 0 <= i < |Plan(input[e])| ==> Item(e, i) in t.handled
  {
    JoinAlways(Shapes(input), acts, t);
    forall i | 0 <= i < |Plan(input[e])| ensures Item(e, i) in t.handled {
      assert i !in Open(t.handled, e, t.added[e]);
    }
    DistinctOnce(t.stored, e);
  }

  // A transaction waiting to be stored can be stored exactly when all of its work is done.
  lemma StoreEnabledExactly(input: seq<Trx>, acts: seq<Action>, t: State, e: nat)
    requires After(Shapes(input), acts) == Some(t) && e in t.waiting
    ensures e < |input|
    ensures Enabled(Shapes(input), t, Store(e)) <==>
              forall i :: 0 <= i < |Plan(input[e])| ==> Item(e, i) in t.handled
  {
    JoinAlways(Shapes(input), acts, t);
    var open := Open(t.handled, e, t.added[e]);
    if open != {} {
      var i :| i in open;
      assert |open| > 0 && Item(e, i) !in t.handled;
    }
    assert forall i :: 0 <= i < t.added[e] && Item(e, i) !in t.handled ==> i in open;
  }

  // The last seen block is the block of the observer write that came last; each stored transaction
  // writes once, after it was stored.
  lemma LastSeenExactly(input: seq<Trx>, acts: seq<Action>, t: State)
    requires After(Shapes(input), acts) == Some(t)
    ensures forall e :: e in t.stored <==> e in t.closing || e in t.observed
    ensures forall e :: e in t.observed ==> e < |input| && e !in t.closing && multiset(t.observed)[e] == 1
    ensures t.observed == [] ==> t.lastSeen == 1
    ensures t.observed != [] ==> var last := t.observed[|t.observed| - 1];
      last < |input| && t.lastSeen == input[last].block
  {
    JoinAlways(Shapes(input), acts, t);
    forall e | e in t.observed ensures multiset(t.observed)[e] == 1 {
      DistinctOnce(t.observed, e);
    }
  }

  lemma {:induction false} DistinctOnce(q: seq<nat>, x: nat)
    requires forall i, j :: 0 <= i < j < |q| ==> q[i] != q[j]
    ensures multiset(q)[x] == (if x in q then 1 else 0)
  {
    if q != [] {
      DistinctOnce(q[1..], x);
      assert q == [q[0]] + q[1..];
    }
  }
}
