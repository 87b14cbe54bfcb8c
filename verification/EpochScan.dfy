// The epoch scanner: a scan position, a bounded queue to the storing goroutine and the stop token
// (internal/svc/scan_epochs.go, internal/svc/svc.go).
module EpochScan {
  import opened Common

  const STORE_QUEUE: nat := 100

  // The scanning goroutine: in its main select, waiting to push the fetched epoch, about to put a
  // stop token back, or returned with the queue closed.
  datatype Point = AtLoop | AtPush | AtRestop | AtEnd

  datatype Scan = Scan(at: Point, current: nat, top: Option<nat>)

  // None stands for a failed call or a missing epoch.
  function Observed(s: Scan, sealedEpoch: Option<nat>): Scan {
    if sealedEpoch.None? then s else s.(top := sealedEpoch)
  }

  function Advanced(s: Scan, fetched: bool): Scan {
    if s.top.None? || s.top.value < s.current || !fetched then s else s.(at := AtPush)
  }

  // The pending select took its send branch.
  function Sent(s: Scan): Scan {
    if s.at.AtPush? then s.(at := AtLoop, current := s.current + 1) else s
  }

  class EpochScanner {
    var at: Point
    var current: nat
    var top: Option<nat>

    function View(): Scan
      reads this
    {
      Scan(at, current, top)
    }

    constructor (start: nat)
      ensures View() == Scan(AtLoop, start, None)
    {
      at, current, top := AtLoop, start, None;
    }

    method Observe(sealedEpoch: Option<nat>)
      modifies this`top
      ensures View() == Observed(old(View()), sealedEpoch)
    {
      if sealedEpoch.None? || (top.Some? && top.value == sealedEpoch.value) {
        return;
      }
      top := sealedEpoch;
    }

    method Next(fetched: bool)
      modifies this`at
      ensures View() == Advanced(old(View()), fetched)
    {
      if top.None? || top.value < current {
        return;
      }
      if !fetched {
        return;
      }
      at := AtPush;
    }

    method OnSent()
      modifies this
      ensures View() == Sent(old(View()))
    {
      if at.AtPush? {
        current := current + 1;
        at := AtLoop;
      }
    }
  }

  datatype State = State(
    scan: Scan, queue: seq<nat>, taken: seq<nat>, stop: nat, closed: bool)

  datatype Action =
    | Observe(sealedEpoch: Option<nat>)
    | Next(fetched: bool)
    | Push
    | Dequeue
    | Close | TakeStop | PutStop

  predicate Enabled(s: State, a: Action) {
    match a
    case Observe(_) => s.scan.at.AtLoop?
    case Next(_) => s.scan.at.AtLoop?
    case Push => s.scan.at.AtPush? && |s.queue| < STORE_QUEUE
    case Dequeue => s.queue != []
    case Close => !s.closed
    case TakeStop => s.stop > 0 && (s.scan.at.AtLoop? || s.scan.at.AtPush?)
    case PutStop => s.scan.at.AtRestop? && s.stop < 1
  }

  function Step(s: State, a: Action): State
    requires Enabled(s, a)
  {
    match a
    case Observe(e) => s.(scan := Observed(s.scan, e))
    case Next(fetched) => s.(scan := Advanced(s.scan, fetched))
    case Push => s.(scan := Sent(s.scan), queue := s.queue + [s.scan.current])
    case Dequeue => s.(queue := s.queue[1..], taken := s.taken + [s.queue[0]])
    case Close => s.(closed := true, stop := s.stop + 1)
    case TakeStop =>
      s.(stop := s.stop - 1, scan := s.scan.(at := if s.scan.at.AtLoop? then AtEnd else AtRestop))
    case PutStop => s.(stop := s.stop + 1, scan := s.scan.(at := AtLoop))
  }

  function After(start: nat, acts: seq<Action>): Option<State> {
    if acts == [] then Some(State(Scan(AtLoop, start, None), [], [], 0, false))
    else
      var n := |acts| - 1;
      match After(start, acts[..n])
      case None => None
      case Some(s) => if Enabled(s, acts[n]) then Some(Step(s, acts[n])) else None
  }

  function Epochs(start: nat, n: nat): seq<nat> {
    seq(n, i requires 0 <= i < n => start + i)
  }

  ghost predicate InOrder(start: nat, s: State) {
    && start <= s.scan.current
    && s.taken + s.queue == Epochs(start, s.scan.current - start)
    && (s.scan.at.AtPush? ==> s.scan.top.Some? && s.scan.current <= s.scan.top.value)
  }

  predicate TokenKept(s: State) {
    s.stop + (if s.scan.at.AtRestop? then 1 else 0) + (if s.scan.at.AtEnd? then 1 else 0)
    == (if s.closed then 1 else 0)
  }

  lemma OrderStep(start: nat, s: State, a: Action)
    requires Enabled(s, a) && InOrder(start, s)
    ensures InOrder(start, Step(s, a))
  {
    var t := Step(s, a);
    if a.Dequeue? {
      assert s.taken + s.queue == (s.taken + [s.queue[0]]) + s.queue[1..];
    } else if a.Push? {
      assert t.taken + t.queue == (s.taken + s.queue) + [s.scan.current];
    }
  }

  lemma TokenStep(s: State, a: Action)
    requires Enabled(s, a) && TokenKept(s)
    ensures TokenKept(Step(s, a))
  {
  }

  // Over every run the epochs taken by the storing goroutine followed by the queued ones are the
  // consecutive epochs from the start up to the scan position, no epoch is offered before it is
  // sealed, and the stop token is never lost, doubled or blocked on its way back.
  lemma {:induction false} HandOffInOrder(start: nat, acts: seq<Action>, t: State)
    requires After(start, acts) == Some(t)
    ensures InOrder(start, t) && |t.queue| <= 100
    ensures t.scan.at.AtPush? ==> (Enabled(t, Push) <==> |t.queue| != 100)
    ensures TokenKept(t) && (t.scan.at.AtRestop? ==> Enabled(t, PutStop))
  {
    if acts != [] {
      var n := |acts| - 1;
      var s := After(start, acts[..n]).value;
      HandOffInOrder(start, acts[..n], s);
      OrderStep(start, s, acts[n]);
      TokenStep(s, acts[n]);
    }
  }

  // Once closed, the scanner's own next steps can end it from wherever it stands, without offering
  // another epoch: in its loop it takes the token at once, and a stop that interrupts a push is put
  // back for the loop.
  lemma StopEnds(start: nat, acts: seq<Action>, t: State)
    requires After(start, acts) == Some(t) && t.closed && !t.scan.at.AtEnd?
    ensures var own := if t.scan.at.AtLoop? then [TakeStop]
                       else if t.scan.at.AtPush? then [TakeStop, PutStop, TakeStop] else [PutStop, TakeStop];
      After(start, acts + own) == Some(t.(scan := t.scan.(at := AtEnd), stop := 0))
  {
    HandOffInOrder(start, acts, t);
    if t.scan.at.AtLoop? {
      OneMore(start, acts, TakeStop);
    } else {
      var put := if t.scan.at.AtPush? then acts + [TakeStop] else acts;
      OneMore(start, acts, TakeStop);
      OneMore(start, put, PutStop);
      OneMore(start, put + [PutStop], TakeStop);
      assert acts + [TakeStop, PutStop, TakeStop] == acts + [TakeStop] + [PutStop] + [TakeStop];
      assert acts + [PutStop, TakeStop] == acts + [PutStop] + [TakeStop];
    }
  }

  lemma OneMore(start: nat, acts: seq<Action>, a: Action)
    ensures After(start, acts + [a])
         == match After(start, acts) {
              case None => None
              case Some(s) => if Enabled(s, a) then Some(Step(s, a)) else None
            }
  {
    assert (acts + [a])[..|acts|] == acts;
  }

  // The last sealed epoch that could be observed.
  ghost function LastSealed(acts: seq<Action>): Option<nat> {
    if acts == [] then None
    else
      var n := |acts| - 1;
      if acts[n].Observe? && acts[n].sealedEpoch.Some? then acts[n].sealedEpoch
      else LastSealed(acts[..n])
  }

  lemma TopStep(s: State, a: Action)
    requires Enabled(s, a)
    ensures Step(s, a).scan.top
         == if a.Observe? && a.sealedEpoch.Some? then a.sealedEpoch else s.scan.top
  {
  }

  // The scanner knows the last observed sealed epoch, and one of its ticks offers the next epoch
  // exactly when that one is sealed by then and can be loaded.
  lemma {:induction false} OffersExactly(start: nat, acts: seq<Action>, t: State, fetched: bool)
    requires After(start, acts) == Some(t)
    ensures t.scan.top == LastSealed(acts)
    ensures t.scan.at.AtLoop? ==>
      (Step(t, Next(fetched)).scan.at.AtPush?
       <==> fetched && LastSealed(acts).Some? && t.scan.current <= LastSealed(acts).value)
  {
    if acts != [] {
      var n := |acts| - 1;
      OffersExactly(start, acts[..n], After(start, acts[..n]).value, fetched);
      TopStep(After(start, acts[..n]).value, acts[n]);
    }
  }
}
