// The block scanner of internal/svc/scan_blk.go and the head router of
// internal/svc/orchestrator.go. Each class method is one atomic stretch of the Go code between
// two channel operations; the functions are what the run theorems in Pipeline talk about.
module BlockScan {
  import opened Common
  import opened Ring

  const RESCAN_HYSTERESIS: nat := 100
  const HEAD_CACHE: nat := 50

  // Where the scanner goroutine stands: before its first observation, in its main select, waiting to
  // push a block, waiting to announce an idle state, about to put a stop token back, or returned.
  datatype ScanPoint = AtStart | AtLoop | AtPush(blk: nat) | AtSwitch(target: bool) | AtRestop | AtEnd

  datatype Scan = Scan(onIdle: bool, from: nat, next: nat, to: nat, done: nat, at: ScanPoint)

  // The first block to scan; `rescan` blocks below the last known one are repeated.
  function Boundaries(lastKnown: nat, rescan: nat): (start: nat)
    ensures start <= lastKnown && lastKnown - start <= rescan
    ensures 1 <= lastKnown ==> 1 <= start
  {
    if lastKnown > rescan then lastKnown - rescan else lastKnown
  }

  // The known blocks scanned again are the last `rescan` ones and the last known one itself; only the
  // latter when `rescan` reaches back to the beginning of the chain.
  lemma RescansExactly(lastKnown: nat, rescan: nat, b: nat)
    requires b <= lastKnown
    ensures Boundaries(lastKnown, rescan) <= b
       <==> b == lastKnown || (rescan < lastKnown && lastKnown - b <= rescan)
  {
  }

  function Started(start: nat): Scan {
    Scan(false, start, start, 0, 0, AtStart)
  }

  function Dispatched(s: Scan, bin: nat): Scan {
    if s.done == 0 || bin == s.done + 1 then s.(done := bin) else s
  }

  // Does an observation of this height leave the idle scanner waiting for the dispatcher?
  predicate KeepsWaiting(s: Scan, height: nat) {
    s.onIdle && height < s.done + RESCAN_HYSTERESIS
  }

  // None stands for a failed height call. The flag is the idle state wanted next.
  function Observed(s: Scan, height: Option<nat>): (Scan, bool) {
    match height
    case None => (s, false)
    case Some(h) =>
      if KeepsWaiting(s, h) then (s.(next := s.done, from := s.done), true)
      else (s.(to := h), h < s.next)
  }

  // The first observation only sets the target; the idle state it asks for is ignored.
  function Begun(s: Scan, height: Option<nat>): Scan {
    Observed(s, height).0.(at := AtLoop)
  }

  function StateUpdated(s: Scan, target: bool): Scan {
    if target == s.onIdle then s else s.(onIdle := target, at := AtSwitch(target))
  }

  function ObserveTicked(s: Scan, height: Option<nat>): Scan {
    var (seen, target) := Observed(s, height);
    StateUpdated(seen, target)
  }

  function ScanTicked(s: Scan, height: Option<nat>, fetched: bool): Scan {
    if s.onIdle then s
    else if s.next > s.to then ObserveTicked(s, height)
    else if fetched then s.(at := AtPush(s.next))
    else s
  }

  // The pending select of shift or updateState took its send branch.
  function Sent(s: Scan): Scan {
    match s.at
    case AtPush(_) => s.(next := s.next + 1, at := AtLoop)
    case AtSwitch(_) => s.(at := AtLoop)
    case _ => s
  }

  // From idle, one height observation resumes the scan exactly when the chain is 100 blocks past the
  // last gapless dispatched block and nothing is left to wait for; the block range to scan is then
  // everything not yet queued up to that height. Until then the scan position follows the counter.
  lemma ResumesExactly(s: Scan, height: nat)
    requires s.onIdle
    ensures !ObserveTicked(s, Some(height)).onIdle <==> s.done + 100 <= height && s.next <= height
    ensures !ObserveTicked(s, Some(height)).onIdle ==>
      ObserveTicked(s, Some(height)) == s.(onIdle := false, to := height, at := AtSwitch(false))
    ensures height < s.done + 100 ==>
      ObserveTicked(s, Some(height)) == s.(from := s.done, next := s.done)
    ensures s.done + 100 <= height < s.next ==> ObserveTicked(s, Some(height)) == s.(to := height)
  {
  }

  // An active scan takes every observed height for its target, and goes idle exactly when it lies
  // below the scan position.
  lemma IdlesExactly(s: Scan, height: nat)
    requires !s.onIdle
    ensures ObserveTicked(s, Some(height))
         == if height < s.next then s.(to := height, onIdle := true, at := AtSwitch(true))
            else s.(to := height)
    ensures Begun(s, Some(height)) == s.(to := height, at := AtLoop)
  {
  }

  // A failed height call wakes an idle scanner and leaves an active one alone.
  lemma FailedCallWakes(s: Scan)
    ensures ObserveTicked(s, None)
         == if s.onIdle then s.(onIdle := false, at := AtSwitch(false)) else s
    ensures Begun(s, None) == s.(at := AtLoop)
  {
  }

  // A scan tick offers a block exactly when the scan is active and not past its target and the block
  // at the scan position could be loaded.
  lemma OffersExactly(s: Scan, height: Option<nat>, fetched: bool, b: nat)
    requires s.at == AtLoop
    ensures ScanTicked(s, height, fetched).at == AtPush(b) <==> !s.onIdle && b == s.next <= s.to && fetched
    ensures s.onIdle || (s.next <= s.to && !fetched) ==> ScanTicked(s, height, fetched) == s
    ensures !s.onIdle && s.to < s.next ==> ScanTicked(s, height, fetched) == ObserveTicked(s, height)
  {
  }

  class BlkScanner {
    var onIdle: bool
    var from: nat
    var next: nat
    var to: nat
    var done: nat
    var at: ScanPoint

    function View(): Scan
      reads this
    {
      Scan(onIdle, from, next, to, done, at)
    }

    constructor (start: nat)
      ensures View() == Started(start)
    {
      onIdle, from, next, to, done, at := false, start, start, 0, 0, AtStart;
    }

    method OnDispatched(bin: nat)
      modifies this
      ensures View() == Dispatched(old(View()), bin)
    {
      if done == 0 || bin - done == 1 {
        done := bin;
      }
    }

    method Observe(height: Option<nat>) returns (idle: bool)
      modifies this
      ensures (View(), idle) == Observed(old(View()), height)
    {
      if height.None? {
        return false;
      }
      var target := height.value;
      if onIdle && target < done + RESCAN_HYSTERESIS {
        next := done;
        from := done;
        return true;
      }
      to := target;
      return to < next;
    }

    method UpdateState(target: bool)
      modifies this
      ensures View() == StateUpdated(old(View()), target)
    {
      if target == onIdle {
        return;
      }
      onIdle := target;
      at := AtSwitch(target);
    }

    method Begin(height: Option<nat>)
      modifies this
      ensures View() == Begun(old(View()), height)
    {
      var _ := Observe(height);
      at := AtLoop;
    }

    method OnObserveTick(height: Option<nat>)
      modifies this
      ensures View() == ObserveTicked(old(View()), height)
    {
      var idle := Observe(height);
      UpdateState(idle);
    }

    // `fetched` tells whether the block `next` could be loaded.
    method Shift(height: Option<nat>, fetched: bool)
      modifies this
      ensures View() == ScanTicked(old(View()), height, fetched)
    {
      if onIdle {
        return;
      }
      if next > to {
        OnObserveTick(height);
        return;
      }
      if !fetched {
        return;
      }
      at := AtPush(next);
    }

    method OnSent()
      modifies this
      ensures View() == Sent(old(View()))
    {
      if at.AtPush? {
        next := next + 1;
        at := AtLoop;
      } else if at.AtSwitch? {
        at := AtLoop;
      }
    }
  }

  // The orchestrator. `outbox` holds the blocks its goroutine has still to send; it serves
  // neither heads nor state switches before the outbox is empty.
  datatype Route = Route(pushHeads: bool, cache: seq<nat>, outbox: seq<nat>)

  function HeadHandled(r: Route, bn: nat, fetched: bool): Route {
    if !fetched then r
    else if r.pushHeads then r.(outbox := [bn])
    else r.(cache := Pushed(HEAD_CACHE, r.cache, bn))
  }

  function Toggled(r: Route, idle: bool): Route {
    if idle then Route(true, [], r.cache) else r.(pushHeads := false)
  }

  class Orchestrator {
    const blkCache: Ring<nat>
    var pushHeads: bool
    var outbox: seq<nat>

    ghost predicate Valid()
      reads this, blkCache, blkCache.nodes
    {
      blkCache.Valid() && blkCache.capacity == HEAD_CACHE
    }

    ghost function View(): Route
      reads this, blkCache, blkCache.nodes
      requires Valid()
    {
      Route(pushHeads, blkCache.Contents(), outbox)
    }

    constructor (pushHeads: bool)
      ensures Valid() && fresh(blkCache) && fresh(blkCache.nodes)
      ensures View() == Route(pushHeads, [], [])
    {
      blkCache := new Ring(HEAD_CACHE);
      this.pushHeads, outbox := pushHeads, [];
    }

    method HandleNewHead(bn: nat, fetched: bool)
      requires Valid() && outbox == []
      modifies this, blkCache, blkCache.nodes
      ensures Valid() && View() == HeadHandled(old(View()), bn, fetched)
    {
      if !fetched {
        return;
      }
      if pushHeads {
        outbox := [bn];
        return;
      }
      blkCache.Add(bn);
    }

    method UnloadCache()
      requires Valid() && outbox == []
      modifies this`outbox, blkCache
      ensures Valid() && View() == Route(pushHeads, [], old(View()).cache)
    {
      var l := blkCache.List(HEAD_CACHE);
      assert l == blkCache.Contents();
      blkCache.Reset();
      outbox := l;
    }

    method OnStateSwitch(idle: bool)
      requires Valid() && outbox == []
      modifies this, blkCache
      ensures Valid() && View() == Toggled(old(View()), idle)
    {
      pushHeads := idle;
      if idle {
        UnloadCache();
      }
    }
  }
}
