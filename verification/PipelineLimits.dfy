// Where the pipeline's promises stop: which runs count from the start block, one head more than the
// ring holds that is lost, and a dispatched counter held back by unloading the ring newest first.
module PipelineLimits {
  import opened Common
  import opened Ring
  import opened BlockScan
  import opened Pipeline

  lemma Extend(low: nat, start: nat, acts: seq<Action>, s: State, a: Action)
    returns (longer: seq<Action>, t: State)
    requires Reaches(low, start, acts, s) && Enabled(low, s, a)
    ensures Reaches(low, start, longer, t) && t == Step(low, s, a)
  {
    longer, t := acts + [a], Step(low, s, a);
    assert longer[..|longer| - 1] == acts;
  }

  lemma FreshStart(low: nat, start: nat, height: nat) returns (acts: seq<Action>, t: State)
    requires low <= height
    ensures Reaches(low, start, acts, t)
    ensures t == Initial(start).(scan := Scan(false, start, start, height, 0, AtLoop))
  {
    acts, t := Extend(low, start, [], Initial(start), Begin(Some(height)));
  }

  // An active scanner fetches and sends its next block.
  lemma ScanBlock(low: nat, start: nat, acts: seq<Action>, s: State)
    returns (longer: seq<Action>, t: State)
    requires Reaches(low, start, acts, s) && s.scan.at == AtLoop && !s.scan.onIdle
    requires s.scan.next <= s.scan.to && |s.queue| < BLOCK_BUFFER
    ensures Reaches(low, start, longer, t)
    ensures t == s.(scan := s.scan.(next := s.scan.next + 1), queue := s.queue + [s.scan.next],
                    hist := s.hist.(queued := s.hist.queued + {s.scan.next}))
  {
    hide Reaches;
    longer, t := Extend(low, start, acts, s, ScanTick(None, true));
    longer, t := Extend(low, start, longer, t, Send);
  }

  // The dispatcher takes, reports and finishes a block.
  lemma DispatchOne(low: nat, start: nat, acts: seq<Action>, s: State)
    returns (longer: seq<Action>, t: State)
    requires Reaches(low, start, acts, s) && s.disp == Ready && s.queue != []
    requires |s.reports| < BLOCK_BUFFER
    ensures Reaches(low, start, longer, t)
    ensures t == s.(queue := s.queue[1..], reports := s.reports + [s.queue[0]],
                    hist := s.hist.(reported := s.hist.reported + {s.queue[0]}))
  {
    hide Reaches;
    longer, t := Extend(low, start, acts, s, Take);
    longer, t := Extend(low, start, longer, t, Report);
    longer, t := Extend(low, start, longer, t, Finish);
  }

  // The scanner has sent the blocks `start` and `start + 1`.
  lemma TwoBlocksScanned(low: nat, start: nat, height: nat) returns (acts: seq<Action>, t: State)
    requires low <= height && start + 1 <= height
    ensures Reaches(low, start, acts, t)
    ensures t.scan == Scan(false, start, start + 2, height, 0, AtLoop)
    ensures t.queue == [start, start + 1] && t.reports == [] && t.hist.reported == {}
    ensures t.disp == Ready && !t.dispClosed && t.dispStop == 0
  {
    hide Reaches;
    acts, t := FreshStart(low, start, height);
    acts, t := ScanBlock(low, start, acts, t);
    acts, t := ScanBlock(low, start, acts, t);
  }

  lemma FirstReportLost(low: nat, start: nat, height: nat) returns (acts: seq<Action>, t: State)
    requires low <= height && start + 1 <= height
    ensures Reaches(low, start, acts, t) && t.hist.firstLost
    ensures t.scan == Scan(false, start, start + 2, height, 0, AtLoop)
    ensures t.queue == [start + 1] && t.reports == [] && t.disp == Ready && t.hist.reported == {}
  {
    hide Reaches;
    acts, t := TwoBlocksScanned(low, start, height);
    acts, t := Extend(low, start, acts, t, Take);
    acts, t := Extend(low, start, acts, t, DispClose);
    acts, t := Extend(low, start, acts, t, DispStop);
    acts, t := Extend(low, start, acts, t, DispRestop);
  }

  // For every start block and every bound on heights: stop the dispatcher while it waits to report the
  // first of two scanned blocks, and the second report is taken for the start of the gapless range.
  lemma StopBeforeFirstReport(low: nat, start: nat) returns (acts: seq<Action>, t: State)
    ensures Reaches(low, start, acts, t)
    ensures t.hist.firstLost && t.hist.first == Some(start + 1)
    ensures t.scan.done == start + 1 && start !in t.hist.reported
  {
    hide Reaches;
    acts, t := FirstReportLost(low, start, if low <= start then start + 1 else low);
    acts, t := Extend(low, start, acts, t, Take);
    acts, t := Extend(low, start, acts, t, Report);
    acts, t := Extend(low, start, acts, t, Receive);
  }

  lemma IdleBelowStart(low: nat, start: nat) returns (acts: seq<Action>, t: State)
    requires low < start
    ensures Reaches(low, start, acts, t) && !t.hist.firstLost && t.hist.queued == {}
    ensures t.scan == Scan(true, start, start, start - 1, 0, AtLoop)
    ensures t.routing && t.route == Route(true, [], []) && t.disp == Ready
    ensures t.reports == [] && t.queue == []
  {
    hide Reaches;
    acts, t := FreshStart(low, start, start - 1);
    acts, t := Extend(low, start, acts, t, ScanTick(Some(start - 1), true));
    acts, t := Extend(low, start, acts, t, Send);
    acts, t := Extend(low, start, acts, t, Toggle);
  }

  lemma OnlySecondHeadQueued(low: nat, start: nat) returns (acts: seq<Action>, t: State)
    requires low < start
    ensures Reaches(low, start, acts, t) && !t.hist.firstLost && t.hist.queued == {start + 1}
    ensures t.scan == Scan(true, start, start, start - 1, 0, AtLoop)
    ensures t.reports == [] && t.queue == [start + 1] && t.disp == Ready
  {
    hide Reaches;
    acts, t := IdleBelowStart(low, start);
    acts, t := Extend(low, start, acts, t, Head(start, false));
    acts, t := Extend(low, start, acts, t, Head(start + 1, true));
    acts, t := Extend(low, start, acts, t, Push);
  }

  // A height below the start block sends the scanner idle before it scanned anything; the counter then
  // starts at a live head, and a head whose fetch failed is jumped over for good.
  lemma StartAboveHeight(low: nat, start: nat) returns (acts: seq<Action>, t: State)
    requires low < start
    ensures Reaches(low, start, acts, t) && !t.hist.firstLost && t.hist.first == Some(start + 1)
    ensures start < t.scan.next && start !in t.hist.queued
  {
    hide Reaches;
    acts, t := OnlySecondHeadQueued(low, start);
    acts, t := Extend(low, start, acts, t, Take);
    acts, t := Extend(low, start, acts, t, Report);
    acts, t := Extend(low, start, acts, t, Receive);
    acts, t := Extend(low, start, acts, t, ObserveTick(Some(start + 1)));
  }

  // Unless a stop hits the first report, every run counts from the start block.
  ghost predicate AlwaysCountsFromStart(low: nat, start: nat) {
    forall acts, t :: Reaches(low, start, acts, t) && !t.hist.firstLost ==> FirstIsStart(start, t.hist)
  }

  // This can be relied on exactly when no height below the start block is ever observed.
  lemma CountsFromStartExactly(low: nat, start: nat)
    requires 1 <= start
    ensures AlwaysCountsFromStart(low, start) <==> start <= low
  {
    if start <= low {
      forall acts, t | Reaches(low, start, acts, t) && !t.hist.firstLost ensures FirstIsStart(start, t.hist) {
        CountsFromStart(low, start, acts, t);
      }
    } else {
      var acts, t := StartAboveHeight(low, start);
    }
  }

  // ---- One head too many ----

  // A scanner that is about to announce its idle state while the orchestrator still caches heads.
  lemma SwitchPending() returns (acts: seq<Action>, t: State)
    ensures Reaches(5, 5, acts, t)
    ensures t.scan == Scan(true, 5, 6, 5, 0, AtSwitch(true)) && t.queue == [5] && t.switches == []
    ensures t.routing && t.route == Route(false, [], [])
    ensures t.hist == InitialHistory().(queued := {5})
  {
    hide Reaches;
    acts, t := FreshStart(5, 5, 5);
    acts, t := ScanBlock(5, 5, acts, t);
    acts, t := Extend(5, 5, acts, t, ObserveTick(Some(5)));
  }

  // t is s after some heads were cached or blocks pushed.
  ghost predicate SameScan(s: State, t: State) {
    && t.scan == s.scan && t.switches == s.switches && t.routing == s.routing
    && t.route.pushHeads == s.route.pushHeads && t.hist.covered == s.hist.covered
  }

  lemma {:induction false} CacheHeads(acts: seq<Action>, s: State, first: nat, n: nat)
    returns (longer: seq<Action>, t: State)
    requires Reaches(5, 5, acts, s) && s.routing && !s.route.pushHeads && s.route.outbox == []
    ensures Reaches(5, 5, longer, t) && SameScan(s, t) && t.route.outbox == []
    ensures t.queue == s.queue && t.hist.queued == s.hist.queued
    ensures t.hist.cached == s.hist.cached + Consecutive(first, n)
    ensures forall b :: b in t.hist.heads <==> b in s.hist.heads || first <= b < first + n
  {
    hide Reaches;
    longer, t := acts, s;
    if n > 0 {
      longer, t := CacheHeads(acts, s, first, n - 1);
      longer, t := Extend(5, 5, longer, t, Head(first + n - 1, true));
      assert Consecutive(first, n) == Consecutive(first, n - 1) + [first + n - 1];
    }
  }

  lemma {:induction false} PushOut(acts: seq<Action>, s: State) returns (longer: seq<Action>, t: State)
    requires Reaches(5, 5, acts, s) && s.routing && |s.queue| + |s.route.outbox| <= BLOCK_BUFFER
    ensures Reaches(5, 5, longer, t) && SameScan(s, t) && t.route.outbox == []
    ensures t.hist.heads == s.hist.heads
    ensures forall b :: b in t.hist.queued <==> b in s.hist.queued || b in s.route.outbox
    decreases |s.route.outbox|
  {
    hide Reaches;
    longer, t := acts, s;
    if s.route.outbox != [] {
      longer, t := Extend(5, 5, acts, s, Push);
      assert s.route.outbox == [s.route.outbox[0]] + t.route.outbox;
      longer, t := PushOut(longer, t);
    }
  }

  lemma OldestNotListed(cached: seq<nat>)
    requires cached == Consecutive(6, HEAD_CACHE + 1)
    ensures 6 !in Latest(HEAD_CACHE, cached)
  {
  }

  // The heads 6 to 56 came while the switch was pending; all but the oldest are about to be pushed.
  lemma AllButOldestTaken() returns (acts: seq<Action>, t: State)
    ensures Reaches(5, 5, acts, t) && t.routing && t.route.pushHeads && t.scan.to == 5
    ensures |t.route.outbox| <= HEAD_CACHE && 6 !in t.route.outbox && t.queue == [5]
    ensures t.hist.covered && 6 in t.hist.heads && 6 !in t.hist.queued
  {
    hide Reaches, Latest, Consecutive;
    acts, t := SwitchPending();
    acts, t := CacheHeads(acts, t, 6, HEAD_CACHE + 1);
    assert t.hist.cached == Consecutive(6, HEAD_CACHE + 1);
    HandoverAlways(5, 5, acts, t);
    OldestNotListed(t.hist.cached);
    acts, t := Extend(5, 5, acts, t, Send);
    acts, t := Extend(5, 5, acts, t, Toggle);
  }

  // If 51 heads arrive before the orchestrator learns that the scanner went idle, the oldest of
  // them is never queued by the handover although it lies above the height the scanner adopted.
  lemma OneHeadTooMany() returns (acts: seq<Action>, t: State)
    ensures Reaches(5, 5, acts, t) && t.route.pushHeads && t.route.outbox == []
    ensures t.hist.covered && 6 in t.hist.heads && 6 > t.scan.to && 6 !in t.hist.queued
  {
    hide Reaches;
    acts, t := AllButOldestTaken();
    acts, t := PushOut(acts, t);
  }

  // ---- Newest first ----

  // The scanner after receiving a list of dispatched numbers.
  function DispatchedAll(s: Scan, bins: seq<nat>): Scan {
    if bins == [] then s
    else Dispatched(DispatchedAll(s, bins[..|bins| - 1]), bins[|bins| - 1])
  }

  function Consecutive(first: nat, n: nat): seq<nat> {
    seq(n, i requires 0 <= i < n => first + i)
  }

  lemma {:induction false} AscendingCatchesUp(s: Scan, n: nat)
    requires s.done != 0
    ensures DispatchedAll(s, Consecutive(s.done + 1, n)) == s.(done := s.done + n)
  {
    if n > 0 {
      AscendingCatchesUp(s, n - 1);
      var bins := Consecutive(s.done + 1, n);
      assert bins[..n - 1] == Consecutive(s.done + 1, n - 1);
    }
  }

  lemma {:induction false} IgnoredAll(s: Scan, bins: seq<nat>)
    requires s.done != 0
    requires forall i :: 0 <= i < |bins| ==> bins[i] != s.done + 1
    ensures DispatchedAll(s, bins) == s
  {
    if bins != [] {
      IgnoredAll(s, bins[..|bins| - 1]);
    }
  }

  // Numbers counting down are counted once at most, at the one that directly follows `done`.
  lemma {:induction false} DescendingCountsOne(s: Scan, bins: seq<nat>)
    requires s.done != 0
    requires forall i :: 0 < i < |bins| ==> bins[i] + 1 == bins[i - 1]
    ensures DispatchedAll(s, bins) == if s.done + 1 in bins then s.(done := s.done + 1) else s
  {
    if bins != [] {
      var n := |bins| - 1;
      DescendingCountsOne(s, bins[..n]);
      DistinctDown(bins);
      assert bins == bins[..n] + [bins[n]];
    }
  }

  lemma {:induction false} DistinctDown(bins: seq<nat>)
    requires bins != [] && forall i :: 0 < i < |bins| ==> bins[i] + 1 == bins[i - 1]
    ensures forall i :: 0 <= i < |bins| - 1 ==> bins[i] > bins[|bins| - 1]
  {
    if |bins| > 1 {
      DistinctDown(bins[..|bins| - 1]);
    }
  }

  // The ring lists consecutive heads newest first. Whatever heads at or below `done` it holds as
  // well, unloading it advances the counter by one if the next number is among the listed heads, and
  // not at all otherwise.
  lemma NewestFirstAdvancesByOne(s: Scan, first: nat, n: nat)
    requires s.done != 0
    ensures var oldest := if n <= HEAD_CACHE then first else first + n - HEAD_CACHE;
      DispatchedAll(s, Latest(HEAD_CACHE, Consecutive(first, n)))
      == if oldest <= s.done + 1 < first + n then s.(done := s.done + 1) else s
  {
    var heads := Consecutive(first, n);
    var bins := Latest(HEAD_CACHE, heads);
    DescendingCountsOne(s, bins);
    if s.done + 1 in bins {
      var i :| 0 <= i < |bins| && bins[i] == s.done + 1;
      assert bins[i] == first + (n - 1 - i);
    }
    var oldest := if n <= HEAD_CACHE then first else first + n - HEAD_CACHE;
    if oldest <= s.done + 1 < first + n {
      var i := first + n - 1 - (s.done + 1);
      assert bins[i] == heads[n - 1 - i] == s.done + 1;
    }
  }

  // The heads pushed in order after that are all counted if the newest listed head was the one
  // counted, and otherwise all ignored until the scan resumes.
  lemma StalledUntilRescan(s: Scan, first: nat, n: nat, later: nat)
    requires s.done != 0
    requires (if n <= HEAD_CACHE then first else first + n - HEAD_CACHE) <= s.done + 1 < first + n
    ensures var unloaded := DispatchedAll(s, Latest(HEAD_CACHE, Consecutive(first, n)));
      && unloaded.done == s.done + 1
      && DispatchedAll(unloaded, Consecutive(first + n, later))
         == if first + n == s.done + 2 then s.(done := s.done + 1 + later) else s.(done := s.done + 1)
  {
    hide *;
    var unloaded := s.(done := s.done + 1);
    NewestFirstAdvancesByOne(s, first, n);
    if first + n == s.done + 2 {
      AscendingCatchesUp(unloaded, later);
    } else {
      LaterIgnored(unloaded, first + n, later);
    }
  }

  lemma LaterIgnored(s: Scan, from: nat, later: nat)
    requires s.done != 0 && s.done + 1 < from
    ensures DispatchedAll(s, Consecutive(from, later)) == s
  {
    IgnoredAll(s, Consecutive(from, later));
  }

  // ---- A run that stalls ----

  // The dispatcher takes, reports and finishes one block and the scanner receives its number.
  lemma DeliverOne(acts: seq<Action>, s: State) returns (longer: seq<Action>, t: State)
    requires Reaches(5, 5, acts, s) && s.queue != [] && s.reports == []
    requires s.disp == Ready && s.scan.at == AtLoop
    ensures Reaches(5, 5, longer, t) && t.queue == s.queue[1..] && t.reports == []
    ensures t.disp == Ready && t.scan == Dispatched(s.scan, s.queue[0])
    ensures SameRouting(s, t) && t.hist.received == s.hist.received + {s.queue[0]}
  {
    hide Reaches, Dispatched;
    longer, t := DispatchOne(5, 5, acts, s);
    longer, t := Extend(5, 5, longer, t, Receive);
  }

  ghost predicate SameRouting(s: State, t: State) {
    t.route == s.route && t.routing == s.routing && t.switches == s.switches
  }

  lemma DeliverAll(acts: seq<Action>, s: State) returns (longer: seq<Action>, t: State)
    requires Reaches(5, 5, acts, s) && s.reports == [] && s.disp == Ready && s.scan.at == AtLoop
    ensures Reaches(5, 5, longer, t) && t.queue == [] && t.reports == []
    ensures t.disp == Ready && t.scan == DispatchedAll(s.scan, s.queue) && SameRouting(s, t)
    ensures forall b :: b in t.hist.received <==> b in s.hist.received || b in s.queue
    decreases |s.queue|
  {
    hide Reaches;
    longer, t := acts, s;
    if s.queue != [] {
      longer, t := DeliverOne(acts, s);
      DispatchedFirst(s.scan, s.queue);
      longer, t := DeliverAll(longer, t);
      assert s.queue == [s.queue[0]] + s.queue[1..];
    }
  }

  lemma {:induction false} DispatchedFirst(s: Scan, bins: seq<nat>)
    requires bins != []
    ensures DispatchedAll(s, bins) == DispatchedAll(Dispatched(s, bins[0]), bins[1..])
    ensures DispatchedAll(s, bins).at == s.at
  {
    if |bins| > 1 {
      var n := |bins| - 1;
      DispatchedFirst(s, bins[..n]);
      assert bins[..n][1..] == bins[1..][..n - 1];
    }
  }

  // Block 5 was scanned, dispatched and reported while the heads 5, 6 and 7 went into the ring.
  lemma FirstBlockDone() returns (acts: seq<Action>, t: State)
    ensures Reaches(5, 5, acts, t) && t.queue == t.reports == [] && t.disp == Ready
    ensures t.scan == Scan(false, 5, 6, 5, 5, AtLoop) && t.switches == []
    ensures t.routing && t.route == Route(false, [7, 6, 5], []) && t.hist.received == {5}
  {
    hide Reaches;
    acts, t := FreshStart(5, 5, 5);
    acts, t := ScanBlock(5, 5, acts, t);
    acts, t := DeliverOne(acts, t);
    acts, t := CacheThree(acts, t);
  }

  lemma CacheThree(acts: seq<Action>, s: State) returns (longer: seq<Action>, t: State)
    requires Reaches(5, 5, acts, s) && s.routing && s.route == Route(false, [], [])
    ensures Reaches(5, 5, longer, t) && t.scan == s.scan && t.queue == s.queue && t.reports == s.reports
    ensures t.disp == s.disp && t.switches == s.switches && t.routing
    ensures t.route == Route(false, [7, 6, 5], []) && t.hist.received == s.hist.received
  {
    hide Reaches;
    longer, t := Extend(5, 5, acts, s, Head(5, true));
    longer, t := Extend(5, 5, longer, t, Head(6, true));
    longer, t := Extend(5, 5, longer, t, Head(7, true));
  }

  lemma RingTaken() returns (acts: seq<Action>, t: State)
    ensures Reaches(5, 5, acts, t) && t.queue == t.reports == [] && t.disp == Ready
    ensures t.scan == Scan(true, 5, 6, 5, 5, AtLoop) && t.switches == []
    ensures t.routing && t.route == Route(true, [], [7, 6, 5]) && t.hist.received == {5}
  {
    hide Reaches;
    acts, t := FirstBlockDone();
    acts, t := Extend(5, 5, acts, t, ObserveTick(Some(5)));
    acts, t := Extend(5, 5, acts, t, Send);
    acts, t := Extend(5, 5, acts, t, Toggle);
  }

  lemma RingPushed() returns (acts: seq<Action>, t: State)
    ensures Reaches(5, 5, acts, t) && t.queue == [7, 6, 5] && t.reports == [] && t.disp == Ready
    ensures t.scan == Scan(true, 5, 6, 5, 5, AtLoop) && t.switches == []
    ensures t.routing && t.route == Route(true, [], []) && t.hist.received == {5}
  {
    hide Reaches;
    acts, t := RingTaken();
    acts, t := Extend(5, 5, acts, t, Push);
    acts, t := Extend(5, 5, acts, t, Push);
    acts, t := Extend(5, 5, acts, t, Push);
  }

  lemma RingCountsOnce(s: Scan)
    requires s.done == 5
    ensures DispatchedAll(s, [7, 6, 5]) == s.(done := 6)
  {
    DescendingCountsOne(s, [7, 6, 5]);
    assert [7, 6, 5][1] == 6;
  }

  lemma RingDelivered() returns (acts: seq<Action>, t: State)
    ensures Reaches(5, 5, acts, t) && t.queue == t.reports == [] && t.disp == Ready
    ensures t.scan == Scan(true, 5, 6, 5, 6, AtLoop) && t.switches == []
    ensures t.routing && t.route == Route(true, [], []) && {5, 6, 7} <= t.hist.received
  {
    hide Reaches, DispatchedAll;
    acts, t := RingPushed();
    RingCountsOnce(t.scan);
    acts, t := DeliverAll(acts, t);
  }

  // The scanner went idle, and the blocks 5 to 8 all came back from the dispatcher: the ring's 5, 6
  // and 7, and then the live head 8. The counter stands still at 6.
  lemma CounterStalls() returns (acts: seq<Action>, t: State)
    ensures Reaches(5, 5, acts, t) && t.scan.onIdle && t.scan.done == 6
    ensures {5, 6, 7, 8} <= t.hist.received && t.queue == t.reports == []
  {
    hide Reaches;
    acts, t := RingDelivered();
    acts, t := Extend(5, 5, acts, t, Head(8, true));
    acts, t := Extend(5, 5, acts, t, Push);
    acts, t := DeliverOne(acts, t);
  }
}
