// The block pipeline as a step system: scanner, orchestrator and block dispatcher run as
// goroutines joined by bounded FIFO channels, and the environment decides when ticks, heads,
// failed calls and stop signals arrive. Block numbers are natural numbers.
module Pipeline {
  import opened Common
  import opened Ring
  import opened BlockScan

  const BLOCK_BUFFER: nat := 1000

  // The block dispatcher: in its main select, waiting to report a block number, processing the
  // reported block, about to put a stop token back, or returned.
  datatype DispatchPoint = Ready | Reporting(blk: nat) | Processing | Restopping | Ended

  // What happened so far. `cached` logs the heads put in the ring since it was last reset and
  // `recent` counts those of them that came after the last height the scanner adopted.
  datatype History = History(
    queued: set<nat>,        // blocks put on the dispatcher queue
    reported: set<nat>,      // block numbers the dispatcher has reported
    received: set<nat>,      // block numbers the scanner has received back
    first: Option<nat>,      // the number that set the scanner's dispatched counter
    heads: set<nat>,         // heads whose block could be fetched
    overwritten: set<nat>,   // heads that fell out of the ring
    cached: seq<nat>,
    recent: nat,
    covered: bool,           // the last adopted height was at least every head fetched before it
    overrun: bool,           // a head cached after the last adopted height fell out of the ring
    firstLost: bool)         // a stop made the dispatcher give up a block before any report arrived

  datatype State = State(
    scan: Scan,
    route: Route,
    routing: bool,           // the orchestrator has not returned
    disp: DispatchPoint,
    queue: seq<nat>,
    switches: seq<bool>,
    reports: seq<nat>,
    scanStop: nat, scanClosed: bool,   // tokens in the scanner's stop channel; close() called
    dispStop: nat, dispClosed: bool,   // the same for the dispatcher
    hist: History)

  datatype Action =
    | Begin(height: Option<nat>)                         // scanner: the observation before its loop
    | Receive                                            // scanner: a dispatched number arrives
    | ObserveTick(height: Option<nat>)
    | ScanTick(height: Option<nat>, fetched: bool)
    | Send                                               // scanner: the pending send succeeds
    | ScanClose | ScanStop | ScanRestop
    | Head(number: nat, fetched: bool)
    | Toggle
    | Push                                               // orchestrator: one block of the outbox
    | RouteStop
    | Take | Report | Finish                             // dispatcher
    | DispClose | DispStop | DispRestop

  function InitialHistory(): History {
    History({}, {}, {}, None, {}, {}, [], 0, true, false, false)
  }

  function Initial(start: nat): State {
    State(Started(start), Route(false, [], []), true, Ready, [], [], [], 0, false, 0, false,
          InitialHistory())
  }

  // The environment: no observed height is below `low`.
  predicate Observable(low: nat, height: Option<nat>) {
    height.Some? ==> low <= height.value
  }

  predicate Enabled(low: nat, s: State, a: Action) {
    match a
    case Begin(h) => s.scan.at.AtStart? && Observable(low, h)
    case Receive => s.scan.at.AtLoop? && s.reports != []
    case ObserveTick(h) => s.scan.at.AtLoop? && Observable(low, h)
    case ScanTick(h, _) => s.scan.at.AtLoop? && Observable(low, h)
    case Send =>
      || (s.scan.at.AtPush? && |s.queue| < BLOCK_BUFFER)
      || (s.scan.at.AtSwitch? && |s.switches| < 1)
    case ScanClose => !s.scanClosed
    case ScanStop =>
      s.scanStop > 0 && (s.scan.at.AtLoop? || s.scan.at.AtPush? || s.scan.at.AtSwitch?)
    case ScanRestop => s.scan.at.AtRestop? && s.scanStop < 1
    case Head(_, _) => s.routing && s.route.outbox == []
    case Toggle => s.routing && s.route.outbox == [] && s.switches != []
    case Push => s.routing && s.route.outbox != [] && |s.queue| < BLOCK_BUFFER
    case RouteStop => s.routing && s.route.outbox == []
    case Take => s.disp.Ready? && s.queue != []
    case Report => s.disp.Reporting? && |s.reports| < BLOCK_BUFFER
    case Finish => s.disp.Processing?
    case DispClose => !s.dispClosed
    case DispStop => s.dispStop > 0 && !s.disp.Restopping? && !s.disp.Ended?
    case DispRestop => s.disp.Restopping? && s.dispStop < 1
  }

  // The scanner adopted a new target height.
  function Adopted(h: History, to: nat): History {
    h.(covered := forall b :: b in h.heads ==> b <= to, recent := 0, overrun := false)
  }

  function AfterObservation(s: State, scan: Scan, height: Option<nat>): State {
    s.(scan := scan,
       hist := if height.Some? && !KeepsWaiting(s.scan, height.value)
               then Adopted(s.hist, height.value) else s.hist)
  }

  function AfterHead(s: State, bn: nat, fetched: bool): State {
    var h := s.hist;
    s.(route := HeadHandled(s.route, bn, fetched),
       hist :=
         if !fetched then h
         else if s.route.pushHeads then h.(heads := h.heads + {bn})
         else h.(heads := h.heads + {bn},
                 cached := h.cached + [bn],
                 recent := h.recent + 1,
                 overwritten := if |h.cached| < HEAD_CACHE then h.overwritten
                                else h.overwritten + {h.cached[|h.cached| - HEAD_CACHE]},
                 overrun := h.overrun || h.recent >= HEAD_CACHE))
  }

  function Step(low: nat, s: State, a: Action): (t: State)
    requires Enabled(low, s, a)
  {
    match a
    case Begin(h) => AfterObservation(s, Begun(s.scan, h), h)
    case Receive =>
      var bin := s.reports[0];
      s.(scan := Dispatched(s.scan, bin), reports := s.reports[1..],
         hist := s.hist.(received := s.hist.received + {bin},
                         first := if s.scan.done == 0 && bin != 0 then Some(bin) else s.hist.first))
    case ObserveTick(h) => AfterObservation(s, ObserveTicked(s.scan, h), h)
    case ScanTick(h, fetched) =>
      if !s.scan.onIdle && s.scan.next > s.scan.to
      then AfterObservation(s, ScanTicked(s.scan, h, fetched), h)
      else s.(scan := ScanTicked(s.scan, h, fetched))
    case Send =>
      if s.scan.at.AtPush? then
        s.(scan := Sent(s.scan), queue := s.queue + [s.scan.at.blk],
           hist := s.hist.(queued := s.hist.queued + {s.scan.at.blk}))
      else s.(scan := Sent(s.scan), switches := s.switches + [s.scan.at.target])
    case ScanClose => s.(scanClosed := true, scanStop := s.scanStop + 1)
    case ScanStop =>
      s.(scanStop := s.scanStop - 1,
         scan := s.scan.(at := if s.scan.at.AtLoop? then AtEnd else AtRestop))
    case ScanRestop => s.(scanStop := s.scanStop + 1, scan := s.scan.(at := AtLoop))
    case Head(bn, fetched) => AfterHead(s, bn, fetched)
    case Toggle =>
      s.(route := Toggled(s.route, s.switches[0]), switches := s.switches[1..],
         hist := if s.switches[0] then s.hist.(cached := [], recent := 0) else s.hist)
    case Push =>
      s.(queue := s.queue + [s.route.outbox[0]],
         route := s.route.(outbox := s.route.outbox[1..]),
         hist := s.hist.(queued := s.hist.queued + {s.route.outbox[0]}))
    case RouteStop => s.(routing := false)
    case Take => s.(disp := Reporting(s.queue[0]), queue := s.queue[1..])
    case Report =>
      s.(disp := Processing, reports := s.reports + [s.disp.blk],
         hist := s.hist.(reported := s.hist.reported + {s.disp.blk}))
    case Finish => s.(disp := Ready)
    case DispClose => s.(dispClosed := true, dispStop := s.dispStop + 1)
    case DispStop =>
      s.(dispStop := s.dispStop - 1, disp := if s.disp.Ready? then Ended else Restopping,
         hist := if s.disp.Reporting? && s.scan.done == 0 && s.reports == []
                 then s.hist.(firstLost := true) else s.hist)
    case DispRestop => s.(dispStop := s.dispStop + 1, disp := Ready)
  }

  function Next(low: nat, s: Option<State>, a: Action): Option<State> {
    if s.Some? && Enabled(low, s.value, a) then Some(Step(low, s.value, a)) else None
  }

  // The state a sequence of actions leads to, or None when one of them is not enabled.
  function After(low: nat, s: State, acts: seq<Action>): Option<State> {
    if acts == [] then Some(s)
    else Next(low, After(low, s, acts[..|acts| - 1]), acts[|acts| - 1])
  }

  // t can be reached from a fresh start at block `start` when every observed height is >= low.
  ghost predicate Reaches(low: nat, start: nat, acts: seq<Action>, t: State) {
    After(low, Initial(start), acts) == Some(t)
  }

  // ---- The invariant behind "no block is silently skipped" ----

  ghost predicate ScannerBounds(s: State) {
    s.scan.from <= s.scan.next
    && (s.scan.at.AtPush? ==> s.scan.at.blk == s.scan.next && !s.scan.onIdle)
  }

  ghost predicate Tracked(s: State) {
    && (forall b :: b in s.queue ==> b in s.hist.queued)
    && (s.disp.Reporting? ==> s.disp.blk in s.hist.queued)
    && (forall b :: b in s.reports ==> b in s.hist.reported)
    && s.hist.received <= s.hist.reported <= s.hist.queued
  }

  // [start, next) is queued and, once something was counted, [start, done] was received back.
  ghost predicate NoGaps(start: nat, s: State) {
    && (forall b :: start <= b < s.scan.next ==> b in s.hist.queued)
    && (s.scan.done != 0 ==>
          start <= s.scan.done && forall b :: start <= b <= s.scan.done ==> b in s.hist.received)
  }

  // The dispatched counter is unset or was set by the start block.
  predicate FirstIsStart(start: nat, h: History) {
    h.first.None? || h.first.value == start
  }

  ghost predicate FirstKept(s: State) {
    && (s.hist.first.None? <==> s.scan.done == 0)
    && (s.scan.done == 0 ==> s.hist.received <= {0})
  }

  ghost predicate Core(start: nat, s: State) {
    && ScannerBounds(s) && Tracked(s) && FirstKept(s)
    && (FirstIsStart(start, s.hist) ==> NoGaps(start, s))
  }

  predicate OfScanner(a: Action) {
    a.Begin? || a.Receive? || a.ObserveTick? || a.ScanTick? || a.Send?
    || a.ScanClose? || a.ScanStop? || a.ScanRestop?
  }

  predicate Observes(s: State, a: Action) {
    a.Begin? || a.ObserveTick? || (a.ScanTick? && !s.scan.onIdle && s.scan.next > s.scan.to)
  }

  lemma CoreKeptByReceive(low: nat, start: nat, s: State)
    requires 1 <= start && Core(start, s) && Enabled(low, s, Receive)
    ensures Core(start, Step(low, s, Receive))
  {
    assert s.reports[0] in s.reports;
  }

  lemma CoreKeptBySend(low: nat, start: nat, s: State)
    requires Core(start, s) && Enabled(low, s, Send)
    ensures Core(start, Step(low, s, Send))
  {
    if s.scan.at.AtPush? {
      assert s.scan.at.blk == s.scan.next;
    }
  }

  lemma CoreKeptByObservation(start: nat, s: State, scan: Scan, height: Option<nat>)
    requires 1 <= start && Core(start, s)
    requires scan.done == s.scan.done && !scan.at.AtPush?
    requires (scan.next, scan.from) == (s.scan.next, s.scan.from)
          || (scan.next, scan.from) == (s.scan.done, s.scan.done)
    ensures Core(start, AfterObservation(s, scan, height))
  {
  }

  lemma CoreKeptByScanner(low: nat, start: nat, s: State, a: Action)
    requires 1 <= start && Core(start, s) && Enabled(low, s, a)
    requires OfScanner(a) && !a.Receive? && !a.Send? && !Observes(s, a)
    ensures Core(start, Step(low, s, a))
  {
  }

  lemma CoreKeptByRouter(low: nat, start: nat, s: State, a: Action)
    requires Core(start, s) && Enabled(low, s, a)
    requires a.Head? || a.Toggle? || a.Push? || a.RouteStop?
    ensures Core(start, Step(low, s, a))
  {
  }

  lemma CoreKeptByDispatcher(low: nat, start: nat, s: State, a: Action)
    requires Core(start, s) && Enabled(low, s, a)
    requires !OfScanner(a) && !a.Head? && !a.Toggle? && !a.Push? && !a.RouteStop?
    ensures Core(start, Step(low, s, a))
  {
  }

  lemma CoreStep(low: nat, start: nat, s: State, a: Action)
    requires 1 <= start && Core(start, s) && Enabled(low, s, a)
    ensures Core(start, Step(low, s, a))
  {
    if a.Receive? {
      CoreKeptByReceive(low, start, s);
    } else if a.Send? {
      CoreKeptBySend(low, start, s);
    } else if Observes(s, a) {
      CoreKeptByObservation(start, s, Step(low, s, a).scan, a.height);
    } else if OfScanner(a) {
      CoreKeptByScanner(low, start, s, a);
    } else if a.Head? || a.Toggle? || a.Push? || a.RouteStop? {
      CoreKeptByRouter(low, start, s, a);
    } else {
      CoreKeptByDispatcher(low, start, s, a);
    }
  }

  lemma {:induction false} CoreAlways(low: nat, start: nat, acts: seq<Action>, t: State)
    requires 1 <= start && Reaches(low, start, acts, t)
    ensures Core(start, t)
  {
    if acts != [] {
      var n := |acts| - 1;
      var s := After(low, Initial(start), acts[..n]).value;
      CoreAlways(low, start, acts[..n], s);
      CoreStep(low, start, s, acts[n]);
    }
  }

  // No state along the run has a gap.
  ghost predicate NeverGaps(low: nat, start: nat, acts: seq<Action>) {
    && After(low, Initial(start), acts).Some?
    && NoGaps(start, After(low, Initial(start), acts).value)
    && (acts != [] ==> NeverGaps(low, start, acts[..|acts| - 1]))
  }

  lemma FirstReceived(low: nat, start: nat, s: State)
    requires 1 <= start && Core(start, s) && Enabled(low, s, Receive) && s.hist.first.None?
    ensures var t := Step(low, s, Receive); FirstIsStart(start, t.hist) || !NoGaps(start, t)
  {
    var t := Step(low, s, Receive);
    assert start in t.hist.received ==> start == s.reports[0];
  }

  lemma FirstStaysReceiving(low: nat, s: State)
    requires FirstKept(s) && Enabled(low, s, Receive) && s.hist.first.Some?
    ensures Step(low, s, Receive).hist.first == s.hist.first
  {
  }

  lemma FirstStaysObserving(s: State, scan: Scan, height: Option<nat>)
    ensures AfterObservation(s, scan, height).hist.first == s.hist.first
  {
  }

  lemma FirstStaysScanning(low: nat, s: State, a: Action)
    requires Enabled(low, s, a) && OfScanner(a) && !a.Receive? && !Observes(s, a)
    ensures Step(low, s, a).hist.first == s.hist.first
  {
  }

  lemma FirstStaysRouting(low: nat, s: State, a: Action)
    requires Enabled(low, s, a) && (a.Head? || a.Toggle? || a.Push? || a.RouteStop?)
    ensures Step(low, s, a).hist.first == s.hist.first
  {
  }

  lemma FirstStaysDispatching(low: nat, s: State, a: Action)
    requires Enabled(low, s, a) && !OfScanner(a) && !a.Head? && !a.Toggle? && !a.Push? && !a.RouteStop?
    ensures Step(low, s, a).hist.first == s.hist.first
  {
  }

  lemma FirstStays(low: nat, s: State, a: Action)
    requires FirstKept(s) && Enabled(low, s, a) && (!a.Receive? || s.hist.first.Some?)
    ensures Step(low, s, a).hist.first == s.hist.first
  {
    if a.Receive? {
      FirstStaysReceiving(low, s);
    } else if Observes(s, a) {
      FirstStaysObserving(s, Step(low, s, a).scan, a.height);
    } else if OfScanner(a) {
      FirstStaysScanning(low, s, a);
    } else if a.Head? || a.Toggle? || a.Push? || a.RouteStop? {
      FirstStaysRouting(low, s, a);
    } else {
      FirstStaysDispatching(low, s, a);
    }
  }

  // Queue and counter together: in every state along the run each block between the start and the
  // scan position was queued and each block from the start up to the counter came back from the
  // dispatcher, exactly when the first number to set the counter is the start block. (Another first
  // number always falsifies the counter; the queue alone may still be complete.)
  lemma {:induction false} NoBlockSkippedExactly(low: nat, start: nat, acts: seq<Action>, t: State)
    requires 1 <= start && Reaches(low, start, acts, t)
    ensures NeverGaps(low, start, acts) <==> FirstIsStart(start, t.hist)
    ensures t.scan.from <= t.scan.next
  {
    CoreAlways(low, start, acts, t);
    if acts != [] {
      var n := |acts| - 1;
      var s := After(low, Initial(start), acts[..n]).value;
      NoBlockSkippedExactly(low, start, acts[..n], s);
      CoreAlways(low, start, acts[..n], s);
      if acts[n].Receive? && s.hist.first.None? {
        FirstReceived(low, start, s);
      } else {
        FirstStays(low, s, acts[n]);
      }
    }
  }

  // A block never put on the queue stays ahead of the scan position and above `done`; so whenever an
  // observation of a height at or above it leaves the scanner active, the block lies in the range still
  // to be scanned.
  lemma LostBlocksStayAhead(low: nat, start: nat, acts: seq<Action>, t: State, b: nat, height: nat)
    requires 1 <= start && Reaches(low, start, acts, t) && FirstIsStart(start, t.hist)
    requires start <= b <= height && b !in t.hist.queued
    ensures t.scan.next <= b && (t.scan.done == 0 || t.scan.done < b)
    ensures var seen := ObserveTicked(t.scan, Some(height));
      !seen.onIdle ==> seen.next <= b <= seen.to
    ensures t.scan.onIdle ==> (!ObserveTicked(t.scan, Some(height)).onIdle
                               <==> t.scan.done + RESCAN_HYSTERESIS <= height)
  {
    CoreAlways(low, start, acts, t);
    if t.scan.onIdle {
      ResumesExactly(t.scan, height);
    }
  }

  // ---- Which runs count from the start block ----

  // Block numbers on their way to the scanner, in arrival order.
  function Flow(s: State): seq<nat> {
    s.reports + (if s.disp.Reporting? then [s.disp.blk] else []) + s.queue
  }

  ghost predicate Untouched(start: nat, s: State) {
    && Flow(s) == [] && !s.scan.onIdle && s.scan.next == start && !s.scan.at.AtSwitch?
    && s.switches == [] && !s.route.pushHeads && s.route.outbox == []
  }

  // Until the counter is set, the start block is the next number to arrive.
  ghost predicate StartInLine(start: nat, s: State) {
    && ScannerBounds(s) && (s.scan.to == 0 || start <= s.scan.to)
    && (s.scan.done == 0 ==> Untouched(start, s) || (Flow(s) != [] && Flow(s)[0] == start))
    && FirstIsStart(start, s.hist) && (s.hist.first.None? <==> s.scan.done == 0)
  }

  lemma LineKeptByReceive(start: nat, s: State)
    requires 1 <= start && StartInLine(start, s) && Enabled(start, s, Receive)
    ensures StartInLine(start, Step(start, s, Receive))
  {
    assert Flow(s)[0] == s.reports[0];
    assert Flow(s)[1..] == Flow(Step(start, s, Receive));
  }

  lemma LineKeptBySend(start: nat, s: State)
    requires 1 <= start && StartInLine(start, s) && Enabled(start, s, Send)
    ensures StartInLine(start, Step(start, s, Send))
  {
    var t := Step(start, s, Send);
    if s.scan.at.AtPush? {
      assert Flow(t) == Flow(s) + [s.scan.at.blk];
    } else {
      assert Flow(t) == Flow(s);
    }
  }

  lemma LineKeptByObservation(start: nat, s: State, scan: Scan, height: Option<nat>)
    requires StartInLine(start, s) && Observable(start, height) && !s.scan.at.AtPush?
    requires (s.scan.at.AtLoop? && scan == ObserveTicked(s.scan, height))
          || (s.scan.at.AtStart? && scan == Begun(s.scan, height))
    ensures StartInLine(start, AfterObservation(s, scan, height))
  {
    assert Flow(AfterObservation(s, scan, height)) == Flow(s);
  }

  lemma LineKeptByScanner(start: nat, s: State, a: Action)
    requires StartInLine(start, s) && Enabled(start, s, a)
    requires OfScanner(a) && !a.Receive? && !a.Send? && !Observes(s, a)
    ensures StartInLine(start, Step(start, s, a))
  {
    assert Flow(Step(start, s, a)) == Flow(s);
  }

  lemma LineKeptByPush(start: nat, s: State)
    requires StartInLine(start, s) && Enabled(start, s, Push)
    ensures StartInLine(start, Step(start, s, Push))
  {
    assert Flow(Step(start, s, Push)) == Flow(s) + [s.route.outbox[0]];
  }

  lemma LineKeptByDispStop(start: nat, s: State)
    requires StartInLine(start, s) && Enabled(start, s, DispStop)
    ensures Step(start, s, DispStop).hist.firstLost || StartInLine(start, Step(start, s, DispStop))
  {
    var t := Step(start, s, DispStop);
    if s.disp.Reporting? {
      assert Flow(t) == s.reports + s.queue;
      assert Flow(s) == s.reports + [s.disp.blk] + s.queue;
      assert s.reports != [] ==> Flow(t)[0] == Flow(s)[0];
    } else {
      assert Flow(t) == Flow(s);
    }
  }

  lemma LineKeptByRouter(start: nat, s: State, a: Action)
    requires StartInLine(start, s) && Enabled(start, s, a)
    requires a.Head? || a.Toggle? || a.RouteStop?
    ensures StartInLine(start, Step(start, s, a))
  {
    assert Flow(Step(start, s, a)) == Flow(s);
  }

  lemma LineKeptByDispatcher(start: nat, s: State, a: Action)
    requires StartInLine(start, s) && Enabled(start, s, a)
    requires a.Take? || a.Report? || a.Finish? || a.DispClose? || a.DispRestop?
    ensures StartInLine(start, Step(start, s, a))
  {
    assert Flow(Step(start, s, a)) == Flow(s);
  }

  lemma LineStep(start: nat, s: State, a: Action)
    requires 1 <= start && Enabled(start, s, a)
    requires s.hist.firstLost || StartInLine(start, s)
    ensures Step(start, s, a).hist.firstLost || StartInLine(start, Step(start, s, a))
  {
    hide StartInLine;
    if !s.hist.firstLost {
      if a.Receive? {
        LineKeptByReceive(start, s);
      } else if a.Send? {
        LineKeptBySend(start, s);
      } else if Observes(s, a) {
        LineKeptByObservation(start, s, Step(start, s, a).scan, a.height);
      } else if OfScanner(a) {
        LineKeptByScanner(start, s, a);
      } else if a.Push? {
        LineKeptByPush(start, s);
      } else if a.DispStop? {
        LineKeptByDispStop(start, s);
      } else if a.Head? || a.Toggle? || a.RouteStop? {
        LineKeptByRouter(start, s, a);
      } else {
        LineKeptByDispatcher(start, s, a);
      }
    }
  }

  lemma {:induction false} LineAlways(start: nat, acts: seq<Action>, t: State)
    requires 1 <= start && Reaches(start, start, acts, t)
    ensures t.hist.firstLost || StartInLine(start, t)
  {
    if acts != [] {
      var n := |acts| - 1;
      var s := After(start, Initial(start), acts[..n]).value;
      LineAlways(start, acts[..n], s);
      LineStep(start, s, acts[n]);
    }
  }

  lemma LowerEnabled(low: nat, lower: nat, s: State, a: Action)
    requires lower <= low && Enabled(low, s, a)
    ensures Enabled(lower, s, a) && Step(lower, s, a) == Step(low, s, a)
  {
  }

  // A run that observes no height below `low` observes none below a smaller bound.
  lemma {:induction false} LowerBound(low: nat, lower: nat, start: nat, acts: seq<Action>, t: State)
    requires lower <= low && Reaches(low, start, acts, t)
    ensures Reaches(lower, start, acts, t)
  {
    hide Enabled, Step;
    if acts != [] {
      var n := |acts| - 1;
      var s := After(low, Initial(start), acts[..n]).value;
      LowerBound(low, lower, start, acts[..n], s);
      LowerEnabled(low, lower, s, acts[n]);
    }
  }

  // When every observed height is at least the start block and no stop signal makes the dispatcher
  // give up a block before any report arrived, the counter is set by the start block.
  lemma CountsFromStart(low: nat, start: nat, acts: seq<Action>, t: State)
    requires 1 <= start <= low && Reaches(low, start, acts, t) && !t.hist.firstLost
    ensures FirstIsStart(start, t.hist)
  {
    LowerBound(low, start, start, acts, t);
    LineAlways(start, acts, t);
  }

  // ---- Progress of an active scan ----

  ghost predicate ActiveThroughout(low: nat, s: State, acts: seq<Action>) {
    && !s.scan.onIdle
    && After(low, s, acts).Some?
    && !After(low, s, acts).value.scan.onIdle
    && (acts != [] ==> ActiveThroughout(low, s, acts[..|acts| - 1]))
  }

  // Which steps switch the scanner: an active one goes idle only on an observed height below the scan
  // position, an idle one resumes on a failed call or as ResumesExactly says.
  lemma SwitchesExactly(low: nat, s: State, a: Action)
    requires Enabled(low, s, a)
    ensures !s.scan.onIdle ==>
      (Step(low, s, a).scan.onIdle
       <==> Observes(s, a) && !a.Begin? && a.height.Some? && a.height.value < s.scan.next)
    ensures s.scan.onIdle ==>
      (!Step(low, s, a).scan.onIdle
       <==> a.ObserveTick?
            && (a.height.None?
                || (s.scan.done + 100 <= a.height.value && s.scan.next <= a.height.value)))
  {
  }

  // Along the run no observed height lies below the scan position of its moment.
  ghost predicate NeverBehind(low: nat, s: State, acts: seq<Action>) {
    acts != [] ==>
      var n := |acts| - 1;
      && NeverBehind(low, s, acts[..n])
      && (After(low, s, acts[..n]).Some? ==>
            !IsBehind(After(low, s, acts[..n]).value, acts[n]))
  }

  predicate IsBehind(s: State, a: Action) {
    Observes(s, a) && !a.Begin? && a.height.Some? && a.height.value < s.scan.next
  }

  // So an active scan stays active throughout a run exactly when none does.
  lemma {:induction false} StaysActiveExactly(low: nat, s: State, acts: seq<Action>)
    requires !s.scan.onIdle && After(low, s, acts).Some?
    ensures ActiveThroughout(low, s, acts) <==> NeverBehind(low, s, acts)
  {
    hide Enabled, Step;
    if acts != [] {
      var n := |acts| - 1;
      StaysActiveExactly(low, s, acts[..n]);
      SwitchesExactly(low, After(low, s, acts[..n]).value, acts[n]);
    }
  }

  // How many blocks the scanner itself put on the queue.
  function Shifts(low: nat, s: State, acts: seq<Action>): nat {
    if acts == [] then 0
    else
      var n := |acts| - 1;
      var before := After(low, s, acts[..n]);
      Shifts(low, s, acts[..n])
      + (if before.Some? && acts[n].Send? && before.value.scan.at.AtPush? then 1 else 0)
  }

  lemma ShiftStep(low: nat, s: State, a: Action)
    requires Enabled(low, s, a) && !s.scan.onIdle && !Step(low, s, a).scan.onIdle
    ensures Step(low, s, a).scan.next
         == s.scan.next + (if a.Send? && s.scan.at.AtPush? then 1 else 0)
  {
  }

  lemma {:induction false} EachShiftAdvances(low: nat, s: State, acts: seq<Action>)
    requires ActiveThroughout(low, s, acts)
    ensures After(low, s, acts).value.scan.next == s.scan.next + Shifts(low, s, acts)
  {
    if acts != [] {
      var n := |acts| - 1;
      EachShiftAdvances(low, s, acts[..n]);
      ShiftStep(low, After(low, s, acts[..n]).value, acts[n]);
    }
  }

  lemma {:induction false} RunsCompose(low: nat, s: State, first: seq<Action>, second: seq<Action>)
    requires After(low, s, first).Some?
    ensures After(low, s, first + second) == After(low, After(low, s, first).value, second)
  {
    if second == [] {
      assert first + second == first;
    } else {
      RunsCompose(low, s, first, second[..|second| - 1]);
      assert (first + second)[..|first + second| - 1] == first + second[..|second| - 1];
    }
  }

  // While the scan stays active, as many successful shifts as to + 1 - next, and no fewer, carry
  // the scan position past `to`; then everything from the start to `to` has been queued.
  lemma SelfHealing(low: nat, start: nat, history: seq<Action>, s: State, acts: seq<Action>, t: State)
    requires 1 <= start && Reaches(low, start, history, s)
    requires ActiveThroughout(low, s, acts) && After(low, s, acts) == Some(t)
    requires FirstIsStart(start, t.hist)
    ensures t.scan.next > s.scan.to <==> Shifts(low, s, acts) >= s.scan.to + 1 - s.scan.next
    ensures Shifts(low, s, acts) >= s.scan.to + 1 - s.scan.next ==>
              forall b :: start <= b <= s.scan.to ==> b in t.hist.queued
  {
    EachShiftAdvances(low, s, acts);
    RunsCompose(low, Initial(start), history, acts);
    CoreAlways(low, start, history + acts, t);
  }

  // ---- Handing the live heads over ----

  ghost predicate HeadsAccounted(r: Route, h: History) {
    && r.cache == Latest(HEAD_CACHE, h.cached)
    && (r.pushHeads ==> h.cached == [])
    && (forall b :: b in h.cached ==> b in h.heads)
    && h.overwritten <= h.heads
    && forall b :: b in h.heads ==>
         b in h.queued || b in r.outbox || b in r.cache || b in h.overwritten
  }

  ghost predicate OldHeadsBelow(to: nat, h: History) {
    && h.recent <= |h.cached|
    && (h.covered ==> forall i :: 0 <= i < |h.cached| - h.recent ==> h.cached[i] <= to)
    && (h.covered && !h.overrun ==> forall b :: b in h.overwritten ==> b <= to)
  }

  ghost predicate Handover(s: State) {
    HeadsAccounted(s.route, s.hist) && OldHeadsBelow(s.scan.to, s.hist)
  }

  lemma HeadStep(s: State, bn: nat, fetched: bool)
    requires Handover(s) && s.route.outbox == []
    ensures Handover(AfterHead(s, bn, fetched))
  {
    var t := AfterHead(s, bn, fetched);
    if fetched && !s.route.pushHeads {
      PushedIsLatest(HEAD_CACHE, s.hist.cached, bn);
      assert t.route.cache[0] == bn;
      forall b | b in s.hist.heads && b !in s.hist.queued && b !in s.hist.overwritten
        ensures b in t.route.cache || b in t.hist.overwritten
      {
        var i :| 0 <= i < |s.route.cache| && s.route.cache[i] == b;
        assert i + 1 < |t.route.cache| ==> t.route.cache[i + 1] == b;
      }
    }
  }

  lemma AdoptedBelow(h: History, r: Route, to: nat)
    requires HeadsAccounted(r, h)
    ensures HeadsAccounted(r, Adopted(h, to)) && OldHeadsBelow(to, Adopted(h, to))
  {
    assert forall i :: 0 <= i < |h.cached| ==> h.cached[i] in h.heads;
  }

  lemma ObservationStep(s: State, scan: Scan, height: Option<nat>)
    requires Handover(s) && scan.to == Observed(s.scan, height).0.to
    ensures Handover(AfterObservation(s, scan, height))
  {
    if height.Some? {
      AdoptedBelow(s.hist, s.route, height.value);
    }
  }

  lemma PushStep(low: nat, s: State)
    requires Enabled(low, s, Push) && Handover(s)
    ensures Handover(Step(low, s, Push))
  {
    assert forall b :: b in s.route.outbox ==>
      b == s.route.outbox[0] || b in Step(low, s, Push).route.outbox;
  }

  lemma ToggleStep(low: nat, s: State)
    requires Enabled(low, s, Toggle) && Handover(s)
    ensures Handover(Step(low, s, Toggle))
  {
  }

  // More queued, reported or received blocks leave the handover as it is.
  ghost predicate Quiet(s: State, t: State) {
    && t.route == s.route && t.scan.to == s.scan.to && s.hist.queued <= t.hist.queued
    && t.hist == s.hist.(queued := t.hist.queued, reported := t.hist.reported, first := t.hist.first,
                         received := t.hist.received, firstLost := t.hist.firstLost)
  }

  lemma QuietStep(s: State, t: State)
    requires Handover(s) && Quiet(s, t)
    ensures Handover(t)
  {
  }

  lemma ScannerIsQuiet(low: nat, s: State, a: Action)
    requires Enabled(low, s, a) && OfScanner(a) && !Observes(s, a)
    ensures Quiet(s, Step(low, s, a))
  {
  }

  lemma OthersAreQuiet(low: nat, s: State, a: Action)
    requires Enabled(low, s, a) && !OfScanner(a) && !a.Head? && !a.Push? && !a.Toggle?
    ensures Quiet(s, Step(low, s, a))
  {
  }

  lemma HandoverStep(low: nat, s: State, a: Action)
    requires Enabled(low, s, a) && Handover(s)
    ensures Handover(Step(low, s, a))
  {
    if a.Head? {
      HeadStep(s, a.number, a.fetched);
    } else if a.Push? {
      PushStep(low, s);
    } else if a.Toggle? {
      ToggleStep(low, s);
    } else if Observes(s, a) {
      ObservationStep(s, Step(low, s, a).scan, a.height);
    } else {
      if OfScanner(a) {
        ScannerIsQuiet(low, s, a);
      } else {
        OthersAreQuiet(low, s, a);
      }
      QuietStep(s, Step(low, s, a));
    }
  }

  lemma {:induction false} HandoverAlways(low: nat, start: nat, acts: seq<Action>, t: State)
    requires Reaches(low, start, acts, t)
    ensures Handover(t)
  {
    if acts != [] {
      var n := |acts| - 1;
      var s := After(low, Initial(start), acts[..n]).value;
      HandoverAlways(low, start, acts[..n], s);
      HandoverStep(low, s, acts[n]);
    }
  }

  // Once the orchestrator has handled the idle switch and emptied its outbox, only heads that fell
  // out of the ring can be missing from the dispatcher queue.
  lemma OnlyOverwrittenHeadsMissing(low: nat, start: nat, acts: seq<Action>, t: State, b: nat)
    requires Reaches(low, start, acts, t)
    requires t.route.pushHeads && t.route.outbox == []
    requires b in t.hist.heads && b !in t.hist.queued
    ensures b in t.hist.overwritten
  {
    HandoverAlways(low, start, acts, t);
  }

  // Once the orchestrator has handled the idle switch and emptied its outbox, every fetched head
  // above the adopted height is on the dispatcher queue, unless more than 50 heads were
  // cached since that height was adopted or the height lagged behind a head already seen.
  lemma HandoverComplete(low: nat, start: nat, acts: seq<Action>, t: State)
    requires Reaches(low, start, acts, t)
    requires t.route.pushHeads && t.route.outbox == []
    requires t.hist.covered && !t.hist.overrun
    ensures forall b :: b in t.hist.heads && b > t.scan.to ==> b in t.hist.queued
  {
    HandoverAlways(low, start, acts, t);
  }

  // Scan and handover together: at such a point each fetched head from the start on is queued or
  // lies in the range the scanner has still to deliver.
  lemma NoHeadLost(low: nat, start: nat, acts: seq<Action>, t: State, b: nat)
    requires 1 <= start <= b && Reaches(low, start, acts, t) && FirstIsStart(start, t.hist)
    requires t.route.pushHeads && t.route.outbox == []
    requires t.hist.covered && !t.hist.overrun && b in t.hist.heads
    ensures b in t.hist.queued || t.scan.next <= b <= t.scan.to
  {
    CoreAlways(low, start, acts, t);
    HandoverComplete(low, start, acts, t);
  }

  // ---- Stop tokens ----

  // A stop channel holds the one token close() sent, or the goroutine is about to put it back, or
  // its main select has consumed it.
  predicate Token(tokens: nat, returning: bool, consumed: bool, closed: bool) {
    tokens + (if returning then 1 else 0) + (if consumed then 1 else 0) == (if closed then 1 else 0)
  }

  predicate ScannerToken(s: State) {
    Token(s.scanStop, s.scan.at.AtRestop?, s.scan.at.AtEnd?, s.scanClosed)
  }

  predicate DispatcherToken(s: State) {
    Token(s.dispStop, s.disp.Restopping?, s.disp.Ended?, s.dispClosed)
  }

  lemma ScannerTokenStep(low: nat, s: State, a: Action)
    requires Enabled(low, s, a) && OfScanner(a) && ScannerToken(s)
    ensures ScannerToken(Step(low, s, a)) && (DispatcherToken(s) ==> DispatcherToken(Step(low, s, a)))
  {
  }

  lemma DispatcherTokenStep(low: nat, s: State, a: Action)
    requires Enabled(low, s, a) && !OfScanner(a) && DispatcherToken(s)
    ensures DispatcherToken(Step(low, s, a)) && (ScannerToken(s) ==> ScannerToken(Step(low, s, a)))
  {
  }

  // The token is never lost, doubled or blocked on its way back.
  lemma {:induction false} TokensAlways(low: nat, start: nat, acts: seq<Action>, t: State)
    requires Reaches(low, start, acts, t)
    ensures ScannerToken(t) && DispatcherToken(t)
    ensures t.scan.at.AtRestop? ==> Enabled(low, t, ScanRestop)
    ensures t.disp.Restopping? ==> Enabled(low, t, DispRestop)
  {
    if acts != [] {
      var n := |acts| - 1;
      var s := After(low, Initial(start), acts[..n]).value;
      TokensAlways(low, start, acts[..n], s);
      if OfScanner(acts[n]) {
        ScannerTokenStep(low, s, acts[n]);
      } else {
        DispatcherTokenStep(low, s, acts[n]);
      }
    }
  }

  // Once its stop channel is closed, a goroutine can end from wherever it stands by its own next steps:
  // in its main select it takes the token at once, anywhere else it gives up what it is doing, puts
  // the token back and takes it there. Nothing is sent on the way, and nothing else changes.
  lemma StopEndsScanner(low: nat, start: nat, acts: seq<Action>, t: State)
    requires Reaches(low, start, acts, t) && t.scanClosed && !t.scan.at.AtEnd? && !t.scan.at.AtStart?
    ensures var own := if t.scan.at.AtLoop? then [ScanStop]
                       else if t.scan.at.AtRestop? then [ScanRestop, ScanStop]
                       else [ScanStop, ScanRestop, ScanStop];
      Reaches(low, start, acts + own, t.(scan := t.scan.(at := AtEnd), scanStop := 0))
  {
    TokensAlways(low, start, acts, t);
    hide Enabled, Step, After;
    var back := t.(scan := t.scan.(at := AtLoop), scanStop := 1);
    if t.scan.at.AtLoop? {
      ScannerEnds(low, start, acts, t);
    } else if t.scan.at.AtRestop? {
      ScannerReturns(low, start, acts, t);
      ScannerEnds(low, start, acts + [ScanRestop], back);
      assert acts + [ScanRestop, ScanStop] == acts + [ScanRestop] + [ScanStop];
    } else {
      ScannerGivesUp(low, start, acts, t);
      ScannerReturns(low, start, acts + [ScanStop], t.(scan := t.scan.(at := AtRestop), scanStop := 0));
      ScannerEnds(low, start, acts + [ScanStop] + [ScanRestop], back);
      assert acts + [ScanStop, ScanRestop, ScanStop] == acts + [ScanStop] + [ScanRestop] + [ScanStop];
    }
  }

  lemma ScannerGivesUp(low: nat, start: nat, acts: seq<Action>, s: State)
    requires Reaches(low, start, acts, s) && s.scanStop == 1 && (s.scan.at.AtPush? || s.scan.at.AtSwitch?)
    ensures Reaches(low, start, acts + [ScanStop], s.(scan := s.scan.(at := AtRestop), scanStop := 0))
  {
    OneMore(low, start, acts, ScanStop);
  }

  lemma ScannerReturns(low: nat, start: nat, acts: seq<Action>, s: State)
    requires Reaches(low, start, acts, s) && s.scanStop == 0 && s.scan.at.AtRestop?
    ensures Reaches(low, start, acts + [ScanRestop], s.(scan := s.scan.(at := AtLoop), scanStop := 1))
  {
    OneMore(low, start, acts, ScanRestop);
  }

  lemma ScannerEnds(low: nat, start: nat, acts: seq<Action>, s: State)
    requires Reaches(low, start, acts, s) && s.scanStop == 1 && s.scan.at.AtLoop?
    ensures Reaches(low, start, acts + [ScanStop], s.(scan := s.scan.(at := AtEnd), scanStop := 0))
  {
    OneMore(low, start, acts, ScanStop);
  }

  // What the dispatcher's stop may leave behind: the history notes a first report given up.
  ghost predicate EndsAs(t: State, ended: State) {
    ended == t.(disp := Ended, dispStop := 0, hist := t.hist.(firstLost := ended.hist.firstLost))
  }

  lemma StopEndsDispatcher(low: nat, start: nat, acts: seq<Action>, t: State)
    requires Reaches(low, start, acts, t) && t.dispClosed && !t.disp.Ended?
    ensures var own := if t.disp.Ready? then [DispStop]
                       else if t.disp.Restopping? then [DispRestop, DispStop]
                       else [DispStop, DispRestop, DispStop];
      After(low, Initial(start), acts + own).Some? && EndsAs(t, After(low, Initial(start), acts + own).value)
  {
    TokensAlways(low, start, acts, t);
    hide Enabled, Step, After;
    if t.disp.Ready? {
      DispatcherEnds(low, start, acts, t);
    } else if t.disp.Restopping? {
      DispatcherReturns(low, start, acts, t);
      DispatcherEnds(low, start, acts + [DispRestop], t.(disp := Ready, dispStop := 1));
      assert acts + [DispRestop, DispStop] == acts + [DispRestop] + [DispStop];
    } else {
      var lost := DispatcherGivesUp(low, start, acts, t);
      var h := t.hist.(firstLost := lost);
      DispatcherReturns(low, start, acts + [DispStop], t.(disp := Restopping, dispStop := 0, hist := h));
      DispatcherEnds(low, start, acts + [DispStop] + [DispRestop], t.(disp := Ready, dispStop := 1, hist := h));
      assert acts + [DispStop, DispRestop, DispStop] == acts + [DispStop] + [DispRestop] + [DispStop];
    }
  }

  lemma DispatcherGivesUp(low: nat, start: nat, acts: seq<Action>, s: State) returns (lost: bool)
    requires Reaches(low, start, acts, s) && s.dispStop == 1 && (s.disp.Reporting? || s.disp.Processing?)
    ensures Reaches(low, start, acts + [DispStop],
                    s.(disp := Restopping, dispStop := 0, hist := s.hist.(firstLost := lost)))
  {
    OneMore(low, start, acts, DispStop);
    lost := Step(low, s, DispStop).hist.firstLost;
  }

  lemma DispatcherReturns(low: nat, start: nat, acts: seq<Action>, s: State)
    requires Reaches(low, start, acts, s) && s.dispStop == 0 && s.disp.Restopping?
    ensures Reaches(low, start, acts + [DispRestop], s.(disp := Ready, dispStop := 1))
  {
    hide After;
    OneMore(low, start, acts, DispRestop);
    assert Next(low, Some(s), DispRestop) == Some(s.(disp := Ready, dispStop := 1));
  }

  lemma DispatcherEnds(low: nat, start: nat, acts: seq<Action>, s: State)
    requires Reaches(low, start, acts, s) && s.dispStop == 1 && s.disp.Ready?
    ensures Reaches(low, start, acts + [DispStop], s.(disp := Ended, dispStop := 0))
  {
    OneMore(low, start, acts, DispStop);
  }

  lemma OneMore(low: nat, start: nat, acts: seq<Action>, a: Action)
    ensures After(low, Initial(start), acts + [a]) == Next(low, After(low, Initial(start), acts), a)
  {
    assert (acts + [a])[..|acts|] == acts;
  }

  // ---- The routing of heads follows the scanner ----

  // The last switch taken by the orchestrator.
  ghost function LastTaken(low: nat, start: nat, acts: seq<Action>): bool {
    if acts == [] then false
    else
      var n := |acts| - 1;
      var before := After(low, Initial(start), acts[..n]);
      if acts[n].Toggle? && before.Some? && before.value.switches != [] then before.value.switches[0]
      else LastTaken(low, start, acts[..n])
  }

  lemma RouteStays(low: nat, s: State, a: Action)
    requires Enabled(low, s, a)
    ensures a.Toggle? ==> s.switches != [] && Step(low, s, a).route.pushHeads == s.switches[0]
    ensures !a.Toggle? ==> Step(low, s, a).route.pushHeads == s.route.pushHeads
  {
  }

  lemma {:induction false} RoutesByLastSwitch(low: nat, start: nat, acts: seq<Action>, t: State)
    requires Reaches(low, start, acts, t)
    ensures t.route.pushHeads == LastTaken(low, start, acts)
  {
    hide Enabled, Step;
    if acts != [] {
      var n := |acts| - 1;
      var s := After(low, Initial(start), acts[..n]).value;
      RoutesByLastSwitch(low, start, acts[..n], s);
      RouteStays(low, s, acts[n]);
    }
  }

  // A loadable head goes to the dispatcher, past the empty ring, exactly when the last switch taken
  // was to idle, and otherwise to the front of the ring; one that can not be loaded goes nowhere.
  lemma HeadsRoutedExactly(low: nat, start: nat, acts: seq<Action>, t: State, bn: nat)
    requires Reaches(low, start, acts, t) && Enabled(low, t, Head(bn, true))
    ensures var r := Step(low, t, Head(bn, true)).route;
      if LastTaken(low, start, acts) then r.outbox == [bn] && r.cache == []
      else r.outbox == [] && r.cache != [] && r.cache[0] == bn
    ensures Step(low, t, Head(bn, false)).route == t.route
  {
    RoutesByLastSwitch(low, start, acts, t);
    HandoverAlways(low, start, acts, t);
  }

  // The state the orchestrator knows or is about to learn.
  function LastAnnounced(s: State): bool {
    if s.switches != [] then s.switches[|s.switches| - 1] else s.route.pushHeads
  }

  ghost predicate Announces(s: State) {
    && (s.scan.at.AtSwitch? ==> s.scan.at.target == s.scan.onIdle)
    && (!s.scanClosed ==> (LastAnnounced(s) == s.scan.onIdle <==> !s.scan.at.AtSwitch?))
  }

  lemma AnnouncedObserving(s: State, scan: Scan, height: Option<nat>)
    requires Announces(s)
    requires (s.scan.at.AtLoop? && scan == ObserveTicked(s.scan, height))
          || (s.scan.at.AtStart? && scan == Begun(s.scan, height))
    ensures Announces(AfterObservation(s, scan, height))
  {
  }

  lemma AnnouncedScanning(low: nat, s: State, a: Action)
    requires Announces(s) && ScannerToken(s) && Enabled(low, s, a) && OfScanner(a) && !Observes(s, a)
    ensures Announces(Step(low, s, a))
  {
  }

  lemma AnnouncedElsewhere(low: nat, s: State, a: Action)
    requires Announces(s) && Enabled(low, s, a) && !OfScanner(a)
    ensures Announces(Step(low, s, a))
  {
  }

  lemma {:induction false} AnnouncesAlways(low: nat, start: nat, acts: seq<Action>, t: State)
    requires Reaches(low, start, acts, t)
    ensures Announces(t)
  {
    if acts != [] {
      hide Announces;
      var n := |acts| - 1;
      var s := After(low, Initial(start), acts[..n]).value;
      AnnouncesAlways(low, start, acts[..n], s);
      TokensAlways(low, start, acts[..n], s);
      if Observes(s, acts[n]) {
        AnnouncedObserving(s, Step(low, s, acts[n]).scan, acts[n].height);
      } else if OfScanner(acts[n]) {
        AnnouncedScanning(low, s, acts[n]);
      } else {
        AnnouncedElsewhere(low, s, acts[n]);
      }
    }
  }

  // Until the scanner is stopped: once no switch is pending or on its way, heads are pushed directly
  // exactly while the scanner is idle.
  lemma RoutingFollowsScanner(low: nat, start: nat, acts: seq<Action>, t: State)
    requires Reaches(low, start, acts, t) && !t.scanClosed
    requires t.switches == [] && !t.scan.at.AtSwitch?
    ensures t.route.pushHeads <==> t.scan.onIdle
  {
    AnnouncesAlways(low, start, acts, t);
  }
}
