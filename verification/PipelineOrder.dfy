// Heads in order: when heads arrive with increasing numbers and the adopted heights do not fall, the
// handover loses exactly the heads that fell out of the ring above the adopted height.
module PipelineOrder {
  import opened Common
  import opened BlockScan
  import opened Pipeline

  // A loadable head is newer than all before it, and an adopted height is at least the last one.
  ghost predicate InOrder(s: State, a: Action) {
    && (a.Head? && a.fetched ==> forall b :: b in s.hist.heads ==> b < a.number)
    && (Observes(s, a) && a.height.Some? && !KeepsWaiting(s.scan, a.height.value) ==>
          s.scan.to <= a.height.value)
  }

  ghost predicate OrderedRun(low: nat, start: nat, acts: seq<Action>) {
    acts != [] ==>
      var n := |acts| - 1;
      && OrderedRun(low, start, acts[..n])
      && (After(low, Initial(start), acts[..n]).Some? ==>
            InOrder(After(low, Initial(start), acts[..n]).value, acts[n]))
  }

  ghost predicate Increasing(log: seq<nat>) {
    forall i, j :: 0 <= i < j < |log| ==> log[i] < log[j]
  }

  // Scanned blocks lie at or below the adopted height; everything else that was queued is a head.
  ghost predicate Sources(to: nat, at: ScanPoint, outbox: seq<nat>, h: History) {
    && (at.AtPush? ==> at.blk <= to)
    && (forall b :: b in h.queued ==> b <= to || b in h.heads)
    && (forall b :: b in outbox ==> b in h.heads)
    && (outbox != [] ==> h.cached == [])
  }

  // The overwritten heads of the current log are those the ring no longer holds.
  ghost predicate RingLog(h: History) {
    && Increasing(h.cached)
    && (forall b :: b in h.cached ==> b in h.heads) && h.overwritten <= h.heads
    && (forall i :: 0 <= i < |h.cached| ==>
          (h.cached[i] in h.overwritten <==> i < |h.cached| - HEAD_CACHE))
  }

  // No head above the height that was cached or overwritten is queued, nor will an overwritten one be.
  ghost predicate Apart(to: nat, outbox: seq<nat>, h: History) {
    && (forall b :: b in h.cached && b > to ==> b !in h.queued)
    && (forall b :: b in h.overwritten && b > to ==> b !in h.queued && b !in outbox)
  }

  ghost predicate Ordered(s: State) {
    && Sources(s.scan.to, s.scan.at, s.route.outbox, s.hist)
    && RingLog(s.hist) && Apart(s.scan.to, s.route.outbox, s.hist)
  }

  // One more head in the log: the ring gives up the one it holds longest.
  ghost predicate Logged(h: History, bn: nat, g: History) {
    var n := |h.cached|;
    && g.cached == h.cached + [bn] && g.heads == h.heads + {bn} && g.queued == h.queued
    && g.overwritten == if n < HEAD_CACHE then h.overwritten
                        else h.overwritten + {h.cached[n - HEAD_CACHE]}
  }

  lemma LoggedRing(h: History, bn: nat, g: History)
    requires RingLog(h) && Logged(h, bn, g) && forall b :: b in h.heads ==> b < bn
    ensures RingLog(g)
  {
    var n := |h.cached|;
    assert forall i :: 0 <= i < n ==> g.cached[i] == h.cached[i] && h.cached[i] in h.cached;
    assert n >= HEAD_CACHE ==> h.cached[n - HEAD_CACHE] in h.cached;
  }

  lemma LoggedApart(to: nat, h: History, bn: nat, g: History)
    requires Apart(to, [], h) && Logged(h, bn, g) && (bn > to ==> bn !in h.queued)
    ensures Apart(to, [], g)
  {
    var n := |h.cached|;
    assert n >= HEAD_CACHE ==> h.cached[n - HEAD_CACHE] in h.cached;
    assert forall b :: b in g.cached <==> b in h.cached || b == bn;
  }

  lemma OrderedHead(s: State, bn: nat, fetched: bool)
    requires Ordered(s) && Handover(s) && s.route.outbox == []
    requires fetched ==> forall b :: b in s.hist.heads ==> b < bn
    ensures Ordered(AfterHead(s, bn, fetched))
  {
    if fetched && !s.route.pushHeads {
      hide RingLog, Apart, Handover;
      LoggedRing(s.hist, bn, AfterHead(s, bn, fetched).hist);
      LoggedApart(s.scan.to, s.hist, bn, AfterHead(s, bn, fetched).hist);
    }
  }

  lemma OrderedToggle(low: nat, s: State)
    requires Ordered(s) && Handover(s) && Enabled(low, s, Toggle)
    ensures Ordered(Step(low, s, Toggle))
  {
    var h := s.hist;
    forall b | b in s.route.cache ensures b in h.heads && b !in h.overwritten {
      var i :| 0 <= i < |s.route.cache| && s.route.cache[i] == b;
      assert h.cached[|h.cached| - 1 - i] == b;
      assert h.cached[|h.cached| - 1 - i] in h.cached;
    }
  }

  lemma OrderedPush(low: nat, s: State)
    requires Ordered(s) && Enabled(low, s, Push)
    ensures Ordered(Step(low, s, Push))
  {
    assert s.route.outbox[0] in s.route.outbox;
    assert forall b :: b in s.route.outbox[1..] ==> b in s.route.outbox;
  }

  lemma OrderedObservation(s: State, scan: Scan, height: Option<nat>)
    requires Ordered(s) && !scan.at.AtPush? && s.scan.to <= scan.to
    ensures Ordered(AfterObservation(s, scan, height))
  {
  }

  lemma OrderedSend(low: nat, s: State)
    requires Ordered(s) && Enabled(low, s, Send)
    ensures Ordered(Step(low, s, Send))
  {
  }

  lemma OrderedScanner(low: nat, s: State, a: Action)
    requires Ordered(s) && Enabled(low, s, a) && OfScanner(a) && !a.Send? && !Observes(s, a)
    ensures Ordered(Step(low, s, a))
  {
  }

  lemma OrderedOthers(low: nat, s: State, a: Action)
    requires Ordered(s) && Enabled(low, s, a)
    requires !OfScanner(a) && !a.Head? && !a.Toggle? && !a.Push?
    ensures Ordered(Step(low, s, a))
  {
  }

  lemma ObservedHeight(low: nat, s: State, a: Action)
    requires Enabled(low, s, a) && Observes(s, a) && InOrder(s, a)
    ensures Step(low, s, a) == AfterObservation(s, Step(low, s, a).scan, a.height)
    ensures !Step(low, s, a).scan.at.AtPush? && s.scan.to <= Step(low, s, a).scan.to
  {
  }

  lemma OrderedStep(low: nat, s: State, a: Action)
    requires Ordered(s) && Handover(s) && Enabled(low, s, a) && InOrder(s, a)
    ensures Ordered(Step(low, s, a))
  {
    hide Ordered, Handover, AfterObservation;
    if a.Head? {
      OrderedHead(s, a.number, a.fetched);
    } else if a.Toggle? {
      OrderedToggle(low, s);
    } else if a.Push? {
      OrderedPush(low, s);
    } else if a.Send? {
      OrderedSend(low, s);
    } else if Observes(s, a) {
      ObservedHeight(low, s, a);
      OrderedObservation(s, Step(low, s, a).scan, a.height);
    } else if OfScanner(a) {
      OrderedScanner(low, s, a);
    } else {
      OrderedOthers(low, s, a);
    }
  }

  lemma {:induction false} OrderedAlways(low: nat, start: nat, acts: seq<Action>, t: State)
    requires Reaches(low, start, acts, t) && OrderedRun(low, start, acts)
    ensures Ordered(t)
  {
    if acts != [] {
      var n := |acts| - 1;
      var s := After(low, Initial(start), acts[..n]).value;
      OrderedAlways(low, start, acts[..n], s);
      HandoverAlways(low, start, acts[..n], s);
      OrderedStep(low, s, acts[n]);
    }
  }

  // Once the orchestrator has handled the idle switch and emptied its outbox, every head above the
  // adopted height is queued if and only if none of those heads was overwritten in the ring.
  lemma HandoverExactly(low: nat, start: nat, acts: seq<Action>, t: State)
    requires Reaches(low, start, acts, t) && OrderedRun(low, start, acts)
    requires t.route.pushHeads && t.route.outbox == []
    ensures (forall b :: b in t.hist.heads && b > t.scan.to ==> b in t.hist.queued)
       <==> forall b :: b in t.hist.overwritten ==> b <= t.scan.to
  {
    OrderedAlways(low, start, acts, t);
    HandoverAlways(low, start, acts, t);
  }

  // And of the heads cached since the ring was last reset one above the adopted height was overwritten
  // if and only if more than 50 of them lie above it.
  lemma RingLosesExactly(low: nat, start: nat, acts: seq<Action>, t: State)
    requires Reaches(low, start, acts, t) && OrderedRun(low, start, acts)
    ensures (exists i :: 0 <= i < |t.hist.cached| && t.hist.cached[i] > t.scan.to
              && t.hist.cached[i] in t.hist.overwritten)
       <==> CountAbove(t.hist.cached, t.scan.to) > 50
  {
    OrderedAlways(low, start, acts, t);
    CountFromTop(t.hist.cached, t.scan.to);
    var cached, k := t.hist.cached, |t.hist.cached| - CountAbove(t.hist.cached, t.scan.to);
    if CountAbove(cached, t.scan.to) > HEAD_CACHE {
      assert cached[k] > t.scan.to && cached[k] in t.hist.overwritten;
    }
  }

  // ---- From the idle switch to the end of the handover ----

  // After the switch: no further switch is taken, and observations find no new height to adopt.
  ghost predicate Undisturbed(low: nat, s: State, acts: seq<Action>) {
    acts != [] ==>
      var n := |acts| - 1;
      && Undisturbed(low, s, acts[..n]) && !acts[n].Toggle?
      && (After(low, s, acts[..n]).Some? ==> AdoptsNothing(After(low, s, acts[..n]).value, acts[n]))
  }

  predicate AdoptsNothing(s: State, a: Action) {
    Observes(s, a) ==> a.height.None? || KeepsWaiting(s.scan, a.height.value)
  }

  // Live heads are pushed directly, so nothing more falls out of the ring.
  ghost predicate SameLosses(s: State, t: State) {
    t.scan.to == s.scan.to && t.hist.overwritten == s.hist.overwritten && t.route.pushHeads
  }

  lemma UndisturbedObservation(low: nat, s: State, a: Action)
    requires Enabled(low, s, a) && Observes(s, a) && AdoptsNothing(s, a) && s.route.pushHeads
    ensures SameLosses(s, Step(low, s, a))
  {
  }

  lemma UndisturbedScanner(low: nat, s: State, a: Action)
    requires Enabled(low, s, a) && OfScanner(a) && !Observes(s, a) && s.route.pushHeads
    ensures SameLosses(s, Step(low, s, a))
  {
  }

  lemma UndisturbedOthers(low: nat, s: State, a: Action)
    requires Enabled(low, s, a) && !OfScanner(a) && !a.Toggle? && s.route.pushHeads
    ensures SameLosses(s, Step(low, s, a))
  {
  }

  lemma {:induction false} UndisturbedKeeps(low: nat, s: State, acts: seq<Action>, t: State)
    requires s.route.pushHeads && Undisturbed(low, s, acts) && After(low, s, acts) == Some(t)
    ensures SameLosses(s, t)
  {
    hide Step, Enabled;
    if acts != [] {
      var n := |acts| - 1;
      var u := After(low, s, acts[..n]).value;
      UndisturbedKeeps(low, s, acts[..n], u);
      if Observes(u, acts[n]) {
        UndisturbedObservation(low, u, acts[n]);
      } else if OfScanner(acts[n]) {
        UndisturbedScanner(low, u, acts[n]);
      } else {
        UndisturbedOthers(low, u, acts[n]);
      }
    }
  }

  lemma {:induction false} OrderedPrefix(low: nat, start: nat, first: seq<Action>, rest: seq<Action>)
    requires OrderedRun(low, start, first + rest)
    ensures OrderedRun(low, start, first)
  {
    if rest == [] {
      assert first + rest == first;
    } else {
      assert (first + rest)[..|first + rest| - 1] == first + rest[..|rest| - 1];
      OrderedPrefix(low, start, first, rest[..|rest| - 1]);
    }
  }

  lemma SwitchTaken(low: nat, s: State)
    requires Enabled(low, s, Toggle) && s.switches[0]
    ensures SameLosses(s, Step(low, s, Toggle))
  {
  }

  // s: the orchestrator is about to take an idle switch; t: it has done so and emptied its outbox. In
  // t every head above the adopted height is queued if and only if at most 50 of the heads
  // cached in s lie above it, and no earlier handover has lost one.
  lemma HandoverLosesExactly(low: nat, start: nat, before: seq<Action>, s: State,
                             after: seq<Action>, t: State)
    requires Reaches(low, start, before, s) && Enabled(low, s, Toggle) && s.switches[0]
    requires var u := Step(low, s, Toggle); Undisturbed(low, u, after) && After(low, u, after) == Some(t)
    requires OrderedRun(low, start, before + [Toggle] + after) && t.route.outbox == []
    ensures (forall b :: b in t.hist.heads && b > t.scan.to ==> b in t.hist.queued)
       <==> (CountAbove(s.hist.cached, s.scan.to) <= 50
             && forall b :: b in s.hist.overwritten && b !in s.hist.cached ==> b <= s.scan.to)
  {
    hide Step, Enabled, OrderedRun, Undisturbed;
    var u := Step(low, s, Toggle);
    SwitchTaken(low, s);
    UndisturbedKeeps(low, u, after, t);
    assert (before + [Toggle])[..|before + [Toggle]| - 1] == before;
    RunsCompose(low, Initial(start), before + [Toggle], after);
    OrderedPrefix(low, start, before + [Toggle], after);
    OrderedPrefix(low, start, before, [Toggle]);
    HandoverExactly(low, start, before + [Toggle] + after, t);
    RingLosesExactly(low, start, before, s);
    assert forall b :: b in s.hist.cached <==> exists i :: 0 <= i < |s.hist.cached| && s.hist.cached[i] == b;
  }

  function CountAbove(log: seq<nat>, to: nat): (n: nat)
    ensures n <= |log|
  {
    if log == [] then 0
    else CountAbove(log[..|log| - 1], to) + (if log[|log| - 1] > to then 1 else 0)
  }

  // In an increasing log the heads above a height are the last ones.
  lemma {:induction false} CountFromTop(log: seq<nat>, to: nat)
    requires Increasing(log)
    ensures forall i :: 0 <= i < |log| ==> (log[i] > to <==> i >= |log| - CountAbove(log, to))
  {
    if log != [] {
      var n := |log| - 1;
      CountFromTop(log[..n], to);
      if log[n] <= to {
        assert forall i :: 0 <= i < n ==> log[i] <= to;
        assert forall i :: 0 <= i < n ==> log[..n][i] <= to;
        NoneAbove(log[..n], to);
      }
    }
  }

  lemma {:induction false} NoneAbove(log: seq<nat>, to: nat)
    requires forall i :: 0 <= i < |log| ==> log[i] <= to
    ensures CountAbove(log, to) == 0
  {
    if log != [] {
      NoneAbove(log[..|log| - 1], to);
    }
  }
}
