// Where the pipeline comes to a standstill: scanner and block dispatcher wait for each other when both
// of the channels between them are full.
module PipelineStuck {
  import opened Common
  import opened BlockScan
  import opened Pipeline
  import opened PipelineLimits

  // A step of the goroutines themselves: no new head and no stop signal.
  predicate Progress(a: Action) {
    a.Begin? || a.Receive? || a.ObserveTick? || a.ScanTick? || a.Send? || a.Toggle? || a.Push?
    || a.Take? || a.Report? || a.Finish?
  }

  ghost predicate Stuck(low: nat, s: State) {
    forall a :: Progress(a) ==> !Enabled(low, s, a)
  }

  // None of the three goroutines has returned or holds a stop token.
  predicate AllRunning(s: State) {
    && !s.scan.at.AtRestop? && !s.scan.at.AtEnd?
    && !s.disp.Restopping? && !s.disp.Ended? && s.routing
  }

  ghost predicate WithinBuffers(s: State) {
    |s.queue| <= BLOCK_BUFFER && |s.reports| <= BLOCK_BUFFER && |s.switches| <= 1
  }

  lemma BufferStep(low: nat, s: State, a: Action)
    requires Enabled(low, s, a) && WithinBuffers(s)
    ensures WithinBuffers(Step(low, s, a))
  {
  }

  lemma {:induction false} BuffersAlways(low: nat, start: nat, acts: seq<Action>, t: State)
    requires Reaches(low, start, acts, t)
    ensures WithinBuffers(t)
  {
    if acts != [] {
      var n := |acts| - 1;
      var s := After(low, Initial(start), acts[..n]).value;
      BuffersAlways(low, start, acts[..n], s);
      BufferStep(low, s, acts[n]);
    }
  }

  // The dispatcher can not report and the scanner, which would receive the report, is waiting to send.
  predicate Locked(s: State) {
    && s.disp.Reporting? && |s.reports| == 1000 && |s.queue| == 1000
    && (s.scan.at.AtPush? || (s.scan.at.AtSwitch? && s.switches != []))
  }

  // While all goroutines run, nothing can move exactly when scanner and dispatcher are locked and the
  // orchestrator has no state switch to take or can not take it for blocks still to push.
  lemma StuckExactly(low: nat, start: nat, acts: seq<Action>, t: State)
    requires Reaches(low, start, acts, t) && AllRunning(t)
    ensures Stuck(low, t) <==> Locked(t) && (t.route.outbox == [] ==> t.switches == [])
  {
    BuffersAlways(low, start, acts, t);
    if Stuck(low, t) {
      assert !Enabled(low, t, Begin(None)) && !Enabled(low, t, ObserveTick(None));
      assert !Enabled(low, t, Send) && !Enabled(low, t, Toggle) && !Enabled(low, t, Push);
      assert !Enabled(low, t, Take) && !Enabled(low, t, Report) && !Enabled(low, t, Finish);
    }
  }

  // A scanner waiting to push a block never gets out of the lock but by a stop signal: whatever heads,
  // switches or other steps follow, both goroutines stay where they are.
  lemma LockStays(low: nat, s: State, a: Action)
    requires Enabled(low, s, a) && Locked(s) && s.scan.at.AtPush?
    requires !a.ScanStop? && !a.DispStop?
    ensures var t := Step(low, s, a);
      Locked(t) && t.scan == s.scan && t.disp == s.disp && t.queue == s.queue && t.reports == s.reports
  {
  }

  ghost predicate NoStop(acts: seq<Action>) {
    forall a :: a in acts ==> !a.ScanStop? && !a.DispStop?
  }

  lemma {:induction false} LockedForever(low: nat, s: State, acts: seq<Action>, t: State)
    requires Locked(s) && s.scan.at.AtPush? && After(low, s, acts) == Some(t) && NoStop(acts)
    ensures Locked(t) && t.scan == s.scan && t.disp == s.disp
    ensures t.queue == s.queue && t.reports == s.reports
  {
    if acts != [] {
      var n := |acts| - 1;
      var u := After(low, s, acts[..n]).value;
      LockedForever(low, s, acts[..n], u);
      LockStays(low, u, acts[n]);
    }
  }

  // ---- A run into the lock ----

  // Every block goes through the dispatcher while the scanner receives no report.
  lemma {:induction false} FillReports(n: nat) returns (acts: seq<Action>, t: State)
    requires n <= BLOCK_BUFFER
    ensures Reaches(5, 5, acts, t) && t.scan == Scan(false, 5, 5 + n, 5000, 0, AtLoop)
    ensures t.queue == [] && |t.reports| == n && t.disp == Ready
    ensures t.routing && t.route == Route(false, [], []) && t.switches == []
  {
    hide Reaches;
    if n == 0 {
      acts, t := FreshStart(5, 5, 5000);
    } else {
      acts, t := FillReports(n - 1);
      acts, t := ScanBlock(5, 5, acts, t);
      acts, t := DispatchOne(5, 5, acts, t);
    }
  }

  // The dispatcher waits to report; the scanner goes on sending.
  lemma {:induction false} FillQueue(n: nat) returns (acts: seq<Action>, t: State)
    requires n <= BLOCK_BUFFER
    ensures Reaches(5, 5, acts, t)
    ensures t.scan == Scan(false, 5, 5 + BLOCK_BUFFER + 1 + n, 5000, 0, AtLoop)
    ensures |t.queue| == n && |t.reports| == BLOCK_BUFFER && t.disp.Reporting?
    ensures t.routing && t.route == Route(false, [], []) && t.switches == []
  {
    hide Reaches;
    if n == 0 {
      acts, t := FillReports(BLOCK_BUFFER);
      acts, t := ScanBlock(5, 5, acts, t);
      acts, t := Extend(5, 5, acts, t, Take);
    } else {
      acts, t := FillQueue(n - 1);
      acts, t := ScanBlock(5, 5, acts, t);
    }
  }

  // A run without failures or stops after which nothing can move any more.
  lemma PipelineLocks() returns (acts: seq<Action>, t: State)
    ensures Reaches(5, 5, acts, t) && AllRunning(t) && t.scan.at.AtPush? && Stuck(5, t)
  {
    acts, t := FillQueue(BLOCK_BUFFER);
    acts, t := Extend(5, 5, acts, t, ScanTick(None, true));
    StuckExactly(5, 5, acts, t);
  }
}
