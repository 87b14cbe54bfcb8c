// The block dispatcher's own work: reporting block numbers to the scanner and turning blocks into
// the stream of transactions (internal/svc/dispatch_blk.go), and what the order of blocks means for
// the burn records made from that stream.
module BlkDispatch {
  import opened Common
  import opened Burn

  datatype Detail = Detail(gasPrice: int, gasUsed: nat, hash: nat)

  // A block with its transactions; None is one whose detail can not be loaded.
  datatype Block = Block(number: nat, stamp: nat, txs: seq<Option<Detail>>)

  // One block to process. `stopAt` is the send whose select takes the stop branch: number 0 reports
  // the block, the others hand over its transactions.
  datatype Job = Job(blk: Block, stopAt: Option<nat>)

  // The transactions to hand over, with the block's number and time stamp.
  function Loaded(blk: Block, n: nat): seq<Tx>
    requires n <= |blk.txs|
  {
    if n == 0 then []
    else
      Loaded(blk, n - 1)
      + match blk.txs[n - 1] {
          case None => []
          case Some(d) => [Tx(blk.number, blk.stamp, d.gasPrice, d.gasUsed, d.hash)]
        }
  }

  function Wanted(blk: Block): seq<Tx> {
    Loaded(blk, |blk.txs|)
  }

  // What gets out before a stop.
  function Handed(job: Job): seq<Tx> {
    var all := Wanted(job.blk);
    if job.stopAt.None? || job.stopAt.value > |all| then all
    else if job.stopAt.value == 0 then []
    else all[..job.stopAt.value - 1]
  }

  predicate Reported(job: Job) {
    job.stopAt != Some(0)
  }

  predicate Finished(job: Job) {
    job.stopAt.None? || job.stopAt.value > |Wanted(job.blk)|
  }

  // Numbers reported, transactions handed over and blocks finished by a run of jobs.
  datatype Output = Output(reports: seq<nat>, stream: seq<Tx>, finished: seq<Block>)

  function Next(o: Output, job: Job): Output {
    Output(o.reports + (if Reported(job) then [job.blk.number] else []),
           o.stream + Handed(job),
           o.finished + (if Finished(job) then [job.blk] else []))
  }

  function Dispatched(jobs: seq<Job>): Output {
    if jobs == [] then Output([], [], []) else Next(Dispatched(jobs[..|jobs| - 1]), jobs[|jobs| - 1])
  }

  lemma OneMoreJob(jobs: seq<Job>, i: nat)
    requires i < |jobs|
    ensures Dispatched(jobs[..i + 1]) == Next(Dispatched(jobs[..i]), jobs[i])
  {
    assert jobs[..i + 1][..i] == jobs[..i];
  }

  class BlockDispatcher {
    var reports: seq<nat>
    var stream: seq<Tx>
    var finished: seq<Block>

    function View(): Output
      reads this
    {
      Output(reports, stream, finished)
    }

    constructor ()
      ensures View() == Output([], [], [])
    {
      reports, stream, finished := [], [], [];
    }

    method ProcessTxs(job: Job) returns (ok: bool)
      requires Reported(job)
      modifies this`stream
      ensures stream == old(stream) + Handed(job) && ok == Finished(job)
    {
      var i, sent := 0, 1;
      ghost var was := stream;
      while i < |job.blk.txs|
        invariant 0 <= i <= |job.blk.txs|
        invariant sent == |Loaded(job.blk, i)| + 1
        invariant stream == was + Loaded(job.blk, i)
        invariant job.stopAt.Some? ==> sent <= job.stopAt.value
      {
        var d := job.blk.txs[i];
        LoadedPrefix(job.blk, i);
        if d.Some? {
          if job.stopAt == Some(sent) {
            return false;
          }
          stream := stream + [Tx(job.blk.number, job.blk.stamp, d.value.gasPrice, d.value.gasUsed, d.value.hash)];
          sent := sent + 1;
        }
        i := i + 1;
      }
      return true;
    }

    method Process(job: Job) returns (ok: bool)
      modifies this`reports, this`stream
      ensures reports == old(reports) + (if Reported(job) then [job.blk.number] else [])
      ensures stream == old(stream) + Handed(job) && ok == Finished(job)
    {
      if job.stopAt == Some(0) {
        return false;
      }
      reports := reports + [job.blk.number];
      if |job.blk.txs| == 0 {
        return true;
      }
      ok := ProcessTxs(job);
    }

    method Execute(jobs: seq<Job>)
      requires View() == Output([], [], [])
      modifies this
      ensures View() == Dispatched(jobs)
    {
      hide Handed, Finished, Reported;
      for i := 0 to |jobs|
        invariant View() == Dispatched(jobs[..i])
      {
        OneMoreJob(jobs, i);
        var ok := Process(jobs[i]);
        if ok {
          finished := finished + [jobs[i].blk];
        }
      }
      assert jobs[..|jobs|] == jobs;
    }
  }

  lemma {:induction false} LoadedFrom(blk: Block, i: nat, n: nat)
    requires i <= n <= |blk.txs|
    ensures Loaded(blk, i) <= Loaded(blk, n)
  {
    if i < n {
      LoadedFrom(blk, i, n - 1);
    }
  }

  // What was handed over before transaction i is a prefix of everything, followed by it if loaded.
  lemma LoadedPrefix(blk: Block, i: nat)
    requires i < |blk.txs|
    ensures Loaded(blk, i) <= Wanted(blk)
    ensures blk.txs[i].Some? ==> |Loaded(blk, i)| < |Wanted(blk)|
  {
    LoadedFrom(blk, i, |blk.txs|);
    LoadedFrom(blk, i + 1, |blk.txs|);
  }

  lemma {:induction false} LoadedOfBlock(blk: Block, n: nat)
    requires n <= |blk.txs|
    ensures forall t :: t in Loaded(blk, n) ==> t.block == blk.number && t.stamp == blk.stamp
  {
    if n > 0 {
      LoadedOfBlock(blk, n - 1);
    }
  }

  // The transaction handed over for one that could be loaded has its detail and its block's number and
  // time; it comes after exactly those loaded before it, and nothing else is handed over.
  lemma LoadedExactly(blk: Block, i: nat)
    requires i < |blk.txs| && blk.txs[i].Some?
    ensures var d, k := blk.txs[i].value, Loadable(blk.txs[..i]);
      k < |Wanted(blk)| && Wanted(blk)[k] == Tx(blk.number, blk.stamp, d.gasPrice, d.gasUsed, d.hash)
    ensures |Wanted(blk)| == Loadable(blk.txs)
  {
    LoadedPrefix(blk, i);
    LoadedFrom(blk, i + 1, |blk.txs|);
    LoadedCount(blk, i);
    LoadedCount(blk, |blk.txs|);
    assert blk.txs[..|blk.txs|] == blk.txs;
    assert Wanted(blk)[|Loaded(blk, i)|] == Loaded(blk, i + 1)[|Loaded(blk, i)|];
  }

  // How many transactions of a list can be loaded.
  function Loadable(txs: seq<Option<Detail>>): nat {
    if txs == [] then 0
    else Loadable(txs[..|txs| - 1]) + (if txs[|txs| - 1].Some? then 1 else 0)
  }

  lemma {:induction false} LoadedCount(blk: Block, n: nat)
    requires n <= |blk.txs|
    ensures |Loaded(blk, n)| == Loadable(blk.txs[..n])
  {
    if n > 0 {
      LoadedCount(blk, n - 1);
      assert blk.txs[..n][..n - 1] == blk.txs[..n - 1];
    }
  }

  // A job gets out as many sends as come before the stop, the report first; without a stop all of them,
  // and it is finished exactly when all got out.
  lemma SendsExactly(job: Job)
    ensures var sent, all := (if Reported(job) then 1 else 0) + |Handed(job)|, 1 + |Wanted(job.blk)|;
      && sent == (if job.stopAt.None? then all else Min(job.stopAt.value, all))
      && (Finished(job) <==> sent == all)
    ensures Handed(job) <= Wanted(job.blk) && (Handed(job) != [] ==> Reported(job))
  {
  }

  // Over a run of jobs every report and every transaction appears once for each job that got it out.
  lemma {:induction false} OutputExactly(jobs: seq<Job>)
    ensures |Dispatched(jobs).finished| <= |Dispatched(jobs).reports| <= |jobs|
    ensures (forall j :: j in jobs ==> j.stopAt.None?) ==>
      && |Dispatched(jobs).reports| == |Dispatched(jobs).finished| == |jobs|
      && forall i :: 0 <= i < |jobs| ==>
           Dispatched(jobs).reports[i] == jobs[i].blk.number && Dispatched(jobs).finished[i] == jobs[i].blk
  {
    if jobs != [] {
      var n := |jobs| - 1;
      OutputExactly(jobs[..n]);
      SendsExactly(jobs[n]);
      assert forall j :: j in jobs[..n] ==> j in jobs;
      assert jobs[n] in jobs;
    }
  }

  // ---- The order of blocks and the burn records ----

  // Numbers of the jobs that handed over any transaction, in order.
  function Numbers(jobs: seq<Job>): seq<nat> {
    if jobs == [] then []
    else
      var n := |jobs| - 1;
      Numbers(jobs[..n]) + (if Handed(jobs[n]) == [] then [] else [jobs[n].blk.number])
  }

  // Equal numbers stand next to each other.
  ghost predicate Grouped(ns: seq<nat>) {
    forall i, j, k :: 0 <= i < j < k < |ns| && ns[i] == ns[k] ==> ns[j] == ns[i]
  }

  lemma GroupedMore(ns: seq<nat>, n: nat)
    ensures Grouped(ns + [n]) <==> Grouped(ns) && (n !in ns || ns[|ns| - 1] == n)
  {
    var longer, m := ns + [n], |ns|;
    assert forall i :: 0 <= i < m ==> longer[i] == ns[i];
    if Grouped(longer) {
      forall i, j, k | 0 <= i < j < k < m && ns[i] == ns[k] ensures ns[j] == ns[i] {
        assert longer[i] == longer[k];
      }
      if n in ns {
        var i :| 0 <= i < m && ns[i] == n;
        assert longer[i] == longer[m];
      }
    }
  }

  // A stream goes on with a run of one block's transactions.
  ghost predicate Joins(stream: seq<Tx>, block: nat) {
    !Occurs(stream, block) || stream[|stream| - 1].block == block
  }

  lemma {:induction false} ContiguousRun(stream: seq<Tx>, run: seq<Tx>, block: nat)
    requires run != [] && forall t :: t in run ==> t.block == block
    ensures Contiguous(stream + run) <==> Contiguous(stream) && Joins(stream, block)
    ensures forall b :: Occurs(stream + run, b) <==> Occurs(stream, b) || b == block
  {
    var n := |run| - 1;
    var before := stream + run[..n];
    assert stream + run == before + [run[n]] && run[n] in run;
    if before != [] {
      ContiguousMore(before, run[n]);
    }
    forall b ensures Occurs(stream + run, b) <==> Occurs(before, b) || b == block {
      OccursMore(before, run[n], b);
    }
    if n > 0 {
      ContiguousRun(stream, run[..n], block);
      assert before[|before| - 1] == run[n - 1] && run[n - 1] in run;
    } else {
      assert before == stream;
    }
  }

  // The stream consists of runs of transactions of these blocks.
  ghost predicate RunsOf(stream: seq<Tx>, ns: seq<nat>) {
    && (Contiguous(stream) <==> Grouped(ns))
    && (forall b :: Occurs(stream, b) <==> b in ns)
    && (stream != [] ==> ns != [] && stream[|stream| - 1].block == ns[|ns| - 1])
  }

  lemma OneMoreRun(stream: seq<Tx>, ns: seq<nat>, run: seq<Tx>, block: nat)
    requires RunsOf(stream, ns) && run != [] && forall t :: t in run ==> t.block == block
    ensures RunsOf(stream + run, ns + [block])
  {
    ContiguousRun(stream, run, block);
    GroupedMore(ns, block);
    assert run[|run| - 1] in run;
  }

  // The transactions of each block reach the burn dispatcher contiguously exactly when the blocks
  // that handed any over were dispatched grouped by number.
  lemma {:induction false} ContiguousExactly(jobs: seq<Job>)
    ensures Contiguous(Dispatched(jobs).stream) <==> Grouped(Numbers(jobs))
    ensures RunsOf(Dispatched(jobs).stream, Numbers(jobs))
  {
    if jobs != [] {
      var n := |jobs| - 1;
      var stream, run := Dispatched(jobs[..n]).stream, Handed(jobs[n]);
      ContiguousExactly(jobs[..n]);
      if run == [] {
        assert stream + run == stream && Numbers(jobs) == Numbers(jobs[..n]);
      } else {
        LoadedOfBlock(jobs[n].blk, |jobs[n].blk.txs|);
        OneMoreRun(stream, Numbers(jobs[..n]), run, jobs[n].blk.number);
      }
    }
  }

  // So no block gets a second burn record exactly when no block with transactions is dispatched
  // again after another one, and then each record holds what its block handed over.
  lemma BurnRecordsExactly(jobs: seq<Job>)
    ensures Distinct(Records(Collected(Dispatched(jobs).stream))) <==> Grouped(Numbers(jobs))
    ensures Grouped(Numbers(jobs)) ==>
      forall r :: r in Records(Collected(Dispatched(jobs).stream)) ==> Exact(Dispatched(jobs).stream, r)
  {
    ContiguousExactly(jobs);
    DistinctExactly(Dispatched(jobs).stream);
    if Grouped(Numbers(jobs)) {
      OneRecordPerBlock(Dispatched(jobs).stream);
    }
  }
}
