// Collecting the burned part of transaction fees into one record per block
// (internal/svc/dispatch_burn.go, internal/types/burn.go).
module Burn {
  import opened Common

  const BURN_DECIMALS: int := 10_000_000_000

  datatype Tx = Tx(block: nat, stamp: nat, gasPrice: int, gasUsed: nat, hash: nat)

  function Fee(tx: Tx): int {
    tx.gasPrice * ToInt64(tx.gasUsed)
  }

  // 30 percent of the fee, by multiplying by 300 and dividing by 1000.
  function BurnedFee(tx: Tx): int {
    Fee(tx) * 300 / 1000
  }

  datatype Record = Record(block: nat, stamp: nat, amount: int, txs: seq<nat>)

  // NecBurn.Value, also what is stored for the record in the database.
  function Value(r: Record): int {
    ToInt64(r.amount / BURN_DECIMALS)
  }

  // Records handed to StoreNecBurn so far, and the one still being collected.
  datatype Ledger = Ledger(handed: seq<Record>, open: Option<Record>)

  function Opened(tx: Tx): Record {
    Record(tx.block, tx.stamp, BurnedFee(tx), [tx.hash])
  }

  function Extended(r: Record, tx: Tx): Record {
    r.(amount := r.amount + BurnedFee(tx), txs := r.txs + [tx.hash])
  }

  function Processed(l: Ledger, tx: Tx): Ledger {
    match l.open
    case None => Ledger(l.handed, Some(Opened(tx)))
    case Some(r) =>
      if tx.block != r.block then Ledger(l.handed + [r], Some(Opened(tx)))
      else Ledger(l.handed, Some(Extended(r, tx)))
  }

  function Collected(stream: seq<Tx>): Ledger {
    if stream == [] then Ledger([], None)
    else Processed(Collected(stream[..|stream| - 1]), stream[|stream| - 1])
  }

  class NecBurn {
    var block: nat
    var stamp: nat
    var amount: int
    var txs: seq<nat>

    function View(): Record
      reads this
    {
      Record(block, stamp, amount, txs)
    }

    constructor (tx: Tx)
      ensures View() == Opened(tx)
    {
      block, stamp, amount, txs := tx.block, tx.stamp, BurnedFee(tx), [tx.hash];
    }
  }

  class BurnDispatcher {
    var handed: seq<Record>

    function View(burn: NecBurn?): Ledger
      reads this, burn
    {
      Ledger(handed, if burn == null then None else Some(burn.View()))
    }

    constructor ()
      ensures handed == []
    {
      handed := [];
    }

    method Process(tx: Tx, burn: NecBurn?) returns (next: NecBurn)
      modifies this, burn
      ensures next == burn || fresh(next)
      ensures View(next) == Processed(old(View(burn)), tx)
    {
      if burn == null {
        next := new NecBurn(tx);
        return;
      }
      if tx.block != burn.block {
        handed := handed + [burn.View()];
        next := new NecBurn(tx);
        return;
      }
      burn.amount := burn.amount + BurnedFee(tx);
      burn.txs := burn.txs + [tx.hash];
      next := burn;
    }

    method Execute(stream: seq<Tx>) returns (current: NecBurn?)
      requires handed == []
      modifies this
      ensures View(current) == Collected(stream)
    {
      current := null;
      for i := 0 to |stream|
        invariant current == null || fresh(current)
        invariant View(current) == Collected(stream[..i])
      {
        assert stream[..i + 1][..i] == stream[..i];
        current := Process(stream[i], current);
      }
      assert stream[..|stream|] == stream;
    }
  }

  // ---- Conservation ----

  function SumBurned(stream: seq<Tx>): int {
    if stream == [] then 0 else SumBurned(stream[..|stream| - 1]) + BurnedFee(stream[|stream| - 1])
  }

  function SumAmounts(records: seq<Record>): int {
    if records == [] then 0 else SumAmounts(records[..|records| - 1]) + records[|records| - 1].amount
  }

  function Hashes(stream: seq<Tx>): seq<nat> {
    seq(|stream|, i requires 0 <= i < |stream| => stream[i].hash)
  }

  function AllTxs(records: seq<Record>): seq<nat> {
    if records == [] then [] else AllTxs(records[..|records| - 1]) + records[|records| - 1].txs
  }

  function OpenRecords(l: Ledger): seq<Record> {
    if l.open.Some? then [l.open.value] else []
  }

  // All records, the open one last.
  function Records(l: Ledger): seq<Record> {
    l.handed + OpenRecords(l)
  }

  // Transactions already in handed records.
  function Closed(l: Ledger): nat {
    |AllTxs(l.handed)|
  }

  lemma AppendRecord(records: seq<Record>, r: Record)
    ensures SumAmounts(records + [r]) == SumAmounts(records) + r.amount
    ensures AllTxs(records + [r]) == AllTxs(records) + r.txs
  {
    assert (records + [r])[..|records|] == records;
  }

  lemma AppendTx(stream: seq<Tx>, tx: Tx)
    ensures SumBurned(stream + [tx]) == SumBurned(stream) + BurnedFee(tx)
    ensures Hashes(stream + [tx]) == Hashes(stream) + [tx.hash]
  {
    assert (stream + [tx])[..|stream|] == stream;
  }

  // The records cover the stream: amounts add up to the burned fees and the transaction lists
  // concatenate to the stream.
  ghost predicate Covers(records: seq<Record>, stream: seq<Tx>) {
    SumAmounts(records) == SumBurned(stream) && AllTxs(records) == Hashes(stream)
  }

  lemma CoversMore(l: Ledger, stream: seq<Tx>, tx: Tx)
    requires Covers(Records(l), stream)
    ensures Covers(Records(Processed(l, tx)), stream + [tx])
  {
    AppendTx(stream, tx);
    RecordsGrow(l, tx, tx.block);
    var was := Records(l);
    if l.open.Some? && l.open.value.block == tx.block {
      AppendRecord(l.handed, l.open.value);
      AppendRecord(l.handed, Extended(l.open.value, tx));
      assert AllTxs(l.handed) + (l.open.value.txs + [tx.hash]) == AllTxs(was) + [tx.hash];
    } else {
      AppendRecord(was, Opened(tx));
    }
  }

  lemma SplitStream(stream: seq<Tx>)
    requires stream != []
    ensures stream[..|stream| - 1] + [stream[|stream| - 1]] == stream
  {
  }

  // Nothing is lost or counted twice: all records cover the whole stream, and the handed ones a
  // prefix of it.
  lemma {:induction false} Conservation(stream: seq<Tx>)
    ensures Covers(Records(Collected(stream)), stream)
    ensures Closed(Collected(stream)) <= |stream|
    ensures Covers(Collected(stream).handed, stream[..Closed(Collected(stream))])
  {
    var l := Collected(stream);
    if stream == [] {
      assert Records(l) == [];
    } else {
      var n := |stream| - 1;
      var was := Collected(stream[..n]);
      Conservation(stream[..n]);
      SplitStream(stream);
      CoversMore(was, stream[..n], stream[n]);
      if l.handed == was.handed {
        assert stream[..n][..Closed(l)] == stream[..Closed(l)];
      } else {
        assert l.handed == Records(was);
        assert stream[..Closed(l)] == stream[..n];
      }
    }
  }

  // ---- One record per block ----

  function OfBlock(stream: seq<Tx>, block: nat): seq<Tx> {
    if stream == [] then []
    else
      var n := |stream| - 1;
      OfBlock(stream[..n], block) + (if stream[n].block == block then [stream[n]] else [])
  }

  ghost predicate Contiguous(stream: seq<Tx>) {
    forall i, j, k :: 0 <= i < j < k < |stream| && stream[i].block == stream[k].block ==>
      stream[j].block == stream[i].block
  }

  ghost predicate Distinct(records: seq<Record>) {
    forall i, j :: 0 <= i < j < |records| ==> records[i].block != records[j].block
  }

  // The record holds exactly the fees and hashes of its block.
  ghost predicate Exact(stream: seq<Tx>, r: Record) {
    r.amount == SumBurned(OfBlock(stream, r.block)) && r.txs == Hashes(OfBlock(stream, r.block))
  }

  ghost predicate HasRecord(records: seq<Record>, block: nat) {
    exists i :: 0 <= i < |records| && records[i].block == block
  }

  ghost predicate Occurs(stream: seq<Tx>, block: nat) {
    exists i :: 0 <= i < |stream| && stream[i].block == block
  }

  lemma {:induction false} AbsentBlock(stream: seq<Tx>, block: nat)
    requires !Occurs(stream, block)
    ensures OfBlock(stream, block) == []
  {
    if stream != [] {
      var n := |stream| - 1;
      assert stream[n].block != block;
      assert forall i :: 0 <= i < n ==> stream[..n][i] == stream[i];
      AbsentBlock(stream[..n], block);
    }
  }

  lemma OccursMore(stream: seq<Tx>, tx: Tx, block: nat)
    ensures Occurs(stream + [tx], block) <==> Occurs(stream, block) || tx.block == block
  {
    var longer := stream + [tx];
    assert longer[|stream|] == tx && forall i :: 0 <= i < |stream| ==> longer[i] == stream[i];
  }

  // The blocks with a record are the blocks of the stream; the open record has the last one.
  lemma {:induction false} RecordBlocks(stream: seq<Tx>, block: nat)
    ensures Collected(stream).open.Some? <==> stream != []
    ensures stream != [] ==> Collected(stream).open.value.block == stream[|stream| - 1].block
    ensures HasRecord(Records(Collected(stream)), block) <==> Occurs(stream, block)
  {
    if stream != [] {
      var n := |stream| - 1;
      RecordBlocks(stream[..n], block);
      SplitStream(stream);
      OccursMore(stream[..n], stream[n], block);
      RecordsGrow(Collected(stream[..n]), stream[n], block);
    }
  }

  // One more transaction appends a record or extends the last one.
  lemma RecordsGrow(l: Ledger, tx: Tx, block: nat)
    ensures var was, now := Records(l), Records(Processed(l, tx));
      && (HasRecord(now, block) <==> HasRecord(was, block) || tx.block == block)
      && (if l.open.Some? && l.open.value.block == tx.block
          then now == l.handed + [Extended(l.open.value, tx)] && was == l.handed + [l.open.value]
          else now == was + [Opened(tx)])
  {
    var was, now := Records(l), Records(Processed(l, tx));
    assert now[|now| - 1].block == tx.block;
    assert forall i :: 0 <= i < |was| ==> now[i].block == was[i].block;
    assert forall i :: 0 <= i < |now| - 1 ==> now[i] == was[i];
  }

  lemma ContiguousMore(stream: seq<Tx>, tx: Tx)
    requires stream != []
    ensures Contiguous(stream + [tx]) <==>
      Contiguous(stream) && (stream[|stream| - 1].block == tx.block || !Occurs(stream, tx.block))
  {
    var longer, n := stream + [tx], |stream|;
    assert forall i :: 0 <= i < n ==> longer[i] == stream[i];
    if Contiguous(longer) {
      forall i, j, k | 0 <= i < j < k < n && stream[i].block == stream[k].block
        ensures stream[j].block == stream[i].block
      {
        assert longer[i].block == longer[k].block;
      }
      if Occurs(stream, tx.block) {
        var i :| 0 <= i < n && stream[i].block == tx.block;
        assert longer[i].block == longer[n].block;
      }
    }
  }

  lemma DistinctMore(l: Ledger, tx: Tx)
    ensures Distinct(Records(Processed(l, tx)))
       <==> (Distinct(Records(l))
             && ((l.open.Some? && l.open.value.block == tx.block) || !HasRecord(Records(l), tx.block)))
  {
    var was, now := Records(l), Records(Processed(l, tx));
    RecordsGrow(l, tx, tx.block);
    assert forall i :: 0 <= i < |was| ==> now[i].block == was[i].block;
    if |now| == |was| + 1 {
      assert now[|was|].block == tx.block;
    }
  }

  // No block gets two records exactly when the transactions of each block arrive contiguously.
  lemma {:induction false} DistinctExactly(stream: seq<Tx>)
    ensures Distinct(Records(Collected(stream))) <==> Contiguous(stream)
  {
    if stream != [] {
      var n := |stream| - 1;
      DistinctExactly(stream[..n]);
      RecordBlocks(stream[..n], stream[n].block);
      SplitStream(stream);
      DistinctMore(Collected(stream[..n]), stream[n]);
      if n > 0 {
        ContiguousMore(stream[..n], stream[n]);
      }
    }
  }

  lemma ExactMore(stream: seq<Tx>, tx: Tx, r: Record)
    requires Exact(stream, r)
    ensures Exact(stream + [tx], if r.block == tx.block then Extended(r, tx) else r)
  {
    assert (stream + [tx])[..|stream|] == stream;
    AppendTx(OfBlock(stream, r.block), tx);
    assert OfBlock(stream, r.block) + [] == OfBlock(stream, r.block);
  }

  lemma ExactNew(stream: seq<Tx>, tx: Tx)
    requires !Occurs(stream, tx.block)
    ensures Exact(stream + [tx], Opened(tx))
  {
    AbsentBlock(stream, tx.block);
    assert (stream + [tx])[..|stream|] == stream;
    assert OfBlock(stream + [tx], tx.block) == [] + [tx];
    AppendTx([], tx);
    assert [] + [tx] == [tx];
  }

  // Then every record, closed or open, holds exactly one block's fees and hashes.
  lemma {:induction false} OneRecordPerBlock(stream: seq<Tx>)
    requires Contiguous(stream)
    ensures Distinct(Records(Collected(stream)))
    ensures forall r :: r in Records(Collected(stream)) ==> Exact(stream, r)
  {
    DistinctExactly(stream);
    if stream != [] {
      var n := |stream| - 1;
      var was, tx := Collected(stream[..n]), stream[n];
      SplitStream(stream);
      DistinctExactly(stream[..n]);
      RecordsGrow(was, tx, tx.block);
      RecordBlocks(stream[..n], tx.block);
      DistinctMore(was, tx);
      OneRecordPerBlock(stream[..n]);
      forall r | r in Records(Collected(stream)) ensures Exact(stream, r) {
        ExactAfter(stream[..n], was, tx, r);
      }
    }
  }

  lemma ExactAfter(stream: seq<Tx>, was: Ledger, tx: Tx, r: Record)
    requires forall q :: q in Records(was) ==> Exact(stream, q)
    requires Distinct(Records(Processed(was, tx))) && r in Records(Processed(was, tx))
    requires (was.open.Some? && was.open.value.block == tx.block) || !Occurs(stream, tx.block)
    ensures Exact(stream + [tx], r)
  {
    var before, now := Records(was), Records(Processed(was, tx));
    RecordsGrow(was, tx, tx.block);
    var i :| 0 <= i < |now| && now[i] == r;
    if i < |now| - 1 {
      assert now[i].block != now[|now| - 1].block;
      assert before[i] == r;
      ExactMore(stream, tx, r);
    } else if |now| == |before| {
      assert before[i] == was.open.value;
      ExactMore(stream, tx, was.open.value);
    } else {
      ExactNew(stream, tx);
    }
  }

  // A record carries its block's time stamp: that of the transaction it was opened with.
  ghost predicate Stamped(stream: seq<Tx>, r: Record) {
    exists i :: 0 <= i < |stream| && r.txs != [] && stream[i].block == r.block
      && stream[i].stamp == r.stamp && stream[i].hash == r.txs[0]
  }

  lemma {:induction false} StampsKept(stream: seq<Tx>)
    ensures forall r :: r in Records(Collected(stream)) ==> Stamped(stream, r)
  {
    if stream != [] {
      var n := |stream| - 1;
      var was, tx := Collected(stream[..n]), stream[n];
      StampsKept(stream[..n]);
      RecordsGrow(was, tx, tx.block);
      forall r | r in Records(Collected(stream)) ensures Stamped(stream, r) {
        if was.open.Some? && r == Extended(was.open.value, tx) && r !in Records(was) {
          assert was.open.value in Records(was) && Stamped(stream[..n], was.open.value);
          var i :| 0 <= i < n && was.open.value.txs != [] && stream[..n][i].block == r.block
            && stream[..n][i].stamp == r.stamp && stream[..n][i].hash == was.open.value.txs[0];
          assert stream[i] == stream[..n][i];
        } else if r in Records(was) {
          var i :| 0 <= i < n && r.txs != [] && stream[..n][i].block == r.block
            && stream[..n][i].stamp == r.stamp && stream[..n][i].hash == r.txs[0];
          assert stream[i] == stream[..n][i];
        } else {
          assert r == Opened(tx) && stream[n].block == r.block;
        }
      }
    }
  }
}
