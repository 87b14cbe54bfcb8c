// The running total of burned fees: an in-memory container kept beside the database aggregate,
// and the rounding between WEI and the stored unit (internal/repository/cache/burn.go,
// internal/repository/burn.go, internal/repository/db/burn.go, internal/graphql/resolvers/burn.go).
module BurnTotal {
  import opened Common
  import opened Burn

  const RELOAD_PERIOD: nat := 1200

  datatype Container = Container(block: nat, value: int, nextLoad: nat)

  // `loaded` is the loader's answer, None for an error.
  function Updated(c: Option<Container>, block: nat, value: int, loaded: Option<int>): Option<Container> {
    var stale := c.None? || c.value.nextLoad <= block;
    if stale && (block == 0 || loaded.None?) then c
    else
      var d := if stale then Container(block - 1, loaded.value, block + RELOAD_PERIOD) else c.value;
      if block <= d.block then Some(d)
      else Some(d.(block := block, value := ToInt64(d.value + value)))
  }

  class BurnTotalContainer {
    var block: nat
    var value: int
    var nextLoad: nat

    constructor (block: nat, value: int, nextLoad: nat)
      ensures this.block == block && this.value == value && this.nextLoad == nextLoad
    {
      this.block, this.value, this.nextLoad := block, value, nextLoad;
    }
  }

  class MemBridge {
    var burnContainer: BurnTotalContainer?

    function View(): Option<Container>
      reads this, burnContainer
    {
      if burnContainer == null then None
      else Some(Container(burnContainer.block, burnContainer.value, burnContainer.nextLoad))
    }

    constructor ()
      ensures View() == None
    {
      burnContainer := null;
    }

    method NecBurnTotal(loaded: Option<int>) returns (total: Option<int>)
      ensures total == if View().None? then loaded else Some(View().value.value)
    {
      if burnContainer == null {
        return loaded;
      }
      return Some(burnContainer.value);
    }

    method RefreshBurnUpdate(block: nat, loaded: Option<int>) returns (ok: bool)
      modifies this
      ensures ok == (block != 0 && loaded.Some?)
      ensures burnContainer == old(burnContainer) || fresh(burnContainer)
      ensures View() == if ok then Some(Container(block - 1, loaded.value, block + RELOAD_PERIOD))
                        else old(View())
    {
      if block == 0 || loaded.None? {
        return false;
      }
      burnContainer := new BurnTotalContainer(block - 1, loaded.value, block + RELOAD_PERIOD);
      return true;
    }

    method NecBurnUpdate(burn: Record, loaded: Option<int>)
      modifies this, burnContainer
      ensures View() == Updated(old(View()), burn.block, Value(burn), loaded)
    {
      if burnContainer == null || burnContainer.nextLoad <= burn.block {
        var ok := RefreshBurnUpdate(burn.block, loaded);
        if !ok {
          return;
        }
      }
      if burn.block <= burnContainer.block {
        return;
      }
      burnContainer.block := burn.block;
      burnContainer.value := ToInt64(burnContainer.value + Value(burn));
    }
  }

  // ---- Cache against database ----

  // Rows of the burns collection: block number and stored amount.
  type Rows = seq<(nat, int)>

  function Sum(rows: Rows): int {
    if rows == [] then 0 else Sum(rows[..|rows| - 1]) + rows[|rows| - 1].1
  }

  // The aggregate over the collection; it fails on an empty one.
  function DbTotal(rows: Rows): Option<int> {
    if rows == [] then None else Some(Sum(rows))
  }

  datatype Books = Books(cache: Option<Container>, rows: Rows)

  function Reported(b: Books): Option<int> {
    if b.cache.None? then DbTotal(b.rows) else Some(b.cache.value.value)
  }

  // StoreNecBurn for a block that has no row yet: first the cache, then the insert. The flags say
  // whether the database answers the aggregate and takes the row.
  function Stored(b: Books, r: Record, loads: bool, inserts: bool): Books {
    Books(Updated(b.cache, r.block, Value(r), if loads then DbTotal(b.rows) else None),
          if inserts then b.rows + [(r.block, Value(r))] else b.rows)
  }

  // The repository in front of the cache and the collection.
  class BurnStore {
    const bridge: MemBridge
    var rows: Rows

    function View(): Books
      reads this, bridge, bridge.burnContainer
    {
      Books(bridge.View(), rows)
    }

    constructor ()
      ensures View() == Books(None, [])
    {
      bridge := new MemBridge();
      rows := [];
    }

    method StoreNecBurn(burn: Record, loads: bool, inserts: bool) returns (ok: bool)
      modifies this, bridge, bridge.burnContainer
      ensures View() == Stored(old(View()), burn, loads, inserts) && ok == inserts
    {
      bridge.NecBurnUpdate(burn, if loads then DbTotal(rows) else None);
      if inserts {
        rows := rows + [(burn.block, Value(burn))];
      }
      ok := inserts;
    }

    // `loads` tells whether the database answers the aggregate; it is asked only without a cached total.
    method NecBurnTotal(loads: bool) returns (total: Option<int>)
      ensures total == if View().cache.None? && !loads then None else Reported(View())
    {
      total := bridge.NecBurnTotal(if loads then DbTotal(rows) else None);
    }
  }

  ghost predicate Agrees(b: Books) {
    Reported(b) == DbTotal(b.rows)
  }

  ghost predicate Behind(b: Books, block: nat) {
    b.cache.Some? ==> b.cache.value.block < block
  }

  // Is the total reloaded from the database for this record?
  predicate Stale(b: Books, r: Record) {
    b.cache.None? || b.cache.value.nextLoad <= r.block
  }

  predicate Reloads(b: Books, r: Record, loads: bool) {
    Stale(b, r) && r.block != 0 && loads && b.rows != []
  }

  // Does the cache count this record?
  predicate Counted(b: Books, r: Record, loads: bool) {
    Reloads(b, r, loads) || (!Stale(b, r) && b.cache.value.block < r.block)
  }

  lemma SumMore(rows: Rows, row: (nat, int))
    ensures Sum(rows + [row]) == Sum(rows) + row.1
  {
    assert (rows + [row])[..|rows|] == rows;
  }

  // One call keeps the reported total equal to the aggregate exactly when the cache and the
  // database both take the record or both miss it (or it is worth nothing, or no total is cached).
  // In particular a record older than the cached block breaks the agreement when it is inserted.
  lemma AgreementExactly(b: Books, r: Record, loads: bool, inserts: bool)
    requires Agrees(b) && IsInt64(Sum(b.rows) + Value(r))
    ensures var after := Stored(b, r, loads, inserts);
      Agrees(after) <==> after.cache.None? || Value(r) == 0 || Counted(b, r, loads) == inserts
  {
    SumMore(b.rows, (r.block, Value(r)));
  }

  // A reload heals any earlier disagreement, provided the record itself gets stored.
  lemma ReloadHeals(b: Books, r: Record, inserts: bool)
    requires Reloads(b, r, true) && IsInt64(Sum(b.rows) + Value(r))
    ensures Agrees(Stored(b, r, true, inserts)) <==> inserts || Value(r) == 0
  {
    SumMore(b.rows, (r.block, Value(r)));
  }

  function StoredAll(b: Books, records: seq<Record>): Books {
    if records == [] then b
    else Stored(StoredAll(b, records[..|records| - 1]), records[|records| - 1], true, true)
  }

  ghost predicate Increasing(records: seq<Record>) {
    forall i, j :: 0 <= i < j < |records| ==> records[i].block < records[j].block
  }

  function SumValues(records: seq<Record>): int {
    if records == [] then 0 else SumValues(records[..|records| - 1]) + Value(records[|records| - 1])
  }

  // Every prefix of the run leaves a total the database can hold in 64 bits.
  ghost predicate Fits(from: int, records: seq<Record>) {
    forall k :: 0 <= k <= |records| ==> IsInt64(from + SumValues(records[..k]))
  }

  // A reload lasts for 1200 blocks, and nothing else changes when the next one is due.
  lemma ReloadsAgainExactly(b: Books, r: Record, loads: bool, inserts: bool, next: Record)
    ensures Reloads(b, r, loads) ==>
      (Stale(Stored(b, r, loads, inserts), next) <==> r.block + 1200 <= next.block)
    ensures !Reloads(b, r, loads) ==>
      (Stale(Stored(b, r, loads, inserts), next) <==> Stale(b, next))
  {
  }

  lemma NewestStep(b: Books, r: Record)
    requires Agrees(b) && Behind(b, r.block) && IsInt64(Sum(b.rows) + Value(r))
    ensures Agrees(Stored(b, r, true, true))
    ensures Sum(Stored(b, r, true, true).rows) == Sum(b.rows) + Value(r)
    ensures forall block :: r.block < block ==> Behind(Stored(b, r, true, true), block)
  {
    hide Value;
    SumMore(b.rows, (r.block, Value(r)));
    AgreementExactly(b, r, true, true);
  }

  // Over a whole run of records with increasing block numbers, across any number of reloads, the
  // reported total equals the database aggregate after every call.
  lemma {:induction false} CacheAgreesAlways(b: Books, records: seq<Record>)
    requires Agrees(b) && Increasing(records) && Fits(Sum(b.rows), records)
    requires forall i :: 0 <= i < |records| ==> Behind(b, records[i].block)
    ensures Agrees(StoredAll(b, records))
    ensures Sum(StoredAll(b, records).rows) == Sum(b.rows) + SumValues(records)
    ensures |StoredAll(b, records).rows| == |b.rows| + |records|
    ensures forall block :: (records == [] ==> Behind(b, block))
              && (records != [] ==> records[|records| - 1].block < block)
              ==> Behind(StoredAll(b, records), block)
  {
    hide Value, Stored, Sum;
    if records != [] {
      var n := |records| - 1;
      assert forall k :: 0 <= k <= n ==> records[..n][..k] == records[..k];
      CacheAgreesAlways(b, records[..n]);
      assert records[..|records|] == records;
      NewestStep(StoredAll(b, records[..n]), records[n]);
      RowsGrow(StoredAll(b, records[..n]), records[n]);
    }
  }

  lemma RowsGrow(b: Books, r: Record)
    ensures |Stored(b, r, true, true).rows| == |b.rows| + 1
  {
  }

  // ---- Rounding ----

  // NecBurnedTotal: the stored unit back to WEI.
  function InWei(total: int): int {
    total * BURN_DECIMALS
  }

  // The fees paid: gas price times gas used.
  function SumPaid(stream: seq<Tx>): int {
    if stream == [] then 0
    else
      var n := |stream| - 1;
      SumPaid(stream[..n]) + stream[n].gasPrice * stream[n].gasUsed
  }

  ghost predicate GasFits(stream: seq<Tx>) {
    forall i :: 0 <= i < |stream| ==> IsInt64(stream[i].gasUsed)
  }

  // Three tenths of price times gas, rounded down. An amount of gas from 2^63 on, which no block can
  // hold, would be taken for a negative one.
  lemma BurnedFeeBounds(tx: Tx)
    requires tx.gasUsed < 0x1_0000_0000_0000_0000
    ensures var gas := if IsInt64(tx.gasUsed) then tx.gasUsed else tx.gasUsed - 0x1_0000_0000_0000_0000;
      10 * BurnedFee(tx) <= 3 * (tx.gasPrice * gas) < 10 * BurnedFee(tx) + 10
  {
    var gas := if IsInt64(tx.gasUsed) then tx.gasUsed else tx.gasUsed - 0x1_0000_0000_0000_0000;
    assert ToInt64(tx.gasUsed) == gas;
    TenthsDown(tx.gasPrice * gas);
  }

  lemma TenthsDown(f: int)
    ensures 10 * (f * 300 / 1000) <= 3 * f < 10 * (f * 300 / 1000) + 10
  {
    assert 1000 * (f * 300 / 1000) <= f * 300 < 1000 * (f * 300 / 1000) + 1000;
  }

  lemma {:induction false} FeeRounding(stream: seq<Tx>)
    requires GasFits(stream)
    ensures 10 * SumBurned(stream) <= 3 * SumPaid(stream) <= 10 * SumBurned(stream) + 9 * |stream|
  {
    hide BurnedFee;
    if stream != [] {
      FeeRounding(stream[..|stream| - 1]);
      BurnedFeeBounds(stream[|stream| - 1]);
    }
  }

  ghost predicate RecordsFit(records: seq<Record>) {
    forall r :: r in records ==> IsInt64(r.amount / BURN_DECIMALS)
  }

  // Units of 10^10 WEI, rounded down for each record.
  lemma ValueDown(r: Record)
    requires IsInt64(r.amount / BURN_DECIMALS)
    ensures Value(r) * 10_000_000_000 <= r.amount <= Value(r) * 10_000_000_000 + 9_999_999_999
  {
    assert Value(r) == r.amount / BURN_DECIMALS;
  }

  lemma {:induction false} ValueRounding(records: seq<Record>)
    requires RecordsFit(records)
    ensures InWei(SumValues(records)) <= SumAmounts(records)
         <= InWei(SumValues(records)) + 9_999_999_999 * |records|
    ensures InWei(SumValues(records)) == SumValues(records) * 10_000_000_000
  {
    hide Value;
    if records != [] {
      ValueRounding(records[..|records| - 1]);
      ValueDown(records[|records| - 1]);
    }
  }

  // A stream ordered by block number hands over increasing blocks.
  lemma {:induction false} OrderedStreamIncreases(stream: seq<Tx>)
    requires Ordered(stream)
    ensures Increasing(Records(Collected(stream)))
  {
    if stream != [] {
      var n := |stream| - 1;
      var was, tx := Collected(stream[..n]), stream[n];
      OrderedStreamIncreases(stream[..n]);
      RecordBlocks(stream[..n], tx.block);
      RecordsGrow(was, tx, tx.block);
      var before, now := Records(was), Records(Collected(stream));
      assert forall i :: 0 <= i < |before| ==> now[i].block == before[i].block;
      if |now| > |before| && before != [] {
        assert before[|before| - 1] == was.open.value;
      }
    }
  }

  ghost predicate Ordered(stream: seq<Tx>) {
    forall i, j :: 0 <= i < j < |stream| ==> stream[i].block <= stream[j].block
  }

  // The fees paid by the transactions of the closed records.
  function ClosedPaid(stream: seq<Tx>): int {
    if Closed(Collected(stream)) <= |stream| then SumPaid(stream[..Closed(Collected(stream))]) else 0
  }

  // Against a total in units of 10^10 WEI: it never exceeds 3/10 of these fees, and falls short of
  // that by less than 1 WEI a transaction and 10^10 WEI a record.
  ghost predicate NotAbove(stream: seq<Tx>, total: int) {
    10 * (total * 10_000_000_000) <= 3 * ClosedPaid(stream)
  }

  ghost predicate Near(stream: seq<Tx>, total: int) {
    var l := Collected(stream);
    3 * ClosedPaid(stream) <= 10 * (total * 10_000_000_000) + 9 * Closed(l) + 99_999_999_990 * |l.handed|
  }

  lemma InUnits(paid: int, burned: int, total: int, txs: int, records: int)
    requires 10 * burned <= 3 * paid <= 10 * burned + 9 * txs
    requires total * 10_000_000_000 <= burned <= total * 10_000_000_000 + 9_999_999_999 * records
    ensures 10 * (total * 10_000_000_000) <= 3 * paid
         <= 10 * (total * 10_000_000_000) + 9 * txs + 99_999_999_990 * records
  {
  }

  // In whatever order blocks arrive: the values handed to the database keep both bounds.
  lemma {:induction false} HandedValueBounds(stream: seq<Tx>)
    requires GasFits(stream) && RecordsFit(Collected(stream).handed)
    ensures Closed(Collected(stream)) <= |stream|
    ensures NotAbove(stream, SumValues(Collected(stream).handed))
    ensures Near(stream, SumValues(Collected(stream).handed))
  {
    hide Fee, BurnedFee, SumPaid, SumBurned, SumAmounts, SumValues, Value, InWei, Collected;
    var l := Collected(stream);
    Conservation(stream);
    var prefix := stream[..Closed(l)];
    FeeRounding(prefix);
    ValueRounding(l.handed);
    InUnits(SumPaid(prefix), SumBurned(prefix), SumValues(l.handed), |prefix|, |l.handed|);
  }

  lemma {:induction false} StoredSum(b: Books, records: seq<Record>)
    ensures Sum(StoredAll(b, records).rows) == Sum(b.rows) + SumValues(records)
    ensures |StoredAll(b, records).rows| == |b.rows| + |records|
  {
    hide Value;
    if records != [] {
      var n := |records| - 1;
      StoredSum(b, records[..n]);
      SumMore(StoredAll(b, records[..n]).rows, (records[n].block, Value(records[n])));
    }
  }

  // The database aggregate over the rows of these records keeps both bounds, without any assumption
  // on the order of blocks, on the cache or on its reloads.
  lemma {:induction false} AggregateBounds(stream: seq<Tx>)
    requires GasFits(stream) && RecordsFit(Collected(stream).handed) && Collected(stream).handed != []
    ensures var total := DbTotal(StoredAll(Books(None, []), Collected(stream).handed).rows);
      total.Some? && NotAbove(stream, total.value) && Near(stream, total.value)
  {
    HandedValueBounds(stream);
    StoredSum(Books(None, []), Collected(stream).handed);
  }

  // ---- The cached total when blocks come out of order ----

  // The cache holds no more than the database.
  ghost predicate CacheBelow(b: Books) {
    b.cache.Some? ==> 0 <= b.cache.value.value <= Sum(b.rows)
  }

  lemma BelowStep(b: Books, r: Record)
    requires CacheBelow(b) && 0 <= Sum(b.rows) && 0 <= Value(r) && IsInt64(Sum(b.rows) + Value(r))
    ensures CacheBelow(Stored(b, r, true, true))
  {
    hide Value;
    SumMore(b.rows, (r.block, Value(r)));
  }

  lemma {:induction false} CachedNeverExceeds(b: Books, records: seq<Record>)
    requires CacheBelow(b) && 0 <= Sum(b.rows)
    requires forall i :: 0 <= i < |records| ==> 0 <= Value(records[i])
    requires IsInt64(Sum(b.rows) + SumValues(records))
    ensures CacheBelow(StoredAll(b, records))
  {
    hide Value, Stored, Sum;
    if records != [] {
      var n := |records| - 1;
      SumNonNegative(records[..n]);
      StoredSum(b, records[..n]);
      CachedNeverExceeds(b, records[..n]);
      BelowStep(StoredAll(b, records[..n]), records[n]);
    }
  }

  lemma {:induction false} SumNonNegative(records: seq<Record>)
    requires forall i :: 0 <= i < |records| ==> 0 <= Value(records[i])
    ensures 0 <= SumValues(records)
  {
    if records != [] {
      SumNonNegative(records[..|records| - 1]);
    }
  }

  lemma NotNegative(tx: Tx)
    requires IsInt64(tx.gasUsed) && 0 <= tx.gasPrice
    ensures 0 <= BurnedFee(tx)
  {
    hide BurnedFee;
    BurnedFeeBounds(tx);
    assert 0 <= tx.gasPrice * tx.gasUsed;
  }

  lemma {:induction false} AmountsNonNegative(stream: seq<Tx>)
    requires GasFits(stream) && forall i :: 0 <= i < |stream| ==> 0 <= stream[i].gasPrice
    ensures forall r :: r in Records(Collected(stream)) ==> 0 <= r.amount
  {
    hide Fee, BurnedFee;
    if stream != [] {
      var n := |stream| - 1;
      var was := Collected(stream[..n]);
      AmountsNonNegative(stream[..n]);
      NotNegative(stream[n]);
      RecordsGrow(was, stream[n], stream[n].block);
      assert was.open.Some? ==> was.open.value in Records(was);
      assert forall r :: r in was.handed ==> r in Records(was);
    }
  }

  lemma {:induction false} ValuesNonNegative(stream: seq<Tx>)
    requires RecordsFit(Collected(stream).handed)
    requires GasFits(stream) && forall i :: 0 <= i < |stream| ==> 0 <= stream[i].gasPrice
    ensures forall i :: 0 <= i < |Collected(stream).handed| ==> 0 <= Value(Collected(stream).handed[i])
  {
    hide Fee, BurnedFee;
    var l := Collected(stream);
    AmountsNonNegative(stream);
    forall i | 0 <= i < |l.handed| ensures 0 <= Value(l.handed[i]) {
      assert l.handed[i] in Records(l) && l.handed[i] in l.handed;
    }
  }

  // So whatever the order of blocks, the reported total never exceeds 3/10 of the fees paid.
  lemma {:induction false} ReportedNeverTooHigh(stream: seq<Tx>)
    requires RecordsFit(Collected(stream).handed) && Collected(stream).handed != []
    requires GasFits(stream) && forall i :: 0 <= i < |stream| ==> 0 <= stream[i].gasPrice
    requires IsInt64(SumValues(Collected(stream).handed))
    ensures var total := Reported(StoredAll(Books(None, []), Collected(stream).handed));
      total.Some? && NotAbove(stream, total.value)
  {
    hide *;
    var records := Collected(stream).handed;
    ValuesNonNegative(stream);
    HandedValueBounds(stream);
    ReportedAtMost(records);
    LowerNotAbove(stream, SumValues(records), Reported(StoredAll(Books(None, []), records)).value);
  }

  lemma {:induction false} ReportedAtMost(records: seq<Record>)
    requires records != [] && forall i :: 0 <= i < |records| ==> 0 <= Value(records[i])
    requires IsInt64(SumValues(records))
    ensures var total := Reported(StoredAll(Books(None, []), records));
      total.Some? && total.value <= SumValues(records)
  {
    hide Value;
    CachedNeverExceeds(Books(None, []), records);
    StoredSum(Books(None, []), records);
  }

  lemma LowerNotAbove(stream: seq<Tx>, total: int, lower: int)
    requires NotAbove(stream, total) && lower <= total
    ensures NotAbove(stream, lower)
  {
    hide ClosedPaid;
  }

  // Newer blocks first, none of them due for a reload.
  ghost predicate Descending(b: Books, records: seq<Record>) {
    && (forall i, j :: 0 <= i < j < |records| ==> records[j].block < records[i].block)
    && b.cache.Some? && forall i :: 0 <= i < |records| ==> records[i].block < b.cache.value.nextLoad
  }

  // Blocks handed over newest first, as an unloaded ring delivers them: until the next reload the
  // cache counts the first record only, so the reported total falls behind the aggregate by exactly
  // the other records' worth.
  lemma {:induction false} DescendingCountsFirst(b: Books, records: seq<Record>)
    requires records != [] && Descending(b, records) && Agrees(b) && Behind(b, records[0].block)
    requires b.rows != [] && IsInt64(Sum(b.rows) + Value(records[0]))
    ensures StoredAll(b, records).cache
         == Some(b.cache.value.(block := records[0].block, value := Sum(b.rows) + Value(records[0])))
    ensures Sum(StoredAll(b, records).rows)
         == Reported(StoredAll(b, records)).value + SumValues(records) - Value(records[0])
  {
    hide Value;
    var n := |records| - 1;
    StoredSum(b, records);
    if n == 0 {
      assert records[..0] == [];
    } else {
      DescendingCountsFirst(b, records[..n]);
    }
  }

  // With increasing blocks the cache never misses a record, and the reported total keeps both bounds.
  lemma {:induction false} ReportedTotalBounds(stream: seq<Tx>)
    requires Increasing(Collected(stream).handed) && Collected(stream).handed != []
    requires GasFits(stream) && RecordsFit(Collected(stream).handed) && Fits(0, Collected(stream).handed)
    ensures var total := Reported(StoredAll(Books(None, []), Collected(stream).handed));
      total.Some? && NotAbove(stream, total.value) && Near(stream, total.value)
  {
    CacheAgreesAlways(Books(None, []), Collected(stream).handed);
    AggregateBounds(stream);
  }
}
