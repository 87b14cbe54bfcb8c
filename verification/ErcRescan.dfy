// Token transfers from contract logs into the collection, and what handling a log again does
// (internal/svc/logs_erc_token.go, internal/repository/db/erc_trx.go).
module ErcRescan {
  import opened Common
  import opened Bytes
  import opened Ordinals

  const TRANSFER: int := 1
  const APPROVAL: int := 2
  const MINT: int := 3
  const BURN: int := 4

  datatype TokenType = ERC20 | ERC721 | ERC1155

  datatype Event = ErcApproval | ErcTransfer | TransferSingle | TransferBatch

  // A log record with a known topic. Topics are numbers, data a byte string; `batch` is what the
  // ABI parser makes of the data of a batch (two empty lists when it fails).
  datatype Log = Log(
    event: Event, topics: seq<nat>, data: seq<Byte>, batch: (seq<nat>, seq<nat>),
    txHash: nat, token: nat, stamp: nat, block: nat, index: nat)

  datatype Transfer = Transfer(
    txHash: nat, token: nat, tokenType: TokenType, event: int, sender: nat, recipient: nat,
    amount: nat, tokenId: nat, stamp: nat, block: nat, index: nat, seqNo: nat)

  type Key = seq<Byte>

  function KeyOf(t: Transfer): Key {
    PkBytes(t.block, t.index, t.seqNo)
  }

  // The low 20 bytes of a topic.
  function Address(topic: nat): nat {
    topic % 0x1_0000000000_0000000000_0000000000_0000000000
  }

  function TrxType(event: int, sender: nat, recipient: nat): int {
    if event == TRANSFER && sender == 0 then MINT
    else if event == TRANSFER && recipient == 0 then BURN
    else event
  }

  function Made(lr: Log, tokenType: TokenType, event: int, sender: nat, recipient: nat,
                amount: nat, tokenId: nat, seqNo: nat): Transfer {
    Transfer(lr.txHash, lr.token, tokenType, event, sender, recipient, amount, tokenId,
             lr.stamp, lr.block, lr.index, seqNo % 0x1_0000)
  }

  function ErcTransfers(lr: Log, event: int): seq<Transfer> {
    if |lr.topics| == 3 && |lr.data| == 32 then
      var sender, recipient := Address(lr.topics[1]), Address(lr.topics[2]);
      [Made(lr, ERC20, TrxType(event, sender, recipient), sender, recipient, Value(lr.data), 0, 0)]
    else if |lr.topics| == 4 && lr.data == [] then
      var sender, recipient := Address(lr.topics[1]), Address(lr.topics[2]);
      [Made(lr, ERC721, TrxType(event, sender, recipient), sender, recipient, 1, lr.topics[3], 0)]
    else []
  }

  function SingleTransfers(lr: Log): seq<Transfer> {
    if |lr.topics| == 4 && |lr.data| == 64 then
      var sender, recipient := Address(lr.topics[2]), Address(lr.topics[3]);
      [Made(lr, ERC1155, TrxType(TRANSFER, sender, recipient), sender, recipient,
            Value(lr.data[32..]), Value(lr.data[..32]), 0)]
    else []
  }

  // A batch entry without a value panics; the entries before it are stored.
  function BatchSize(lr: Log): nat {
    if |lr.topics| == 4 then Min(|lr.batch.0|, |lr.batch.1|) else 0
  }

  function BatchTransfers(lr: Log): seq<Transfer> {
    seq(BatchSize(lr), i requires 0 <= i < BatchSize(lr) =>
      Made(lr, ERC1155, TRANSFER, Address(lr.topics[2]), Address(lr.topics[3]),
           lr.batch.1[i], lr.batch.0[i], i))
  }

  function Transfers(lr: Log): seq<Transfer> {
    match lr.event
    case ErcApproval => ErcTransfers(lr, APPROVAL)
    case ErcTransfer => ErcTransfers(lr, TRANSFER)
    case TransferSingle => SingleTransfers(lr)
    case TransferBatch => BatchTransfers(lr)
  }

  // Which logs make records, and how many: three or four topics with the right amount of data one, a
  // batch one for each number that has an amount, any other log none.
  lemma RecognisedExactly(lr: Log)
    ensures lr.event.ErcApproval? || lr.event.ErcTransfer? ==>
      (|Transfers(lr)| == 1 <==> (|lr.topics|, |lr.data|) in {(3, 32), (4, 0)})
    ensures lr.event.TransferSingle? ==>
      (|Transfers(lr)| == 1 <==> (|lr.topics|, |lr.data|) == (4, 64))
    ensures !lr.event.TransferBatch? ==> |Transfers(lr)| <= 1
    ensures lr.event.TransferBatch? && |lr.topics| != 4 ==> Transfers(lr) == []
    ensures lr.event.TransferBatch? && |lr.topics| == 4 ==>
      && |Transfers(lr)| <= |lr.batch.0| && |Transfers(lr)| <= |lr.batch.1|
      && (|Transfers(lr)| == |lr.batch.0| || |Transfers(lr)| == |lr.batch.1|)
  {
  }

  // Where a record's parties come from: for fungible and single-owner tokens the first two indexed
  // parameters of the log, for multi-tokens the second and third, the operator being the first.
  lemma PartiesExactly(lr: Log, t: Transfer)
    requires t in Transfers(lr)
    ensures |lr.topics| == (if t.tokenType == ERC20 then 3 else 4)
    ensures t.tokenType == ERC1155 <==> lr.event.TransferSingle? || lr.event.TransferBatch?
    ensures t.tokenType != ERC1155 ==>
      IsAddressOf(t.sender, lr.topics[1]) && IsAddressOf(t.recipient, lr.topics[2])
    ensures t.tokenType == ERC1155 ==>
      IsAddressOf(t.sender, lr.topics[2]) && IsAddressOf(t.recipient, lr.topics[3])
  {
  }

  // An address is what remains of a topic without its leading bytes: 160 bits.
  ghost predicate IsAddressOf(addr: nat, topic: nat) {
    addr < 0x1_0000000000_0000000000_0000000000_0000000000
    && (topic - addr) % 0x1_0000000000_0000000000_0000000000_0000000000 == 0
  }

  // What is transferred: a fungible amount is the data word; a single-owner token is one piece with
  // its number in the third indexed parameter; a multi-token's data words are number and amount, or
  // the entries of the batch's two lists at the record's sequence number.
  lemma AmountsExactly(lr: Log, t: Transfer)
    requires t in Transfers(lr) && |Transfers(lr)| <= 0x1_0000
    ensures t.tokenType == ERC20 ==> BigEndian(t.amount, 32) == lr.data && t.tokenId == 0
    ensures t.tokenType == ERC721 ==> lr.data == [] && t.amount == 1 && t.tokenId == lr.topics[3]
    ensures lr.event.TransferSingle? ==> BigEndian(t.tokenId, 32) + BigEndian(t.amount, 32) == lr.data
    ensures lr.event.TransferBatch? ==>
      t.seqNo < |lr.batch.0| && t.seqNo < |lr.batch.1|
      && t.tokenId == lr.batch.0[t.seqNo] && t.amount == lr.batch.1[t.seqNo]
    ensures !lr.event.TransferBatch? ==> t.seqNo == 0
  {
    hide BigEndian, Value;
    if t.tokenType == ERC20 {
      BytesRoundTrip(lr.data);
    } else if lr.event.TransferSingle? {
      BytesRoundTrip(lr.data[..32]);
      BytesRoundTrip(lr.data[32..]);
      assert lr.data[..32] + lr.data[32..] == lr.data;
    }
  }

  // Every record carries its log's transaction, contract, time and position.
  lemma OriginKept(lr: Log, t: Transfer)
    requires t in Transfers(lr)
    ensures t.txHash == lr.txHash && t.token == lr.token && t.stamp == lr.stamp
    ensures t.block == lr.block && t.index == lr.index
  {
  }

  // A record is a mint or a burn exactly when it comes from a transfer that is not part of a batch
  // and has the zero address on the right side; a batch records its mints and burns as transfers.
  lemma KindExactly(lr: Log, t: Transfer)
    requires t in Transfers(lr)
    ensures t.event == MINT <==> (lr.event.ErcTransfer? || lr.event.TransferSingle?) && t.sender == 0
    ensures t.event == BURN <==>
              (lr.event.ErcTransfer? || lr.event.TransferSingle?) && t.sender != 0 && t.recipient == 0
    ensures lr.event.TransferBatch? ==> t.event == TRANSFER
    ensures t.event == APPROVAL <==> lr.event.ErcApproval?
    ensures t.event in {TRANSFER, APPROVAL, MINT, BURN}
  {
  }

  // ---- The collection ----

  type Rows = map<Key, Transfer>

  // Adding a record when the lookup of its key answers and the database takes the insert.
  function Added(rows: Rows, t: Transfer): Rows {
    if KeyOf(t) in rows then rows else rows[KeyOf(t) := t]
  }

  function AddedAll(rows: Rows, ts: seq<Transfer>): Rows {
    if ts == [] then rows else Added(AddedAll(rows, ts[..|ts| - 1]), ts[|ts| - 1])
  }

  // How the database answers while one transfer is stored: whether the lookup of its key works and
  // whether writes are accepted.
  datatype Answer = Answer(finds: bool, inserts: bool)

  predicate Inserts(answers: seq<Answer>, i: nat) {
    i < |answers| && answers[i].inserts
  }

  // The transfers of a list whose insert was not refused; transfers without an answer were not
  // reached.
  function Accepted(ts: seq<Transfer>, answers: seq<Answer>): seq<Transfer> {
    if ts == [] then []
    else
      var n := |ts| - 1;
      Accepted(ts[..n], answers) + (if Inserts(answers, n) then [ts[n]] else [])
  }

  class TokenTransactions {
    var rows: Rows

    constructor ()
      ensures rows == map[]
    {
      rows := map[];
    }

    // `finds` tells whether the lookup answers, `inserts` whether the database accepts writes. The
    // primary key is unique there, so inserting a known key fails in any case.
    method AddErc20Transaction(t: Transfer, finds: bool, inserts: bool) returns (ok: bool)
      modifies this
      ensures rows == if inserts then Added(old(rows), t) else old(rows)
      ensures KeyOf(t) in old(rows) ==> rows == old(rows) && (ok <==> finds)
      ensures KeyOf(t) !in old(rows) ==> (ok <==> inserts)
    {
      if finds && KeyOf(t) in rows {
        return true;
      }
      if !inserts || KeyOf(t) in rows {
        return false;
      }
      rows := rows[KeyOf(t) := t];
      return true;
    }

    // handleErc1155TransferBatch; false stands for the panic on a missing value.
    method HandleBatch(lr: Log, answers: seq<Answer>) returns (ok: bool)
      requires |BatchTransfers(lr)| <= |answers|
      modifies this
      ensures rows == AddedAll(old(rows), Accepted(BatchTransfers(lr), answers))
      ensures ok == (|lr.topics| != 4 || |lr.batch.0| <= |lr.batch.1|)
    {
      if |lr.topics| != 4 {
        return true;
      }
      var sender, recipient := Address(lr.topics[2]), Address(lr.topics[3]);
      var ids, values := lr.batch.0, lr.batch.1;
      ghost var ts := BatchTransfers(lr);
      var i := 0;
      while i < |ids|
        invariant 0 <= i <= |ts|
        invariant rows == AddedAll(old(rows), Accepted(ts[..i], answers))
      {
        if i >= |values| {
          assert ts[..i] == ts;
          return false;
        }
        var t := Made(lr, ERC1155, TRANSFER, sender, recipient, values[i], ids[i], i);
        OneMoreAccepted(old(rows), ts, answers, i);
        var stored := AddErc20Transaction(t, answers[i].finds, answers[i].inserts);
        i := i + 1;
      }
      assert ts[..i] == ts;
      return true;
    }
  }

  lemma OneMoreAccepted(rows: Rows, ts: seq<Transfer>, answers: seq<Answer>, i: nat)
    requires i < |ts|
    ensures AddedAll(rows, Accepted(ts[..i + 1], answers))
         == if Inserts(answers, i) then Added(AddedAll(rows, Accepted(ts[..i], answers)), ts[i])
            else AddedAll(rows, Accepted(ts[..i], answers))
  {
    var before := Accepted(ts[..i], answers);
    assert ts[..i + 1][..i] == ts[..i];
    assert (before + [ts[i]])[..|before|] == before && before + [] == before;
  }

  // A record already stored stays as it is, whatever is handled after it.
  lemma {:induction false} NeverOverwritten(rows: Rows, ts: seq<Transfer>, k: Key)
    requires k in rows
    ensures k in AddedAll(rows, ts) && AddedAll(rows, ts)[k] == rows[k]
  {
    if ts != [] {
      NeverOverwritten(rows, ts[..|ts| - 1], k);
    }
  }

  // ---- Distinct keys ----

  // The entries of one batch get different keys exactly when there are at most 2^16 of them: the
  // sequence number is 16 bits wide.
  lemma BatchKeysExactly(lr: Log)
    requires lr.block < 0x1_0000_0000_0000_0000 && lr.index < 0x1_0000_0000
    ensures (forall i, j :: 0 <= i < j < |BatchTransfers(lr)| ==>
               KeyOf(BatchTransfers(lr)[i]) != KeyOf(BatchTransfers(lr)[j]))
       <==> |BatchTransfers(lr)| <= 0x1_0000
  {
    hide PkBytes;
    var ts := BatchTransfers(lr);
    assert forall i :: 0 <= i < |ts| ==> KeyOf(ts[i]) == PkBytes(lr.block, lr.index, i % 0x1_0000);
    if |ts| <= 0x1_0000 {
      forall i, j | 0 <= i < j < |ts| ensures KeyOf(ts[i]) != KeyOf(ts[j]) {
        PkExactly((lr.block, lr.index, i), (lr.block, lr.index, j));
      }
    } else {
      assert KeyOf(ts[0]) == KeyOf(ts[0x1_0000]);
    }
  }

  predicate SamePosition(a: Log, b: Log) {
    a.block == b.block && a.index == b.index
  }

  // Logs as one chain emits them: the position (block, index) identifies a log, and numbers and
  // batches stay within what a key can tell apart.
  ghost predicate FromChain(logs: seq<Log>) {
    && (forall i :: 0 <= i < |logs| ==>
          logs[i].block < 0x1_0000_0000_0000_0000 && logs[i].index < 0x1_0000_0000
          && |Transfers(logs[i])| <= 0x1_0000)
    && (forall i, j :: 0 <= i < |logs| && 0 <= j < |logs| && SamePosition(logs[i], logs[j]) ==>
          logs[i] == logs[j])
  }

  function Flat(lists: seq<seq<Transfer>>): seq<Transfer> {
    if lists == [] then [] else Flat(lists[..|lists| - 1]) + lists[|lists| - 1]
  }

  function AllTransfers(logs: seq<Log>): seq<Transfer> {
    Flat(seq(|logs|, i requires 0 <= i < |logs| => Transfers(logs[i])))
  }

  lemma {:induction false} InFlat(lists: seq<seq<Transfer>>, t: Transfer)
    ensures t in Flat(lists) <==> exists i :: 0 <= i < |lists| && t in lists[i]
  {
    if lists != [] {
      var n := |lists| - 1;
      InFlat(lists[..n], t);
      assert forall i :: 0 <= i < n ==> lists[..n][i] == lists[i];
    }
  }

  lemma TransferOrigin(logs: seq<Log>, t: Transfer)
    ensures t in AllTransfers(logs) <==> exists i :: 0 <= i < |logs| && t in Transfers(logs[i])
  {
    var lists := seq(|logs|, i requires 0 <= i < |logs| => Transfers(logs[i]));
    InFlat(lists, t);
    assert forall i :: 0 <= i < |logs| ==> lists[i] == Transfers(logs[i]);
  }

  // Transfer number i of a log carries the log's position and the sequence number i.
  lemma TransferPosition(lr: Log, i: nat)
    requires i < |Transfers(lr)| <= 0x1_0000
    ensures var t := Transfers(lr)[i]; t.block == lr.block && t.index == lr.index && t.seqNo == i
  {
  }

  // Two transfers of a chain share a key only if they are the same transfer.
  lemma KeysIdentify(logs: seq<Log>, t: Transfer, u: Transfer)
    requires FromChain(logs) && t in AllTransfers(logs) && u in AllTransfers(logs)
    ensures KeyOf(t) == KeyOf(u) <==> t == u
  {
    TransferOrigin(logs, t);
    TransferOrigin(logs, u);
    var i :| 0 <= i < |logs| && t in Transfers(logs[i]);
    var j :| 0 <= j < |logs| && u in Transfers(logs[j]);
    var a :| 0 <= a < |Transfers(logs[i])| && Transfers(logs[i])[a] == t;
    var b :| 0 <= b < |Transfers(logs[j])| && Transfers(logs[j])[b] == u;
    TransferPosition(logs[i], a);
    TransferPosition(logs[j], b);
    PkExactly((t.block, t.index, t.seqNo), (u.block, u.index, u.seqNo));
  }

  // One key stands for one of these transfers.
  ghost predicate KeysUnique(all: set<Transfer>) {
    forall t, u :: t in all && u in all && KeyOf(t) == KeyOf(u) ==> t == u
  }

  // A collection of some of these transfers, each under its own key.
  ghost predicate Within(rows: Rows, all: set<Transfer>) {
    forall k :: k in rows ==> rows[k] in all && KeyOf(rows[k]) == k
  }

  ghost predicate Holds(rows: Rows, t: Transfer) {
    KeyOf(t) in rows && rows[KeyOf(t)] == t
  }

  lemma {:induction false} AddedStaysWithin(rows: Rows, ts: seq<Transfer>, all: set<Transfer>)
    requires Within(rows, all) && forall u :: u in ts ==> u in all
    ensures Within(AddedAll(rows, ts), all)
  {
    hide KeyOf;
    if ts != [] {
      AddedStaysWithin(rows, ts[..|ts| - 1], all);
    }
  }

  // Adding transfers to such a collection makes it hold exactly those it held and the added ones.
  lemma {:induction false} AddedAllExactly(rows: Rows, ts: seq<Transfer>, all: set<Transfer>, t: Transfer)
    requires KeysUnique(all) && Within(rows, all) && t in all
    requires forall u :: u in ts ==> u in all
    ensures Holds(AddedAll(rows, ts), t) <==> Holds(rows, t) || t in ts
  {
    hide KeyOf;
    if ts != [] {
      var n := |ts| - 1;
      AddedAllExactly(rows, ts[..n], all, t);
      AddedStaysWithin(rows, ts[..n], all);
      assert ts[n] in ts && forall u :: u in ts <==> u in ts[..n] || u == ts[n];
    }
  }

  lemma ChainKeysUnique(logs: seq<Log>)
    requires FromChain(logs)
    ensures KeysUnique(set t | t in AllTransfers(logs))
  {
    forall t, u | t in AllTransfers(logs) && u in AllTransfers(logs) && KeyOf(t) == KeyOf(u) ensures t == u {
      KeysIdentify(logs, t, u);
    }
  }

  // Two collections within the same transfers that hold the same ones are the same.
  lemma SameRows(a: Rows, b: Rows, all: set<Transfer>)
    requires Within(a, all) && Within(b, all)
    requires forall t :: t in all ==> (Holds(a, t) <==> Holds(b, t))
    ensures a == b
  {
    forall k ensures k in a <==> k in b {
      assert k in a ==> Holds(a, a[k]);
      assert k in b ==> Holds(b, b[k]);
    }
    forall k | k in a ensures a[k] == b[k] {
      assert Holds(a, a[k]);
    }
  }

  // ---- Handling logs ----

  // A log handled once, with the database's answers for its transfers.
  datatype Handling = Handling(log: Log, answers: seq<Answer>)

  function AllAccepted(hs: seq<Handling>): seq<Transfer> {
    Flat(AcceptedBy(hs))
  }

  function Logs(hs: seq<Handling>): seq<Log> {
    seq(|hs|, i requires 0 <= i < |hs| => hs[i].log)
  }

  function Handled(rows: Rows, hs: seq<Handling>): Rows {
    if hs == [] then rows
    else
      var n := |hs| - 1;
      AddedAll(Handled(rows, hs[..n]), Accepted(Transfers(hs[n].log), hs[n].answers))
  }

  lemma {:induction false} AddedInParts(rows: Rows, first: seq<Transfer>, second: seq<Transfer>)
    ensures AddedAll(rows, first + second) == AddedAll(AddedAll(rows, first), second)
  {
    if second == [] {
      assert first + second == first;
    } else {
      var n := |second| - 1;
      AddedInParts(rows, first, second[..n]);
      assert (first + second)[..|first + second| - 1] == first + second[..n];
    }
  }

  function AcceptedBy(hs: seq<Handling>): seq<seq<Transfer>> {
    seq(|hs|, i requires 0 <= i < |hs| => Accepted(Transfers(hs[i].log), hs[i].answers))
  }

  lemma {:induction false} HandledIsAdded(rows: Rows, hs: seq<Handling>)
    ensures Handled(rows, hs) == AddedAll(rows, AllAccepted(hs))
  {
    hide Transfers, Accepted, AddedAll;
    if hs == [] {
      NothingAdded(rows);
    } else {
      var n := |hs| - 1;
      HandledIsAdded(rows, hs[..n]);
      assert AcceptedBy(hs)[..n] == AcceptedBy(hs[..n]);
      AddedInParts(rows, AllAccepted(hs[..n]), AcceptedBy(hs)[n]);
    }
  }

  lemma NothingAdded(rows: Rows)
    ensures AddedAll(rows, []) == rows
  {
  }

  lemma {:induction false} AcceptedExactly(ts: seq<Transfer>, answers: seq<Answer>, t: Transfer)
    ensures t in Accepted(ts, answers) <==> exists i :: 0 <= i < |ts| && ts[i] == t && Inserts(answers, i)
  {
    if ts != [] {
      var n := |ts| - 1;
      AcceptedExactly(ts[..n], answers, t);
      assert forall i :: 0 <= i < n ==> ts[..n][i] == ts[i];
    }
  }

  // The database accepted this transfer at least once.
  ghost predicate OnceAccepted(hs: seq<Handling>, t: Transfer) {
    exists i :: 0 <= i < |hs| && t in Accepted(Transfers(hs[i].log), hs[i].answers)
  }

  lemma AcceptedIn(hs: seq<Handling>, t: Transfer)
    ensures t in AllAccepted(hs) <==> OnceAccepted(hs, t)
    ensures OnceAccepted(hs, t) ==> t in AllTransfers(Logs(hs))
  {
    InFlat(AcceptedBy(hs), t);
    assert forall i :: 0 <= i < |hs| ==> AcceptedBy(hs)[i] == Accepted(Transfers(hs[i].log), hs[i].answers);
    TransferOrigin(Logs(hs), t);
    if OnceAccepted(hs, t) {
      var i :| 0 <= i < |hs| && t in Accepted(Transfers(hs[i].log), hs[i].answers);
      AcceptedExactly(Transfers(hs[i].log), hs[i].answers, t);
      assert t in Transfers(Logs(hs)[i]);
    }
  }

  // Whatever lookups and inserts failed and however often logs were handled again: a transfer is in
  // the collection exactly when the database accepted it at least once, and the collection holds
  // nothing else. None overwrote another.
  lemma IndexedExactly(hs: seq<Handling>, t: Transfer)
    requires FromChain(Logs(hs))
    ensures Holds(Handled(map[], hs), t) <==> OnceAccepted(hs, t)
  {
    var all := set u | u in AllTransfers(Logs(hs));
    ChainKeysUnique(Logs(hs));
    HandledIsAdded(map[], hs);
    forall u | u in AllAccepted(hs) ensures u in all {
      AcceptedIn(hs, u);
    }
    AcceptedIn(hs, t);
    AddedStaysWithin(map[], AllAccepted(hs), all);
    if t in all {
      AddedAllExactly(map[], AllAccepted(hs), all, t);
    }
  }

  // A clean re-scan repairs everything: after any handlings, with any failures, of some of these logs,
  // handling all of them without failures, in any order and any number of times, leads to the same
  // collection as handling them cleanly from the start.
  lemma RescanConverges(before: seq<Handling>, once: seq<Log>, again: seq<Log>)
    requires FromChain(once) && forall lr :: lr in once <==> lr in again
    requires forall lr :: lr in Logs(before) ==> lr in once
    ensures AddedAll(Handled(map[], before), AllTransfers(again)) == AddedAll(map[], AllTransfers(once))
  {
    hide AllTransfers, AllAccepted, Handled, AddedAll;
    var all := set u | u in AllTransfers(once);
    var rows := Handled(map[], before);
    ChainKeysUnique(once);
    SomeOfThem(before, once);
    SameTransfers(once, again);
    HandledIsAdded(map[], before);
    AddedStaysWithin(map[], AllAccepted(before), all);
    AddedStaysWithin(rows, AllTransfers(again), all);
    AddedStaysWithin(map[], AllTransfers(once), all);
    var a, b := AddedAll(rows, AllTransfers(again)), AddedAll(map[], AllTransfers(once));
    forall t | t in all ensures Holds(a, t) <==> Holds(b, t) {
      AddedAllExactly(rows, AllTransfers(again), all, t);
      AddedAllExactly(map[], AllTransfers(once), all, t);
    }
    SameRows(a, b, all);
  }

  lemma SomeOfThem(before: seq<Handling>, once: seq<Log>)
    requires forall lr :: lr in Logs(before) ==> lr in once
    ensures forall t :: t in AllAccepted(before) ==> t in AllTransfers(once)
  {
    forall t | t in AllAccepted(before) ensures t in AllTransfers(once) {
      AcceptedIn(before, t);
      TransferOrigin(Logs(before), t);
      var i :| 0 <= i < |before| && t in Transfers(Logs(before)[i]);
      assert Logs(before)[i] in Logs(before);
      var j :| 0 <= j < |once| && once[j] == Logs(before)[i];
      TransferOrigin(once, t);
    }
  }

  lemma SameTransfers(once: seq<Log>, again: seq<Log>)
    requires forall lr :: lr in once <==> lr in again
    ensures forall t :: t in AllTransfers(once) <==> t in AllTransfers(again)
  {
    forall t ensures t in AllTransfers(once) <==> t in AllTransfers(again) {
      TransferOrigin(once, t);
      TransferOrigin(again, t);
      assert forall i :: 0 <= i < |once| ==> once[i] in again;
      assert forall i :: 0 <= i < |again| ==> again[i] in once;
    }
  }
}
