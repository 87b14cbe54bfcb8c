// The work one transaction fans out to, and the order trxDispatcher.process pushes it in
// (internal/svc/dispatch_trx.go).
module TrxWork {
  import opened Common

  datatype Trx = Trx(block: nat, from: nat, to: Option<nat>, contract: Option<nat>, logs: seq<nat>)

  datatype Work = Wallet(addr: nat) | Contract(addr: nat) | LogRecord(log: nat)

  function AccountWork(x: Trx): seq<Work> {
    [Wallet(x.from)]
    + (if x.to.Some? then [Wallet(x.to.value)] else [])
    + (if x.contract.Some? then [Contract(x.contract.value)] else [])
  }

  function LogWork(x: Trx): seq<Work> {
    seq(|x.logs|, i requires 0 <= i < |x.logs| => LogRecord(x.logs[i]))
  }

  // Everything that has to be processed before the transaction may be stored, in push order.
  function Plan(x: Trx): seq<Work> {
    AccountWork(x) + LogWork(x)
  }

  // The plan holds the sender, the recipient if there is one, the created contract if there is one
  // and every log, and nothing else; only a transaction to its own sender names an account twice.
  lemma PlanExactly(x: Trx, w: Work)
    ensures w in Plan(x) <==>
      match w {
        case Wallet(a) => a == x.from || x.to == Some(a)
        case Contract(a) => x.contract == Some(a)
        case LogRecord(l) => l in x.logs
      }
    ensures |AccountWork(x)| == 1 + (if x.to.Some? then 1 else 0) + (if x.contract.Some? then 1 else 0)
    ensures |Plan(x)| == |AccountWork(x)| + |x.logs|
    ensures w.LogRecord? ==> w !in AccountWork(x)
  {
    if w.LogRecord? && w.log in x.logs {
      var i :| 0 <= i < |x.logs| && x.logs[i] == w.log;
      assert Plan(x)[|AccountWork(x)| + i] == w;
    }
    var accounts := AccountWork(x);
    assert accounts[0] == Wallet(x.from);
    assert x.to.Some? ==> accounts[1] == Wallet(x.to.value);
    assert x.contract.Some? ==> accounts[|accounts| - 1] == Contract(x.contract.value);
  }

  // One call of trxDispatcher.process. `stopAt` is the push whose select takes the stop branch;
  // `adds` counts the WaitGroup additions.
  class TrxDispatcher {
    var pushed: seq<Work>
    var adds: nat
    const stopAt: Option<nat>

    constructor (stopAt: Option<nat>)
      ensures pushed == [] && adds == 0 && this.stopAt == stopAt
    {
      this.stopAt := stopAt;
      pushed, adds := [], 0;
    }

    // The part of a plan that gets out before the stop.
    function Sent(plan: seq<Work>): seq<Work> {
      if stopAt.Some? && stopAt.value < |plan| then plan[..stopAt.value] else plan
    }

    method Push(w: Work) returns (ok: bool)
      modifies this
      ensures ok == (stopAt != Some(old(|pushed|)))
      ensures pushed == (if ok then old(pushed) + [w] else old(pushed))
      ensures adds == old(adds) + 1
    {
      adds := adds + 1;
      if stopAt == Some(|pushed|) {
        return false;
      }
      pushed := pushed + [w];
      return true;
    }

    method PushAccounts(x: Trx) returns (ok: bool)
      requires pushed == [] && adds == 0
      modifies this
      ensures ok == (stopAt.None? || |AccountWork(x)| <= stopAt.value)
      ensures pushed == Sent(AccountWork(x))
      ensures adds == |pushed| + (if ok then 0 else 1)
    {
      ok := Push(Wallet(x.from));
      if !ok {
        return;
      }
      if x.to.Some? {
        ok := Push(Wallet(x.to.value));
        if !ok {
          return;
        }
      }
      if x.contract.None? {
        return true;
      }
      ok := Push(Contract(x.contract.value));
    }

    // True when the transaction was handed to waitAndStore.
    method Process(x: Trx) returns (awaited: bool)
      requires pushed == [] && adds == 0
      modifies this
      ensures awaited == (stopAt.None? || |Plan(x)| <= stopAt.value)
      ensures pushed == Sent(Plan(x))
      ensures adds == |pushed| + (if awaited then 0 else 1)
    {
      awaited := PushAccounts(x);
      if !awaited {
        return;
      }
      var i := 0;
      while i < |x.logs|
        invariant 0 <= i <= |x.logs|
        invariant stopAt.None? || |pushed| <= stopAt.value
        invariant pushed == AccountWork(x) + LogWork(x)[..i]
        invariant adds == |pushed|
      {
        var ok := Push(LogRecord(x.logs[i]));
        if !ok {
          return false;
        }
        i := i + 1;
      }
      return true;
    }
  }
}
