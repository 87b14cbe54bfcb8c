// Account records and their activity counters, behind a lossy cache of known addresses
// (internal/svc/dispatch_acc.go, internal/repository/account.go, internal/repository/db/account.go,
// internal/repository/cache/account.go).
module Accounts {
  datatype Row = Row(counter: nat, lastActivity: nat)

  // One account event and how the outside world answers it: whether the database lookup works,
  // whether a contract created by the transaction could be identified and stored, and whether the
  // database takes the final write.
  datatype Event = Event(addr: nat, stamp: nat, looksUp: bool, contractDone: bool, writes: bool)

  datatype Store = Store(rows: map<nat, Row>, known: set<nat>)

  function IsKnown(s: Store, addr: nat, looksUp: bool): bool {
    addr in s.known || (looksUp && addr in s.rows)
  }

  // The store after process, and whether it returned without an error. The address is the unique
  // primary key: inserting a stored one fails, and updating a missing one changes nothing.
  function Processed(s: Store, e: Event): (Store, bool) {
    if IsKnown(s, e.addr, e.looksUp) then
      var seen := s.(known := s.known + {e.addr});
      if !e.writes then (seen, false)
      else if e.addr !in s.rows then (seen, true)
      else (seen.(rows := s.rows[e.addr := Row(s.rows[e.addr].counter + 1, e.stamp)]), true)
    else if !e.contractDone || !e.writes || e.addr in s.rows then (s, false)
    else (Store(s.rows[e.addr := Row(1, e.stamp)], s.known + {e.addr}), true)
  }

  class AccDispatcher {
    var rows: map<nat, Row>
    var known: set<nat>

    function View(): Store
      reads this
    {
      Store(rows, known)
    }

    constructor ()
      ensures View() == Store(map[], {})
    {
      rows, known := map[], {};
    }

    method AccountIsKnown(addr: nat, looksUp: bool) returns (yes: bool)
      modifies this`known
      ensures yes == IsKnown(old(View()), addr, looksUp)
      ensures known == if yes then old(known) + {addr} else old(known)
    {
      if addr in known {
        assert known + {addr} == known;
        return true;
      }
      if !looksUp {
        return false;
      }
      yes := addr in rows;
      if yes {
        known := known + {addr};
      }
    }

    method StoreAccount(addr: nat, row: Row, writes: bool) returns (ok: bool)
      modifies this
      ensures ok == (writes && addr !in old(rows))
      ensures View() == if ok then Store(old(rows)[addr := row], old(known) + {addr}) else old(View())
    {
      ok := writes && addr !in rows;
      if ok {
        rows := rows[addr := row];
        known := known + {addr};
      }
    }

    method AccountMarkActivity(addr: nat, stamp: nat, writes: bool) returns (ok: bool)
      modifies this`rows
      ensures ok == writes
      ensures rows == if writes && addr in old(rows)
                      then old(rows)[addr := Row(old(rows)[addr].counter + 1, stamp)] else old(rows)
    {
      if writes && addr in rows {
        rows := rows[addr := Row(rows[addr].counter + 1, stamp)];
      }
      ok := writes;
    }

    method Process(e: Event) returns (ok: bool)
      modifies this
      ensures (View(), ok) == Processed(old(View()), e)
    {
      var yes := AccountIsKnown(e.addr, e.looksUp);
      if yes {
        ok := AccountMarkActivity(e.addr, e.stamp, e.writes);
        return;
      }
      if !e.contractDone {
        return false;
      }
      ok := StoreAccount(e.addr, Row(1, e.stamp), e.writes);
    }
  }

  // ---- Whole runs ----

  datatype Action = Handle(event: Event) | Evict(addr: nat)

  function Acted(s: Store, a: Action): Store {
    match a
    case Handle(e) => Processed(s, e).0
    case Evict(addr) => s.(known := s.known - {addr})
  }

  function After(acts: seq<Action>): Store {
    if acts == [] then Store(map[], {}) else Acted(After(acts[..|acts| - 1]), acts[|acts| - 1])
  }

  // Time stamps of the calls for `addr` that returned without an error, in order.
  function Successes(acts: seq<Action>, addr: nat): seq<nat> {
    if acts == [] then []
    else
      var n := |acts| - 1;
      Successes(acts[..n], addr)
      + (if acts[n].Handle? && acts[n].event.addr == addr && Processed(After(acts[..n]), acts[n].event).1
         then [acts[n].event.stamp] else [])
  }

  // Whatever the lookups, writes and cache evictions do, a counter is the number of successful
  // calls, the last activity that of the latest one, an account is stored exactly when there was
  // one, and every address the cache knows is stored.
  lemma {:induction false} CountersExact(acts: seq<Action>, addr: nat)
    ensures After(acts).known <= After(acts).rows.Keys
    ensures addr in After(acts).rows <==> Successes(acts, addr) != []
    ensures addr in After(acts).rows ==>
      var times := Successes(acts, addr);
      After(acts).rows[addr] == Row(|times|, times[|times| - 1])
  {
    if acts != [] {
      CountersExact(acts[..|acts| - 1], addr);
    }
  }

  // The only events not counted are those that reported an error: a failed write, a contract that
  // could not be processed, or a failed lookup of an account already stored but not cached.
  lemma {:induction false} FailsExactly(acts: seq<Action>, e: Event)
    ensures var s := After(acts);
      !Processed(s, e).1 <==>
        !e.writes || (e.addr !in s.rows && !e.contractDone)
        || (e.addr in s.rows && e.addr !in s.known && !e.looksUp)
  {
    CountersExact(acts, e.addr);
  }

  // What the cache knows after a run: after an event an address is cached exactly when it was before,
  // when the database answered that it is stored, or when the event stored it; an eviction forgets it,
  // and no other event touches it.
  lemma CacheLearnsExactly(acts: seq<Action>, a: Action, addr: nat)
    ensures var before, after := After(acts), After(acts + [a]);
      match a {
        case Evict(evicted) => addr in after.known <==> addr in before.known && addr != evicted
        case Handle(e) =>
          addr in after.known <==>
            addr in before.known
            || (addr == e.addr
                && if addr in before.rows then e.looksUp else e.contractDone && e.writes)
      }
  {
    CountersExact(acts, addr);
    assert (acts + [a])[..|acts|] == acts;
  }
}
