/**
 * The in-memory store. Each method below is one locked step; reclaiming takes two, because the
 * live brokers are read under one lock before the reservations are swept under another.
 */
module MemoryStore {
  import opened UserSlots
  import opened Claims
  import opened BrokerSlots
  import RequestId

  datatype Lease = Lease(until: int, updated: int)

  class Store {
    var jobs: map<string, Record>
    var leases: map<string, Lease>
    var nextSlot: map<(string, string), nat>
    var slots: Slots

    constructor ()
      ensures jobs == map[] && leases == map[] && nextSlot == map[] && slots == Slots(map[], 0)
      ensures slots.Tidy()
    {
      jobs, leases, nextSlot, slots := map[], map[], map[], Slots(map[], 0);
    }

    /** The record under an id as a cell of the claim protocol. */
    function CellOf(id: string): Cell
      reads this`jobs
    {
      if id in jobs then Live(jobs[id]) else Empty
    }

    static predicate IsJobId(id: string) {
      RequestId.CrockfordWf();
      RequestId.CROCKFORD.Decode(id).Ok?
    }

    /** An id that does not decode is a backend error and changes nothing. */
    method UpsertJob(id: string, record: Record) returns (ok: bool)
      modifies this`jobs
      ensures ok == IsJobId(id)
      ensures forall q :: CellOf(q) == if ok && q == id then Live(record) else old(CellOf(q))
    {
      ok := IsJobId(id);
      if ok { jobs := jobs[id := record]; }
    }

    method DeleteJob(id: string) returns (ok: bool)
      modifies this`jobs
      ensures ok == IsJobId(id)
      ensures forall q :: CellOf(q) == if ok && q == id then Empty else old(CellOf(q))
    {
      ok := IsJobId(id);
      if ok { jobs := jobs - {id}; }
    }

    /** One atomic claim, as the claim protocol defines it. */
    method ClaimIfOwner(id: string, expected: string, claimant: string) returns (ok: bool, r: ClaimResult)
      modifies this`jobs
      ensures ok == IsJobId(id)
      ensures ok ==> r == AtomicAnswer(old(CellOf(id)), expected, claimant)
      ensures forall q :: CellOf(q) == if ok && q == id then AtomicEffect(old(CellOf(id)), expected, claimant)
                                       else old(CellOf(q))
    {
      if !IsJobId(id) { return false, NotFound; }
      if id !in jobs { return true, NotFound; }
      var record := jobs[id];
      if record.owner == claimant { return true, Claimed(record); }
      if record.owner != expected { return true, Active(record.owner); }
      record := record.(owner := claimant);
      jobs := jobs[id := record];
      return true, Claimed(record);
    }

    /** A claim by nobody on behalf of nobody probes for presence; it writes only if somebody is called that. */
    method DurableJobPresent(id: string) returns (ok: bool, present: bool)
      modifies this`jobs
      ensures ok == IsJobId(id) && (ok ==> present == (id in old(jobs)))
      ensures forall q | q != id :: CellOf(q) == old(CellOf(q))
      ensures CellOf(id) == old(CellOf(id)) <==>
              !(ok && id in old(jobs) && old(jobs)[id].owner == "__never_expected__")
    {
      var r: ClaimResult;
      ok, r := ClaimIfOwner(id, "__never_expected__", "__presence_probe__");
      present := ok && !r.NotFound?;
    }

    method AllocateBrokerSlot(site: string, env: string) returns (r: Outcome)
      modifies this`nextSlot
      ensures var was := if (site, env) in old(nextSlot) then old(nextSlot)[(site, env)] else 0;
              && r == Allocate(was) && r == (if was < 0x1_0000 then Granted(was) else Exhausted)
              && (site, env) in nextSlot && nextSlot[(site, env)] == was + (if r.Granted? then 1 else 0)
              && nextSlot - {(site, env)} == old(nextSlot) - {(site, env)}
    {
      if (site, env) !in nextSlot { nextSlot := nextSlot[(site, env) := 0]; }
      var next := nextSlot[(site, env)];
      if next > 0xffff { return Exhausted; }
      nextSlot := nextSlot[(site, env) := next + 1];
      return Granted(next);
    }

    method ReserveUserSlot(scope: string, user: string, job: JobId, owner: string) returns (ord: nat)
      requires slots.Tidy()
      modifies this`slots
      ensures slots == old(slots).Reserve(Key(scope, user), job, owner) && slots.Tidy()
      ensures ord == slots.Entries(Key(scope, user))[job].ord
    {
      var k := Key(scope, user);
      var entries := slots.Entries(k);
      if job in entries { return entries[job].ord; }
      ord := slots.ord + 1;
      slots := Slots(slots.table[k := entries[job := Entry(ord, owner)]], ord);
    }

    method ReleaseUserSlot(scope: string, user: string, job: JobId)
      requires slots.Tidy()
      modifies this`slots
      ensures slots == old(slots).Release(Key(scope, user), job) && slots.Tidy()
    {
      var k := Key(scope, user);
      if k in slots.table {
        var entries := slots.table[k] - {job};
        slots := if entries == map[] then slots.(table := slots.table - {k}) else slots.(table := slots.table[k := entries]);
      }
    }

    method ListUserSlots(scope: string, user: string) returns (entries: map<JobId, Entry>)
      ensures entries == slots.Entries(Key(scope, user))
    {
      var k := Key(scope, user);
      entries := if k in slots.table then slots.table[k] else map[];
    }

    /** The lease is live from now for exactly its lifetime; no other broker's changes. */
    method UpsertLease(broker: string, now: int, ttl: nat)
      modifies this`leases
      ensures forall t :: broker in LiveBrokers(t) <==> t < now + ttl
      ensures broker in leases && leases[broker].until - leases[broker].updated == ttl
      ensures leases - {broker} == old(leases) - {broker}
      ensures forall t, b | b != broker :: b in LiveBrokers(t) <==> b in old(LiveBrokers(t))
    {
      leases := leases[broker := Lease(now + ttl, now)];
      assert broker in leases;
    }

    function LiveBrokers(now: int): set<string>
      reads this`leases
    {
      set b | b in leases && leases[b].until > now
    }

    /** The first half of reclaiming, under the lock of the leases. */
    method ReadLiveBrokers(now: int) returns (live: set<string>)
      ensures forall b :: b in live <==> b in leases && leases[b].until > now
    {
      live := LiveBrokers(now);
    }

    /** The second half: drop the reservations of brokers not in the set read before, and say how many went. */
    method ReclaimUserSlots(live: set<string>) returns (removed: nat)
      modifies this`slots
      ensures slots == old(slots).Reclaim(live) && slots.Tidy()
      ensures removed == |old(slots).Pairs()| - |slots.Pairs()|
    {
      var kept: map<Key, map<JobId, Entry>>;
      kept, removed := RetainLive(slots.table, live);
      ghost var was := slots;
      slots := Slots(kept, slots.ord);
      assert kept == was.Reclaim(live).table;
      assert was.Pairs() == PairsIn(was.table, was.table.Keys) && slots.Pairs() == PairsIn(kept, was.table.Keys);
    }
  }

  ghost function KeptRows(table: map<Key, map<JobId, Entry>>, ks: set<Key>, live: set<string>): map<Key, map<JobId, Entry>>
    requires ks <= table.Keys
  {
    map k | k in ks && KeepLive(table[k], live) != map[] :: KeepLive(table[k], live)
  }

  lemma RetainStep(table: map<Key, map<JobId, Entry>>, done: set<Key>, k: Key, live: set<string>)
    requires done <= table.Keys && k in table && k !in done
    ensures var es, kept := KeepLive(table[k], live), KeptRows(table, done, live);
            var next := KeptRows(table, done + {k}, live);
            && next == (if es == map[] then kept else kept[k := es])
            && |PairsIn(table, done)| + |PairsIn(next, done + {k})| + Dropped(table[k], live)
               == |PairsIn(kept, done)| + |PairsIn(table, done + {k})|
  {
    var kept, next := KeptRows(table, done, live), KeptRows(table, done + {k}, live);
    PairsGrow(table, done, k);
    PairsGrow(next, done, k);
    assert PairsIn(next, done) == PairsIn(kept, done);
  }

  /** After the rows in `done`: what was kept, and how many entries went. */
  ghost predicate Swept(table: map<Key, map<JobId, Entry>>, done: set<Key>, live: set<string>,
                        kept: map<Key, map<JobId, Entry>>, removed: nat) {
    && done <= table.Keys && kept == KeptRows(table, done, live)
    && removed + |PairsIn(kept, done)| == |PairsIn(table, done)|
  }

  lemma SweptMore(table: map<Key, map<JobId, Entry>>, done: set<Key>, live: set<string>,
                  kept: map<Key, map<JobId, Entry>>, removed: nat, k: Key)
    requires Swept(table, done, live, kept, removed) && k in table && k !in done
    ensures var es := KeepLive(table[k], live);
            Swept(table, done + {k}, live, if es == map[] then kept else kept[k := es], removed + Dropped(table[k], live))
  {
    RetainStep(table, done, k, live);
  }

  method RetainLive(table: map<Key, map<JobId, Entry>>, live: set<string>)
    returns (kept: map<Key, map<JobId, Entry>>, removed: nat)
    ensures kept == KeptRows(table, table.Keys, live)
    ensures removed + |PairsIn(kept, table.Keys)| == |PairsIn(table, table.Keys)|
  {
    var todo := table.Keys;
    ghost var done := {};
    kept, removed := map[], 0;
    while todo != {}
      invariant todo <= table.Keys && done == table.Keys - todo
      invariant Swept(table, done, live, kept, removed)
    {
      var k :| k in todo;
      var es := KeepLive(table[k], live);
      SweptMore(table, done, live, kept, removed, k);
      if es != map[] { kept := kept[k := es]; }
      removed := removed + Dropped(table[k], live);
      todo, done := todo - {k}, done + {k};
    }
    assert done == table.Keys;
  }

  /** How many entries a retain removes. */
  function Dropped(es: map<JobId, Entry>, live: set<string>): (n: nat)
    ensures n + |KeepLive(es, live)| == |es|
  {
    var gone := map j | j in es && es[j].owner !in live :: es[j];
    assert es.Keys == gone.Keys + KeepLive(es, live).Keys;
    |gone|
  }

  ghost function PairsIn(table: map<Key, map<JobId, Entry>>, ks: set<Key>): set<(Key, JobId)> {
    set k, j | k in ks && k in table && j in table[k] :: (k, j)
  }

  lemma PairsGrow(table: map<Key, map<JobId, Entry>>, ks: set<Key>, k: Key)
    requires k !in ks
    ensures |PairsIn(table, ks + {k})| == |PairsIn(table, ks)| + if k in table then |table[k]| else 0
  {
    var row := if k in table then Row(k, table[k].Keys) else {};
    if k in table { RowSize(k, table[k].Keys); }
    assert PairsIn(table, ks + {k}) == PairsIn(table, ks) + row;
  }

  ghost function Row(k: Key, js: set<JobId>): set<(Key, JobId)> {
    set j | j in js :: (k, j)
  }

  lemma {:induction false} RowSize(k: Key, js: set<JobId>)
    ensures |Row(k, js)| == |js|
  {
    if js == {} {
      assert Row(k, js) == {};
    } else {
      var j :| j in js;
      RowSize(k, js - {j});
      assert Row(k, js) == Row(k, js - {j}) + {(k, j)};
    }
  }
}
