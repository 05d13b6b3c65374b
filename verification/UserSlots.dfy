/** The shared per-user admission records: what each store operation does to them. */
module UserSlots {

  type JobId = string
  type BrokerId = string

  /** The accounting key: one dispatcher (scope) and one user. */
  datatype Key = Key(scope: string, user: string)

  /** One reservation; `ord` is its store-wide ordinal. */
  datatype Entry = Entry(ord: nat, owner: BrokerId)

  /** Every reservation, and the last ordinal handed out. */
  datatype Slots = Slots(table: map<Key, map<JobId, Entry>>, ord: nat) {

    /** The current reservations of one key; an absent key has none. */
    function Entries(k: Key): map<JobId, Entry> {
      if k in table then table[k] else map[]
    }

    /** The store keeps no empty inner table. */
    ghost predicate Tidy() {
      forall k | k in table :: table[k] != map[]
    }

    /** The reservations of all keys as (key, job) pairs. */
    ghost function Pairs(): set<(Key, JobId)> {
      set k, j | k in table && j in table[k] :: (k, j)
    }

    function WithEntries(k: Key, es: map<JobId, Entry>): (r: Slots)
      ensures r.ord == ord
      ensures forall q :: r.Entries(q) == if q == k then es else Entries(q)
      ensures Tidy() ==> r.Tidy()
    {
      if es == map[] then Slots(table - {k}, ord) else Slots(table[k := es], ord)
    }

    /** Make or keep a reservation; the caller's ordinal is `r.Entries(k)[j].ord`. */
    function Reserve(k: Key, j: JobId, owner: BrokerId): (r: Slots)
      ensures j in r.Entries(k) && (Tidy() ==> r.Tidy())
      ensures r == this || (r.ord == ord + 1 && j !in Entries(k))
      ensures forall q :: r.Entries(q) == if q == k && r != this
                                          then Entries(k)[j := Entry(ord + 1, owner)] else Entries(q)
    {
      if j in Entries(k) then this
      else WithEntries(k, Entries(k)[j := Entry(ord + 1, owner)]).(ord := ord + 1)
    }

    function Release(k: Key, j: JobId): (r: Slots)
      ensures r.ord == ord && (Tidy() ==> r.Tidy())
      ensures forall q :: r.Entries(q) == if q == k then Entries(k) - {j} else Entries(q)
    {
      if k in table then WithEntries(k, table[k] - {j}) else this
    }

    /** Reservations whose owner holds a live lease survive. */
    function Reclaim(live: set<BrokerId>): Slots {
      var kept := map k | k in table :: KeepLive(table[k], live);
      Slots(map k | k in kept && kept[k] != map[] :: kept[k], ord)
    }
  }

  function KeepLive(es: map<JobId, Entry>, live: set<BrokerId>): map<JobId, Entry> {
    map j | j in es && es[j].owner in live :: es[j]
  }

  /** Reserving twice is the same as once: the ordinal of a held reservation never moves. */
  lemma ReserveIdempotent(s: Slots, k: Key, j: JobId, a: BrokerId, b: BrokerId)
    ensures var r := s.Reserve(k, j, a);
            j in r.Entries(k) && r.Reserve(k, j, b) == r
  {
  }

  /** A release undoes a fresh reservation, for every key; only the ordinal stays used. */
  lemma ReleaseUndoesReserve(s: Slots, k: Key, j: JobId, owner: BrokerId)
    requires j !in s.Entries(k)
    ensures var r := s.Reserve(k, j, owner).Release(k, j);
            r.ord == s.ord + 1 && forall q :: r.Entries(q) == s.Entries(q)
  {
    var r := s.Reserve(k, j, owner);
    assert j in r.Entries(k);
    assert r.Entries(k) - {j} == s.Entries(k);
  }

  lemma ReclaimEntries(s: Slots, live: set<BrokerId>)
    ensures s.Reclaim(live).ord == s.ord
    ensures s.Reclaim(live).Tidy()
    ensures forall k :: s.Reclaim(live).Entries(k) == KeepLive(s.Entries(k), live)
  {
  }
}
