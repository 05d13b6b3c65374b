/**
 * What happens when a reclaim does not spare a key: the reservations of a broker whose lease
 * lapsed go while its jobs still run, and another broker fills the ceiling again.
 */
module ReclaimOvershoot {
  import opened UserSlots
  import opened Counting
  import opened Admission
  import opened AdmissionBounds
  import opened LazyTightness

  ghost function StrictOps(j: JobId, k: Key, b: BrokerId, m: nat): seq<Op> {
    [Begin(j, k, b, m), Reserve(j), Arm(j), Rank(j)]
  }

  /** One admission decided by the store alone, in the mode of its ceiling. */
  ghost function FreshOps(j: JobId, k: Key, b: BrokerId, m: nat): seq<Op> {
    if Strict(m) then StrictOps(j, k, b, m) else AdmitOps(j, k, b, m, true)
  }

  /** One more job in use, at this broker. */
  ghost predicate Joined(s: State, t: State, j: JobId, k: Key, b: BrokerId) {
    && j in t.jobs && t.jobs == s.jobs[j := t.jobs[j]] && t.jobs[j].broker == b
    && InUse(t, k) == InUse(s, k) + {j} && j !in InUse(s, k)
    && |t.store.Entries(k)| == |s.store.Entries(k)| + 1
    && (forall c :: CountAt(t.counts, (c, k)) == CountAt(s.counts, (c, k)) + One(c == b))
  }

  ghost function RankedJob(k: Key, b: BrokerId, m: nat, ord: nat, verdict: Verdict, stage: Stage): Job {
    Job(k, b, m, stage, verdict, true, true, ord)
  }

  lemma StrictReserve(s: State, t: State, j: JobId, k: Key, b: BrokerId, m: nat)
    requires j !in s.jobs && j !in s.store.Entries(k) && 0 < m && Strict(m)
    requires t == Step(Step(s, Begin(j, k, b, m)), Reserve(j))
    ensures t.counts == s.counts && j in t.store.Entries(k)
    ensures t.store.Entries(k) == s.store.Entries(k)[j := t.store.Entries(k)[j]]
    ensures t.jobs == s.jobs[j := Job(k, b, m, Reserved, Undecided, false, true, t.store.Entries(k)[j].ord)]
  {
    var s1 := Step(s, Begin(j, k, b, m));
    assert s1 == s.(jobs := s.jobs[j := Newcomer(k, b, m)]);
  }

  lemma StrictRank(s: State, t: State, j: JobId, k: Key, b: BrokerId, m: nat, ord: nat)
    requires j in s.jobs && s.jobs[j] == Job(k, b, m, Reserved, Undecided, false, true, ord) && Strict(m)
    requires j in s.store.Entries(k) && |s.store.Entries(k)| <= m
    requires t == Step(Step(s, Arm(j)), Rank(j))
    ensures t.counts == Increment(s.counts, (b, k)) && t.store == s.store
    ensures t.jobs == s.jobs[j := RankedJob(k, b, m, ord, Ranked, Decided)]
  {
    var s1 := Step(s, Arm(j));
    assert s1.jobs == s.jobs[j := RankedJob(k, b, m, ord, Undecided, Armed)];
    assert s1.store == s.store && s1.counts == Increment(s.counts, (b, k));
    FewAhead(s.store.Entries(k), ord, j);
  }

  /** A reservation never ranks behind itself. */
  lemma FewAhead(es: map<JobId, Entry>, ord: nat, j: JobId)
    requires j in es
    ensures RankIn(es, ord, j) < |es|
  {
    StrLessIrreflexive(j);
    if es[j].ord == ord {
      SubsetSize(Ahead(es, ord, j), es.Keys - {j});
    }
  }

  lemma StrictJoined(s: State, t: State, j: JobId, k: Key, b: BrokerId, m: nat, ord: nat)
    requires j !in s.jobs && t.jobs == s.jobs[j := RankedJob(k, b, m, ord, Ranked, Decided)]
    requires t.counts == Increment(s.counts, (b, k)) && |t.store.Entries(k)| == |s.store.Entries(k)| + 1
    ensures Joined(s, t, j, k, b)
  {
    InUseGrows(s, t, j, k, t.jobs[j]);
  }

  lemma StrictOne(s: State, j: JobId, k: Key, b: BrokerId, m: nat)
    requires j !in s.jobs && j !in s.store.Entries(k) && 0 < m && Strict(m) && |s.store.Entries(k)| < m
    ensures Joined(s, Run(s, StrictOps(j, k, b, m)), j, k, b)
  {
    var ops := StrictOps(j, k, b, m);
    Unfold4(s, ops);
    var mid := Step(Step(s, ops[0]), ops[1]);
    StrictReserve(s, mid, j, k, b, m);
    OneMore(s.store.Entries(k), j, mid.store.Entries(k)[j]);
    var ord := mid.store.Entries(k)[j].ord;
    var t := Step(Step(mid, ops[2]), ops[3]);
    StrictRank(mid, t, j, k, b, m, ord);
    StrictJoined(s, t, j, k, b, m, ord);
  }

  lemma FreshOne(s: State, j: JobId, k: Key, b: BrokerId, m: nat)
    requires j !in s.jobs && j !in s.store.Entries(k) && |s.store.Entries(k)| < m && CountAt(s.counts, (b, k)) < m
    ensures Joined(s, Run(s, FreshOps(j, k, b, m)), j, k, b)
  {
    if Strict(m) {
      StrictOne(s, j, k, b, m);
    } else {
      AdmitOne(s, j, k, b, m, true);
      assert Admitted(s, Run(s, FreshOps(j, k, b, m)), j, k, b, m);
    }
  }

  /** Only attempts on the key with this ceiling; nothing fails, is remembered or is reclaimed. */
  ghost predicate Plain(ops: seq<Op>, k: Key, m: nat) {
    forall op | op in ops :: PlainOp(op, k, m)
  }

  ghost predicate PlainOp(op: Op, k: Key, m: nat) {
    && (op.Begin? ==> op.key == k && op.max == m)
    && !op.ReserveFails? && !op.ListFails? && !op.CountCached? && !op.Reclaim?
  }

  lemma FreshOpsPlain(j: JobId, k: Key, b: BrokerId, m: nat)
    ensures Plain(FreshOps(j, k, b, m), k, m)
  {
  }

  lemma PlainJoin(s: State, first: seq<Op>, last: seq<Op>, k: Key, m: nat)
    requires Plain(first, k, m) && Plain(last, k, m)
    ensures Plain(first + last, k, m) && Run(s, first + last) == Run(Run(s, first), last)
  {
    RunJoin(s, first, last);
  }

  /** After n more admissions at one broker. */
  ghost predicate Grown(s: State, t: State, k: Key, b: BrokerId, n: nat) {
    && |InUse(t, k)| == |InUse(s, k)| + n
    && |t.store.Entries(k)| == |s.store.Entries(k)| + n
    && CountAt(t.counts, (b, k)) == CountAt(s.counts, (b, k)) + n
    && (forall c | c != b :: CountAt(t.counts, (c, k)) == CountAt(s.counts, (c, k)))
    && (forall j | j in t.jobs :: t.jobs[j].broker == b || (j in s.jobs && s.jobs[j].broker == t.jobs[j].broker))
  }

  lemma GrownMore(s: State, mid: State, t: State, j: JobId, k: Key, b: BrokerId, n: nat)
    requires Grown(s, mid, k, b, n) && Joined(mid, t, j, k, b)
    ensures Grown(s, t, k, b, n + 1)
  {
  }

  lemma {:induction false} FillFresh(s: State, k: Key, b: BrokerId, n: nat, m: nat) returns (ops: seq<Op>, t: State)
    requires Reached(s) && |s.store.Entries(k)| + n <= m && CountAt(s.counts, (b, k)) + n <= m
    ensures t == Run(s, ops) && Reached(t) && Plain(ops, k, m) && Grown(s, t, k, b, n)
  {
    if n == 0 {
      ops, t := [], s;
    } else {
      var first, mid := FillFresh(s, k, b, n - 1, m);
      var j := NewJob(mid, k);
      var last := FreshOps(j, k, b, m);
      FreshOne(mid, j, k, b, m);
      t := Run(mid, last);
      ReachedMore(mid, last);
      GrownMore(s, mid, t, j, k, b, n - 1);
      FreshOpsPlain(j, k, b, m);
      PlainJoin(s, first, last, k, m);
      ops := first + last;
    }
  }

  lemma ReachedOwned(s: State)
    requires Reached(s)
    ensures Owned(s)
  {
    var past: seq<Op> :| s == Run(INIT, past);
    InitHolds();
    RunKeeps(INIT, past);
  }

  /** A reclaim that keeps only b empties a key whose jobs are all a's, and takes no job out of use. */
  lemma ReclaimEmpties(s: State, k: Key, a: BrokerId, b: BrokerId)
    requires Owned(s) && a != b && forall j | j in s.jobs :: s.jobs[j].broker == a
    ensures var t := Step(s, Reclaim({b}));
      |t.store.Entries(k)| == 0 && t.jobs == s.jobs && t.counts == s.counts && InUse(t, k) == InUse(s, k)
  {
    var es := s.store.Entries(k);
    forall i | i in es ensures es[i].owner !in {b} {
      assert s.jobs[i].broker == es[i].owner;
    }
    NoneLive(es, {b});
    ReclaimEntries(s.store, {b});
  }

  lemma NoneLive(es: map<JobId, Entry>, live: set<BrokerId>)
    requires forall i | i in es :: es[i].owner !in live
    ensures KeepLive(es, live) == map[]
  {
  }

  lemma RunAround(before: seq<Op>, op: Op, after: seq<Op>)
    ensures Run(INIT, before + [op] + after) == Run(Step(Run(INIT, before), op), after)
    ensures Reached(Step(Run(INIT, before), op))
  {
    var once, s := [op], Run(INIT, before);
    RunJoin(INIT, before + once, after);
    RunJoin(INIT, before, once);
    RunOne(s, once);
    assert once[1..] == [];
    assert Step(s, op) == Run(INIT, before + once);
  }

  /**
   * For every ceiling: one broker fills it, its lease lapses and a reclaim drops its
   * reservations although its jobs still run, and another broker fills the ceiling again.
   */
  lemma LapsedLeaseDoublesUse(k: Key, a: BrokerId, b: BrokerId, m: nat) returns (before: seq<Op>, after: seq<Op>)
    requires a != b
    ensures Plain(before, k, m) && Plain(after, k, m)
    ensures |InUse(Run(INIT, before + [Reclaim({b})] + after), k)| == 2 * m
  {
    Empty(k, m);
    var s, u;
    before, s := FillFresh(INIT, k, a, m, m);
    ReachedOwned(s);
    ReclaimEmpties(s, k, a, b);
    RunAround(before, Reclaim({b}), []);
    after, u := FillFresh(Step(s, Reclaim({b})), k, b, m, m);
    RunAround(before, Reclaim({b}), after);
  }
}
