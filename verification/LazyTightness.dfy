/** The lazy bound is attained: remembered counts let every broker fill its own share. */
module LazyTightness {
  import opened UserSlots
  import opened Counting
  import opened Admission
  import opened AdmissionBounds

  /** Nothing fails and nobody is reclaimed. */
  ghost predicate Healthy(op: Op) {
    !op.Reclaim? && !op.ReserveFails? && !op.ListFails?
  }

  lemma {:induction false} RunJoin(s: State, a: seq<Op>, b: seq<Op>)
    ensures Run(s, a + b) == Run(Run(s, a), b)
    decreases a
  {
    if a == [] {
      assert a + b == b;
    } else {
      assert (a + b)[0] == a[0] && (a + b)[1..] == a[1..] + b;
      RunJoin(Step(s, a[0]), a[1..], b);
    }
  }

  /** Some job id is not yet in use. */
  lemma {:induction false} FreshName(used: set<JobId>) returns (j: JobId)
    ensures j !in used
    ensures forall i | i in used :: |i| < |j|
  {
    if used == {} {
      j := "";
    } else {
      var i :| i in used;
      var k := FreshName(used - {i});
      j := if |k| > |i| then k else seq(|i| + 1, _ => 'a');
      forall x | x in used ensures |x| < |j| { assert x == i || x in used - {i}; }
    }
  }

  ghost function AdmitOps(j: JobId, k: Key, b: BrokerId, m: nat, listing: bool): seq<Op> {
    [Begin(j, k, b, m), Gate(j), Reserve(j), if listing then CountFresh(j) else CountCached(j)]
  }

  /** There is room for one more at this broker. */
  ghost predicate Room(s: State, k: Key, b: BrokerId, m: nat, listing: bool) {
    && CountAt(s.counts, (b, k)) < m
    && (if listing then |s.store.Entries(k)| < m else (b, k) in s.cache && s.cache[(b, k)] <= m)
  }

  ghost predicate Holds(s: State, j: JobId, k: Key, b: BrokerId) {
    && j in s.jobs && s.jobs[j].key == k && s.jobs[j].broker == b && s.jobs[j].guard && s.jobs[j].stage.Decided?
    && !s.jobs[j].verdict.Undecided? && !s.jobs[j].verdict.Refused? && j in s.store.Entries(k)
  }

  /** Everything but this broker's own share stays; the job is in use. */
  ghost predicate Admitted(s: State, t: State, j: JobId, k: Key, b: BrokerId, m: nat) {
    && j in t.jobs && t.jobs == s.jobs[j := t.jobs[j]] && Holds(t, j, k, b)
    && InUse(t, k) == InUse(s, k) + {j} && j !in InUse(s, k)
    && |t.store.Entries(k)| == |s.store.Entries(k)| + 1
    && (forall c :: CountAt(t.counts, (c, k)) == CountAt(s.counts, (c, k)) + One(c == b))
    && (forall c | (c, k) in s.cache && s.cache[(c, k)] <= m :: (c, k) in t.cache && t.cache[(c, k)] <= m)
    && (b, k) in t.cache && t.cache[(b, k)] <= m
  }

  lemma RunOne(s: State, ops: seq<Op>)
    requires ops != []
    ensures Run(s, ops) == Run(Step(s, ops[0]), ops[1..])
  {
  }

  lemma Unfold4(s: State, ops: seq<Op>)
    requires |ops| == 4
    ensures Run(s, ops) == Step(Step(Step(Step(s, ops[0]), ops[1]), ops[2]), ops[3])
  {
    var s1 := Step(s, ops[0]);
    var s2 := Step(s1, ops[1]);
    var s3 := Step(s2, ops[2]);
    RunOne(s, ops);
    RunOne(s1, ops[1..]);
    assert ops[1..][1..] == ops[2..];
    RunOne(s2, ops[2..]);
    assert ops[2..][1..] == ops[3..];
    RunOne(s3, ops[3..]);
    assert ops[3..][1..] == [];
  }

  ghost function Newcomer(k: Key, b: BrokerId, m: nat): Job {
    Job(k, b, m, Begun, Undecided, false, false, 0)
  }

  lemma GateStep(s: State, j: JobId, k: Key, b: BrokerId, m: nat)
    requires j !in s.jobs && !Strict(m) && CountAt(s.counts, (b, k)) < m
    ensures Step(Step(s, Begin(j, k, b, m)), Gate(j))
         == s.(jobs := s.jobs[j := Newcomer(k, b, m).(stage := Gated, guard := true)],
               counts := Increment(s.counts, (b, k)))
  {
    var s1 := Step(s, Begin(j, k, b, m));
    assert s1 == s.(jobs := s.jobs[j := Newcomer(k, b, m)]);
    assert s.jobs[j := Newcomer(k, b, m)][j := Newcomer(k, b, m).(stage := Gated, guard := true)]
        == s.jobs[j := Newcomer(k, b, m).(stage := Gated, guard := true)];
  }

  ghost function ArmedJob(k: Key, b: BrokerId, m: nat, ord: nat): Job {
    Job(k, b, m, Armed, Undecided, true, true, ord)
  }

  lemma ReserveStep(s: State, t: State, j: JobId, k: Key, b: BrokerId, m: nat)
    requires j in s.jobs && s.jobs[j] == Newcomer(k, b, m).(stage := Gated, guard := true)
    requires j !in s.store.Entries(k) && t == Step(s, Reserve(j))
    ensures t.counts == s.counts && t.cache == s.cache
    ensures |t.store.Entries(k)| == |s.store.Entries(k)| + 1 && j in t.store.Entries(k)
    ensures exists ord :: t.jobs == s.jobs[j := ArmedJob(k, b, m, ord)]
  {
    var e := t.store.Entries(k);
    assert e == s.store.Entries(k)[j := e[j]];
    OneMore(s.store.Entries(k), j, e[j]);
    assert t.jobs == s.jobs[j := ArmedJob(k, b, m, e[j].ord)];
  }

  lemma CountStep(s: State, t: State, j: JobId, k: Key, b: BrokerId, m: nat, ord: nat, listing: bool)
    requires j in s.jobs && s.jobs[j] == ArmedJob(k, b, m, ord) && !Strict(m)
    requires if listing then |s.store.Entries(k)| <= m else (b, k) in s.cache && s.cache[(b, k)] <= m
    requires t == Step(s, if listing then CountFresh(j) else CountCached(j))
    ensures t.counts == s.counts && t.store == s.store
    ensures t.jobs == s.jobs[j := ArmedJob(k, b, m, ord).(stage := Decided, verdict := if listing then Counted else Cached)]
    ensures (b, k) in t.cache && t.cache[(b, k)] <= m
    ensures forall c | c != (b, k) && c in s.cache :: c in t.cache && t.cache[c] == s.cache[c]
  {
  }

  lemma InUseGrows(s: State, t: State, j: JobId, k: Key, job: Job)
    requires j !in s.jobs && t.jobs == s.jobs[j := job]
    requires job.key == k && job.guard && !job.verdict.Undecided? && !job.verdict.Refused?
    ensures InUse(t, k) == InUse(s, k) + {j} && j !in InUse(s, k)
  {
  }

  ghost predicate Reached(s: State) {
    exists ops: seq<Op> :: s == Run(INIT, ops)
  }

  lemma ReachedMore(s: State, ops: seq<Op>)
    requires Reached(s)
    ensures Reached(Run(s, ops))
  {
    var past: seq<Op> :| s == Run(INIT, past);
    RunJoin(INIT, past, ops);
    assert Run(s, ops) == Run(INIT, past + ops);
  }

  /** In a reachable state a new job id has no reservation. */
  lemma NewJob(s: State, k: Key) returns (j: JobId)
    requires Reached(s)
    ensures j !in s.jobs && j !in s.store.Entries(k)
  {
    var past: seq<Op> :| s == Run(INIT, past);
    InitHolds();
    RunKeeps(INIT, past);
    j := FreshName(s.jobs.Keys);
  }

  lemma AdmitOne(s: State, j: JobId, k: Key, b: BrokerId, m: nat, listing: bool)
    requires j !in s.jobs && j !in s.store.Entries(k) && !Strict(m) && Room(s, k, b, m, listing)
    ensures Admitted(s, Run(s, AdmitOps(j, k, b, m, listing)), j, k, b, m)
  {
    var ops := AdmitOps(j, k, b, m, listing);
    Unfold4(s, ops);
    GateStep(s, j, k, b, m);
    var s2 := Step(Step(s, ops[0]), ops[1]);
    var s3 := Step(s2, ops[2]);
    ReserveStep(s2, s3, j, k, b, m);
    var ord :| s3.jobs == s2.jobs[j := ArmedJob(k, b, m, ord)];
    var t := Step(s3, ops[3]);
    CountStep(s3, t, j, k, b, m, ord, listing);
    AdmittedJob(s, s2, s3, t, j, k, ord, b, m, listing);
  }

  lemma AdmittedJob(s: State, s2: State, s3: State, t: State, j: JobId, k: Key, ord: nat, b: BrokerId, m: nat, listing: bool)
    requires j !in s.jobs && j in s2.jobs && s2.jobs == s.jobs[j := s2.jobs[j]]
    requires s3.jobs == s2.jobs[j := ArmedJob(k, b, m, ord)]
    requires t.jobs == s3.jobs[j := ArmedJob(k, b, m, ord).(stage := Decided, verdict := if listing then Counted else Cached)]
    requires t.counts == Increment(s.counts, (b, k)) && |t.store.Entries(k)| == |s.store.Entries(k)| + 1 && j in t.store.Entries(k)
    requires (b, k) in t.cache && t.cache[(b, k)] <= m
    requires forall c | c != (b, k) && c in s.cache :: c in t.cache && t.cache[c] == s.cache[c]
    ensures Admitted(s, t, j, k, b, m)
  {
    InUseGrows(s, t, j, k, t.jobs[j]);
  }

  ghost predicate Good(ops: seq<Op>, k: Key, m: nat) {
    LazyKey(ops, k, m) && forall op | op in ops :: Healthy(op)
  }

  /** The brokers of a list that remember a count within the ceiling. */
  ghost predicate Remembers(s: State, k: Key, c: BrokerId, m: nat) {
    (c, k) in s.cache && s.cache[(c, k)] <= m
  }

  /** After n admissions at one broker: everybody else as before. */
  ghost predicate Filled(s: State, t: State, k: Key, b: BrokerId, n: nat, m: nat) {
    && |InUse(t, k)| == |InUse(s, k)| + n
    && |t.store.Entries(k)| == |s.store.Entries(k)| + n
    && CountAt(t.counts, (b, k)) == CountAt(s.counts, (b, k)) + n
    && (forall c | c != b :: CountAt(t.counts, (c, k)) == CountAt(s.counts, (c, k)))
    && (forall c | Remembers(s, k, c, m) :: Remembers(t, k, c, m))
  }

  lemma AdmitSome(s: State, k: Key, b: BrokerId, m: nat, listing: bool) returns (ops: seq<Op>, t: State)
    requires Reached(s) && !Strict(m) && Room(s, k, b, m, listing)
    ensures t == Run(s, ops) && Reached(t) && Good(ops, k, m)
    ensures Filled(s, t, k, b, 1, m) && Remembers(t, k, b, m)
  {
    var j := NewJob(s, k);
    ops := AdmitOps(j, k, b, m, listing);
    AdmitOpsGood(j, k, b, m, listing);
    AdmitOne(s, j, k, b, m, listing);
    ReachedMore(s, ops);
    t := Run(s, ops);
    forall c | Remembers(s, k, c, m) ensures Remembers(t, k, c, m) {
      assert (c, k) in s.cache && s.cache[(c, k)] <= m;
    }
  }

  lemma {:induction false} FillBroker(s: State, k: Key, b: BrokerId, n: nat, m: nat) returns (ops: seq<Op>, t: State)
    requires Reached(s) && !Strict(m) && Remembers(s, k, b, m) && CountAt(s.counts, (b, k)) + n <= m
    ensures t == Run(s, ops) && Reached(t) && Good(ops, k, m)
    ensures Filled(s, t, k, b, n, m)
  {
    if n == 0 {
      ops, t := [], s;
    } else {
      var first, mid := FillBroker(s, k, b, n - 1, m);
      var last;
      last, t := AdmitSome(mid, k, b, m, false);
      ops := first + last;
      Chain(s, first, last, k, m);
    }
  }

  /** An admitted job that finishes: its guard goes, then its reservation. */
  lemma LeaveOne(s: State, j: JobId, k: Key, b: BrokerId)
    requires Holds(s, j, k, b)
    ensures var t := Step(Step(s, DropGuard(j)), StoreRelease(j));
      && InUse(t, k) == InUse(s, k) - {j} && j in InUse(s, k)
      && |t.store.Entries(k)| == |s.store.Entries(k)| - 1 && t.cache == s.cache
      && t.counts == SaturatingDecrement(s.counts, (b, k))
  {
    var s1 := Step(s, DropGuard(j));
    assert s1.jobs == s.jobs[j := s.jobs[j].(stage := Draining, guard := false)];
    assert s1.store == s.store && s1.cache == s.cache;
    var t := Step(s1, StoreRelease(j));
    assert t.jobs == s1.jobs[j := s1.jobs[j].(stage := Done)];
    assert t.store.Entries(k) == s.store.Entries(k) - {j};
    OneFewer(s.store.Entries(k), j);
  }

  lemma RunTwo(s: State, a: Op, b: Op)
    ensures Run(s, [a, b]) == Step(Step(s, a), b)
  {
    var ops := [a, b];
    RunOne(s, ops);
    RunOne(Step(s, a), ops[1..]);
    assert ops[1..][1..] == [];
  }

  /** Good runs one after the other. */
  lemma Chain(s: State, first: seq<Op>, last: seq<Op>, k: Key, m: nat)
    requires Good(first, k, m) && Good(last, k, m)
    ensures Good(first + last, k, m) && Run(s, first + last) == Run(Run(s, first), last)
  {
    RunJoin(s, first, last);
  }

  lemma AdmitOpsGood(j: JobId, k: Key, b: BrokerId, m: nat, listing: bool)
    requires !Strict(m)
    ensures Good(AdmitOps(j, k, b, m, listing), k, m) && Good([DropGuard(j), StoreRelease(j)], k, m)
  {
  }

  /** Nothing in use changed, but the broker now remembers a count. */
  ghost predicate Glanced(s: State, t: State, k: Key, b: BrokerId, m: nat) {
    && InUse(t, k) == InUse(s, k) && |t.store.Entries(k)| == |s.store.Entries(k)|
    && (forall c :: CountAt(t.counts, (c, k)) == CountAt(s.counts, (c, k)))
    && Remembers(t, k, b, m) && (forall c | Remembers(s, k, c, m) :: Remembers(t, k, c, m))
  }

  lemma CameAndWent(s: State, mid: State, t: State, j: JobId, k: Key, b: BrokerId, m: nat)
    requires Admitted(s, mid, j, k, b, m)
    requires InUse(t, k) == InUse(mid, k) - {j} && |t.store.Entries(k)| == |mid.store.Entries(k)| - 1
    requires t.cache == mid.cache && t.counts == SaturatingDecrement(mid.counts, (b, k))
    ensures Glanced(s, t, k, b, m)
  {
    forall c | Remembers(s, k, c, m) ensures Remembers(t, k, c, m) {
      assert (c, k) in s.cache && s.cache[(c, k)] <= m;
    }
    forall c ensures CountAt(t.counts, (c, k)) == CountAt(s.counts, (c, k)) {
      assert CountAt(mid.counts, (c, k)) == CountAt(s.counts, (c, k)) + One(c == b);
    }
  }

  /** A broker lets one job through on a listing of its own; when the job is gone, the count stays remembered. */
  lemma Glance(s: State, k: Key, b: BrokerId, m: nat) returns (ops: seq<Op>, t: State)
    requires Reached(s) && !Strict(m) && Room(s, k, b, m, true)
    ensures t == Run(s, ops) && Reached(t) && Good(ops, k, m) && Glanced(s, t, k, b, m)
  {
    var j := NewJob(s, k);
    var first, last := AdmitOps(j, k, b, m, true), [DropGuard(j), StoreRelease(j)];
    AdmitOpsGood(j, k, b, m, true);
    AdmitOne(s, j, k, b, m, true);
    var mid := Run(s, first);
    LeaveOne(mid, j, k, b);
    RunTwo(mid, last[0], last[1]);
    Chain(s, first, last, k, m);
    ops := first + last;
    t := Run(mid, last);
    CameAndWent(s, mid, t, j, k, b, m);
    ReachedMore(s, ops);
  }

  lemma Empty(k: Key, m: nat)
    ensures Reached(INIT) && Good([], k, m) && Run(INIT, []) == INIT
    ensures InUse(INIT, k) == {} && |INIT.store.Entries(k)| == 0
    ensures forall c :: CountAt(INIT.counts, (c, k)) == 0
  {
    assert INIT == Run(INIT, []);
  }

  /** Nothing is in use or reserved. */
  ghost predicate Idle(s: State, k: Key) {
    InUse(s, k) == {} && |s.store.Entries(k)| == 0 && forall c :: CountAt(s.counts, (c, k)) == 0
  }

  lemma StillIdle(s: State, t: State, k: Key, b: BrokerId, m: nat)
    requires Idle(s, k) && Glanced(s, t, k, b, m)
    ensures Idle(t, k)
  {
  }

  /** The first i brokers remember a count, and nothing is in use. */
  lemma {:induction false} SeedTo(k: Key, bs: seq<BrokerId>, i: nat, m: nat) returns (ops: seq<Op>, s: State)
    requires i <= |bs| && !Strict(m)
    ensures s == Run(INIT, ops) && Reached(s) && Good(ops, k, m)
    ensures Idle(s, k) && forall x | 0 <= x < i :: Remembers(s, k, bs[x], m)
  {
    if i == 0 {
      ops, s := [], INIT;
      Empty(k, m);
    } else {
      var first, mid := SeedTo(k, bs, i - 1, m);
      var last;
      last, s := Glance(mid, k, bs[i - 1], m);
      StillIdle(mid, s, k, bs[i - 1], m);
      ops := first + last;
      Chain(INIT, first, last, k, m);
    }
  }

  /** All brokers remember a count; those from the i-th on are still empty. */
  ghost predicate Ready(s: State, k: Key, bs: seq<BrokerId>, i: nat, m: nat) {
    && (forall x | i <= x < |bs| :: CountAt(s.counts, (bs[x], k)) == 0)
    && (forall x | 0 <= x < |bs| :: Remembers(s, k, bs[x], m))
  }

  lemma ReadyNext(s: State, t: State, k: Key, bs: seq<BrokerId>, i: nat, m: nat)
    requires i < |bs| && Ready(s, k, bs, i, m) && Filled(s, t, k, bs[i], m, m)
    requires forall x, y | 0 <= x < y < |bs| :: bs[x] != bs[y]
    ensures Ready(t, k, bs, i + 1, m)
  {
  }

  /** The first i brokers filled to the ceiling, the others empty. */
  lemma {:induction false} FillTo(k: Key, bs: seq<BrokerId>, i: nat, m: nat) returns (ops: seq<Op>, s: State)
    requires i <= |bs| && !Strict(m) && forall x, y | 0 <= x < y < |bs| :: bs[x] != bs[y]
    ensures s == Run(INIT, ops) && Reached(s) && Good(ops, k, m)
    ensures |InUse(s, k)| == i * m && Ready(s, k, bs, i, m)
  {
    if i == 0 {
      ops, s := SeedTo(k, bs, |bs|, m);
    } else {
      var first, mid := FillTo(k, bs, i - 1, m);
      var last;
      last, s := FillBroker(mid, k, bs[i - 1], m, m);
      ReadyNext(mid, s, k, bs, i - 1, m);
      ops := first + last;
      Chain(INIT, first, last, k, m);
      OneMoreTimes(i, m);
    }
  }

  lemma OneMoreTimes(i: nat, m: nat)
    requires i > 0
    ensures i * m == (i - 1) * m + m
  {
  }

  /** With remembered counts, any number of brokers can together reach brokers times `max`, and no failure is needed. */
  lemma LazyBoundIsTight(k: Key, bs: seq<BrokerId>, m: nat) returns (ops: seq<Op>)
    requires !Strict(m) && forall x, y | 0 <= x < y < |bs| :: bs[x] != bs[y]
    ensures LazyKey(ops, k, m) && forall op | op in ops :: Healthy(op)
    ensures |InUse(Run(INIT, ops), k)| == |bs| * m
  {
    var s;
    ops, s := FillTo(k, bs, |bs|, m);
  }
}
