/** What the admission protocol guarantees over every interleaving. */
module AdmissionBounds {
  import opened UserSlots
  import opened Counting
  import opened Admission

  ghost function Ords(s: State): map<JobId, nat> {
    map j | j in s.jobs :: s.jobs[j].ord
  }

  // ------------------------------------------------------------ strict: safety

  /** The strictly admitted jobs of one key that the store still holds. */
  ghost function RankedIn(s: State, k: Key): set<JobId> {
    set j | j in s.jobs && s.jobs[j].verdict.Ranked? && s.jobs[j].key == k && j in s.store.Entries(k)
  }

  /**
   * In every interleaving of reserve, list, release, reclaim and failing steps, the
   * strictly admitted jobs never outnumber the ceiling of the latest one among them.
   */
  lemma StrictSafety(ops: seq<Op>, k: Key, top: JobId)
    requires var s := Run(INIT, ops);
             top in RankedIn(s, k) && forall j | j in RankedIn(s, k) :: s.jobs[j].ord <= s.jobs[top].ord
    ensures |RankedIn(Run(INIT, ops), k)| <= Run(INIT, ops).jobs[top].max
  {
    var s := Run(INIT, ops);
    InitHolds();
    RunKeeps(INIT, ops);
    var others := RankedIn(s, k) - {top};
    SubsetSize(others, Ahead(s.store.Entries(k), s.jobs[top].ord, top));
    assert |RankedIn(s, k)| == |others| + 1;
  }

  /** So with ceilings of at most m, never more than m. */
  lemma StrictSafetyUniform(ops: seq<Op>, k: Key, m: nat)
    requires forall j | j in Run(INIT, ops).jobs && Run(INIT, ops).jobs[j].key == k ::
               Run(INIT, ops).jobs[j].max <= m
    ensures |RankedIn(Run(INIT, ops), k)| <= m
  {
    var s := Run(INIT, ops);
    if RankedIn(s, k) != {} {
      var top := HasTop(RankedIn(s, k), Ords(s));
      StrictSafety(ops, k, top);
    }
  }

  lemma InitHolds()
    ensures Inv(INIT)
  {
    forall p ensures CountAt(INIT.counts, p) == |Guards(INIT, p)| {
      assert Guards(INIT, p) == {};
    }
  }

  // --------------------------------------------------------- strict: exactness

  /** All reservations ever made for one key. */
  ghost function Rivals(s: State, k: Key): set<JobId> {
    set j | j in s.jobs && s.jobs[j].key == k && s.jobs[j].reserved
  }

  /** How many reservations of the key were made before j's. */
  ghost function Earlier(s: State, k: Key, j: JobId): set<JobId>
    requires j in s.jobs
  {
    Below(Rivals(s, k), Ords(s), s.jobs[j].ord)
  }

  /** A job that has reserved and may still be or come in: its reservation must not be lost. */
  ghost predicate NeedsEntry(job: Job) {
    job.reserved && !job.verdict.Refused? && !job.stage.Draining? && !job.stage.Done?
  }

  /** A reclaim spares the brokers of all jobs of the key that need their reservation. */
  ghost predicate Spares(s: State, k: Key, live: set<BrokerId>) {
    forall j | j in s.jobs && s.jobs[j].key == k && NeedsEntry(s.jobs[j]) :: s.jobs[j].broker in live
  }

  /** For this key the store does not fail, reclaims spare it, and no admitted or undecided job lets go. */
  ghost predicate Orderly(s: State, op: Op, k: Key, m: nat) {
    match op
    case Begin(_, key, _, max) => key == k ==> max == m
    case Reclaim(live) => Spares(s, k, live)
    case ReserveFails(j, _) => j in s.jobs ==> s.jobs[j].key != k
    case ListFails(j) => j in s.jobs ==> s.jobs[j].key != k
    case DropGuard(j) => j in s.jobs && s.jobs[j].key == k ==> s.jobs[j].verdict.Refused?
    case _ => true
  }

  ghost predicate OrderlyRun(s: State, ops: seq<Op>, k: Key, m: nat)
    decreases ops
  {
    ops == [] || (Orderly(s, ops[0], k, m) && OrderlyRun(Step(s, ops[0]), ops[1..], k, m))
  }

  ghost predicate JobExact(s: State, k: Key, m: nat, j: JobId)
    requires j in s.jobs
  {
    var job := s.jobs[j];
    && job.max == m
    && (job.stage in {Draining, Done} ==> job.verdict.Refused?)
    && job.verdict in {Undecided, Ranked, Refused}
    && (job.reserved && !job.verdict.Refused? ==> j in s.store.Entries(k))
    && (!job.verdict.Undecided? ==> job.reserved && (job.verdict.Ranked? <==> |Earlier(s, k, j)| < m))
  }

  ghost predicate Exact(s: State, k: Key, m: nat) {
    forall j | j in s.jobs && s.jobs[j].key == k :: JobExact(s, k, m, j)
  }

  /** The decision itself: j is ranked in exactly when fewer than m reservations preceded it. */
  lemma RankDecides(s: State, k: Key, m: nat, j: JobId)
    requires Inv(s) && Exact(s, k, m)
    requires j in s.jobs && s.jobs[j].key == k && s.jobs[j].reserved && s.jobs[j].verdict.Undecided?
    ensures RankIn(s.store.Entries(k), s.jobs[j].ord, j) < m <==> |Earlier(s, k, j)| < m
  {
    var es, rivals := s.store.Entries(k), Rivals(s, k);
    var ahead, earlier := Ahead(es, s.jobs[j].ord, j), Earlier(s, k, j);
    StrLessIrreflexive(j);
    forall i | i in ahead ensures i in earlier { assert i in s.jobs && s.jobs[i].ord == es[i].ord; }
    SubsetSize(ahead, earlier);
    if |earlier| >= m {
      var first := First(rivals, Ords(s), m);
      assert Injective(rivals, Ords(s));
      FirstCount(rivals, Ords(s), m);
      SubsetSize(earlier, rivals);
      forall i | i in first ensures i in ahead {
        assert |Earlier(s, k, i)| < m;
        if s.jobs[i].ord >= s.jobs[j].ord {
          SubsetSize(earlier, Earlier(s, k, i));
        }
        assert JobExact(s, k, m, i);
      }
      SubsetSize(first, ahead);
    }
  }

  lemma SameRivals(s: State, t: State, k: Key, m: nat)
    requires Exact(s, k, m)
    requires forall j | j in s.store.Entries(k) && j in s.jobs && NeedsEntry(s.jobs[j]) :: j in t.store.Entries(k)
    requires forall j | j in s.jobs && s.jobs[j].key == k :: j in t.jobs && t.jobs[j] == s.jobs[j]
    requires forall j | j in t.jobs && t.jobs[j].key == k :: j in s.jobs && s.jobs[j] == t.jobs[j]
    ensures Exact(t, k, m)
  {
    assert Rivals(t, k) == Rivals(s, k);
    forall j | j in t.jobs && t.jobs[j].key == k ensures JobExact(t, k, m, j) {
      assert JobExact(s, k, m, j);
      assert Earlier(t, k, j) == Earlier(s, k, j);
    }
  }

  lemma {:induction false} StrLessIrreflexive(a: string)
    ensures !StrLess(a, a)
  {
    if a != "" { StrLessIrreflexive(a[1..]); }
  }

  /** Only j's record changes; its reservation may go if it was refused. */
  ghost predicate OnlyJob(s: State, t: State, k: Key, j: JobId) {
    && j in s.jobs && j in t.jobs && t.jobs == s.jobs[j := t.jobs[j]]
    && s.jobs[j].key == k && t.jobs[j].key == k && t.jobs[j].max == s.jobs[j].max
    && forall i | i in s.store.Entries(k) :: i in t.store.Entries(k) || (i == j && t.jobs[j].verdict.Refused?)
  }

  /** A step of a job of the key that makes no new reservation. */
  lemma SettleExact(s: State, t: State, k: Key, m: nat, j: JobId)
    requires Exact(s, k, m) && OnlyJob(s, t, k, j)
    requires t.jobs[j].reserved == s.jobs[j].reserved && t.jobs[j].ord == s.jobs[j].ord
    requires t.jobs[j].verdict == s.jobs[j].verdict
             || (s.jobs[j].reserved && t.jobs[j].verdict == if |Earlier(s, k, j)| < m then Ranked else Refused)
    requires t.jobs[j].stage in {Draining, Done} ==> t.jobs[j].verdict.Refused?
    requires s.jobs[j].verdict.Refused? ==> t.jobs[j].verdict.Refused?
    ensures Exact(t, k, m)
  {
    assert Rivals(t, k) == Rivals(s, k);
    forall i | i in t.jobs && t.jobs[i].key == k ensures JobExact(t, k, m, i) {
      assert JobExact(s, k, m, i);
      assert Earlier(t, k, i) == Earlier(s, k, i);
    }
  }

  lemma ReserveExact(s: State, t: State, k: Key, m: nat, j: JobId)
    requires Exact(s, k, m) && OnlyJob(s, t, k, j) && j in t.store.Entries(k)
    requires !s.jobs[j].reserved && t.jobs[j].reserved && t.jobs[j].verdict.Undecided?
    requires !t.jobs[j].stage.Draining? && !t.jobs[j].stage.Done?
    requires forall i | i in s.jobs && s.jobs[i].reserved :: s.jobs[i].ord < t.jobs[j].ord
    ensures Exact(t, k, m)
  {
    assert JobExact(s, k, m, j);
    assert Rivals(t, k) == Rivals(s, k) + {j};
    forall i | i in t.jobs && t.jobs[i].key == k ensures JobExact(t, k, m, i) {
      if i != j {
        assert JobExact(s, k, m, i);
        if s.jobs[i].reserved {
          assert Earlier(t, k, i) == Earlier(s, k, i);
        }
      }
    }
  }

  lemma BeginExact(s: State, t: State, k: Key, m: nat, j: JobId)
    requires Exact(s, k, m) && j !in s.jobs && j in t.jobs && t == s.(jobs := s.jobs[j := t.jobs[j]])
    requires t.jobs[j].stage.Begun? && StageMatches(t.jobs[j]) && t.jobs[j].max == m
    ensures Exact(t, k, m)
  {
    assert Rivals(t, k) == Rivals(s, k);
    forall i | i in t.jobs && t.jobs[i].key == k ensures JobExact(t, k, m, i) {
      if i != j {
        assert JobExact(s, k, m, i);
        assert Earlier(t, k, i) == Earlier(s, k, i);
      }
    }
  }

  lemma OwnStepExact(s: State, op: Op, k: Key, m: nat)
    requires 0 < m && Strict(m) && Inv(s) && Exact(s, k, m) && Orderly(s, op, k, m)
    requires OfOneJob(op) && op.j in s.jobs && s.jobs[op.j].key == k
    ensures Exact(Step(s, op), k, m)
  {
    var t, j := Step(s, op), op.j;
    JobStepMoves(s, op);
    assert JobExact(s, k, m, j);
    if t == s {
    } else if op.Reserve? {
      ReserveExact(s, t, k, m, j);
    } else if op.Rank? {
      RankDecides(s, k, m, j);
      SettleExact(s, t, k, m, j);
    } else {
      assert op.Arm? || op.DropGuard? || op.StoreRelease?;
      SettleExact(s, t, k, m, j);
    }
  }

  lemma OtherKeyExact(s: State, t: State, k: Key, m: nat, j: JobId)
    requires Exact(s, k, m) && Moves(s, t, j) && s.jobs[j].key != k
    ensures Exact(t, k, m)
  {
    SameRivals(s, t, k, m);
  }

  lemma SharedStepExact(s: State, op: Op, k: Key, m: nat)
    requires Inv(s) && Exact(s, k, m) && Orderly(s, op, k, m) && !OfOneJob(op) && !(op.Begin? && op.key == k)
    ensures Exact(Step(s, op), k, m)
  {
    if op.Reclaim? {
      SparedStay(s, k, op.live);
    }
    SameRivals(s, Step(s, op), k, m);
  }

  /** What a reclaim keeps of one key. */
  lemma SparedStay(s: State, k: Key, live: set<BrokerId>)
    requires Owned(s)
    ensures forall j | j in s.store.Entries(k) ::
              j in s.store.Reclaim(live).Entries(k) <==> s.jobs[j].broker in live
  {
    ReclaimEntries(s.store, live);
  }

  lemma StepExact(s: State, op: Op, k: Key, m: nat)
    requires 0 < m && Strict(m) && Inv(s) && Exact(s, k, m) && Orderly(s, op, k, m)
    ensures Exact(Step(s, op), k, m)
  {
    if op.Begin? && op.key == k {
      if Step(s, op) != s { BeginExact(s, Step(s, op), k, m, op.j); }
    } else if !OfOneJob(op) {
      SharedStepExact(s, op, k, m);
    } else if op.j in s.jobs {
      if s.jobs[op.j].key == k {
        OwnStepExact(s, op, k, m);
      } else {
        JobStepMoves(s, op);
        OtherKeyExact(s, Step(s, op), k, m, op.j);
      }
    }
  }

  lemma {:induction false} RunExact(s: State, ops: seq<Op>, k: Key, m: nat)
    requires 0 < m && Strict(m) && Inv(s) && Exact(s, k, m) && OrderlyRun(s, ops, k, m)
    ensures Inv(Run(s, ops)) && Exact(Run(s, ops), k, m)
    decreases ops
  {
    if ops != [] {
      StepKeeps(s, ops[0]);
      StepExact(s, ops[0], k, m);
      RunExact(Step(s, ops[0]), ops[1..], k, m);
    }
  }

  /**
   * While no admitted job of the key lets go, whatever the order of the list steps, a
   * decided job is in exactly when fewer than m reservations were made before its own;
   * once all are decided, exactly the first min(n, m) of n reservations are in.
   */
  lemma StrictExactness(ops: seq<Op>, k: Key, m: nat)
    requires 0 < m && Strict(m) && OrderlyRun(INIT, ops, k, m)
    ensures var s := Run(INIT, ops);
            && (forall j | j in Rivals(s, k) && !s.jobs[j].verdict.Undecided? ::
                  s.jobs[j].verdict.Ranked? <==> |Earlier(s, k, j)| < m)
            && ((forall j | j in Rivals(s, k) :: !s.jobs[j].verdict.Undecided?) ==>
                  var admitted := set j | j in Rivals(s, k) && s.jobs[j].verdict.Ranked?;
                  && admitted == First(Rivals(s, k), Ords(s), m)
                  && |admitted| == if |Rivals(s, k)| < m then |Rivals(s, k)| else m)
  {
    var s := Run(INIT, ops);
    InitHolds();
    RunExact(INIT, ops, k, m);
    forall j | j in Rivals(s, k) ensures JobExact(s, k, m, j) { }
    assert Injective(Rivals(s, k), Ords(s));
    FirstCount(Rivals(s, k), Ords(s), m);
    if forall j | j in Rivals(s, k) :: !s.jobs[j].verdict.Undecided? {
      var admitted := set j | j in Rivals(s, k) && s.jobs[j].verdict.Ranked?;
      assert admitted == First(Rivals(s, k), Ords(s), m);
    }
  }

  // ------------------------------------------------------------------- lazy

  /** Every attempt on the key has a lazy ceiling of at most m. */
  ghost predicate LazyKey(ops: seq<Op>, k: Key, m: nat) {
    forall op | op in ops && op.Begin? && op.key == k :: !Strict(op.max) && op.max <= m
  }

  ghost predicate LazyJobs(s: State, k: Key, m: nat) {
    forall j | j in s.jobs && s.jobs[j].key == k :: !Strict(s.jobs[j].max) && s.jobs[j].max <= m
  }

  ghost predicate LocalWithin(s: State, k: Key, m: nat) {
    forall b :: CountAt(s.counts, (b, k)) <= m
  }

  /** Lazy jobs take their guard at the gate, so they never wait for it after a reservation. */
  ghost predicate GatedFirst(s: State) {
    forall j | j in s.jobs && !Strict(s.jobs[j].max) :: !s.jobs[j].stage.Reserved?
  }

  lemma GatedFirstJob(s: State, op: Op)
    requires OfOneJob(op) && op.j in s.jobs
    ensures op.j in Step(s, op).jobs && Step(s, op).jobs == s.jobs[op.j := Step(s, op).jobs[op.j]]
    ensures var was, now := s.jobs[op.j], Step(s, op).jobs[op.j];
      now.max == was.max && (now.stage.Reserved? ==> was.stage.Reserved? || Strict(was.max))
  {
  }

  lemma GatedFirstStep(s: State, op: Op)
    requires GatedFirst(s)
    ensures GatedFirst(Step(s, op))
  {
    if OfOneJob(op) && op.j in s.jobs {
      GatedFirstJob(s, op);
    }
  }

  /** The local count grows only at the gate, below the ceiling, or for a job that already counted. */
  lemma LocalMove(s: State, op: Op, k: Key, m: nat)
    requires StagesMatch(s) && LazyJobs(s, k, m) && LocalWithin(s, k, m) && GatedFirst(s)
    requires OfOneJob(op) && op.j in s.jobs
    ensures LocalWithin(Step(s, op), k, m)
  {
    JobStepMoves(s, op);
    var was, now := s.jobs[op.j], Step(s, op).jobs[op.j];
    if now.guard && !was.guard && was.key == k {
      assert op.Gate? && CountAt(s.counts, (was.broker, k)) < m;
    }
  }

  lemma LocalStep(s: State, op: Op, k: Key, m: nat)
    requires StagesMatch(s) && LazyJobs(s, k, m) && LocalWithin(s, k, m) && GatedFirst(s)
    ensures LocalWithin(Step(s, op), k, m)
  {
    if OfOneJob(op) && op.j in s.jobs {
      LocalMove(s, op, k, m);
    }
  }

  lemma {:induction false} RunLocal(s: State, ops: seq<Op>, k: Key, m: nat)
    requires Inv(s) && LazyJobs(s, k, m) && LocalWithin(s, k, m) && LazyKey(ops, k, m)
    requires GatedFirst(s)
    ensures LocalWithin(Run(s, ops), k, m)
    decreases ops
  {
    if ops != [] {
      StepKeeps(s, ops[0]);
      LocalStep(s, ops[0], k, m);
      GatedFirstStep(s, ops[0]);
      LazyJobsStep(s, ops[0], k, m);
      RunLocal(Step(s, ops[0]), ops[1..], k, m);
    }
  }

  /** The live guards of one key at a set of brokers. */
  ghost function GuardsAt(s: State, k: Key, brokers: set<BrokerId>): set<JobId> {
    set j | j in s.jobs && s.jobs[j].guard && s.jobs[j].key == k && s.jobs[j].broker in brokers
  }

  lemma {:induction false} SumOverBrokers(s: State, k: Key, brokers: set<BrokerId>, m: nat)
    requires forall b | b in brokers :: |Guards(s, (b, k))| <= m
    ensures |GuardsAt(s, k, brokers)| <= |brokers| * m
  {
    if brokers == {} {
      assert GuardsAt(s, k, brokers) == {};
    } else {
      var b :| b in brokers;
      var rest := brokers - {b};
      SumOverBrokers(s, k, rest, m);
      assert GuardsAt(s, k, brokers) == GuardsAt(s, k, rest) + Guards(s, (b, k));
      UnionSize(GuardsAt(s, k, rest), Guards(s, (b, k)));
      assert |brokers| == |rest| + 1;
      assert (|rest| + 1) * m == |rest| * m + m;
    }
  }

  /** Lazy admission: at most m live guards per broker, so at most brokers * m overall. */
  lemma LazyBound(ops: seq<Op>, k: Key, m: nat, brokers: set<BrokerId>)
    requires LazyKey(ops, k, m)
    ensures forall b :: |Guards(Run(INIT, ops), (b, k))| <= m
    ensures |GuardsAt(Run(INIT, ops), k, brokers)| <= |brokers| * m
  {
    var s := Run(INIT, ops);
    InitHolds();
    RunLocal(INIT, ops, k, m);
    RunKeeps(INIT, ops);
    forall b ensures |Guards(s, (b, k))| <= m {
      assert CountAt(s.counts, (b, k)) == |Guards(s, (b, k))|;
    }
    SumOverBrokers(s, k, brokers, m);
  }

  /** The jobs of one key let in by a fresh listing that the store still holds. */
  ghost function CountedIn(s: State, k: Key): set<JobId> {
    set j | j in s.jobs && s.jobs[j].verdict.Counted? && s.jobs[j].key == k && j in s.store.Entries(k)
  }

  lemma CountedStep(s: State, op: Op, k: Key, m: nat)
    requires Inv(s) && LazyJobs(s, k, m) && |CountedIn(s, k)| <= m
    ensures |CountedIn(Step(s, op), k)| <= m
  {
    if OfOneJob(op) && op.j in s.jobs {
      JobStepMoves(s, op);
      CountedMove(s, Step(s, op), op.j, k, m);
    } else {
      if op.Reclaim? { ReclaimEntries(s.store, op.live); }
      CountedOnlyShrinks(s, Step(s, op), k);
    }
  }

  /** A job is newly counted only by a fresh listing that found room for it. */
  lemma CountedMove(s: State, t: State, j: JobId, k: Key, m: nat)
    requires Moves(s, t, j) && LazyJobs(s, k, m) && |CountedIn(s, k)| <= m
    ensures |CountedIn(t, k)| <= m
  {
    if t.jobs[j].verdict.Counted? && !s.jobs[j].verdict.Counted? && s.jobs[j].key == k {
      SubsetSize(CountedIn(t, k), s.store.Entries(k).Keys);
    } else {
      CountedOnlyShrinks(s, t, k);
    }
  }

  lemma LazyJobsStep(s: State, op: Op, k: Key, m: nat)
    requires StagesMatch(s) && LazyJobs(s, k, m)
    requires op.Begin? && op.key == k ==> !Strict(op.max) && op.max <= m
    ensures LazyJobs(Step(s, op), k, m)
  {
    if OfOneJob(op) && op.j in s.jobs { JobStepMoves(s, op); }
  }

  lemma CountedOnlyShrinks(s: State, t: State, k: Key)
    requires forall j | j in CountedIn(t, k) :: j in CountedIn(s, k)
    ensures |CountedIn(t, k)| <= |CountedIn(s, k)|
  {
    SubsetSize(CountedIn(t, k), CountedIn(s, k));
  }

  lemma {:induction false} RunCounted(s: State, ops: seq<Op>, k: Key, m: nat)
    requires Inv(s) && LazyJobs(s, k, m) && LazyKey(ops, k, m) && |CountedIn(s, k)| <= m
    ensures |CountedIn(Run(s, ops), k)| <= m
    decreases ops
  {
    if ops != [] {
      StepKeeps(s, ops[0]);
      CountedStep(s, ops[0], k, m);
      LazyJobsStep(s, ops[0], k, m);
      RunCounted(Step(s, ops[0]), ops[1..], k, m);
    }
  }

  /** Every job of the key that needs its reservation has it. */
  ghost predicate Holding(s: State, k: Key) {
    forall j | j in s.jobs && s.jobs[j].key == k && NeedsEntry(s.jobs[j]) :: j in s.store.Entries(k)
  }

  /** For this key the store does not fail, every decision lists afresh, and reclaims spare it. */
  ghost predicate FreshStep(s: State, op: Op, k: Key) {
    match op
    case Reclaim(live) => Spares(s, k, live)
    case ReserveFails(j, _) => j in s.jobs ==> s.jobs[j].key != k
    case ListFails(j) => j in s.jobs ==> s.jobs[j].key != k
    case CountCached(j) => j in s.jobs ==> s.jobs[j].key != k
    case _ => true
  }

  ghost predicate FreshRun(s: State, ops: seq<Op>, k: Key)
    decreases ops
  {
    ops == [] || (FreshStep(s, ops[0], k) && FreshRun(Step(s, ops[0]), ops[1..], k))
  }

  ghost predicate FreshVerdicts(s: State, k: Key) {
    forall j | j in s.jobs && s.jobs[j].key == k :: !s.jobs[j].verdict.Cached? && !s.jobs[j].verdict.FailedOpen?
  }

  /** A reclaim keeps every needed reservation of the key exactly when it spares their brokers. */
  lemma ReclaimKeepsNeeded(s: State, k: Key, live: set<BrokerId>)
    requires Owned(s) && Holding(s, k)
    ensures Holding(Step(s, Reclaim(live)), k) <==> Spares(s, k, live)
  {
    SparedStay(s, k, live);
  }

  lemma HoldingMoves(s: State, t: State, j: JobId, k: Key)
    requires Owned(s) && Holding(s, k) && Moves(s, t, j)
    requires s.jobs[j].verdict.Refused? ==> t.jobs[j].verdict.Refused?
    requires s.jobs[j].stage in {Draining, Done} ==> t.jobs[j].stage in {Draining, Done}
    ensures Holding(t, k)
  {
    forall i | i in t.jobs && t.jobs[i].key == k && NeedsEntry(t.jobs[i]) ensures i in t.store.Entries(k) {
      assert i != j ==> i in s.store.Entries(k);
    }
  }

  /** Refusals and goodbyes are final. */
  lemma FinalJob(s: State, op: Op)
    requires OfOneJob(op) && op.j in s.jobs && StageMatches(s.jobs[op.j])
    ensures op.j in Step(s, op).jobs
    ensures var was, now := s.jobs[op.j], Step(s, op).jobs[op.j];
      && (was.verdict.Refused? ==> now.verdict.Refused?)
      && (was.stage in {Draining, Done} ==> now.stage in {Draining, Done})
  {
  }

  lemma HoldingStep(s: State, op: Op, k: Key)
    requires Inv(s) && Holding(s, k) && FreshStep(s, op, k)
    ensures Holding(Step(s, op), k)
  {
    if op.Reclaim? {
      ReclaimKeepsNeeded(s, k, op.live);
    } else if OfOneJob(op) && op.j in s.jobs {
      JobStepMoves(s, op);
      FinalJob(s, op);
      HoldingMoves(s, Step(s, op), op.j, k);
    }
  }

  /** What a step of one job leaves of its key and verdict, when nothing of the key fails or is remembered. */
  ghost predicate FreshMove(s: State, op: Op, k: Key)
    requires OfOneJob(op) && op.j in s.jobs
  {
    var t := Step(s, op);
    && op.j in t.jobs && t.jobs == s.jobs[op.j := t.jobs[op.j]] && t.jobs[op.j].key == s.jobs[op.j].key
    && (t.jobs[op.j].key == k ==> !t.jobs[op.j].verdict.Cached? && !t.jobs[op.j].verdict.FailedOpen?)
  }

  lemma FreshDecision(s: State, op: Op, k: Key)
    requires (op.Rank? || op.CountFresh? || op.CountCached? || op.ListFails?) && op.j in s.jobs && FreshStep(s, op, k)
    requires s.jobs[op.j].key == k ==> !s.jobs[op.j].verdict.Cached? && !s.jobs[op.j].verdict.FailedOpen?
    ensures FreshMove(s, op, k)
  {
  }

  lemma FreshVerdictJob(s: State, op: Op, k: Key)
    requires OfOneJob(op) && op.j in s.jobs && FreshStep(s, op, k)
    requires s.jobs[op.j].key == k ==> !s.jobs[op.j].verdict.Cached? && !s.jobs[op.j].verdict.FailedOpen?
    ensures FreshMove(s, op, k)
  {
    if op.Rank? || op.CountFresh? || op.CountCached? || op.ListFails? {
      FreshDecision(s, op, k);
    }
  }

  lemma FreshVerdictStep(s: State, op: Op, k: Key)
    requires FreshVerdicts(s, k) && FreshStep(s, op, k)
    ensures FreshVerdicts(Step(s, op), k)
  {
    if OfOneJob(op) && op.j in s.jobs {
      FreshVerdictJob(s, op, k);
    }
  }

  lemma {:induction false} RunFresh(s: State, ops: seq<Op>, k: Key)
    requires Inv(s) && Holding(s, k) && FreshVerdicts(s, k) && FreshRun(s, ops, k)
    ensures Holding(Run(s, ops), k) && FreshVerdicts(Run(s, ops), k)
    decreases ops
  {
    if ops != [] {
      StepKeeps(s, ops[0]);
      HoldingStep(s, ops[0], k);
      FreshVerdictStep(s, ops[0], k);
      RunFresh(Step(s, ops[0]), ops[1..], k);
    }
  }

  /** The admitted jobs of one key that have not let go, at any broker. */
  ghost function InUse(s: State, k: Key): set<JobId> {
    set j | j in s.jobs && s.jobs[j].key == k && s.jobs[j].guard
            && !s.jobs[j].verdict.Undecided? && !s.jobs[j].verdict.Refused?
  }

  /** While reclaims spare the key, fresh lazy decisions never let overall use exceed m, over all brokers together. */
  lemma FreshLazyUse(ops: seq<Op>, k: Key, m: nat)
    requires LazyKey(ops, k, m) && FreshRun(INIT, ops, k)
    ensures |InUse(Run(INIT, ops), k)| <= m
  {
    var s := Run(INIT, ops);
    InitHolds();
    RunKeeps(INIT, ops);
    RunFresh(INIT, ops, k);
    assert CountedIn(INIT, k) == {};
    RunCounted(INIT, ops, k, m);
    RunLazyJobs(INIT, ops, k, m);
    SubsetSize(InUse(s, k), CountedIn(s, k));
  }

  /** The same for strict ceilings. */
  lemma FreshStrictUse(ops: seq<Op>, k: Key, m: nat)
    requires FreshRun(INIT, ops, k)
    requires forall j | j in Run(INIT, ops).jobs && Run(INIT, ops).jobs[j].key == k ::
               Run(INIT, ops).jobs[j].max <= m && Strict(Run(INIT, ops).jobs[j].max)
    ensures |InUse(Run(INIT, ops), k)| <= m
  {
    var s := Run(INIT, ops);
    InitHolds();
    RunKeeps(INIT, ops);
    RunFresh(INIT, ops, k);
    StrictSafetyUniform(ops, k, m);
    SubsetSize(InUse(s, k), RankedIn(s, k));
  }

  lemma {:induction false} RunLazyJobs(s: State, ops: seq<Op>, k: Key, m: nat)
    requires Inv(s) && LazyJobs(s, k, m) && LazyKey(ops, k, m)
    ensures LazyJobs(Run(s, ops), k, m)
    decreases ops
  {
    if ops != [] {
      StepKeeps(s, ops[0]);
      LazyJobsStep(s, ops[0], k, m);
      RunLazyJobs(Step(s, ops[0]), ops[1..], k, m);
    }
  }
}
