/** Every admission decision of a run, traced to the step that took it and what that step saw. */
module AdmissionCauses {
  import opened UserSlots
  import opened Admission
  import opened AdmissionBounds

  lemma {:induction false} RunSnoc(s: State, ops: seq<Op>, op: Op)
    ensures Run(s, ops + [op]) == Step(Run(s, ops), op)
    decreases ops
  {
    if ops == [] {
      assert ops + [op] == [op] && [op][1..] == [];
    } else {
      assert (ops + [op])[0] == ops[0] && (ops + [op])[1..] == ops[1..] + [op];
      RunSnoc(Step(s, ops[0]), ops[1..], op);
    }
  }

  ghost function PlaceOf(job: Job): Place { (job.broker, job.key) }

  /** The reservations made before this job's, as long as its own is still there. */
  ghost function AheadOf(s: State, j: JobId): set<JobId>
    requires j in s.jobs
  {
    var es := s.store.Entries(s.jobs[j].key);
    if j in es && es[j].ord == s.jobs[j].ord
    then set i | i in es && (es[i].ord < es[j].ord || (es[i].ord == es[j].ord && StrLess(i, j)))
    else {}
  }

  /** What entitles a step to decide a job so. */
  ghost predicate Entitles(s: State, op: Op, j: JobId, verdict: Verdict) {
    && OfOneJob(op) && op.j == j && j in s.jobs
    && var job := s.jobs[j];
    var listed, p := |s.store.Entries(job.key)|, PlaceOf(job);
    match verdict
    case Undecided => false
    case Ranked => op.Rank? && job.max <= 3 && |AheadOf(s, j)| < job.max
    case Counted => op.CountFresh? && job.max > 3 && listed <= job.max
    case Cached => op.CountCached? && job.max > 3 && p in s.cache && s.cache[p] <= job.max
    case FailedOpen => op.ReserveFails? || op.ListFails?
    case Refused =>
      || (op.Gate? && job.max > 3 && |Guards(s, p)| >= job.max)
      || (op.Rank? && job.max <= 3 && |AheadOf(s, j)| >= job.max)
      || (op.CountFresh? && job.max > 3 && listed > job.max)
      || (op.CountCached? && job.max > 3 && p in s.cache && s.cache[p] > job.max)
  }

  lemma GateVerdict(s: State, op: Op)
    requires op.Gate? && op.j in s.jobs && CountsMatch(s)
    ensures op.j in Step(s, op).jobs
    ensures var verdict := Step(s, op).jobs[op.j].verdict;
      verdict == s.jobs[op.j].verdict || Entitles(s, op, op.j, verdict)
  {
    var p := PlaceOf(s.jobs[op.j]);
    assert CountAt(s.counts, p) == |Guards(s, p)|;
  }

  lemma RankVerdict(s: State, op: Op)
    requires op.Rank? && op.j in s.jobs && s.jobs[op.j].max > 0
    ensures op.j in Step(s, op).jobs
    ensures var verdict := Step(s, op).jobs[op.j].verdict;
      verdict == s.jobs[op.j].verdict || Entitles(s, op, op.j, verdict)
  {
    var es, ord := s.store.Entries(s.jobs[op.j].key), s.jobs[op.j].ord;
    if op.j in es && es[op.j].ord == ord {
      assert AheadOf(s, op.j) == Ahead(es, ord, op.j);
    } else {
      assert AheadOf(s, op.j) == {};
    }
  }

  lemma CountVerdict(s: State, op: Op)
    requires (op.CountFresh? || op.CountCached?) && op.j in s.jobs
    ensures op.j in Step(s, op).jobs
    ensures var verdict := Step(s, op).jobs[op.j].verdict;
      verdict == s.jobs[op.j].verdict || Entitles(s, op, op.j, verdict)
  {
  }

  lemma OtherVerdict(s: State, op: Op)
    requires OfOneJob(op) && !op.Gate? && !op.Rank? && !op.CountFresh? && !op.CountCached? && op.j in s.jobs
    ensures op.j in Step(s, op).jobs
    ensures var verdict := Step(s, op).jobs[op.j].verdict;
      verdict == s.jobs[op.j].verdict || ((op.ReserveFails? || op.ListFails?) && verdict == FailedOpen)
  {
  }

  lemma NewVerdict(s: State, op: Op, j: JobId)
    requires OfOneJob(op) && op.j == j && j in s.jobs && CountsMatch(s) && s.jobs[j].max > 0
    ensures j in Step(s, op).jobs
    ensures var verdict := Step(s, op).jobs[j].verdict;
      verdict == s.jobs[j].verdict || Entitles(s, op, j, verdict)
  {
    if op.Gate? {
      GateVerdict(s, op);
    } else if op.Rank? {
      RankVerdict(s, op);
    } else if op.CountFresh? || op.CountCached? {
      CountVerdict(s, op);
    } else {
      OtherVerdict(s, op);
    }
  }

  /** The other way round: a step at a job's turn decides it, one way or the other. */
  lemma GateDecides(s: State, j: JobId)
    requires CountsMatch(s) && j in s.jobs && StageMatches(s.jobs[j]) && s.jobs[j].stage.Begun? && s.jobs[j].max > 3
    ensures var job, t := s.jobs[j], Step(s, Gate(j));
      j in t.jobs && if |Guards(s, PlaceOf(job))| >= job.max then t.jobs[j].verdict == Refused && !t.jobs[j].guard
                     else t.jobs[j] == job.(stage := Gated, guard := true)
  {
    var p := PlaceOf(s.jobs[j]);
    assert CountAt(s.counts, p) == |Guards(s, p)|;
  }

  lemma ListingDecides(s: State, j: JobId)
    requires j in s.jobs && s.jobs[j].stage.Armed? && s.jobs[j].max > 0
    ensures var job, t := s.jobs[j], Step(s, Rank(j));
      job.max <= 3 ==> t.jobs[j].verdict == if |AheadOf(s, j)| < job.max then Ranked else Refused
    ensures var job, t := s.jobs[j], Step(s, CountFresh(j));
      job.max > 3 ==> t.jobs[j].verdict == if |s.store.Entries(job.key)| <= job.max then Counted else Refused
    ensures var job, t := s.jobs[j], Step(s, CountCached(j));
      job.max > 3 && PlaceOf(job) in s.cache ==>
        t.jobs[j].verdict == if s.cache[PlaceOf(job)] <= job.max then Cached else Refused
  {
    var es, ord := s.store.Entries(s.jobs[j].key), s.jobs[j].ord;
    if j in es && es[j].ord == ord {
      assert AheadOf(s, j) == Ahead(es, ord, j);
    } else {
      assert AheadOf(s, j) == {};
    }
  }

  /** A failing store lets the job in: at the reservation, which may have landed all the same, or at the listing. */
  lemma FailuresLetIn(s: State, j: JobId, wrote: bool)
    requires j in s.jobs && StageMatches(s.jobs[j])
    ensures MayReserve(s.jobs[j]) ==>
              var t := Step(s, ReserveFails(j, wrote));
              && j in t.jobs && t.jobs[j].verdict == FailedOpen && t.jobs[j].guard
              && (if wrote then j in t.store.Entries(s.jobs[j].key) else t.store == s.store)
    ensures s.jobs[j].stage.Armed? ==>
              var t := Step(s, ListFails(j));
              j in t.jobs && t.jobs[j].verdict == FailedOpen && t.jobs[j].guard && t.store == s.store
  {
  }

  /** A ceiling of zero denies at once: no admission is even begun. */
  lemma {:induction false} ZeroIsDenied(ops: seq<Op>)
    ensures forall j | j in Run(INIT, ops).jobs :: Run(INIT, ops).jobs[j].max > 0
    decreases |ops|
  {
    if ops != [] {
      var before, op := ops[..|ops| - 1], ops[|ops| - 1];
      assert ops == before + [op];
      RunSnoc(INIT, before, op);
      ZeroIsDenied(before);
      ZeroStep(Run(INIT, before), op);
    }
  }

  lemma ZeroStep(s: State, op: Op)
    requires forall j | j in s.jobs :: s.jobs[j].max > 0
    ensures forall j | j in Step(s, op).jobs :: Step(s, op).jobs[j].max > 0
  {
    if OfOneJob(op) && op.j in s.jobs {
      GatedFirstJob(s, op);
    }
  }

  ghost predicate DecidedAt(ops: seq<Op>, j: JobId, verdict: Verdict, n: nat) {
    n < |ops| && Entitles(Run(INIT, ops[..n]), ops[n], j, verdict)
  }

  lemma OthersVerdict(s: State, op: Op, j: JobId)
    requires j in Step(s, op).jobs && !(OfOneJob(op) && op.j == j)
    ensures if j in s.jobs then Step(s, op).jobs[j] == s.jobs[j] else Step(s, op).jobs[j].verdict.Undecided?
  {
    if OfOneJob(op) && op.j in s.jobs {
      GatedFirstJob(s, op);
    }
  }

  /** Every verdict was given by a step that was entitled to give it. */
  lemma {:induction false} DecisionsHaveReasons(ops: seq<Op>, j: JobId)
    requires j in Run(INIT, ops).jobs && !Run(INIT, ops).jobs[j].verdict.Undecided?
    ensures exists n: nat :: DecidedAt(ops, j, Run(INIT, ops).jobs[j].verdict, n)
    decreases |ops|
  {
    if ops != [] {
      var before, op := ops[..|ops| - 1], ops[|ops| - 1];
      assert ops == before + [op];
      RunSnoc(INIT, before, op);
      var s := Run(INIT, before);
      var verdict := Run(INIT, ops).jobs[j].verdict;
      DecisionStep(before, op, j);
      if j in s.jobs && s.jobs[j].verdict == verdict {
        DecisionsHaveReasons(before, j);
        var n: nat :| DecidedAt(before, j, verdict, n);
        assert before[..n] == ops[..n];
        assert DecidedAt(ops, j, verdict, n);
      } else {
        assert ops[..|before|] == before;
        assert DecidedAt(ops, j, verdict, |before|);
      }
    }
  }

  lemma DecisionStep(before: seq<Op>, op: Op, j: JobId)
    requires j in Step(Run(INIT, before), op).jobs
    ensures var s := Run(INIT, before);
      var verdict := Step(s, op).jobs[j].verdict;
      verdict.Undecided? || (j in s.jobs && s.jobs[j].verdict == verdict) || Entitles(s, op, j, verdict)
  {
    var s := Run(INIT, before);
    if OfOneJob(op) && op.j == j && j in s.jobs {
      InitHolds();
      RunKeeps(INIT, before);
      ZeroIsDenied(before);
      NewVerdict(s, op, j);
    } else {
      OthersVerdict(s, op, j);
    }
  }

  /** A lazy decision of this broker and key that lists the store. */
  ghost predicate Lists(s: State, op: Op, p: Place) {
    && op.CountFresh? && op.j in s.jobs && PlaceOf(s.jobs[op.j]) == p
    && s.jobs[op.j].stage.Armed? && s.jobs[op.j].max > 3
  }

  ghost predicate LastListing(ops: seq<Op>, p: Place, n: nat, count: nat) {
    && n < |ops| && Lists(Run(INIT, ops[..n]), ops[n], p)
    && count == |Run(INIT, ops[..n]).store.Entries(p.1)|
    && forall m | n < m < |ops| :: !Lists(Run(INIT, ops[..m]), ops[m], p)
  }

  lemma CacheStep(s: State, op: Op, p: Place)
    ensures Lists(s, op, p) ==> p in Step(s, op).cache && Step(s, op).cache[p] == |s.store.Entries(p.1)|
    ensures !Lists(s, op, p) ==> (p in Step(s, op).cache <==> p in s.cache)
    ensures !Lists(s, op, p) && p in s.cache ==> Step(s, op).cache[p] == s.cache[p]
  {
  }

  /** A remembered count is what the broker's last listing of the key counted. */
  lemma {:induction false} RememberedIsLastListed(ops: seq<Op>, p: Place)
    requires p in Run(INIT, ops).cache
    ensures exists n: nat :: LastListing(ops, p, n, Run(INIT, ops).cache[p])
    decreases |ops|
  {
    if ops != [] {
      var before, op := ops[..|ops| - 1], ops[|ops| - 1];
      assert ops == before + [op] && ops[..|before|] == before;
      RunSnoc(INIT, before, op);
      var s := Run(INIT, before);
      CacheStep(s, op, p);
      if Lists(s, op, p) {
        assert LastListing(ops, p, |before|, Run(INIT, ops).cache[p]);
      } else {
        RememberedIsLastListed(before, p);
        var n: nat :| LastListing(before, p, n, s.cache[p]);
        forall m | n < m < |ops| ensures !Lists(Run(INIT, ops[..m]), ops[m], p) {
          assert m < |before| ==> before[..m] == ops[..m];
        }
        assert before[..n] == ops[..n];
        assert LastListing(ops, p, n, s.cache[p]);
      }
    }
  }
}
