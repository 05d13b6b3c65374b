/**
 * The durable records behind one broker's runs. The store keeps one record per id: a run's write
 * puts it there, a deletion asked for by any run takes it away, whichever run wrote it last.
 */
module Durable {
  import opened Wrappers
  import opened Lifecycle

  /** `records` says which run last wrote the record of an id; `erased` which asked-for deletions were carried out. */
  datatype Track = Track(s: State, records: map<JobId, nat>, erased: set<nat>)

  datatype Move = Live(op: Op) | Erase(r: nat)

  /** The run whose record a step writes: a durable write that lands, or the takeover of a recovered job. */
  function Writer(s: State, op: Op): Option<nat> {
    match op
    case Proceed(r) => if r < |s.runs| && s.runs[r].phase.Storing? then Some(r) else None
    case StoreFails(r, wrote) => if r < |s.runs| && s.runs[r].phase.Storing? && wrote then Some(r) else None
    case Act(a) =>
      if a < |s.actors| && s.actors[a].Submitter? && s.actors[a].submit.Reserved? && s.actors[a].recovered
         && s.actors[a].id !in s.jobs
      then Some(|s.runs|) else None
    case _ => None
  }

  function Next(t: Track, move: Move): Track {
    match move
    case Live(op) =>
      var s := Step(t.s, op);
      var w := Writer(t.s, op);
      Track(s, if w.Some? && w.value < |s.runs| then t.records[s.runs[w.value].id := w.value] else t.records, t.erased)
    case Erase(r) =>
      if r in t.s.cleanup && r !in t.erased && r < |t.s.runs|
      then t.(records := t.records - {t.s.runs[r].id}, erased := t.erased + {r}) else t
  }

  function Trace(t: Track, moves: seq<Move>): Track {
    if moves == [] then t else Next(Trace(t, moves[..|moves| - 1]), moves[|moves| - 1])
  }

  function Begin(maxJobs: nat): Track {
    Track(Init(maxJobs), map[], {})
  }

  // -------------------------------------------------------------- invariants

  /** A step marks as recorded exactly the run it writes for. */
  ghost predicate Marks(runs: seq<Run>, later: seq<Run>, w: Option<nat>) {
    && |runs| <= |later| <= |runs| + 1
    && (w.Some? ==> w.value < |later|)
    && (forall r | 0 <= r < |runs| :: later[r].id == runs[r].id
                                      && (later[r].recorded <==> runs[r].recorded || w == Some(r)))
    && (|later| > |runs| ==> (later[|runs|].recorded <==> w == Some(|runs|)))
  }

  lemma RunnerMarks(s: State, op: Op)
    requires Inv(s) && OfRunner(op)
    ensures Marks(s.runs, Step(s, op).runs, Writer(s, op))
  {
    RunnerSteps(s, op);
    if op.r < |s.runs| {
      assert RunOk(s.runs[op.r]);
    }
  }

  lemma SubmitMarks(s: State, a: nat)
    requires a < |s.actors| && s.actors[a].Submitter?
    ensures Marks(s.runs, SubmitStep(s, a).runs, Writer(s, Act(a)))
  {
  }

  lemma PollMarks(s: State, a: nat)
    requires a < |s.actors| && s.actors[a].Poller?
    ensures Marks(s.runs, PollStep(s, a).runs, None)
  {
  }

  lemma SweepMarks(s: State, a: nat, id: JobId, late: bool)
    requires a < |s.actors|
    ensures Marks(s.runs, Sweep(s, a, id, late).runs, None)
  {
  }

  lemma StepMarks(s: State, op: Op)
    requires Inv(s)
    ensures Marks(s.runs, Step(s, op).runs, Writer(s, op))
  {
    if OfRunner(op) {
      RunnerMarks(s, op);
    } else if op.SweepOne? && op.a < |s.actors| {
      SweepMarks(s, op.a, op.id, op.late);
    } else if op.Act? && op.a < |s.actors| && s.actors[op.a].Poller? {
      PollMarks(s, op.a);
    } else if op.Act? && op.a < |s.actors| && s.actors[op.a].Submitter? {
      SubmitMarks(s, op.a);
    } else {
      assert Step(s, op).runs == s.runs;
    }
  }

  /** The store holds a run's record exactly from its write to its own deletion. */
  ghost predicate Kept(runs: seq<Run>, records: map<JobId, nat>, erased: set<nat>) {
    forall r | 0 <= r < |runs| ::
      runs[r].id in records && records[runs[r].id] == r <==> runs[r].recorded && r !in erased
  }

  ghost predicate Sane(t: Track) {
    && Inv(t.s)
    && t.erased <= t.s.cleanup
    && (forall id | id in t.records :: t.records[id] < |t.s.runs| && t.s.runs[t.records[id]].id == id)
  }

  /** A run whose deletion was asked for writes no more. */
  lemma NoLateWrite(s: State, op: Op, r: nat)
    requires Inv(s) && r in s.cleanup
    ensures Writer(s, op) != Some(r)
  {
    assert RunOk(s.runs[r]);
  }

  lemma CleanupGrows(s: State, op: Op)
    ensures s.cleanup <= Step(s, op).cleanup
  {
  }

  lemma LiveSane(t: Track, op: Op)
    requires Sane(t)
    ensures Sane(Next(t, Live(op)))
  {
    StepKeeps(t.s, op);
    StepMarks(t.s, op);
    CleanupGrows(t.s, op);
  }

  lemma NextSane(t: Track, move: Move)
    requires Sane(t)
    ensures Sane(Next(t, move))
  {
    if move.Live? {
      LiveSane(t, move.op);
    }
  }

  lemma LiveKept(t: Track, op: Op)
    requires Sane(t) && Kept(t.s.runs, t.records, t.erased) && Distinct(Step(t.s, op).runs)
    ensures Kept(Next(t, Live(op)).s.runs, Next(t, Live(op)).records, t.erased)
  {
    var w, s := Writer(t.s, op), Step(t.s, op);
    StepMarks(t.s, op);
    if w.Some? && w.value in t.erased {
      NoLateWrite(t.s, op, w.value);
    }
    KeptMore(t.s.runs, s.runs, t.records, Next(t, Live(op)).records, t.erased, w);
  }

  lemma KeptMore(runs: seq<Run>, later: seq<Run>, records: map<JobId, nat>, after: map<JobId, nat>, erased: set<nat>, w: Option<nat>)
    requires Kept(runs, records, erased) && Marks(runs, later, w) && Distinct(later)
    requires forall id | id in records :: records[id] < |runs|
    requires forall r | r in erased :: r < |runs|
    requires after == if w.Some? then records[later[w.value].id := w.value] else records
    requires w.Some? ==> w.value !in erased
    ensures Kept(later, after, erased)
  {
  }

  lemma KeptLess(runs: seq<Run>, records: map<JobId, nat>, erased: set<nat>, r: nat)
    requires Kept(runs, records, erased) && Distinct(runs) && r < |runs|
    ensures Kept(runs, records - {runs[r].id}, erased + {r})
  {
    forall q | 0 <= q < |runs| && q != r ensures runs[q].id != runs[r].id {
      assert q < r ==> runs[q].id != runs[r].id;
    }
  }

  lemma NextKept(t: Track, move: Move)
    requires Sane(t) && Kept(t.s.runs, t.records, t.erased) && Distinct(Next(t, move).s.runs)
    ensures Kept(Next(t, move).s.runs, Next(t, move).records, Next(t, move).erased)
  {
    if move.Live? {
      LiveKept(t, move.op);
    } else if move.r in t.s.cleanup && move.r !in t.erased {
      KeptLess(t.s.runs, t.records, t.erased, move.r);
    }
  }

  lemma DistinctBefore(t: Track, move: Move)
    requires Sane(t) && Distinct(Next(t, move).s.runs)
    ensures Distinct(t.s.runs)
  {
    if move.Live? {
      StepMarks(t.s, move.op);
    }
  }

  lemma {:induction false} TraceKeeps(maxJobs: nat, moves: seq<Move>)
    ensures Sane(Trace(Begin(maxJobs), moves))
    ensures var t := Trace(Begin(maxJobs), moves); Distinct(t.s.runs) ==> Kept(t.s.runs, t.records, t.erased)
    decreases |moves|
  {
    if moves == [] {
      InitHolds(maxJobs);
    } else {
      var before, move := moves[..|moves| - 1], moves[|moves| - 1];
      TraceKeeps(maxJobs, before);
      var t := Trace(Begin(maxJobs), before);
      NextSane(t, move);
      if Distinct(Next(t, move).s.runs) {
        DistinctBefore(t, move);
        NextKept(t, move);
      }
    }
  }

  // ---------------------------------------------------------------- theorems

  /** While no id is accepted twice, the store holds a run's record exactly from its write to the deletion it asked for. */
  lemma RecordSurvives(maxJobs: nat, moves: seq<Move>, r: nat)
    requires var t := Trace(Begin(maxJobs), moves); Distinct(t.s.runs) && r < |t.s.runs|
    ensures var t := Trace(Begin(maxJobs), moves);
      && (t.s.runs[r].id in t.records <==> t.s.runs[r].recorded && r !in t.erased)
      && (t.s.runs[r].id in t.records ==> t.records[t.s.runs[r].id] == r)
  {
    TraceKeeps(maxJobs, moves);
    var t := Trace(Begin(maxJobs), moves);
    if t.s.runs[r].id in t.records {
      SameRun(t.s.runs, t.records[t.s.runs[r].id], r);
    }
  }

  lemma SameRun(runs: seq<Run>, q: nat, r: nat)
    requires Distinct(runs) && q < |runs| && r < |runs| && runs[q].id == runs[r].id
    ensures q == r
  {
  }

  ghost predicate Reaches(t: Track) {
    exists maxJobs: nat, moves: seq<Move> :: t == Trace(Begin(maxJobs), moves)
  }

  lemma Go(t: Track, move: Move) returns (u: Track)
    requires Reaches(t)
    ensures u == Next(t, move) && Reaches(u)
  {
    var maxJobs: nat, moves: seq<Move> :| t == Trace(Begin(maxJobs), moves);
    u := Next(t, move);
    assert (moves + [move])[..|moves|] == moves;
    assert u == Trace(Begin(maxJobs), moves + [move]);
  }

  ghost function StoredRun(id: JobId, phase: Phase, slot: Option<JobResult>, taker: Option<nat>, listed: bool): Run {
    Run(id, false, phase, true, true, false, slot, if phase.Done? then Some(Cancelled) else None, taker, listed, false)
  }

  /** A submitter's two steps: room in the counter and a vacant id. */
  lemma Submitted(t: Track, a: nat, id: JobId) returns (u: Track)
    requires Reaches(t) && a == |t.s.actors| && t.s.count < t.s.maxJobs && id !in t.s.jobs
    ensures Reaches(u) && u.records == t.records && u.erased == t.erased && u.s.cleanup == t.s.cleanup
    ensures u.s.maxJobs == t.s.maxJobs && u.s.count == t.s.count + 1 && u.s.jobs == t.s.jobs[id := |t.s.runs|]
    ensures |u.s.actors| == a + 1
    ensures u.s.runs == t.s.runs + [Run(id, false, Spawned, false, false, false, None, None, None, true, false)]
  {
    u := Go(t, Live(Arrive(Submitter(id, false, Start))));
    u := Go(u, Live(Act(a)));
    assert u.s.actors[a] == Submitter(id, false, Reserved);
    u := Go(u, Live(Act(a)));
  }

  /** The runner stores the record. */
  lemma WroteRecord(t: Track, r: nat) returns (u: Track)
    requires Reaches(t) && r < |t.s.runs|
    requires t.s.runs[r] == Run(t.s.runs[r].id, false, Spawned, false, false, false, None, None, None, true, false)
    ensures Reaches(u) && u.erased == t.erased && u.records == t.records[t.s.runs[r].id := r]
    ensures u.s == t.s.(runs := t.s.runs[r := StoredRun(t.s.runs[r].id, Waiting, None, None, true)])
  {
    u := Go(t, Live(Proceed(r)));
    u := Go(u, Live(Proceed(r)));
    assert u.s.runs[r].phase == Storing && u.records == t.records;
    u := Go(u, Live(Proceed(r)));
    assert u.s.runs[r].phase == Stored && u.records == t.records[t.s.runs[r].id := r];
    u := Go(u, Live(Proceed(r)));
  }

  /** The first run, stored and finished. */
  lemma FirstDone(id: JobId) returns (t: Track)
    ensures Reaches(t) && t.s.maxJobs == 2 && t.s.count == 1 && t.s.jobs == map[id := 0] && t.s.cleanup == {}
    ensures |t.s.actors| == 1 && t.records == map[id := 0] && t.erased == {}
    ensures t.s.runs == [StoredRun(id, Done, Some(Cancelled), None, true)]
  {
    t := Begin(2);
    assert t == Trace(Begin(2), []);
    t := Submitted(t, 0, id);
    t := WroteRecord(t, 0);
    t := Go(t, Live(Finish(0, Cancelled)));
  }

  /** A poller takes its result. */
  lemma FirstTaken(id: JobId) returns (t: Track)
    ensures Reaches(t) && t.s.maxJobs == 2 && t.s.count == 1 && t.s.jobs == map[id := 0] && t.s.cleanup == {}
    ensures |t.s.actors| == 2 && t.s.actors[1] == Poller(id, true, Took(0, Cancelled))
    ensures t.s.runs == [StoredRun(id, Done, None, Some(1), true)] && t.records == map[id := 0] && t.erased == {}
  {
    t := FirstDone(id);
    t := Go(t, Live(Arrive(Poller(id, true, Looking))));
    t := Go(t, Live(Act(1)));
    assert t.s.actors[1] == Poller(id, true, Got(0));
    t := Go(t, Live(Act(1)));
    assert t.s.actors[1] == Poller(id, true, Connected(0));
    t := Go(t, Live(Act(1)));
  }

  /** It leaves the map, and its deletion is asked for. */
  lemma FirstConsumed(id: JobId) returns (t: Track)
    ensures Reaches(t) && t.s.maxJobs == 2 && t.s.count == 0 && t.s.jobs == map[] && t.s.cleanup == {0}
    ensures |t.s.actors| == 2 && |t.s.runs| == 1 && t.s.runs[0].id == id && t.records == map[id := 0] && t.erased == {}
  {
    t := FirstTaken(id);
    t := Go(t, Live(Act(1)));
    assert t.s.actors[1] == Poller(id, true, Removed(0, Cancelled)) && t.s.jobs == map[];
    assert t.s.runs == [StoredRun(id, Done, None, Some(1), false)];
    t := Go(t, Live(Act(1)));
    assert t.s.actors[1] == Poller(id, true, Cleaning(0, Cancelled)) && t.s.count == 0;
    t := Go(t, Live(Act(1)));
  }

  /** Whatever the id: when it is accepted again, the first run's deletion takes the second run's record. */
  lemma ReuseErasesRecord(id: JobId) returns (t: Track)
    ensures Reaches(t) && |t.s.runs| == 2 && t.s.runs[1].id == id
    ensures t.s.runs[1].persisted && t.s.runs[1].recorded && 1 !in t.erased && id !in t.records
  {
    t := FirstConsumed(id);
    t := Submitted(t, 2, id);
    t := WroteRecord(t, 1);
    assert t.records == map[id := 1];
    t := Go(t, Erase(0));
  }
}
