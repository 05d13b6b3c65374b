/**
 * The life of a submitted job inside one broker: the jobs map and its counter, the runner that
 * runs the job, the pollers that take its result and the sweeper that removes what nobody wants.
 * Any number of each interleave; one step is one atomic action of one of them.
 */
module Lifecycle {
  import opened Wrappers
  import opened Counting

  // -------------------------------------------------------------------- data

  type JobId = string

  datatype JobResult =
    | Success(body: string) | Redirect(location: string)
    | Error(message: string) | Failed(reason: string) | Overloaded(reason: string) | RateLimited(reason: string)
    | Cancelled | ClientGone
  {
    predicate Deliverable() { Success? || Redirect? }
  }

  /** How far the runner of a job has come. */
  datatype Phase = Spawned | Running | Storing | Stored | Waiting | Done

  /**
   * One accepted submission. `recovered` runs were restored from a durable record; `recorded`
   * says that the store holds a durable record of it, `landed` that a failed write left that
   * record behind, and `persisted` is the flag the code keeps.
   * `wrote` and `taker` remember the write of the result and who took it.
   */
  datatype Run = Run(id: JobId, recovered: bool, phase: Phase, persisted: bool, recorded: bool, landed: bool,
                     slot: Option<JobResult>, wrote: Option<JobResult>, taker: Option<nat>,
                     listed: bool, swept: bool)

  datatype SubmitPhase = Start | Reserved | Duplicate | Accepted(run: nat) | TurnedAway

  datatype PollPhase =
    | Looking
    | Got(run: nat)
    | Connected(run: nat)
    | Took(run: nat, result: JobResult)
    | Removed(run: nat, result: JobResult)
    | Cleaning(run: nat, result: JobResult)
    | Ready(run: nat, result: JobResult)
    | Pending
    | NotFound

  datatype SweepPhase = Idle | Swept(run: nat) | Clearing(run: nat) | Cleared(run: nat)

  datatype Actor =
    | Submitter(id: JobId, recovered: bool, submit: SubmitPhase)
    | Poller(id: JobId, consuming: bool, poll: PollPhase)
    | Sweeper(sweep: SweepPhase)

  datatype State = State(maxJobs: nat, count: nat, jobs: map<JobId, nat>, runs: seq<Run>, actors: seq<Actor>,
                         cleanup: set<nat>)

  function Init(maxJobs: nat): State {
    State(maxJobs, 0, map[], [], [], {})
  }

  // ------------------------------------------------------------------- steps

  datatype Op =
    | Arrive(actor: Actor)
    | Act(a: nat)
    | GiveUp(a: nat)
    | SweepOne(a: nat, id: JobId, late: bool)
    | Proceed(r: nat)
    | StoreFails(r: nat, wrote: bool)
    | Finish(r: nat, result: JobResult)

  predicate Fresh(a: Actor) {
    match a
    case Submitter(_, _, p) => p.Start?
    case Poller(_, _, p) => p.Looking?
    case Sweeper(p) => p.Idle?
  }

  /** Whether an actor holds the presence guard of a run. */
  predicate Watches(a: Actor, r: nat) {
    a.Poller? && (a.poll.Connected? || a.poll.Took? || a.poll.Removed? || a.poll.Cleaning?) && a.poll.run == r
  }

  const USIZE_MAX: nat := 0xFFFF_FFFF_FFFF_FFFF

  /** The checked decrement leaves zero alone; the plain one wraps around. */
  function CheckedSub(n: nat): nat { if n > 0 then n - 1 else n }

  function WrappingSub(n: nat): nat { if n > 0 then n - 1 else USIZE_MAX }

  function SubmitStep(s: State, a: nat): State
    requires a < |s.actors| && s.actors[a].Submitter?
  {
    var me := s.actors[a];
    match me.submit
    case Start =>
      if me.recovered then s.(count := s.count + 1, actors := s.actors[a := me.(submit := Reserved)])
      else if s.count >= s.maxJobs then s.(actors := s.actors[a := me.(submit := TurnedAway)])
      else s.(count := s.count + 1, actors := s.actors[a := me.(submit := Reserved)])
    case Reserved =>
      if me.id in s.jobs then s.(actors := s.actors[a := me.(submit := Duplicate)])
      else
        var run := Run(me.id, me.recovered, Spawned, false, me.recovered, false, None, None, None, true, false);
        s.(jobs := s.jobs[me.id := |s.runs|], runs := s.runs + [run],
           actors := s.actors[a := me.(submit := Accepted(|s.runs|))])
    case Duplicate => s.(count := WrappingSub(s.count), actors := s.actors[a := me.(submit := TurnedAway)])
    case Accepted(_) => s
    case TurnedAway => s
  }

  /** Take an id out of the map, whichever run it names by now. */
  function Unlist(s: State, id: JobId): State {
    if id in s.jobs && s.jobs[id] < |s.runs| then
      s.(jobs := s.jobs - {id}, runs := s.runs[s.jobs[id] := s.runs[s.jobs[id]].(listed := false)])
    else s
  }

  function PollStep(s: State, a: nat): State
    requires a < |s.actors| && s.actors[a].Poller?
  {
    var me := s.actors[a];
    match me.poll
    case Looking =>
      s.(actors := s.actors[a := me.(poll := if me.id in s.jobs then Got(s.jobs[me.id]) else NotFound)])
    case Got(r) => s.(actors := s.actors[a := me.(poll := Connected(r))])
    case Connected(r) =>
      if r < |s.runs| && s.runs[r].slot.Some? then
        var result := s.runs[r].slot.value;
        if !me.consuming && result.Deliverable() then s.(actors := s.actors[a := me.(poll := Pending)])
        else s.(runs := s.runs[r := s.runs[r].(slot := None, taker := Some(a))],
                actors := s.actors[a := me.(poll := Took(r, result))])
      else s
    case Took(r, result) =>
      var t := Unlist(s, me.id);
      t.(actors := s.actors[a := me.(poll := if me.id in s.jobs then Removed(r, result) else Cleaning(r, result))])
    case Removed(r, result) =>
      s.(count := CheckedSub(s.count), actors := s.actors[a := me.(poll := Cleaning(r, result))])
    case Cleaning(r, result) =>
      s.(cleanup := if r < |s.runs| && s.runs[r].persisted then s.cleanup + {r} else s.cleanup,
         actors := s.actors[a := me.(poll := Ready(r, result))])
    case Ready(_, _) => s
    case Pending => s
    case NotFound => s
  }

  function SweepStep(s: State, a: nat): State
    requires a < |s.actors| && s.actors[a].Sweeper?
  {
    match s.actors[a].sweep
    case Idle => s
    case Swept(r) => s.(count := CheckedSub(s.count), actors := s.actors[a := Sweeper(Clearing(r))])
    case Clearing(r) =>
      s.(cleanup := if r < |s.runs| && s.runs[r].persisted then s.cleanup + {r} else s.cleanup,
         actors := s.actors[a := Sweeper(Cleared(r))])
    case Cleared(_) => s
  }

  /** The sweeper's conditional removal: a result is there and no client is. */
  function Sweep(s: State, a: nat, id: JobId, late: bool): State
    requires a < |s.actors|
  {
    if s.actors[a] == Sweeper(Idle) && late && id in s.jobs && s.jobs[id] < |s.runs| then
      var r := s.jobs[id];
      if s.runs[r].slot.Some? && forall b | b in s.actors :: !Watches(b, r) then
        var t := Unlist(s, id);
        t.(runs := t.runs[r := t.runs[r].(swept := true)], actors := s.actors[a := Sweeper(Swept(r))])
      else s
    else s
  }

  /** The runner of a job, up to its result. */
  function RunStep(run: Run): Run {
    match run.phase
    case Spawned => run.(phase := Running, persisted := run.recovered)
    case Running => if !run.persisted && run.slot.None? then run.(phase := Storing) else run.(phase := Waiting)
    case Storing => run.(phase := Stored, recorded := true)
    case Stored => run.(phase := Waiting, persisted := true)
    case Waiting => run
    case Done => run
  }

  /** The durable write is answered with an error; the record may have landed all the same. */
  function FailStep(run: Run, wrote: bool): Run {
    if run.phase.Storing? then run.(phase := Waiting, recorded := wrote, landed := wrote) else run
  }

  function FinishStep(run: Run, result: JobResult): Run {
    if run.phase.Running? || run.phase.Waiting? then
      run.(phase := Done, slot := Some(result), wrote := Some(result))
    else run
  }

  function Step(s: State, op: Op): State {
    match op
    case Arrive(actor) => if Fresh(actor) then s.(actors := s.actors + [actor]) else s
    case Act(a) =>
      if a >= |s.actors| then s
      else if s.actors[a].Submitter? then SubmitStep(s, a)
      else if s.actors[a].Poller? then PollStep(s, a)
      else SweepStep(s, a)
    case GiveUp(a) =>
      if a < |s.actors| && s.actors[a].Poller? && s.actors[a].poll.Connected?
      then s.(actors := s.actors[a := s.actors[a].(poll := Pending)]) else s
    case SweepOne(a, id, late) => if a < |s.actors| then Sweep(s, a, id, late) else s
    case Proceed(r) => if r < |s.runs| then s.(runs := s.runs[r := RunStep(s.runs[r])]) else s
    case StoreFails(r, wrote) =>
      if r < |s.runs| then s.(runs := s.runs[r := FailStep(s.runs[r], wrote)]) else s
    case Finish(r, result) => if r < |s.runs| then s.(runs := s.runs[r := FinishStep(s.runs[r], result)]) else s
  }

  function Execute(s: State, ops: seq<Op>): State {
    if ops == [] then s else Step(Execute(s, ops[..|ops| - 1]), ops[|ops| - 1])
  }

  // -------------------------------------------------------------- invariants

  /** Counted by the counter but not in the map: an insert or a decrement is still to come. */
  predicate InTransit(a: Actor) {
    match a
    case Submitter(_, _, p) => p.Reserved? || p.Duplicate?
    case Poller(_, _, p) => p.Removed?
    case Sweeper(p) => p.Swept?
  }

  predicate LimitedTransit(a: Actor) { a.Submitter? && InTransit(a) && !a.recovered }

  predicate Listed(run: Run) { run.listed }

  predicate LimitedListed(run: Run) { run.listed && !run.recovered }

  ghost predicate Counted(s: State) {
    && s.count == |s.jobs| + Tally(s.actors, InTransit)
    && |s.jobs| == Tally(s.runs, Listed)
    && Tally(s.runs, LimitedListed) + Tally(s.actors, LimitedTransit) <= s.maxJobs
  }

  ghost predicate Indexed(jobs: map<JobId, nat>, runs: seq<Run>) {
    && (forall id | id in jobs :: jobs[id] < |runs| && runs[jobs[id]].id == id && runs[jobs[id]].listed)
    && (forall r | 0 <= r < |runs| && runs[r].listed :: runs[r].id in jobs && jobs[runs[r].id] == r)
  }

  /** The result is written at the end and only then, and then sits in the slot or was taken. */
  ghost predicate RunOk(run: Run) {
    && (run.wrote.Some? <==> run.phase.Done?)
    && (run.slot.Some? ==> run.slot == run.wrote && run.taker.None?)
    && (run.wrote.Some? && run.slot.None? ==> run.taker.Some?)
    && (run.taker.Some? ==> run.wrote.Some?)
    && (run.swept ==> run.wrote.Some? && !run.listed)
    && (run.phase.Waiting? || run.phase.Running? || run.phase.Done? ==>
          (run.persisted <==> run.recorded && !run.landed) && (run.landed ==> run.recorded))
    && (run.phase.Spawned? ==> !run.persisted && run.recorded == run.recovered && !run.landed)
    && (run.phase.Storing? ==> !run.recorded && !run.persisted && !run.landed)
    && (run.phase.Stored? ==> run.recorded && !run.landed)
    && (run.phase.Running? ==> !run.landed)
  }

  /** What an actor holds. */
  ghost predicate ActorOk(a: Actor, i: nat, runs: seq<Run>, cleanup: set<nat>) {
    match a
    case Submitter(_, _, p) => true
    case Poller(id, consuming, p) =>
      && (p.Got? || p.Connected? ==> p.run < |runs| && runs[p.run].id == id)
      && (p.Took? || p.Removed? || p.Cleaning? || p.Ready? ==>
            && p.run < |runs| && runs[p.run].id == id && runs[p.run].taker == Some(i)
            && runs[p.run].wrote == Some(p.result) && (p.result.Deliverable() ==> consuming))
      && (p.Ready? ==> runs[p.run].persisted ==> p.run in cleanup)
    case Sweeper(p) =>
      && (p.Swept? || p.Clearing? || p.Cleared? ==> p.run < |runs| && runs[p.run].swept)
      && (p.Cleared? ==> runs[p.run].persisted ==> p.run in cleanup)
  }

  /** Deletions are only asked for when the result is there and the flag says that a record is. */
  ghost predicate CleanupOk(cleanup: set<nat>, runs: seq<Run>) {
    forall r | r in cleanup :: r < |runs| && runs[r].persisted && runs[r].wrote.Some?
  }

  ghost predicate Inv(s: State) {
    && Counted(s)
    && Indexed(s.jobs, s.runs)
    && (forall r | 0 <= r < |s.runs| :: RunOk(s.runs[r]))
    && (forall i | 0 <= i < |s.actors| :: ActorOk(s.actors[i], i, s.runs, s.cleanup))
    && CleanupOk(s.cleanup, s.runs)
  }

  // ------------------------------------------------------------ preservation

  /** What a run never takes back. */
  ghost predicate Later(was: Run, now: Run) {
    && now.id == was.id && now.recovered == was.recovered
    && (was.wrote.Some? ==> now.wrote == was.wrote && now.recorded == was.recorded && now.persisted == was.persisted
                            && now.landed == was.landed)
    && (was.taker.Some? ==> now.taker == was.taker)
    && (was.swept ==> now.swept)
  }

  ghost predicate RunsLater(was: seq<Run>, now: seq<Run>) {
    && |was| <= |now|
    && forall r | 0 <= r < |was| :: Later(was[r], now[r])
  }

  lemma ActorKeeps(a: Actor, i: nat, runs: seq<Run>, later: seq<Run>, cleanup: set<nat>, more: set<nat>)
    requires ActorOk(a, i, runs, cleanup) && RunsLater(runs, later) && cleanup <= more
    requires forall r | 0 <= r < |runs| :: RunOk(runs[r])
    ensures ActorOk(a, i, later, more)
  {
    if a.Poller? {
      var p := a.poll;
      if p.Got? || p.Connected? || p.Took? || p.Removed? || p.Cleaning? || p.Ready? {
        assert Later(runs[p.run], later[p.run]);
      }
    } else if a.Sweeper? && !a.sweep.Idle? {
      assert Later(runs[a.sweep.run], later[a.sweep.run]) && RunOk(runs[a.sweep.run]);
    }
  }

  /** The parts of the invariant that speak of single runs and actors. */
  ghost predicate Held(s: State) {
    && (forall r | 0 <= r < |s.runs| :: RunOk(s.runs[r]))
    && (forall i | 0 <= i < |s.actors| :: ActorOk(s.actors[i], i, s.runs, s.cleanup))
    && CleanupOk(s.cleanup, s.runs)
  }

  lemma HeldKept(s: State, t: State, a: nat, x: Actor)
    requires Held(s) && a < |s.actors| && t.actors == s.actors[a := x]
    requires RunsLater(s.runs, t.runs) && s.cleanup <= t.cleanup
    requires forall r | 0 <= r < |t.runs| :: RunOk(t.runs[r])
    requires ActorOk(x, a, t.runs, t.cleanup)
    requires forall r | r in t.cleanup && r !in s.cleanup :: r < |t.runs| && t.runs[r].persisted && t.runs[r].wrote.Some?
    ensures Held(t)
  {
    forall i | 0 <= i < |t.actors| ensures ActorOk(t.actors[i], i, t.runs, t.cleanup) {
      if i != a {
        ActorKeeps(s.actors[i], i, s.runs, t.runs, s.cleanup, t.cleanup);
      }
    }
  }

  lemma ActorCounts(s: State, a: nat, x: Actor)
    requires a < |s.actors|
    ensures Tally(s.actors[a := x], InTransit)
         == Tally(s.actors, InTransit) - One(InTransit(s.actors[a])) + One(InTransit(x))
    ensures Tally(s.actors[a := x], LimitedTransit)
         == Tally(s.actors, LimitedTransit) - One(LimitedTransit(s.actors[a])) + One(LimitedTransit(x))
    ensures Tally(s.actors, InTransit) >= One(InTransit(s.actors[a]))
  {
    TallyUpdate(s.actors, a, x, InTransit);
    TallyUpdate(s.actors, a, x, LimitedTransit);
  }

  lemma RunCounts(runs: seq<Run>, r: nat, x: Run)
    requires r < |runs|
    ensures Tally(runs[r := x], Listed) == Tally(runs, Listed) - One(Listed(runs[r])) + One(Listed(x))
    ensures Tally(runs[r := x], LimitedListed)
         == Tally(runs, LimitedListed) - One(LimitedListed(runs[r])) + One(LimitedListed(x))
  {
    TallyUpdate(runs, r, x, Listed);
    TallyUpdate(runs, r, x, LimitedListed);
  }

  lemma RunHeld(s: State, r: nat, x: Run)
    requires Held(s) && r < |s.runs| && Later(s.runs[r], x) && RunOk(x)
    ensures Held(s.(runs := s.runs[r := x]))
  {
    var t := s.(runs := s.runs[r := x]);
    forall i | 0 <= i < |t.actors| ensures ActorOk(t.actors[i], i, t.runs, t.cleanup) {
      ActorKeeps(s.actors[i], i, s.runs, t.runs, s.cleanup, t.cleanup);
    }
  }

  lemma RunIndexed(jobs: map<JobId, nat>, runs: seq<Run>, r: nat, x: Run)
    requires Indexed(jobs, runs) && r < |runs| && x.id == runs[r].id && x.listed == runs[r].listed
    ensures Indexed(jobs, runs[r := x])
  {
  }

  /** A run whose place in the map does not change. */
  lemma RunKeeps(s: State, r: nat, x: Run)
    requires Inv(s) && r < |s.runs|
    requires Later(s.runs[r], x) && RunOk(x) && x.listed == s.runs[r].listed
    ensures Inv(s.(runs := s.runs[r := x]))
  {
    RunCounts(s.runs, r, x);
    RunIndexed(s.jobs, s.runs, r, x);
    RunHeld(s, r, x);
  }

  lemma LimitedIsCounted(s: State)
    requires Counted(s)
    ensures Tally(s.runs, LimitedListed) + Tally(s.actors, LimitedTransit) <= s.count
  {
    TallyLess(s.actors, LimitedTransit, InTransit);
    TallyLess(s.runs, LimitedListed, Listed);
  }

  /** An actor moves on and the counter with it; the map stays. */
  lemma ActorCounted(s: State, t: State, a: nat, x: Actor)
    requires Counted(s) && a < |s.actors| && t.actors == s.actors[a := x]
    requires t.maxJobs == s.maxJobs && t.jobs == s.jobs && t.runs == s.runs
    requires t.count == s.count - One(InTransit(s.actors[a])) + One(InTransit(x))
    requires LimitedTransit(x) ==> LimitedTransit(s.actors[a]) || s.count < s.maxJobs
    ensures Counted(t)
  {
    ActorCounts(s, a, x);
    LimitedIsCounted(s);
  }

  lemma TransitCounts(s: State, a: nat)
    requires Counted(s) && a < |s.actors| && InTransit(s.actors[a])
    ensures s.count > 0
  {
    ActorCounts(s, a, s.actors[a]);
  }

  lemma InsertCounted(s: State, a: nat, x: Actor, id: JobId, run: Run)
    requires Counted(s) && a < |s.actors| && InTransit(s.actors[a]) && !InTransit(x)
    requires id !in s.jobs && run.listed && (LimitedTransit(s.actors[a]) <==> !run.recovered)
    ensures Counted(s.(jobs := s.jobs[id := |s.runs|], runs := s.runs + [run], actors := s.actors[a := x]))
  {
    ActorCounts(s, a, x);
    TallyAppend(s.runs, run, Listed);
    TallyAppend(s.runs, run, LimitedListed);
    OneMore(s.jobs, id, |s.runs|);
  }

  lemma SubmitCounted(s: State, a: nat)
    requires Counted(s) && a < |s.actors| && s.actors[a].Submitter?
    ensures Counted(SubmitStep(s, a))
  {
    var t, me := SubmitStep(s, a), s.actors[a];
    if me.submit.Reserved? && me.id !in s.jobs {
      InsertCounted(s, a, t.actors[a], me.id, t.runs[|s.runs|]);
    } else {
      if InTransit(me) {
        TransitCounts(s, a);
      }
      assert t.actors == s.actors[a := t.actors[a]];
      ActorCounted(s, t, a, t.actors[a]);
    }
  }

  lemma SubmitHeld(s: State, a: nat)
    requires Held(s) && a < |s.actors| && s.actors[a].Submitter?
    ensures Held(SubmitStep(s, a))
  {
    var t := SubmitStep(s, a);
    assert t.cleanup == s.cleanup && t.actors[a].Submitter? && s.runs <= t.runs;
    assert t.actors == s.actors[a := t.actors[a]];
    HeldKept(s, t, a, t.actors[a]);
  }

  lemma SubmitIndexed(s: State, a: nat)
    requires Indexed(s.jobs, s.runs) && a < |s.actors| && s.actors[a].Submitter?
    ensures Indexed(SubmitStep(s, a).jobs, SubmitStep(s, a).runs)
  {
  }

  lemma UnlistIndexed(s: State, id: JobId)
    requires Indexed(s.jobs, s.runs)
    ensures Indexed(Unlist(s, id).jobs, Unlist(s, id).runs)
  {
  }

  lemma UnlistHeld(s: State, id: JobId)
    requires forall r | 0 <= r < |s.runs| :: RunOk(s.runs[r])
    ensures var t := Unlist(s, id);
      RunsLater(s.runs, t.runs) && t.actors == s.actors && forall r | 0 <= r < |t.runs| :: RunOk(t.runs[r])
  {
    if id in s.jobs && s.jobs[id] < |s.runs| {
      assert RunOk(s.runs[s.jobs[id]].(listed := false));
    }
  }

  lemma UnlistCounted(s: State, id: JobId)
    requires Indexed(s.jobs, s.runs) && |s.jobs| == Tally(s.runs, Listed)
    ensures var t := Unlist(s, id);
      && |t.jobs| == Tally(t.runs, Listed) == |s.jobs| - One(id in s.jobs)
      && Tally(t.runs, LimitedListed) <= Tally(s.runs, LimitedListed)
  {
    if id in s.jobs {
      var r := s.jobs[id];
      RunCounts(s.runs, r, s.runs[r].(listed := false));
      OneFewer(s.jobs, id);
    }
  }

  lemma TakeCounted(s: State, r: nat, run: Run)
    requires Counted(s) && r < |s.runs| && run.listed == s.runs[r].listed && run.recovered == s.runs[r].recovered
    ensures Counted(s.(runs := s.runs[r := run]))
  {
    RunCounts(s.runs, r, run);
  }

  /** A removal moves one from the map to the actor that is about to decrement. */
  lemma RemoveCounted(s: State, t: State, a: nat, x: Actor, id: JobId)
    requires Counted(s) && Indexed(s.jobs, s.runs) && a < |s.actors| && id in s.jobs
    requires !InTransit(s.actors[a]) && InTransit(x) && !x.Submitter?
    requires t == Unlist(s, id).(actors := s.actors[a := x])
    ensures Counted(t)
  {
    UnlistCounted(s, id);
    ActorCounts(s, a, x);
  }

  lemma TakingCounted(s: State, a: nat)
    requires Counted(s) && a < |s.actors| && s.actors[a].Poller? && s.actors[a].poll.Connected?
    ensures Counted(PollStep(s, a))
  {
    var t := PollStep(s, a);
    var p, x := s.actors[a].poll, t.actors[a];
    var mid := s.(actors := t.actors);
    assert t.actors == s.actors[a := x];
    ActorCounted(s, mid, a, x);
    if t.runs != s.runs {
      TakeCounted(mid, p.run, t.runs[p.run]);
      assert t == mid.(runs := mid.runs[p.run := t.runs[p.run]]);
    }
  }

  lemma PollCounted(s: State, a: nat)
    requires Counted(s) && Indexed(s.jobs, s.runs) && a < |s.actors| && s.actors[a].Poller?
    ensures Counted(PollStep(s, a))
  {
    var t := PollStep(s, a);
    var p, x := s.actors[a].poll, t.actors[a];
    if p.Took? && s.actors[a].id in s.jobs {
      RemoveCounted(s, t, a, x, s.actors[a].id);
    } else if p.Connected? {
      TakingCounted(s, a);
    } else {
      if p.Removed? {
        TransitCounts(s, a);
      }
      assert t.actors == s.actors[a := x] && t.runs == s.runs && t.jobs == s.jobs;
      ActorCounted(s, t, a, x);
    }
  }

  lemma PollIndexed(s: State, a: nat)
    requires Indexed(s.jobs, s.runs) && a < |s.actors| && s.actors[a].Poller?
    ensures Indexed(PollStep(s, a).jobs, PollStep(s, a).runs)
  {
    UnlistIndexed(s, s.actors[a].id);
  }

  lemma TakeHeld(s: State, a: nat)
    requires Held(s) && a < |s.actors| && s.actors[a].Poller? && s.actors[a].poll.Connected?
    ensures Held(PollStep(s, a))
  {
    var t, me := PollStep(s, a), s.actors[a];
    var r := me.poll.run;
    assert ActorOk(me, a, s.runs, s.cleanup) && RunOk(s.runs[r]);
    if s.runs[r].slot.Some? && (me.consuming || !s.runs[r].slot.value.Deliverable()) {
      TakenHeld(s, a, r, s.runs[r].slot.value);
    } else {
      assert t.runs == s.runs && t.cleanup == s.cleanup && t.actors == s.actors[a := t.actors[a]];
      HeldKept(s, t, a, t.actors[a]);
    }
  }

  lemma TakenHeld(s: State, a: nat, r: nat, result: JobResult)
    requires Held(s) && a < |s.actors| && s.actors[a].Poller? && r < |s.runs| && s.runs[r].id == s.actors[a].id
    requires s.runs[r].slot == Some(result) && (result.Deliverable() ==> s.actors[a].consuming)
    ensures Held(s.(runs := s.runs[r := s.runs[r].(slot := None, taker := Some(a))],
                    actors := s.actors[a := s.actors[a].(poll := Took(r, result))]))
  {
    var x := s.runs[r].(slot := None, taker := Some(a));
    assert RunOk(s.runs[r]) && RunOk(x);
    RunHeld(s, r, x);
    var mid := s.(runs := s.runs[r := x]);
    HeldKept(mid, mid.(actors := s.actors[a := s.actors[a].(poll := Took(r, result))]), a, s.actors[a].(poll := Took(r, result)));
  }

  lemma RemoveHeld(s: State, a: nat)
    requires Held(s) && a < |s.actors| && s.actors[a].Poller? && s.actors[a].poll.Took?
    ensures Held(PollStep(s, a))
  {
    var t := PollStep(s, a);
    var p := s.actors[a].poll;
    assert ActorOk(s.actors[a], a, s.runs, s.cleanup);
    UnlistHeld(s, s.actors[a].id);
    assert Later(s.runs[p.run], t.runs[p.run]);
    assert t.actors == s.actors[a := t.actors[a]] && t.cleanup == s.cleanup;
    HeldKept(s, t, a, t.actors[a]);
  }

  lemma PollHeld(s: State, a: nat)
    requires Held(s) && Indexed(s.jobs, s.runs) && a < |s.actors| && s.actors[a].Poller?
    ensures Held(PollStep(s, a))
  {
    var p := s.actors[a].poll;
    if p.Took? {
      RemoveHeld(s, a);
    } else if p.Connected? {
      TakeHeld(s, a);
    } else {
      var t := PollStep(s, a);
      assert ActorOk(s.actors[a], a, s.runs, s.cleanup);
      assert t.actors == s.actors[a := t.actors[a]] && t.runs == s.runs;
      if p.Cleaning? {
        assert RunOk(s.runs[p.run]);
      }
      HeldKept(s, t, a, t.actors[a]);
    }
  }

  lemma SweepKeeps(s: State, a: nat)
    requires Inv(s) && a < |s.actors| && s.actors[a].Sweeper?
    ensures Inv(SweepStep(s, a))
  {
    var t := SweepStep(s, a);
    if InTransit(s.actors[a]) {
      TransitCounts(s, a);
    }
    ActorCounted(s, t, a, t.actors[a]);
    SweepHeld(s, a);
  }

  lemma SweepHeld(s: State, a: nat)
    requires Held(s) && a < |s.actors| && s.actors[a].Sweeper?
    ensures Held(SweepStep(s, a))
  {
    var t := SweepStep(s, a);
    assert ActorOk(s.actors[a], a, s.runs, s.cleanup);
    assert t.actors == s.actors[a := t.actors[a]] && t.runs == s.runs;
    HeldKept(s, t, a, t.actors[a]);
  }

  lemma SweepOneCounted(s: State, a: nat, id: JobId, late: bool)
    requires Counted(s) && Indexed(s.jobs, s.runs) && a < |s.actors|
    ensures Counted(Sweep(s, a, id, late)) && Indexed(Sweep(s, a, id, late).jobs, Sweep(s, a, id, late).runs)
  {
    var t := Sweep(s, a, id, late);
    if t != s {
      var r := s.jobs[id];
      var mid := Unlist(s, id).(actors := t.actors);
      RemoveCounted(s, mid, a, t.actors[a], id);
      TakeCounted(mid, r, t.runs[r]);
      assert t == mid.(runs := mid.runs[r := t.runs[r]]);
      UnlistIndexed(s, id);
    }
  }

  lemma SweepOneHeld(s: State, a: nat, id: JobId, late: bool)
    requires Held(s) && Indexed(s.jobs, s.runs) && a < |s.actors|
    ensures Held(Sweep(s, a, id, late))
  {
    var t := Sweep(s, a, id, late);
    if t != s {
      var r := s.jobs[id];
      assert RunOk(s.runs[r]);
      assert t.runs == s.runs[r := s.runs[r].(listed := false, swept := true)];
      HeldKept(s, t, a, t.actors[a]);
    }
  }

  lemma ArriveKeeps(s: State, actor: Actor)
    requires Inv(s) && Fresh(actor)
    ensures Inv(s.(actors := s.actors + [actor]))
  {
    TallyAppend(s.actors, actor, InTransit);
    TallyAppend(s.actors, actor, LimitedTransit);
  }

  lemma GiveUpKeeps(s: State, a: nat)
    requires Inv(s) && a < |s.actors| && s.actors[a].Poller? && s.actors[a].poll.Connected?
    ensures Inv(s.(actors := s.actors[a := s.actors[a].(poll := Pending)]))
  {
    var x := s.actors[a].(poll := Pending);
    ActorCounts(s, a, x);
    HeldKept(s, s.(actors := s.actors[a := x]), a, x);
  }

  lemma ActKeeps(s: State, a: nat)
    requires Inv(s) && a < |s.actors|
    ensures Inv(Step(s, Act(a)))
  {
    if s.actors[a].Submitter? {
      SubmitCounted(s, a);
      SubmitIndexed(s, a);
      SubmitHeld(s, a);
    } else if s.actors[a].Poller? {
      PollCounted(s, a);
      PollIndexed(s, a);
      PollHeld(s, a);
    } else {
      SweepKeeps(s, a);
    }
  }

  /** Steps of a runner. */
  predicate OfRunner(op: Op) { op.Proceed? || op.StoreFails? || op.Finish? }

  /** What a runner's step makes of its run. */
  function RunnerStep(run: Run, op: Op): Run {
    match op
    case Proceed(_) => RunStep(run)
    case StoreFails(_, wrote) => FailStep(run, wrote)
    case Finish(_, result) => FinishStep(run, result)
    case _ => run
  }

  lemma RunnerStepOk(run: Run, op: Op)
    requires RunOk(run)
    ensures var x := RunnerStep(run, op);
      RunOk(x) && Later(run, x) && x.listed == run.listed && x.swept == run.swept && x.taker == run.taker
  {
  }

  lemma RunnerSteps(s: State, op: Op)
    requires OfRunner(op)
    ensures Step(s, op) == if op.r < |s.runs| then s.(runs := s.runs[op.r := RunnerStep(s.runs[op.r], op)]) else s
  {
  }

  lemma RunnerStepKeeps(s: State, op: Op)
    requires Inv(s) && OfRunner(op)
    ensures Inv(Step(s, op)) && RunsLater(s.runs, Step(s, op).runs)
  {
    RunnerSteps(s, op);
    if op.r < |s.runs| {
      RunnerStepOk(s.runs[op.r], op);
      RunKeeps(s, op.r, RunnerStep(s.runs[op.r], op));
    }
  }

  lemma StepKeeps(s: State, op: Op)
    requires Inv(s)
    ensures Inv(Step(s, op))
  {
    if OfRunner(op) {
      RunnerStepKeeps(s, op);
      return;
    }
    match op
    case Arrive(actor) =>
      if Fresh(actor) {
        ArriveKeeps(s, actor);
      }
    case Act(a) =>
      if a < |s.actors| {
        ActKeeps(s, a);
      }
    case GiveUp(a) =>
      if a < |s.actors| && s.actors[a].Poller? && s.actors[a].poll.Connected? {
        GiveUpKeeps(s, a);
      }
    case SweepOne(a, id, late) =>
      if a < |s.actors| {
        SweepOneCounted(s, a, id, late);
        SweepOneHeld(s, a, id, late);
      }
    case Proceed(_) =>
    case StoreFails(_, _) =>
    case Finish(_, _) =>
  }

  lemma {:induction false} ExecuteKeeps(s: State, ops: seq<Op>)
    requires Inv(s)
    ensures Inv(Execute(s, ops))
  {
    if ops != [] {
      ExecuteKeeps(s, ops[..|ops| - 1]);
      StepKeeps(Execute(s, ops[..|ops| - 1]), ops[|ops| - 1]);
    }
  }

  lemma PollLater(s: State, a: nat)
    requires Held(s) && a < |s.actors| && s.actors[a].Poller?
    ensures RunsLater(s.runs, PollStep(s, a).runs)
  {
    var me := s.actors[a];
    assert ActorOk(me, a, s.runs, s.cleanup);
    if me.poll.Took? {
      UnlistHeld(s, me.id);
    } else if me.poll.Connected? {
      assert RunOk(s.runs[me.poll.run]);
    }
  }

  lemma SweepLater(s: State, a: nat, id: JobId, late: bool)
    requires Held(s) && a < |s.actors|
    ensures RunsLater(s.runs, Sweep(s, a, id, late).runs)
  {
    UnlistHeld(s, id);
  }

  lemma SubmitLater(s: State, a: nat)
    requires a < |s.actors| && s.actors[a].Submitter?
    ensures RunsLater(s.runs, SubmitStep(s, a).runs)
  {
    assert s.runs <= SubmitStep(s, a).runs;
  }

  /** Runs are only ever added, and never take back what they hold. */
  lemma StepLater(s: State, op: Op)
    requires Inv(s)
    ensures RunsLater(s.runs, Step(s, op).runs)
  {
    if OfRunner(op) {
      RunnerStepKeeps(s, op);
    } else if op.SweepOne? && op.a < |s.actors| {
      SweepLater(s, op.a, op.id, op.late);
    } else if op.Act? && op.a < |s.actors| && s.actors[op.a].Poller? {
      PollLater(s, op.a);
    } else if op.Act? && op.a < |s.actors| && s.actors[op.a].Submitter? {
      SubmitLater(s, op.a);
    } else {
      assert Step(s, op).runs == s.runs;
    }
  }

  // ---------------------------------------------------------------- theorems

  lemma InitHolds(maxJobs: nat)
    ensures Inv(Init(maxJobs))
  {
  }

  /** The counter is the map plus what is in transit, and no decrement ever finds it at zero. */
  lemma CounterAgrees(maxJobs: nat, ops: seq<Op>)
    ensures var s := Execute(Init(maxJobs), ops);
      && s.count == |s.jobs| + Tally(s.actors, InTransit)
      && forall a | 0 <= a < |s.actors| && InTransit(s.actors[a]) :: s.count > 0
  {
    ExecuteKeeps(Init(maxJobs), ops);
    var s := Execute(Init(maxJobs), ops);
    forall a | 0 <= a < |s.actors| && InTransit(s.actors[a]) ensures s.count > 0 {
      TransitCounts(s, a);
    }
  }

  /** The ids in the map that came in under the limit. */
  ghost function LimitedIds(s: State): set<JobId> {
    set id | id in s.jobs && s.jobs[id] < |s.runs| && !s.runs[s.jobs[id]].recovered
  }

  ghost function IdsBelow(s: State, n: nat): set<JobId> {
    set id | id in LimitedIds(s) && s.jobs[id] < n
  }

  lemma NextId(s: State, n: nat)
    requires Indexed(s.jobs, s.runs) && n < |s.runs|
    ensures IdsBelow(s, n + 1) == if LimitedListed(s.runs[n]) then IdsBelow(s, n) + {s.runs[n].id} else IdsBelow(s, n)
  {
  }

  lemma {:induction false} LimitedIdsBelow(s: State, n: nat)
    requires Indexed(s.jobs, s.runs) && n <= |s.runs|
    ensures |IdsBelow(s, n)| <= Tally(s.runs[..n], LimitedListed)
  {
    if n > 0 {
      LimitedIdsBelow(s, n - 1);
      NextId(s, n - 1);
      assert s.runs[..n][..n - 1] == s.runs[..n - 1];
    } else {
      assert IdsBelow(s, n) == {};
    }
  }

  /** However many recovered jobs come in, the jobs admitted under the limit stay within it. */
  lemma LimitHolds(maxJobs: nat, ops: seq<Op>)
    ensures |LimitedIds(Execute(Init(maxJobs), ops))| <= maxJobs
  {
    ExecuteKeeps(Init(maxJobs), ops);
    var s := Execute(Init(maxJobs), ops);
    MaxStays(Init(maxJobs), ops);
    LimitedIdsBelow(s, |s.runs|);
    assert s.runs[..|s.runs|] == s.runs;
    assert LimitedIds(s) == IdsBelow(s, |s.runs|);
  }

  lemma {:induction false} MaxStays(s: State, ops: seq<Op>)
    ensures Execute(s, ops).maxJobs == s.maxJobs
  {
    if ops != [] {
      MaxStays(s, ops[..|ops| - 1]);
    }
  }

  /** The runner of this run finished with this result. */
  ghost predicate ResultOf(ops: seq<Op>, r: nat, result: JobResult) {
    exists n :: 0 <= n < |ops| && ops[n] == Finish(r, result)
  }

  lemma RunnerWrites(s: State, op: Op, r: nat)
    requires OfRunner(op) && r < |s.runs|
    ensures |Step(s, op).runs| == |s.runs|
    ensures Step(s, op).runs[r].wrote == s.runs[r].wrote
            || (op.Finish? && op.r == r && Step(s, op).runs[r].wrote == Some(op.result))
  {
    RunnerSteps(s, op);
  }

  lemma SubmitWrites(s: State, a: nat, r: nat)
    requires a < |s.actors| && s.actors[a].Submitter? && r < |SubmitStep(s, a).runs|
    ensures if r < |s.runs| then SubmitStep(s, a).runs[r].wrote == s.runs[r].wrote else SubmitStep(s, a).runs[r].wrote.None?
  {
  }

  lemma NewResult(s: State, op: Op, r: nat)
    requires r < |Step(s, op).runs| && Step(s, op).runs[r].wrote.Some?
    ensures (r < |s.runs| && s.runs[r].wrote == Step(s, op).runs[r].wrote)
            || op == Finish(r, Step(s, op).runs[r].wrote.value)
  {
    if OfRunner(op) {
      RunnerSteps(s, op);
      RunnerWrites(s, op, r);
    } else if op.Act? && op.a < |s.actors| && s.actors[op.a].Submitter? {
      SubmitWrites(s, op.a, r);
    } else if op.Act? && op.a < |s.actors| && s.actors[op.a].Poller? {
      PollWrites(s, op.a, r);
    } else if op.SweepOne? && op.a < |s.actors| {
      SweepWrites(s, op.a, op.id, op.late, r);
    } else {
      assert Step(s, op).runs == s.runs;
    }
  }

  lemma PollWrites(s: State, a: nat, r: nat)
    requires a < |s.actors| && s.actors[a].Poller?
    ensures |PollStep(s, a).runs| == |s.runs|
    ensures r < |s.runs| ==> PollStep(s, a).runs[r].wrote == s.runs[r].wrote
  {
  }

  lemma SweepWrites(s: State, a: nat, id: JobId, late: bool, r: nat)
    requires a < |s.actors|
    ensures |Sweep(s, a, id, late).runs| == |s.runs|
    ensures r < |s.runs| ==> Sweep(s, a, id, late).runs[r].wrote == s.runs[r].wrote
  {
  }

  lemma {:induction false} ResultsTraced(maxJobs: nat, ops: seq<Op>, r: nat)
    requires r < |Execute(Init(maxJobs), ops).runs| && Execute(Init(maxJobs), ops).runs[r].wrote.Some?
    ensures ResultOf(ops, r, Execute(Init(maxJobs), ops).runs[r].wrote.value)
    decreases |ops|
  {
    if ops != [] {
      var n := |ops| - 1;
      var before, s := ops[..n], Execute(Init(maxJobs), ops[..n]);
      NewResult(s, ops[n], r);
      if r < |s.runs| && s.runs[r].wrote == Step(s, ops[n]).runs[r].wrote {
        ResultsTraced(maxJobs, before, r);
        var m :| 0 <= m < |before| && before[m] == Finish(r, s.runs[r].wrote.value);
        assert ops[m] == before[m];
      }
    }
  }

  /**
   * At most one poller ever gets the result of a run; it is the one its runner finished with; a submit
   * poller gets failures only; and by then a durable record of the run has been handed to
   * deletion, exactly unless it was left behind by a write that was answered with an error.
   */
  lemma OneReader(maxJobs: nat, ops: seq<Op>, p: nat, q: nat)
    ensures var s := Execute(Init(maxJobs), ops);
      p < |s.actors| && s.actors[p].Poller? && s.actors[p].poll.Ready? ==>
        var mine := s.actors[p].poll;
        && mine.run < |s.runs| && s.runs[mine.run].wrote == Some(mine.result)
        && (!s.actors[p].consuming ==> !mine.result.Success? && !mine.result.Redirect?)
        && ResultOf(ops, mine.run, mine.result)
        && (mine.run in s.cleanup <==> s.runs[mine.run].recorded && !s.runs[mine.run].landed)
        && (q < |s.actors| && s.actors[q].Poller? && s.actors[q].poll.Ready? && s.actors[q].poll.run == mine.run ==>
              q == p)
  {
    ExecuteKeeps(Init(maxJobs), ops);
    var s := Execute(Init(maxJobs), ops);
    if p < |s.actors| && s.actors[p].Poller? && s.actors[p].poll.Ready? {
      assert ActorOk(s.actors[p], p, s.runs, s.cleanup);
      ResultsTraced(maxJobs, ops, s.actors[p].poll.run);
      if q < |s.actors| && s.actors[q].Poller? && s.actors[q].poll.Ready? && s.actors[q].poll.run == s.actors[p].poll.run {
        assert ActorOk(s.actors[q], q, s.runs, s.cleanup);
      }
    }
  }

  /**
   * A connected poller that finds a result takes it, unless it is a submit poller and the result
   * is a success or a redirect: then it leaves the result where it is and reports pending.
   */
  lemma PollerTakes(maxJobs: nat, ops: seq<Op>, a: nat)
    requires var s := Execute(Init(maxJobs), ops); a < |s.actors| && s.actors[a].Poller? && s.actors[a].poll.Connected?
    ensures var s := Execute(Init(maxJobs), ops);
      var r, t := s.actors[a].poll.run, Step(Execute(Init(maxJobs), ops), Act(a));
      && r < |s.runs| == |t.runs| && |t.actors| == |s.actors|
      && (s.runs[r].slot == None ==> t == s)
      && (s.runs[r].slot.Some? ==>
            var result := s.runs[r].slot.value;
            if !s.actors[a].consuming && (result.Success? || result.Redirect?)
            then t.runs == s.runs && t.actors[a] == s.actors[a].(poll := Pending)
            else t.runs[r].slot == None && t.actors[a] == s.actors[a].(poll := Took(r, result)))
  {
    ExecuteKeeps(Init(maxJobs), ops);
    var s := Execute(Init(maxJobs), ops);
    assert ActorOk(s.actors[a], a, s.runs, s.cleanup);
  }

  /** A poll whose time is up reports pending and leaves everything where it is. */
  lemma PollTimesOut(s: State, a: nat)
    requires a < |s.actors| && s.actors[a].Poller? && s.actors[a].poll.Connected?
    ensures Step(s, GiveUp(a)) == s.(actors := s.actors[a := s.actors[a].(poll := Pending)])
  {
  }

  /** A submission gets past the limit exactly when there is room or it is a recovery, and into the map exactly when its id is vacant. */
  lemma SubmitDecides(maxJobs: nat, ops: seq<Op>, a: nat)
    requires var s := Execute(Init(maxJobs), ops); a < |s.actors| && s.actors[a].Submitter?
    ensures var s := Execute(Init(maxJobs), ops);
      var me, t := s.actors[a], Step(Execute(Init(maxJobs), ops), Act(a));
      && |t.actors| == |s.actors|
      && (me.submit.Start? ==>
            t.actors[a].submit == if me.recovered || s.count < maxJobs then Reserved else TurnedAway)
      && (me.submit.Reserved? ==>
            if me.id in s.jobs then t.actors[a].submit == Duplicate && t.jobs == s.jobs
            else t.actors[a].submit == Accepted(|s.runs|) && t.jobs == s.jobs[me.id := |s.runs|] && |t.runs| == |s.runs| + 1)
      && (me.submit.Duplicate? ==> t.actors[a].submit == TurnedAway && t.count == s.count - 1)
  {
    ExecuteKeeps(Init(maxJobs), ops);
    MaxStays(Init(maxJobs), ops);
    var s := Execute(Init(maxJobs), ops);
    if InTransit(s.actors[a]) {
      TransitCounts(s, a);
    }
  }

  /** The sweeper removes a run exactly when it has a result, its deadline is over and no poller is connected to it. */
  lemma SweepDecides(maxJobs: nat, ops: seq<Op>, a: nat, id: JobId, late: bool)
    requires var s := Execute(Init(maxJobs), ops); a < |s.actors| && s.actors[a] == Sweeper(Idle) && id in s.jobs
    ensures var s := Execute(Init(maxJobs), ops);
      var r, t := s.jobs[id], Step(Execute(Init(maxJobs), ops), SweepOne(a, id, late));
      && r < |s.runs|
      && (id !in t.jobs <==> late && s.runs[r].slot.Some? && forall b | b in s.actors :: !Watches(b, r))
      && (id !in t.jobs ==> t.actors == s.actors[a := Sweeper(Swept(r))])
  {
    ExecuteKeeps(Init(maxJobs), ops);
  }

  /** What the sweeper removed was finished, and its durable record is deleted. */
  lemma SweptIsCleared(maxJobs: nat, ops: seq<Op>, a: nat)
    ensures var s := Execute(Init(maxJobs), ops);
      a < |s.actors| && s.actors[a].Sweeper? && s.actors[a].sweep.Cleared? ==>
        var r := s.actors[a].sweep.run;
        r < |s.runs| && s.runs[r].wrote.Some? && !s.runs[r].listed && (r in s.cleanup <==> s.runs[r].recorded && !s.runs[r].landed)
  {
    ExecuteKeeps(Init(maxJobs), ops);
    var s := Execute(Init(maxJobs), ops);
    if a < |s.actors| {
      assert ActorOk(s.actors[a], a, s.runs, s.cleanup);
    }
  }

  /** A poller about to remove this id. */
  ghost predicate Removing(s: State, op: Op, id: JobId) {
    && op.Act? && op.a < |s.actors| && s.actors[op.a].Poller? && s.actors[op.a].poll.Took?
    && s.actors[op.a].id == id
  }

  ghost predicate InMap(runs: seq<Run>, r: nat) {
    r < |runs| && runs[r].listed && !runs[r].swept
  }

  lemma PollSpares(s: State, a: nat, r: nat)
    requires Indexed(s.jobs, s.runs) && InMap(s.runs, r) && a < |s.actors| && s.actors[a].Poller?
    requires !Removing(s, Act(a), s.runs[r].id)
    ensures InMap(PollStep(s, a).runs, r)
  {
    var id := s.actors[a].id;
    if s.actors[a].poll.Took? && id in s.jobs {
      assert s.runs[s.jobs[id]].id == id && s.jobs[id] != r;
    }
  }

  lemma SweepSpares(s: State, a: nat, id: JobId, late: bool, i: nat, r: nat)
    requires Indexed(s.jobs, s.runs) && InMap(s.runs, r) && a < |s.actors|
    requires i < |s.actors| && Watches(s.actors[i], r)
    ensures InMap(Sweep(s, a, id, late).runs, r)
  {
    assert s.actors[i] in s.actors;
  }

  lemma StepSpares(s: State, op: Op, i: nat, r: nat)
    requires Inv(s) && InMap(s.runs, r) && i < |s.actors| && Watches(s.actors[i], r)
    requires !Removing(s, op, s.runs[r].id)
    ensures InMap(Step(s, op).runs, r)
  {
    if op.Act? && op.a < |s.actors| && s.actors[op.a].Poller? {
      PollSpares(s, op.a, r);
    } else if op.SweepOne? && op.a < |s.actors| {
      SweepSpares(s, op.a, op.id, op.late, i, r);
    }
  }

  /** The i-th actor stays connected to run r all along, and no poller removes its id. */
  ghost predicate Undisturbed(s: State, ops: seq<Op>, i: nat, r: nat) {
    forall n | 0 <= n < |ops| :: Calm(Execute(s, ops[..n]), ops[n], i, r)
  }

  ghost predicate Calm(s: State, op: Op, i: nat, r: nat) {
    i < |s.actors| && Watches(s.actors[i], r) && r < |s.runs| && !Removing(s, op, s.runs[r].id)
  }

  lemma UndisturbedBefore(s: State, ops: seq<Op>, i: nat, r: nat)
    requires ops != [] && Undisturbed(s, ops, i, r)
    ensures Undisturbed(s, ops[..|ops| - 1], i, r) && Calm(Execute(s, ops[..|ops| - 1]), ops[|ops| - 1], i, r)
  {
    var before := ops[..|ops| - 1];
    forall k | 0 <= k < |before| ensures Calm(Execute(s, before[..k]), before[k], i, r) {
      assert before[..k] == ops[..k] && before[k] == ops[k];
    }
  }

  lemma {:induction false} SparedAlong(s: State, ops: seq<Op>, i: nat, r: nat)
    requires Inv(s) && InMap(s.runs, r) && Undisturbed(s, ops, i, r)
    ensures InMap(Execute(s, ops).runs, r)
  {
    if ops != [] {
      var n := |ops| - 1;
      var before := ops[..n];
      UndisturbedBefore(s, ops, i, r);
      SparedAlong(s, before, i, r);
      ExecuteKeeps(s, before);
      StepSpares(Execute(s, before), ops[n], i, r);
    }
  }

  /** However long a client stays connected to a run, only a poller that took a result for its id takes it away. */
  lemma WatchedStays(maxJobs: nat, ops: seq<Op>, more: seq<Op>, i: nat, r: nat)
    requires var s := Execute(Init(maxJobs), ops); r < |s.runs| && s.runs[r].listed && Undisturbed(s, more, i, r)
    ensures InMap(Execute(Execute(Init(maxJobs), ops), more).runs, r)
  {
    ExecuteKeeps(Init(maxJobs), ops);
    var s := Execute(Init(maxJobs), ops);
    assert RunOk(s.runs[r]);
    SparedAlong(s, more, i, r);
  }

  /** Once written, a result is never written again; the durable flag is final, and true to the store unless a failed write landed. */
  lemma {:induction false} WrittenOnce(maxJobs: nat, ops: seq<Op>, more: seq<Op>, r: nat)
    requires r < |Execute(Init(maxJobs), ops).runs| && Execute(Init(maxJobs), ops).runs[r].wrote.Some?
    ensures var was, s := Execute(Init(maxJobs), ops).runs[r], Execute(Init(maxJobs), ops + more);
      && r < |s.runs| && s.runs[r].wrote == was.wrote
      && s.runs[r].recorded == was.recorded && s.runs[r].landed == was.landed
      && (s.runs[r].persisted <==> s.runs[r].recorded && !s.runs[r].landed)
  {
    ExecuteKeeps(Init(maxJobs), ops);
    if more == [] {
      assert ops + more == ops;
      assert RunOk(Execute(Init(maxJobs), ops).runs[r]);
    } else {
      var n := |more| - 1;
      assert (ops + more)[..|ops + more| - 1] == ops + more[..n];
      WrittenOnce(maxJobs, ops, more[..n], r);
      var s := Execute(Init(maxJobs), ops + more[..n]);
      ExecuteKeeps(Init(maxJobs), ops + more[..n]);
      StepLater(s, more[n]);
      assert Later(s.runs[r], Step(s, more[n]).runs[r]);
    }
  }

  // ------------------------------------------------------- finding a result

  ghost predicate Distinct(runs: seq<Run>) {
    forall i, j | 0 <= i < j < |runs| :: runs[i].id != runs[j].id
  }

  /** A run that nobody took or swept is still in the map. */
  ghost predicate Findable(runs: seq<Run>) {
    forall r | 0 <= r < |runs| && !runs[r].swept && runs[r].taker.None? :: runs[r].listed
  }

  /** A poller that took the result of one run is about to remove another, which reused the id. */
  predicate Stale(s: State, op: Op) {
    && op.Act? && op.a < |s.actors| && s.actors[op.a].Poller? && s.actors[op.a].poll.Took?
    && s.actors[op.a].id in s.jobs && s.jobs[s.actors[op.a].id] < |s.runs|
    && s.runs[s.jobs[s.actors[op.a].id]].taker.None?
  }

  /** A removal by id loses a wanted run exactly if nobody took what it finds. */
  lemma RemovalLoses(s: State, a: nat)
    requires Inv(s) && Findable(s.runs) && a < |s.actors| && s.actors[a].Poller? && s.actors[a].poll.Took?
    ensures Findable(PollStep(s, a).runs) <==> !Stale(s, Act(a))
  {
    var id := s.actors[a].id;
    if id in s.jobs {
      var r, t := s.jobs[id], PollStep(s, a);
      assert t.runs == s.runs[r := s.runs[r].(listed := false)];
      assert RunOk(s.runs[r]);
      assert Stale(s, Act(a)) ==> !t.runs[r].swept && t.runs[r].taker.None? && !t.runs[r].listed;
    }
  }

  lemma SweepLosesNothing(s: State, a: nat, id: JobId, late: bool)
    requires Findable(s.runs) && a < |s.actors|
    ensures Findable(Sweep(s, a, id, late).runs)
  {
  }

  lemma RunFindable(runs: seq<Run>, r: nat, x: Run)
    requires Findable(runs) && r < |runs| && x.listed == runs[r].listed
    requires (runs[r].swept ==> x.swept) && (runs[r].taker.Some? ==> x.taker.Some?)
    ensures Findable(runs[r := x])
  {
  }

  /** Only a stale removal loses a run that is still wanted, and it always does. */
  lemma OnlyStaleLoses(s: State, op: Op)
    requires Inv(s) && Findable(s.runs)
    ensures Findable(Step(s, op).runs) <==> !Stale(s, op)
  {
    if op.Act? && op.a < |s.actors| && s.actors[op.a].Poller? && s.actors[op.a].poll.Took? {
      RemovalLoses(s, op.a);
    } else if op.SweepOne? && op.a < |s.actors| {
      SweepLosesNothing(s, op.a, op.id, op.late);
    } else if OfRunner(op) {
      RunnerFindable(s, op);
    } else if op.Act? && op.a < |s.actors| && s.actors[op.a].Poller? {
      PollFindable(s, op.a);
    }
  }

  lemma RunnerFindable(s: State, op: Op)
    requires Inv(s) && Findable(s.runs) && OfRunner(op)
    ensures Findable(Step(s, op).runs)
  {
    RunnerSteps(s, op);
    if op.r < |s.runs| {
      RunnerStepOk(s.runs[op.r], op);
      RunFindable(s.runs, op.r, RunnerStep(s.runs[op.r], op));
    }
  }

  lemma PollFindable(s: State, a: nat)
    requires Findable(s.runs) && a < |s.actors| && s.actors[a].Poller? && !s.actors[a].poll.Took?
    ensures Findable(PollStep(s, a).runs)
  {
  }

  /** While no id is accepted twice, every unclaimed result can be found. */
  lemma {:induction false} StaysFindable(maxJobs: nat, ops: seq<Op>)
    requires Distinct(Execute(Init(maxJobs), ops).runs)
    ensures Findable(Execute(Init(maxJobs), ops).runs)
  {
    if ops != [] {
      var before, op := ops[..|ops| - 1], ops[|ops| - 1];
      var s := Execute(Init(maxJobs), before);
      ExecuteKeeps(Init(maxJobs), before);
      StepLater(s, op);
      forall i, j | 0 <= i < j < |s.runs| ensures s.runs[i].id != s.runs[j].id {
        assert Later(s.runs[i], Step(s, op).runs[i]) && Later(s.runs[j], Step(s, op).runs[j]);
      }
      StaysFindable(maxJobs, before);
      NotStale(s, op);
      OnlyStaleLoses(s, op);
    }
  }

  lemma NotStale(s: State, op: Op)
    requires Inv(s) && Distinct(s.runs)
    ensures !Stale(s, op)
  {
    if op.Act? && op.a < |s.actors| && s.actors[op.a].Poller? && s.actors[op.a].poll.Took? {
      var me := s.actors[op.a];
      assert ActorOk(me, op.a, s.runs, s.cleanup);
      assert me.id in s.jobs ==> s.jobs[me.id] == me.poll.run;
    }
  }

  ghost predicate Reachable(s: State) {
    exists maxJobs: nat, ops: seq<Op> :: s == Execute(Init(maxJobs), ops)
  }

  lemma Then(s: State, op: Op) returns (t: State)
    requires Reachable(s)
    ensures t == Step(s, op) && Reachable(t)
  {
    var maxJobs: nat, ops: seq<Op> :| s == Execute(Init(maxJobs), ops);
    t := Step(s, op);
    assert (ops + [op])[..|ops|] == ops;
    assert t == Execute(Init(maxJobs), ops + [op]);
  }

  lemma FinishedRun(id: JobId) returns (s: State)
    ensures Reachable(s) && s.maxJobs == 2 && |s.runs| == 1 && |s.actors| == 1
    ensures s.jobs == map[id := 0] && s.count == 1 && s.cleanup == {}
    ensures s.actors[0].Submitter?
    ensures s.runs[0] == Run(id, false, Done, false, false, false, Some(Cancelled), Some(Cancelled), None, true, false)
  {
    s := Init(2);
    assert s == Execute(Init(2), []);
    s := Then(s, Arrive(Submitter(id, false, Start)));
    s := Then(s, Act(0));
    s := Then(s, Act(0));
    assert s.jobs == map[id := 0] && s.count == 1 && |s.runs| == 1 && s.runs[0].phase == Spawned;
    s := Then(s, Proceed(0));
    s := Then(s, Finish(0, Cancelled));
  }

  /** One finished run, looked up by a poller that has not yet connected, and swept meanwhile. */
  lemma SweptUnderPoller(id: JobId) returns (s: State)
    ensures Reachable(s) && s.maxJobs == 2 && |s.runs| == 1 && |s.actors| == 3
    ensures s.jobs == map[] && s.count == 0
    ensures s.actors[1] == Poller(id, true, Got(0)) && s.runs[0].slot == Some(Cancelled) && s.runs[0].id == id
  {
    s := FinishedRun(id);
    s := Then(s, Arrive(Poller(id, true, Looking)));
    s := Then(s, Act(1));
    assert s.actors[1] == Poller(id, true, Got(0));
    s := Then(s, Arrive(Sweeper(Idle)));
    s := Then(s, SweepOne(2, id, true));
    assert s.jobs == map[] && s.actors[2] == Sweeper(Swept(0));
    s := Then(s, Act(2));
  }

  /** Whatever the id: when it is accepted again after a sweep, a late poller of the first run loses the second. */
  lemma ReuseLosesRun(id: JobId) returns (s: State)
    ensures Reachable(s) && |s.runs| == 2 && s.runs[0].id == s.runs[1].id == id && !Findable(s.runs)
  {
    s := SweptUnderPoller(id);
    s := Then(s, Arrive(Submitter(id, false, Start)));
    s := Then(s, Act(3));
    s := Then(s, Act(3));
    assert s.jobs == map[id := 1] && |s.runs| == 2 && s.runs[1].taker.None?;
    s := Then(s, Act(1));
    s := Then(s, Act(1));
    assert s.actors[1] == Poller(id, true, Took(0, Cancelled));
    s := Then(s, Act(1));
    assert !s.runs[1].swept && s.runs[1].taker.None? && !s.runs[1].listed;
  }

  /** Whatever the id: a write that fails after landing leaves a record that consumption does not delete. */
  lemma LandedRecordStays(id: JobId) returns (s: State)
    ensures Reachable(s) && |s.runs| == 1 && |s.actors| == 2 && s.runs[0].id == id
    ensures s.actors[1] == Poller(id, true, Ready(0, Cancelled))
    ensures s.runs[0].recorded && s.runs[0].landed && 0 !in s.cleanup
  {
    s := LandedRun(id);
    s := Then(s, Arrive(Poller(id, true, Looking)));
    s := Then(s, Act(1));
    s := Then(s, Act(1));
    s := Then(s, Act(1));
    assert s.actors[1] == Poller(id, true, Took(0, Cancelled)) && s.jobs == map[id := 0];
    s := Then(s, Act(1));
    assert s.actors[1] == Poller(id, true, Removed(0, Cancelled));
    s := Then(s, Act(1));
    s := Then(s, Act(1));
  }

  lemma LandedRun(id: JobId) returns (s: State)
    ensures Reachable(s) && |s.runs| == 1 && |s.actors| == 1
    ensures s.jobs == map[id := 0] && s.count == 1 && s.cleanup == {} && s.actors[0].Submitter?
    ensures s.runs[0] == Run(id, false, Done, false, true, true, Some(Cancelled), Some(Cancelled), None, true, false)
  {
    s := Init(2);
    assert s == Execute(Init(2), []);
    s := Then(s, Arrive(Submitter(id, false, Start)));
    s := Then(s, Act(0));
    s := Then(s, Act(0));
    assert s.jobs == map[id := 0] && s.count == 1 && |s.runs| == 1 && s.runs[0].phase == Spawned;
    s := Then(s, Proceed(0));
    s := Then(s, Proceed(0));
    assert s.runs[0].phase == Storing;
    s := Then(s, StoreFails(0, true));
    s := Then(s, Finish(0, Cancelled));
  }
}
