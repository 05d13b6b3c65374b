/**
 * Jobs handed to remote workers. A worker claims a job, keeps it alive with heartbeats and
 * completes it; the reaper evicts silent ones and shutdown drains the rest. Whoever takes the
 * entry out of the in-progress map decides what the waiting caller is told.
 */
module RemotePool {
  import opened Wrappers
  import opened Counting

  type JobId = string

  datatype WorkerOutcome = Complete(body: string) | Redirect(location: string) | Reject(reason: string) | Error(message: string)

  datatype Reply =
    | Success(body: string) | Redirected(location: string) | JobError(message: string)
    | Rejected(reason: string, silent: bool)
    | ResourceError

  /** How an entry left the map; an eviction remembers how long the worker had been silent. */
  datatype End = Posted(outcome: WorkerOutcome) | Evicted(silence: nat) | Drained | Replaced

  /** One hand-out of a job to a worker, its end, and what its caller was told. */
  datatype Claim = Claim(job: JobId, end: Option<End>, reply: Option<Reply>)

  datatype Entry = Entry(claim: nat, lastBeat: nat)

  datatype Reaper =
    | Waiting
    | Passing(stamp: nat, todo: set<JobId>)
    | Draining(todo: set<JobId>, since: nat)  // the claims made so far when the drain began
    | Stopped(since: nat)

  datatype State = State(timeout: nat, now: nat, claims: seq<Claim>, inProgress: map<JobId, Entry>,
                         reaper: Reaper, lastPass: nat)

  function Init(timeout: nat, now: nat): State {
    State(timeout, now, [], map[], Waiting, now)
  }

  datatype Op =
    | Advance(dt: nat)
    | GetWork(job: JobId)
    | Heartbeat(job: JobId)
    | Post(job: JobId, outcome: WorkerOutcome)
    | Tick
    | Visit(job: JobId)
    | PassDone
    | Shutdown
    | Drop(job: JobId)
    | DrainDone
    | Answer(claim: nat)

  function Translate(e: End): Reply {
    match e
    case Posted(Complete(body)) => Success(body)
    case Posted(Redirect(location)) => Redirected(location)
    case Posted(Reject(reason)) => Rejected(reason, true)
    case Posted(Error(message)) => JobError(message)
    case Evicted(_) => ResourceError
    case Drained => ResourceError
    case Replaced => ResourceError
  }

  function Since(now: nat, past: nat): nat { if now >= past then now - past else 0 }

  /** The claim of an entry is over; the entry itself is dealt with by the caller. */
  function Closed(claims: seq<Claim>, c: nat, end: End): seq<Claim> {
    if c < |claims| then claims[c := claims[c].(end := Some(end))] else claims
  }

  function Remove(s: State, job: JobId, end: End): State {
    if job in s.inProgress then
      s.(claims := Closed(s.claims, s.inProgress[job].claim, end), inProgress := s.inProgress - {job})
    else s
  }

  function Insert(s: State, job: JobId): State {
    s.(claims := s.claims + [Claim(job, None, None)], inProgress := s.inProgress[job := Entry(|s.claims|, s.now)])
  }

  function Step(s: State, op: Op): State {
    match op
    case Advance(dt) => s.(now := s.now + dt)
    case GetWork(job) => Insert(Remove(s, job, Replaced), job)
    case Heartbeat(job) =>
      if job in s.inProgress
      then s.(inProgress := s.inProgress[job := s.inProgress[job].(lastBeat := s.now)]) else s
    case Post(job, outcome) => Remove(s, job, Posted(outcome))
    case Tick => if s.reaper.Waiting? then s.(reaper := Passing(s.now, s.inProgress.Keys)) else s
    case Visit(job) =>
      if s.reaper.Passing? then
        var t := s.(reaper := Passing(s.reaper.stamp, s.reaper.todo - {job}));
        if job in s.inProgress && Since(s.reaper.stamp, s.inProgress[job].lastBeat) >= s.timeout
        then Remove(t, job, Evicted(Since(s.reaper.stamp, s.inProgress[job].lastBeat))) else t
      else s
    case PassDone =>
      if s.reaper.Passing? && s.reaper.todo == {} then s.(reaper := Waiting, lastPass := s.reaper.stamp) else s
    case Shutdown =>
      if s.reaper.Waiting?
      then s.(reaper := Draining(s.inProgress.Keys, |s.claims|)) else s
    case Drop(job) =>
      if s.reaper.Draining? && job in s.reaper.todo
      then Remove(s, job, Drained).(reaper := Draining(s.reaper.todo - {job}, s.reaper.since)) else s
    case DrainDone =>
      if s.reaper.Draining? && s.reaper.todo == {} then s.(reaper := Stopped(s.reaper.since)) else s
    case Answer(c) =>
      if c < |s.claims| && s.claims[c].end.Some? && s.claims[c].reply.None?
      then s.(claims := s.claims[c := s.claims[c].(reply := Some(Translate(s.claims[c].end.value)))]) else s
  }

  function Execute(s: State, ops: seq<Op>): State {
    if ops == [] then s else Step(Execute(s, ops[..|ops| - 1]), ops[|ops| - 1])
  }

  // -------------------------------------------------------------- invariants

  predicate Over(c: Claim) { c.end.Some? }

  ghost predicate ClaimOk(c: Claim, timeout: nat) {
    && (c.reply.Some? ==> c.end.Some? && c.reply.value == Translate(c.end.value))
    && (c.end.Some? && c.end.value.Evicted? ==> c.end.value.silence >= timeout)
  }

  /** The open claims are exactly those the map points to. */
  ghost predicate Matched(claims: seq<Claim>, inProgress: map<JobId, Entry>) {
    && (forall j | j in inProgress ::
          var c := inProgress[j].claim; c < |claims| && claims[c].job == j && claims[c].end.None?)
    && (forall c | 0 <= c < |claims| && claims[c].end.None? ::
          claims[c].job in inProgress && inProgress[claims[c].job].claim == c)
  }

  /** Closed and open claims together are all claims, and each tells the truth about its end. */
  ghost predicate Books(claims: seq<Claim>, inProgress: map<JobId, Entry>, timeout: nat) {
    && Matched(claims, inProgress)
    && Tally(claims, Over) + |inProgress| == |claims|
    && (forall c | 0 <= c < |claims| :: ClaimOk(claims[c], timeout))
  }

  /** Nobody in the map was already too silent when the last pass began. */
  ghost predicate Timely(s: State) {
    && s.timeout > 0 && s.lastPass <= s.now
    && forall j | j in s.inProgress ::
         s.lastPass < s.inProgress[j].lastBeat + s.timeout && s.inProgress[j].lastBeat <= s.now
  }

  /** What the reaper has seen to: entries of this pass, or claims of the drain. */
  ghost predicate ReaperOk(r: Reaper, claims: nat, inProgress: map<JobId, Entry>, timeout: nat, from: nat, to: nat) {
    match r
    case Waiting => true
    case Passing(stamp, todo) =>
      && from <= stamp <= to
      && forall j | j in inProgress && j !in todo :: inProgress[j].lastBeat + timeout > stamp
    case Draining(todo, since) =>
      since <= claims && forall j | j in inProgress && inProgress[j].claim < since :: j in todo
    case Stopped(since) =>
      since <= claims && forall j | j in inProgress :: inProgress[j].claim >= since
  }

  ghost predicate Inv(s: State) {
    && Books(s.claims, s.inProgress, s.timeout)
    && Timely(s)
    && ReaperOk(s.reaper, |s.claims|, s.inProgress, s.timeout, s.lastPass, s.now)
  }

  ghost predicate Later(was: seq<Claim>, now: seq<Claim>) {
    && |was| <= |now|
    && forall c | 0 <= c < |was| ::
         && now[c].job == was[c].job
         && (was[c].end.Some? ==> now[c].end == was[c].end)
         && (was[c].reply.Some? ==> now[c].reply == was[c].reply)
  }

  lemma RemoveMatched(claims: seq<Claim>, inProgress: map<JobId, Entry>, job: JobId, end: End)
    requires Matched(claims, inProgress) && job in inProgress
    ensures Matched(Closed(claims, inProgress[job].claim, end), inProgress - {job})
    ensures Later(claims, Closed(claims, inProgress[job].claim, end))
  {
  }

  lemma RemoveBooks(claims: seq<Claim>, inProgress: map<JobId, Entry>, timeout: nat, job: JobId, end: End)
    requires Books(claims, inProgress, timeout) && job in inProgress && (end.Evicted? ==> end.silence >= timeout)
    ensures Books(Closed(claims, inProgress[job].claim, end), inProgress - {job}, timeout)
    ensures Later(claims, Closed(claims, inProgress[job].claim, end))
  {
    var c := inProgress[job].claim;
    var after := claims[c].(end := Some(end));
    RemoveMatched(claims, inProgress, job, end);
    TallyUpdate(claims, c, after, Over);
    assert ClaimOk(claims[c], timeout) && ClaimOk(after, timeout);
    OneFewer(inProgress, job);
  }

  lemma RemoveKeeps(s: State, job: JobId, end: End)
    requires Inv(s) && (end.Evicted? ==> end.silence >= s.timeout)
    ensures Inv(Remove(s, job, end)) && Later(s.claims, Remove(s, job, end).claims)
    ensures job !in Remove(s, job, end).inProgress
  {
    if job in s.inProgress {
      RemoveBooks(s.claims, s.inProgress, s.timeout, job, end);
    }
  }

  lemma InsertBooks(claims: seq<Claim>, inProgress: map<JobId, Entry>, timeout: nat, job: JobId, now: nat)
    requires Books(claims, inProgress, timeout) && job !in inProgress
    ensures Books(claims + [Claim(job, None, None)], inProgress[job := Entry(|claims|, now)], timeout)
  {
    TallyAppend(claims, Claim(job, None, None), Over);
    OneMore(inProgress, job, Entry(|claims|, now));
  }

  lemma InsertKeeps(s: State, job: JobId)
    requires Inv(s) && job !in s.inProgress
    ensures Inv(Insert(s, job)) && Later(s.claims, Insert(s, job).claims)
  {
    InsertBooks(s.claims, s.inProgress, s.timeout, job, s.now);
  }

  lemma BeatKeeps(s: State, job: JobId)
    requires Inv(s) && job in s.inProgress
    ensures Inv(Step(s, Heartbeat(job)))
  {
    OneMore(s.inProgress, job, s.inProgress[job].(lastBeat := s.now));
  }

  lemma AnswerBooks(claims: seq<Claim>, inProgress: map<JobId, Entry>, timeout: nat, c: nat, after: Claim)
    requires Books(claims, inProgress, timeout) && c < |claims| && claims[c].end.Some? && claims[c].reply.None?
    requires after == claims[c].(reply := Some(Translate(claims[c].end.value)))
    ensures Books(claims[c := after], inProgress, timeout) && Later(claims, claims[c := after])
  {
    TallyUpdate(claims, c, after, Over);
    assert ClaimOk(claims[c], timeout) && ClaimOk(after, timeout);
  }

  lemma AnswerKeeps(s: State, c: nat)
    requires Inv(s)
    ensures Inv(Step(s, Answer(c))) && Later(s.claims, Step(s, Answer(c)).claims)
  {
    if c < |s.claims| && s.claims[c].end.Some? && s.claims[c].reply.None? {
      AnswerBooks(s.claims, s.inProgress, s.timeout, c, Step(s, Answer(c)).claims[c]);
    }
  }

  lemma VisitKeeps(s: State, job: JobId)
    requires Inv(s) && s.reaper.Passing?
    ensures Inv(Step(s, Visit(job))) && Later(s.claims, Step(s, Visit(job)).claims)
  {
    if job in s.inProgress && Since(s.reaper.stamp, s.inProgress[job].lastBeat) >= s.timeout {
      RemoveKeeps(s, job, Evicted(Since(s.reaper.stamp, s.inProgress[job].lastBeat)));
    }
  }

  lemma LaterTwice(a: seq<Claim>, b: seq<Claim>, c: seq<Claim>)
    requires Later(a, b) && Later(b, c)
    ensures Later(a, c)
  {
  }

  lemma GetWorkKeeps(s: State, job: JobId)
    requires Inv(s)
    ensures Inv(Step(s, GetWork(job))) && Later(s.claims, Step(s, GetWork(job)).claims)
  {
    var mid := Remove(s, job, Replaced);
    RemoveKeeps(s, job, Replaced);
    InsertKeeps(mid, job);
    assert Step(s, GetWork(job)) == Insert(mid, job);
    LaterTwice(s.claims, mid.claims, Insert(mid, job).claims);
  }

  lemma DropKeeps(s: State, job: JobId)
    requires Inv(s)
    ensures Inv(Step(s, Drop(job))) && Later(s.claims, Step(s, Drop(job)).claims)
  {
    if s.reaper.Draining? && job in s.reaper.todo {
      RemoveKeeps(s, job, Drained);
      var t := Remove(s, job, Drained);
      assert t.reaper == s.reaper && job !in t.inProgress;
      DropReaper(t, job);
    }
  }

  /** An entry that is gone need not be dropped any more. */
  lemma DropReaper(t: State, job: JobId)
    requires Inv(t) && t.reaper.Draining? && job !in t.inProgress
    ensures Inv(t.(reaper := Draining(t.reaper.todo - {job}, t.reaper.since)))
  {
  }

  lemma StepKeeps(s: State, op: Op)
    requires Inv(s)
    ensures Inv(Step(s, op)) && Later(s.claims, Step(s, op).claims) && Step(s, op).timeout == s.timeout
  {
    if op.GetWork? {
      GetWorkKeeps(s, op.job);
    } else if op.Heartbeat? && op.job in s.inProgress {
      BeatKeeps(s, op.job);
    } else if op.Post? {
      RemoveKeeps(s, op.job, Posted(op.outcome));
    } else if op.Visit? && s.reaper.Passing? {
      VisitKeeps(s, op.job);
    } else if op.Drop? {
      DropKeeps(s, op.job);
    } else if op.Answer? {
      AnswerKeeps(s, op.claim);
    } else {
      QuietKeeps(s, op);
    }
  }

  /** Steps that touch no claim. */
  lemma QuietKeeps(s: State, op: Op)
    requires Inv(s) && !op.GetWork? && !op.Post? && !op.Drop? && !op.Answer?
    requires op.Heartbeat? ==> op.job !in s.inProgress
    requires op.Visit? ==> !s.reaper.Passing?
    ensures Inv(Step(s, op)) && Step(s, op).claims == s.claims && Step(s, op).timeout == s.timeout
  {
  }

  lemma {:induction false} ExecuteKeeps(s: State, ops: seq<Op>)
    requires Inv(s)
    ensures Inv(Execute(s, ops)) && Execute(s, ops).timeout == s.timeout
  {
    if ops != [] {
      ExecuteKeeps(s, ops[..|ops| - 1]);
      StepKeeps(Execute(s, ops[..|ops| - 1]), ops[|ops| - 1]);
    }
  }

  // ---------------------------------------------------------------- theorems

  lemma InitHolds(timeout: nat, now: nat)
    requires timeout > 0
    ensures Inv(Init(timeout, now))
  {
  }

  /**
   * Each claim ends once: it is open exactly while the map points to it, and once something
   * took it out (a completion, the reaper, the drain or a newer claim of the same job) neither
   * that end nor the reply it causes ever changes.
   */
  lemma {:induction false} EndsOnce(timeout: nat, now: nat, ops: seq<Op>, more: seq<Op>, c: nat)
    requires timeout > 0 && c < |Execute(Init(timeout, now), ops).claims|
    ensures var s, t := Execute(Init(timeout, now), ops), Execute(Init(timeout, now), ops + more);
      && (s.claims[c].end.None? <==> s.claims[c].job in s.inProgress && s.inProgress[s.claims[c].job].claim == c)
      && (s.claims[c].reply.Some? ==>
            s.claims[c].end.Some? && s.claims[c].reply.value == Translate(s.claims[c].end.value))
      && c < |t.claims|
      && (s.claims[c].end.Some? ==> t.claims[c].end == s.claims[c].end)
      && (s.claims[c].reply.Some? ==> t.claims[c].reply == s.claims[c].reply)
  {
    var s := Execute(Init(timeout, now), ops);
    ExecuteKeeps(Init(timeout, now), ops);
    assert ClaimOk(s.claims[c], timeout);
    LaterRun(s, more);
    ExecuteJoin(Init(timeout, now), ops, more);
  }

  lemma {:induction false} LaterRun(s: State, ops: seq<Op>)
    requires Inv(s)
    ensures Later(s.claims, Execute(s, ops).claims)
  {
    if ops != [] {
      var mid := Execute(s, ops[..|ops| - 1]);
      LaterRun(s, ops[..|ops| - 1]);
      ExecuteKeeps(s, ops[..|ops| - 1]);
      StepKeeps(mid, ops[|ops| - 1]);
      LaterTwice(s.claims, mid.claims, Execute(s, ops).claims);
    }
  }

  lemma {:induction false} ExecuteJoin(s: State, ops: seq<Op>, more: seq<Op>)
    ensures Execute(s, ops + more) == Execute(Execute(s, ops), more)
  {
    if more == [] {
      assert ops + more == ops;
    } else {
      var n := |more| - 1;
      assert (ops + more)[..|ops + more| - 1] == ops + more[..n];
      ExecuteJoin(s, ops, more[..n]);
    }
  }

  // ------------------------------------------- what happened, in terms of the run

  /** Some completion of the job was posted with this outcome while the claim was open. */
  ghost predicate PostedIn(s0: State, ops: seq<Op>, c: nat, outcome: WorkerOutcome) {
    exists n :: 0 <= n < |ops| && PostsFor(Execute(s0, ops[..n]), ops[n], c, outcome)
  }

  ghost predicate PostsFor(s: State, op: Op, c: nat, outcome: WorkerOutcome) {
    c < |s.claims| && s.claims[c].end.None? && op == Post(s.claims[c].job, outcome)
  }

  lemma {:induction false} EndsTraced(s0: State, ops: seq<Op>, c: nat, outcome: WorkerOutcome)
    requires Inv(s0) && s0.claims == []
    requires c < |Execute(s0, ops).claims| && Execute(s0, ops).claims[c].end == Some(Posted(outcome))
    ensures PostedIn(s0, ops, c, outcome)
    decreases |ops|
  {
    if ops != [] {
      var n := |ops| - 1;
      var before, s := ops[..n], Execute(s0, ops[..n]);
      ExecuteKeeps(s0, before);
      StepKeeps(s, ops[n]);
      if c < |s.claims| && s.claims[c].end.Some? {
        EndsTraced(s0, before, c, outcome);
        var m :| 0 <= m < |before| && PostsFor(Execute(s0, before[..m]), before[m], c, outcome);
        assert before[..m] == ops[..m] && before[m] == ops[m];
      } else {
        NewEnd(s, ops[n], c);
        assert PostsFor(Execute(s0, ops[..n]), ops[n], c, outcome);
      }
    }
  }

  /** A step that ends a claim as posted is the post itself. */
  lemma NewEnd(s: State, op: Op, c: nat)
    requires Inv(s) && c < |Step(s, op).claims| && (c < |s.claims| ==> s.claims[c].end.None?)
    ensures var t := Step(s, op);
      t.claims[c].end.Some? && t.claims[c].end.value.Posted? ==> PostsFor(s, op, c, t.claims[c].end.value.outcome)
  {
    if c < |s.claims| {
      if op.GetWork? {
        RemovedEnd(s, op.job, Replaced, c);
      } else if op.Post? {
        RemovedEnd(s, op.job, Posted(op.outcome), c);
      } else if op.Drop? {
        RemovedEnd(s, op.job, Drained, c);
      } else if op.Visit? && s.reaper.Passing? && op.job in s.inProgress {
        RemovedEnd(s, op.job, Evicted(Since(s.reaper.stamp, s.inProgress[op.job].lastBeat)), c);
      }
    }
  }

  /**
   * What a caller is told, in terms of what was posted: a body as a success, a location as a
   * redirect, a rejection silently with its reason, an error as the job's error, each posted while
   * its claim was open; and a resource error exactly when the claim ended without a post.
   */
  lemma CallerIsToldTheOutcome(timeout: nat, now: nat, ops: seq<Op>, c: nat)
    requires timeout > 0 && c < |Execute(Init(timeout, now), ops).claims|
    requires Execute(Init(timeout, now), ops).claims[c].reply.Some?
    ensures var s0 := Init(timeout, now);
      var claim := Execute(s0, ops).claims[c];
      && claim.end.Some?
      && (claim.end.value.Posted? ==>
            && PostedIn(s0, ops, c, claim.end.value.outcome)
            && match claim.end.value.outcome
               case Complete(body) => claim.reply.value == Success(body)
               case Redirect(location) => claim.reply.value == Redirected(location)
               case Reject(reason) => claim.reply.value == Rejected(reason, true)
               case Error(message) => claim.reply.value == JobError(message))
      && (!claim.end.value.Posted? <==> claim.reply.value == ResourceError)
  {
    var s0 := Init(timeout, now);
    ExecuteKeeps(s0, ops);
    var claim := Execute(s0, ops).claims[c];
    assert ClaimOk(claim, timeout);
    if claim.end.value.Posted? {
      EndsTraced(s0, ops, c, claim.end.value.outcome);
    }
  }

  /** A step that hands the job out or hears from its worker. */
  ghost predicate Hears(op: Op, job: JobId) {
    op == GetWork(job) || op == Heartbeat(job)
  }

  ghost predicate LastHeard(s0: State, ops: seq<Op>, job: JobId, n: nat, at: nat) {
    && n < |ops| && Hears(ops[n], job) && Execute(s0, ops[..n]).now == at
    && forall m | n < m < |ops| :: !Hears(ops[m], job)
  }

  lemma HeardStep(s: State, op: Op, job: JobId)
    requires job in Step(s, op).inProgress
    ensures Hears(op, job) ==> Step(s, op).inProgress[job].lastBeat == s.now
    ensures !Hears(op, job) ==> job in s.inProgress && Step(s, op).inProgress[job].lastBeat == s.inProgress[job].lastBeat
  {
  }

  /** An entry's heartbeat is the time of the last hand-out or heartbeat of its job. */
  lemma {:induction false} HeartbeatIsLastHeard(timeout: nat, now: nat, ops: seq<Op>, job: JobId)
    requires job in Execute(Init(timeout, now), ops).inProgress
    ensures exists n: nat :: LastHeard(Init(timeout, now), ops, job, n, Execute(Init(timeout, now), ops).inProgress[job].lastBeat)
    decreases |ops|
  {
    var s0, n := Init(timeout, now), |ops| - 1;
    if ops != [] {
      var before := ops[..n];
      HeardStep(Execute(s0, before), ops[n], job);
      if Hears(ops[n], job) {
        assert LastHeard(s0, ops, job, n, Execute(s0, before).now);
      } else {
        HeartbeatIsLastHeard(timeout, now, before, job);
        var at := Execute(s0, before).inProgress[job].lastBeat;
        var m: nat :| LastHeard(s0, before, job, m, at);
        assert before[..m] == ops[..m];
        assert LastHeard(s0, ops, job, m, at);
      }
    }
  }

  /** Every claim is in progress or over, none twice. */
  lemma ClaimsConserved(timeout: nat, now: nat, ops: seq<Op>)
    requires timeout > 0
    ensures var s := Execute(Init(timeout, now), ops);
      |s.claims| == |s.inProgress| + Tally(s.claims, Over)
  {
    ExecuteKeeps(Init(timeout, now), ops);
  }

  /** Among racing completions exactly one finds the entry, and its claim can then be answered; the others change nothing. */
  lemma OnePostWins(timeout: nat, now: nat, ops: seq<Op>, job: JobId, first: WorkerOutcome, second: WorkerOutcome)
    requires timeout > 0
    ensures var s := Execute(Init(timeout, now), ops);
      var t := Step(s, Post(job, first));
      && Step(t, Post(job, second)) == t
      && (job in s.inProgress ==>
            var c := s.inProgress[job].claim;
            && c < |t.claims| && t.claims[c].end == Some(Posted(first))
            && Step(t, Answer(c)).claims[c].reply.Some?)
      && (job !in s.inProgress ==> t == s)
  {
    ExecuteKeeps(Init(timeout, now), ops);
    var s := Execute(Init(timeout, now), ops);
    if job in s.inProgress {
      PostEnds(s, job, first);
    }
  }

  lemma PostEnds(s: State, job: JobId, outcome: WorkerOutcome)
    requires Inv(s) && job in s.inProgress
    ensures var t, c := Step(s, Post(job, outcome)), s.inProgress[job].claim;
      && job !in t.inProgress && c < |t.claims| && t.claims[c].end == Some(Posted(outcome))
      && Step(t, Answer(c)).claims[c].reply.Some?
  {
    RemovedEnd(s, job, Posted(outcome), s.inProgress[job].claim);
    assert ClaimOk(s.claims[s.inProgress[job].claim], s.timeout);
  }

  ghost predicate IsEvicted(c: Claim) { c.end.Some? && c.end.value.Evicted? }

  /** While a claim is in progress, its worker was heard from within the timeout. */
  ghost predicate Young(s: State, c: nat) {
    c < |s.claims| && s.claims[c].end.None? && s.claims[c].job in s.inProgress ==>
      s.now < s.inProgress[s.claims[c].job].lastBeat + s.timeout
  }

  lemma RemovedEnd(s: State, job: JobId, end: End, c: nat)
    requires Books(s.claims, s.inProgress, s.timeout) && c < |s.claims|
    ensures c < |Remove(s, job, end).claims|
    ensures Remove(s, job, end).claims[c].end ==
            if job in s.inProgress && s.inProgress[job].claim == c then Some(end) else s.claims[c].end
  {
  }

  /** A step evicts a claim only when its worker has been silent for the whole timeout. */
  lemma StepSparesYoung(s: State, op: Op, c: nat)
    requires Inv(s) && Young(s, c) && (c < |s.claims| ==> !IsEvicted(s.claims[c]))
    ensures c < |Step(s, op).claims| ==> !IsEvicted(Step(s, op).claims[c])
  {
    if c < |s.claims| {
      if op.GetWork? {
        RemovedEnd(s, op.job, Replaced, c);
      } else if op.Post? {
        RemovedEnd(s, op.job, Posted(op.outcome), c);
      } else if op.Drop? {
        RemovedEnd(s, op.job, Drained, c);
      } else if op.Visit? && s.reaper.Passing? && op.job in s.inProgress {
        RemovedEnd(s, op.job, Evicted(Since(s.reaper.stamp, s.inProgress[op.job].lastBeat)), c);
      }
    }
  }

  /** In every state of a run. */
  ghost predicate AlwaysYoung(s0: State, ops: seq<Op>, c: nat) {
    forall n | 0 <= n <= |ops| :: Young(Execute(s0, ops[..n]), c)
  }

  lemma YoungBefore(s0: State, ops: seq<Op>, c: nat)
    requires ops != [] && AlwaysYoung(s0, ops, c)
    ensures AlwaysYoung(s0, ops[..|ops| - 1], c) && Young(Execute(s0, ops[..|ops| - 1]), c)
  {
    var before := ops[..|ops| - 1];
    forall k | 0 <= k <= |before| ensures Young(Execute(s0, before[..k]), c) {
      assert before[..k] == ops[..k];
    }
  }

  /** Over every run: a claim whose worker is never silent for a whole timeout is never evicted. */
  lemma {:induction false} YoungNeverEvicted(timeout: nat, now: nat, ops: seq<Op>, c: nat)
    requires timeout > 0 && AlwaysYoung(Init(timeout, now), ops, c)
    ensures var s := Execute(Init(timeout, now), ops); c < |s.claims| ==> !IsEvicted(s.claims[c])
    decreases |ops|
  {
    if ops != [] {
      var s0, before := Init(timeout, now), ops[..|ops| - 1];
      YoungBefore(s0, ops, c);
      YoungNeverEvicted(timeout, now, before, c);
      ExecuteKeeps(s0, before);
      StepSparesYoung(Execute(s0, before), ops[|ops| - 1], c);
    }
  }

  /**
   * Whoever is still in the map was heard from less than a timeout before the last pass began;
   * if that was at most half a timeout ago, less than one and a half timeouts ago.
   */
  lemma SilentAreGone(timeout: nat, now: nat, ops: seq<Op>, job: JobId)
    requires timeout > 0
    ensures var s := Execute(Init(timeout, now), ops);
      job in s.inProgress ==>
        && s.lastPass - s.inProgress[job].lastBeat < timeout
        && (2 * (s.now - s.lastPass) <= timeout ==> 2 * (s.now - s.inProgress[job].lastBeat) < 3 * timeout)
  {
    ExecuteKeeps(Init(timeout, now), ops);
  }

  /** A pass begins at the time of its tick, over all entries, and counts as done as of then. */
  lemma PassIsStamped(s: State)
    ensures s.reaper.Waiting? ==> Step(s, Tick).reaper == Passing(s.now, s.inProgress.Keys)
    ensures s.reaper.Passing? && s.reaper.todo == {} ==>
              Step(s, PassDone).reaper == Waiting && Step(s, PassDone).lastPass == s.reaper.stamp
  {
  }

  /** A visit evicts an entry exactly when its last heartbeat is a full timeout older than the pass. */
  lemma VisitEvictsSilent(timeout: nat, now: nat, ops: seq<Op>, job: JobId)
    requires timeout > 0
    requires var s := Execute(Init(timeout, now), ops); s.reaper.Passing? && job in s.inProgress
    ensures var s := Execute(Init(timeout, now), ops);
      var t, c := Step(s, Visit(job)), s.inProgress[job].claim;
      && c < |t.claims|
      && (job !in t.inProgress <==> s.inProgress[job].lastBeat + timeout <= s.reaper.stamp)
      && (job !in t.inProgress ==> IsEvicted(t.claims[c]))
  {
    ExecuteKeeps(Init(timeout, now), ops);
    var s := Execute(Init(timeout, now), ops);
    var silence := Since(s.reaper.stamp, s.inProgress[job].lastBeat);
    if silence >= timeout {
      assert Step(s, Visit(job)).inProgress == s.inProgress - {job};
      RemovedEnd(s, job, Evicted(silence), s.inProgress[job].claim);
    }
  }

  /** The drain starts from all entries, and dropping one ends its claim and takes it out. */
  lemma DropEndsClaim(timeout: nat, now: nat, ops: seq<Op>, job: JobId)
    requires timeout > 0
    ensures var s := Execute(Init(timeout, now), ops);
      && (s.reaper.Waiting? ==> Step(s, Shutdown).reaper == Draining(s.inProgress.Keys, |s.claims|))
      && (s.reaper.Draining? && job in s.reaper.todo ==>
            var t := Step(s, Drop(job));
            && t.reaper == Draining(s.reaper.todo - {job}, s.reaper.since) && job !in t.inProgress
            && (job in s.inProgress ==>
                  var c := s.inProgress[job].claim; c < |t.claims| && t.claims[c].end == Some(Drained)))
  {
    ExecuteKeeps(Init(timeout, now), ops);
    var s := Execute(Init(timeout, now), ops);
    if job in s.inProgress {
      RemovedEnd(s, job, Drained, s.inProgress[job].claim);
    }
  }

  /** After the drain, every claim made before it began is over. */
  lemma DrainResolvesAll(timeout: nat, now: nat, ops: seq<Op>, c: nat)
    requires timeout > 0
    ensures var s := Execute(Init(timeout, now), ops);
      s.reaper.Stopped? ==> s.reaper.since <= |s.claims| && (c < s.reaper.since ==> s.claims[c].end.Some?)
  {
    ExecuteKeeps(Init(timeout, now), ops);
  }

  /** From then on nobody evicts: an open claim ends only by its worker's post or a newer claim of its job. */
  lemma OnlyPostOrReplace(timeout: nat, now: nat, ops: seq<Op>, op: Op, c: nat)
    requires timeout > 0
    requires var s := Execute(Init(timeout, now), ops); s.reaper.Stopped? && c < |s.claims| && s.claims[c].end.None?
    ensures var s := Execute(Init(timeout, now), ops);
      var t := Step(s, op);
      && t.reaper == s.reaper && c < |t.claims| && c >= s.reaper.since
      && (t.claims[c].end.Some? <==> (op.Post? || op.GetWork?) && op.job == s.claims[c].job)
  {
    ExecuteKeeps(Init(timeout, now), ops);
    var s := Execute(Init(timeout, now), ops);
    if op.GetWork? {
      RemovedEnd(s, op.job, Replaced, c);
    } else if op.Post? {
      RemovedEnd(s, op.job, Posted(op.outcome), c);
    }
  }

  /** Such claims exist: one made after the drain stays open however long its worker is silent. */
  lemma LateClaimStays(timeout: nat, now: nat, job: JobId, silence: nat) returns (ops: seq<Op>)
    requires timeout > 0
    ensures var s := Execute(Init(timeout, now), ops);
      && s.reaper.Stopped? && |s.claims| == 1 && s.claims[0] == Claim(job, None, None)
      && s.inProgress == map[job := Entry(0, now)] && s.now == now + silence
  {
    ops := [Shutdown, DrainDone, GetWork(job), Advance(silence)];
    var s0 := Init(timeout, now);
    assert ops[..3] == [Shutdown, DrainDone, GetWork(job)] && ops[..3][..2] == [Shutdown, DrainDone];
    assert ops[..3][..2][..1] == [Shutdown] && ops[..3][..2][..1][..0] == [];
    assert [Shutdown][..0] == [] && Execute(s0, [Shutdown]) == Step(s0, Shutdown);
    assert s0.inProgress.Keys == {};
    assert Execute(s0, [Shutdown]) == s0.(reaper := Draining({}, 0));
    assert Execute(s0, [Shutdown, DrainDone]) == s0.(reaper := Stopped(0));
    var s3 := Execute(s0, ops[..3]);
    assert s3 == Step(Execute(s0, [Shutdown, DrainDone]), GetWork(job));
    assert s3.inProgress == map[job := Entry(0, now)];
  }
}
