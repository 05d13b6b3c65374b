/**
 * Per-user admission by any number of broker replicas over one shared store.
 *
 * `Step` is one atomic step of one actor; `Run` interleaves any steps in any order.
 * A step that is not enabled leaves the state as it is, so a theorem about every
 * list of steps is a theorem about every interleaving.
 */
module Admission {
  import opened UserSlots
  import opened Counting

  /** Ceilings up to this one are ranked in the store on every admission. */
  const STRICT_MAX_THRESHOLD := 3

  predicate Strict(max: nat) {
    max <= STRICT_MAX_THRESHOLD
  }

  datatype Verdict =
    | Undecided
    | Ranked      // strict: fewer than `max` reservations were ahead
    | Counted     // lazy: a fresh listing held at most `max` reservations
    | Cached      // lazy: a remembered listing held at most `max`
    | FailedOpen  // the store failed and the job was let in
    | Refused

  datatype Stage =
    | Begun
    | Reserved  // strict: reservation made, local guard not yet built
    | Gated     // lazy: local guard held, reservation not yet made
    | Armed     // guard held and reservation made
    | Decided
    | Draining  // guard dropped; the store release is still to come
    | Done

  /** One admission attempt. `ord` is meaningful once `reserved` is set. */
  datatype Job = Job(key: Key, broker: BrokerId, max: nat, stage: Stage, verdict: Verdict,
                     guard: bool, reserved: bool, ord: nat)

  type Place = (BrokerId, Key)

  datatype State = State(store: Slots, jobs: map<JobId, Job>,
                         counts: map<Place, nat>, cache: map<Place, nat>)

  const INIT := State(Slots(map[], 0), map[], map[], map[])

  datatype Op =
    | Begin(j: JobId, key: Key, broker: BrokerId, max: nat)
    | Gate(j: JobId)
    | Reserve(j: JobId)
    | ReserveFails(j: JobId, wrote: bool)
    | Arm(j: JobId)
    | Rank(j: JobId)
    | CountFresh(j: JobId)
    | CountCached(j: JobId)
    | ListFails(j: JobId)
    | DropGuard(j: JobId)
    | RemoveIfZero(place: Place)
    | StoreRelease(j: JobId)
    | Reclaim(live: set<BrokerId>)
    | OtherWrites(n: nat)

  /** How many reservations precede (ord, j); a reservation that is gone ranks first. */
  ghost function RankIn(es: map<JobId, Entry>, ord: nat, j: JobId): nat {
    if j in es && es[j].ord == ord then |Ahead(es, ord, j)| else 0
  }

  ghost function Ahead(es: map<JobId, Entry>, ord: nat, j: JobId): set<JobId> {
    set i | i in es && (es[i].ord < ord || (es[i].ord == ord && StrLess(i, j)))
  }

  /** Code-point order on job ids. */
  predicate StrLess(a: string, b: string) {
    if b == "" then false
    else if a == "" then true
    else a[0] < b[0] || (a[0] == b[0] && StrLess(a[1..], b[1..]))
  }

  function CountAt<P>(counts: map<P, nat>, p: P): nat {
    if p in counts then counts[p] else 0
  }

  // The local counter operations, shared with the `UserLimiter` class.

  function Increment<P>(counts: map<P, nat>, p: P): map<P, nat> {
    counts[p := CountAt(counts, p) + 1]
  }

  function SaturatingDecrement<P>(counts: map<P, nat>, p: P): map<P, nat> {
    if p in counts then counts[p := if counts[p] == 0 then 0 else counts[p] - 1] else counts
  }

  function DropZero<P>(counts: map<P, nat>, p: P): map<P, nat> {
    if p in counts && counts[p] == 0 then counts - {p} else counts
  }

  ghost function Step(s: State, op: Op): State {
    match op
    case Begin(j, key, broker, max) =>
      if j in s.jobs || max == 0 then s
      else s.(jobs := s.jobs[j := Job(key, broker, max, Begun, Undecided, false, false, 0)])
    case RemoveIfZero(p) => s.(counts := DropZero(s.counts, p))
    case Reclaim(live) => s.(store := s.store.Reclaim(live))
    case OtherWrites(n) => s.(store := s.store.(ord := s.store.ord + n))
    case _ =>
      if op.j in s.jobs then JobStep(s, op, s.jobs[op.j]) else s
  }

  /** A step of the admission call, guard or store release of one job. */
  ghost function JobStep(s: State, op: Op, job: Job): State
    requires !op.Begin? && !op.RemoveIfZero? && !op.Reclaim? && !op.OtherWrites?
  {
    var p := (job.broker, job.key);
    match op
    case Gate(j) =>
      if !job.stage.Begun? || Strict(job.max) then s
      else if CountAt(s.counts, p) >= job.max then
        Put(s, j, job.(stage := Done, verdict := Refused))
      else
        Put(s, j, job.(stage := Gated, guard := true)).(counts := Increment(s.counts, p))
    case Reserve(j) =>
      if MayReserve(job) then
        ReserveFor(s, j, job.(stage := if job.stage.Gated? then Armed else Reserved))
      else s
    case ReserveFails(j, wrote) =>
      if MayReserve(job) then
        var open := job.(stage := Decided, verdict := FailedOpen, guard := true);
        (if wrote then ReserveFor(s, j, open) else Put(s, j, open))
        .(counts := if job.guard then s.counts else Increment(s.counts, p))
      else s
    case Arm(j) =>
      if !job.stage.Reserved? then s
      else Put(s, j, job.(stage := Armed, guard := true)).(counts := Increment(s.counts, p))
    case Rank(j) =>
      if !job.stage.Armed? || !Strict(job.max) then s
      else Put(s, j, job.(stage := Decided,
                          verdict := if RankIn(s.store.Entries(job.key), job.ord, j) < job.max
                                     then Ranked else Refused))
    case CountFresh(j) =>
      if !job.stage.Armed? || Strict(job.max) then s
      else
        var n := |s.store.Entries(job.key)|;
        Put(s, j, job.(stage := Decided, verdict := if n > job.max then Refused else Counted))
        .(cache := s.cache[p := n])
    case CountCached(j) =>
      if !job.stage.Armed? || Strict(job.max) || p !in s.cache then s
      else Put(s, j, job.(stage := Decided,
                          verdict := if s.cache[p] > job.max then Refused else Cached))
    case ListFails(j) =>
      if !job.stage.Armed? then s
      else Put(s, j, job.(stage := Decided, verdict := FailedOpen))
    case DropGuard(j) =>
      if !job.guard then s
      else Put(s, j, job.(stage := Draining, guard := false))
           .(counts := SaturatingDecrement(s.counts, p))
    case StoreRelease(j) =>
      if !job.stage.Draining? then s
      else Put(s, j, job.(stage := Done)).(store := s.store.Release(job.key, j))
  }

  ghost function Put(s: State, j: JobId, job: Job): State {
    s.(jobs := s.jobs[j := job])
  }

  ghost predicate MayReserve(job: Job) {
    (job.stage.Begun? && Strict(job.max)) || job.stage.Gated?
  }

  /** The reservation is made under the job's id and its ordinal is remembered. */
  ghost function ReserveFor(s: State, j: JobId, job: Job): State {
    var r := s.store.Reserve(job.key, j, job.broker);
    Put(s, j, job.(reserved := true, ord := r.Entries(job.key)[j].ord)).(store := r)
  }

  ghost function Run(s: State, ops: seq<Op>): State
    decreases ops
  {
    if ops == [] then s else Run(Step(s, ops[0]), ops[1..])
  }

  // ---------------------------------------------------------------- invariants

  /** Every reservation belongs to the one job that made it. */
  ghost predicate Owned(s: State) {
    forall k, j | j in s.store.Entries(k) ::
      && j in s.jobs && s.jobs[j].key == k && s.jobs[j].reserved
      && s.jobs[j].ord == s.store.Entries(k)[j].ord && s.jobs[j].broker == s.store.Entries(k)[j].owner
  }

  ghost predicate StagesMatch(s: State) {
    forall j | j in s.jobs ::
      StageMatches(s.jobs[j])
  }

  ghost predicate StageMatches(job: Job) {
    && (job.verdict.Ranked? ==> Strict(job.max))
    && (job.verdict.Counted? ==> !Strict(job.max))
    && match job.stage
    case Begun => !job.guard && !job.reserved && job.verdict.Undecided?
    case Gated => job.guard && !job.reserved && job.verdict.Undecided?
    case Reserved => !job.guard && job.reserved && job.verdict.Undecided?
    case Armed => job.guard && job.reserved && job.verdict.Undecided?
    case Decided => job.guard && !job.verdict.Undecided? && (job.verdict.FailedOpen? || job.reserved)
    case Draining => !job.guard
    case Done => !job.guard
  }

  /** Ordinals are handed out once each, in increasing order. */
  ghost predicate OrdsFresh(s: State) {
    && (forall j | j in s.jobs && s.jobs[j].reserved :: s.jobs[j].ord <= s.store.ord)
    && (forall i, j | i in s.jobs && j in s.jobs && i != j && s.jobs[i].reserved && s.jobs[j].reserved ::
          s.jobs[i].ord != s.jobs[j].ord)
  }

  ghost predicate RankedHold(s: State) {
    forall j | j in s.jobs && s.jobs[j].verdict.Ranked? && j in s.store.Entries(s.jobs[j].key) ::
      |Ahead(s.store.Entries(s.jobs[j].key), s.jobs[j].ord, j)| < s.jobs[j].max
  }

  ghost function Guards(s: State, p: Place): set<JobId> {
    set j | j in s.jobs && s.jobs[j].guard && (s.jobs[j].broker, s.jobs[j].key) == p
  }

  ghost predicate CountsMatch(s: State) {
    forall p :: CountAt(s.counts, p) == |Guards(s, p)|
  }

  ghost predicate Inv(s: State) {
    Owned(s) && StagesMatch(s) && OrdsFresh(s) && RankedHold(s) && CountsMatch(s)
  }

  // ------------------------------------------------------- each step keeps them

  ghost predicate OfOneJob(op: Op) {
    !op.Begin? && !op.RemoveIfZero? && !op.Reclaim? && !op.OtherWrites?
  }

  /** A job's step changes only that job's record, its count with its guard, and its own reservation. */
  ghost predicate Moves(s: State, t: State, j: JobId) {
    && j in s.jobs && j in t.jobs && t.jobs == s.jobs[j := t.jobs[j]]
    && var was, now := s.jobs[j], t.jobs[j];
    && StageMatches(now)
    && now.broker == was.broker && now.key == was.key && now.max == was.max
    && t.counts == (if now.guard == was.guard then s.counts
                    else if now.guard then Increment(s.counts, (was.broker, was.key))
                    else SaturatingDecrement(s.counts, (was.broker, was.key)))
    && (if now.reserved == was.reserved
        then now.ord == was.ord && (t.store == s.store
              || (t.store == s.store.Release(was.key, j) && was.stage.Draining? && now.stage.Done?))
        else now.reserved && !now.verdict.Ranked? && !now.verdict.Counted? && t.store == s.store.Reserve(was.key, j, was.broker)
             && now.ord == t.store.Entries(was.key)[j].ord)
    && (now.verdict.Ranked? ==>
          was.verdict.Ranked? || RankIn(s.store.Entries(was.key), was.ord, j) < was.max)
    && (now.verdict.Counted? ==>
          was.verdict.Counted? || (|s.store.Entries(was.key)| <= was.max && t.store == s.store))
  }

  lemma GuardMoves(s: State, op: Op)
    requires (op.Gate? || op.Arm? || op.DropGuard?) && op.j in s.jobs && StageMatches(s.jobs[op.j])
    ensures Moves(s, Step(s, op), op.j)
  {
  }

  lemma ReserveMoves(s: State, op: Op)
    requires (op.Reserve? || op.ReserveFails?) && op.j in s.jobs && StageMatches(s.jobs[op.j])
    ensures Moves(s, Step(s, op), op.j)
  {
  }

  lemma DecideMoves(s: State, op: Op)
    requires (op.Rank? || op.CountFresh? || op.CountCached? || op.ListFails?) && op.j in s.jobs && StageMatches(s.jobs[op.j])
    ensures Moves(s, Step(s, op), op.j)
  {
  }

  lemma ReleaseMoves(s: State, op: Op)
    requires op.StoreRelease? && op.j in s.jobs && StageMatches(s.jobs[op.j])
    ensures Moves(s, Step(s, op), op.j)
  {
  }

  lemma JobStepMoves(s: State, op: Op)
    requires OfOneJob(op) && op.j in s.jobs && StageMatches(s.jobs[op.j])
    ensures Moves(s, Step(s, op), op.j)
  {
    if op.Gate? || op.Arm? || op.DropGuard? {
      GuardMoves(s, op);
    } else if op.Reserve? || op.ReserveFails? {
      ReserveMoves(s, op);
    } else if op.StoreRelease? {
      ReleaseMoves(s, op);
    } else {
      DecideMoves(s, op);
    }
  }

  /** Reservations up to the last ordinal only go away. */
  ghost predicate Recedes(before: Slots, after: Slots) {
    && before.ord <= after.ord
    && forall k, i | i in after.Entries(k) && after.Entries(k)[i].ord <= before.ord ::
         i in before.Entries(k) && before.Entries(k)[i] == after.Entries(k)[i]
  }

  /** Once ranked in, a job stays ranked in: nothing can be inserted ahead of it. */
  lemma RankedJobKept(before: Slots, after: Slots, k: Key, j: JobId, ord: nat)
    requires Recedes(before, after) && ord <= before.ord
    ensures |Ahead(after.Entries(k), ord, j)| <= |Ahead(before.Entries(k), ord, j)|
  {
    SubsetSize(Ahead(after.Entries(k), ord, j), Ahead(before.Entries(k), ord, j));
  }

  lemma RankedKept(s: State, t: State)
    requires Owned(s) && OrdsFresh(s) && RankedHold(s) && Recedes(s.store, t.store)
    requires forall j | j in t.jobs && t.jobs[j].verdict.Ranked? && j in t.store.Entries(t.jobs[j].key) ::
               && j in s.jobs && s.jobs[j].reserved && j in s.store.Entries(s.jobs[j].key)
               && t.jobs[j].key == s.jobs[j].key && t.jobs[j].max == s.jobs[j].max && t.jobs[j].ord == s.jobs[j].ord
               && (s.jobs[j].verdict.Ranked?
                   || RankIn(s.store.Entries(s.jobs[j].key), s.jobs[j].ord, j) < s.jobs[j].max)
    ensures RankedHold(t)
  {
    forall j | j in t.jobs && t.jobs[j].verdict.Ranked? && j in t.store.Entries(t.jobs[j].key)
      ensures |Ahead(t.store.Entries(t.jobs[j].key), t.jobs[j].ord, j)| < t.jobs[j].max
    {
      RankedJobKept(s.store, t.store, s.jobs[j].key, j, s.jobs[j].ord);
    }
  }

  /** One job changes its guard; the others keep theirs. */
  lemma GuardsMoved(s: State, t: State, j: JobId, q: Place)
    requires j in s.jobs && j in t.jobs && t.jobs == s.jobs[j := t.jobs[j]]
    requires t.jobs[j].broker == s.jobs[j].broker && t.jobs[j].key == s.jobs[j].key
    ensures var here := q == (s.jobs[j].broker, s.jobs[j].key);
      |Guards(t, q)| == |Guards(s, q)| - One(here && s.jobs[j].guard) + One(here && t.jobs[j].guard)
  {
    var rest := Guards(s, q) - {j};
    assert Guards(t, q) == if j in Guards(t, q) then rest + {j} else rest;
    assert Guards(s, q) == if j in Guards(s, q) then rest + {j} else rest;
  }

  lemma CountKept(s: State, t: State, j: JobId, q: Place)
    requires CountAt(s.counts, q) == |Guards(s, q)| && Moves(s, t, j)
    ensures CountAt(t.counts, q) == |Guards(t, q)|
  {
    GuardsMoved(s, t, j, q);
  }

  lemma CountsKept(s: State, t: State, j: JobId)
    requires CountsMatch(s) && Moves(s, t, j)
    ensures CountsMatch(t)
  {
    forall q ensures CountAt(t.counts, q) == |Guards(t, q)| {
      CountKept(s, t, j, q);
    }
  }

  lemma MovesRecedes(s: State, t: State, j: JobId)
    requires Moves(s, t, j)
    ensures Recedes(s.store, t.store)
  {
  }

  lemma OwnedKept(s: State, t: State, j: JobId)
    requires Owned(s) && Moves(s, t, j) && StagesMatch(s)
    ensures Owned(t)
  {
    forall k, i | i in t.store.Entries(k)
      ensures && i in t.jobs && t.jobs[i].key == k && t.jobs[i].reserved
              && t.jobs[i].ord == t.store.Entries(k)[i].ord && t.jobs[i].broker == t.store.Entries(k)[i].owner
    {
      assert i in s.store.Entries(k) || i == j;
    }
  }

  lemma OrdsKept(s: State, t: State, j: JobId)
    requires Owned(s) && OrdsFresh(s) && Moves(s, t, j)
    ensures OrdsFresh(t)
  {
    if t.jobs[j].reserved != s.jobs[j].reserved {
      assert j !in s.store.Entries(s.jobs[j].key);
      assert t.jobs[j].ord == s.store.ord + 1 == t.store.ord;
    }
  }

  lemma RankedMoves(s: State, t: State, j: JobId)
    requires Owned(s) && OrdsFresh(s) && RankedHold(s) && Moves(s, t, j) && Owned(t)
    ensures RankedHold(t)
  {
    MovesRecedes(s, t, j);
    RankedKept(s, t);
  }

  lemma JobKeeps(s: State, t: State, j: JobId)
    requires Inv(s) && Moves(s, t, j)
    ensures Inv(t)
  {
    assert StagesMatch(t);
    CountsKept(s, t, j);
    OwnedKept(s, t, j);
    OrdsKept(s, t, j);
    RankedMoves(s, t, j);
  }

  lemma SameGuards(s: State, t: State)
    requires CountsMatch(s) && (forall q :: CountAt(t.counts, q) == CountAt(s.counts, q))
    requires forall j | j in t.jobs && t.jobs[j].guard :: j in s.jobs
    requires forall j | j in s.jobs :: j in t.jobs && t.jobs[j] == s.jobs[j]
    ensures CountsMatch(t)
  {
    forall q ensures CountAt(t.counts, q) == |Guards(t, q)| {
      assert Guards(t, q) == Guards(s, q);
    }
  }

  lemma BeginKeeps(s: State, t: State, j: JobId)
    requires Inv(s) && j !in s.jobs && j in t.jobs && t == s.(jobs := s.jobs[j := t.jobs[j]])
    requires t.jobs[j].stage.Begun? && StageMatches(t.jobs[j])
    ensures Inv(t)
  {
    SameGuards(s, t);
    assert Owned(t) && StagesMatch(t) && OrdsFresh(t);
    forall i | i in t.jobs && t.jobs[i].verdict.Ranked? ensures i != j { }
  }

  lemma StoreShrinkKeeps(s: State, t: State)
    requires Inv(s) && t == s.(store := t.store) && t.store.ord >= s.store.ord
    requires forall k, i | i in t.store.Entries(k) ::
               i in s.store.Entries(k) && s.store.Entries(k)[i] == t.store.Entries(k)[i]
    ensures Inv(t)
  {
    SameGuards(s, t);
    RankedKept(s, t);
  }

  lemma SlotStepKeeps(s: State, op: Op)
    requires Inv(s) && (op.Reclaim? || op.OtherWrites?)
    ensures Inv(Step(s, op))
  {
    var t := Step(s, op);
    if op.Reclaim? {
      ReclaimEntries(s.store, op.live);
    } else {
      forall k ensures t.store.Entries(k) == s.store.Entries(k) { }
    }
    StoreShrinkKeeps(s, t);
  }

  lemma RemoveIfZeroKeeps(s: State, p: Place)
    requires Inv(s)
    ensures Inv(s.(counts := DropZero(s.counts, p)))
  {
    var t := s.(counts := DropZero(s.counts, p));
    SameGuards(s, t);
    assert Owned(t) && StagesMatch(t) && OrdsFresh(t) && RankedHold(t);
  }

  lemma OtherKeeps(s: State, op: Op)
    requires Inv(s) && !OfOneJob(op)
    ensures Inv(Step(s, op))
  {
    if op.Begin? {
      if Step(s, op) != s { BeginKeeps(s, Step(s, op), op.j); }
    } else if op.RemoveIfZero? {
      RemoveIfZeroKeeps(s, op.place);
    } else {
      SlotStepKeeps(s, op);
    }
  }

  lemma StepKeeps(s: State, op: Op)
    requires Inv(s)
    ensures Inv(Step(s, op))
  {
    if !OfOneJob(op) {
      OtherKeeps(s, op);
    } else if op.j in s.jobs {
      JobStepMoves(s, op);
      JobKeeps(s, Step(s, op), op.j);
    }
  }

  lemma {:induction false} RunKeeps(s: State, ops: seq<Op>)
    requires Inv(s)
    ensures Inv(Run(s, ops))
    decreases ops
  {
    if ops != [] {
      StepKeeps(s, ops[0]);
      RunKeeps(Step(s, ops[0]), ops[1..]);
    }
  }
}
