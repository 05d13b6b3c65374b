/**
 * The dispatcher's pending-map protocol. A dispatch, the executors, the abandonment of a
 * queued job and `close` race; each step below is one lock-held or atomic action, and any
 * interleaving is a list of steps. Dispatches have distinct ids.
 */
module Dispatch {
  import opened Counting

  type Id = nat

  datatype Guard = NoGuard | OnCancel | OnCancelOrClientGone

  datatype Abandonment = Cancelled | ClientGone

  datatype Outcome =
    | QueueFull
    | Closed                      // "dispatcher closed"
    | Abandoned(why: Abandonment) // issued by the dispatcher itself
    | Result(value: int)          // what the action's work returned

  /** The dispatching call. It can be dropped only where it awaits. */
  datatype Caller =
    | Fresh
    | HasPermit
    | Checked
    | Inserted
    | Tallied
    | Waiting
    | AwaitingReply
    | Leaving(why: Abandonment)  // won its own entry back; gauge not yet updated
    | Left(why: Abandonment)     // gauge updated; entry not yet dropped
    | Returned(outcome: Outcome)
    | Dropped

  datatype ExecStep = Took | PermitBack | Counted | Working

  /** Where the pending item is. */
  datatype Item = NoItem | Pending | Executor(step: ExecStep) | WonBack | Stranded | Over

  datatype Taker = ByExecutor | ByCaller | ByClose

  datatype Reply = None | Sent(outcome: Outcome) | Hung

  /**
   * `taken` counts removals of the entry, `taker` made the last one; `starts` counts starts of
   * the work. `held` says that the user slot admitted with the call is held, `drops` counts how
   * often it was let go.
   */
  datatype D = D(guard: Guard, caller: Caller, item: Item, reply: Reply, taken: nat, taker: Taker, starts: nat,
                 cancelled: bool, present: bool, held: bool, drops: nat)

  datatype State = State(capacity: nat, free: int, depth: int,
                         closing: bool, permitsClosed: bool, queueClosed: bool, drained: bool, drainDue: nat,
                         queue: set<Id>, hands: set<Id>, ds: map<Id, D>)

  ghost function Init(capacity: nat): State {
    State(capacity, capacity, 0, false, false, false, false, 0, {}, {}, map[])
  }

  datatype Op =
    | Begin(d: Id, guard: Guard)
    | Acquire(d: Id)
    | Check(d: Id)
    | Insert(d: Id)
    | Tally(d: Id)
    | Enqueue(d: Id)
    | Abandon(d: Id, why: Abandonment)
    | TallyAbandoned(d: Id)
    | DropAbandoned(d: Id)
    | Receive(d: Id)
    | CallerDrops(d: Id)
    | Dequeue(d: Id)
    | Take(d: Id)
    | ReturnPermit(d: Id)
    | TallyTaken(d: Id)
    | Start(d: Id)
    | Finish(d: Id, value: int)
    | Panic(d: Id)
    | SendClosed(d: Id)
    | SetCancelled(d: Id)
    | SetPresent(d: Id, present: bool)
    | MarkClosing
    | ClosePermits
    | CloseQueue(keep: set<Id>)  // which entries a closed queue still hands out
    | Drain
    | TallyDrained

  ghost predicate AtStep(d: D, step: ExecStep) {
    d.item.Executor? && d.item.step == step
  }

  // What the counts count.

  ghost predicate HoldsPermit(d: D) {
    d.caller.HasPermit? || d.caller.Checked? || d.item.Pending? || AtStep(d, Took) || d.item.WonBack?
  }

  ghost predicate IsPending(d: D) {
    d.item.Pending?
  }

  /** In the map but not yet added to the gauge. */
  ghost predicate NotYetAdded(d: D) {
    d.caller.Inserted?
  }

  /** Out of the map but not yet taken off the gauge. */
  ghost predicate NotYetTakenOff(d: D) {
    AtStep(d, Took) || AtStep(d, PermitBack) || d.caller.Leaving?
  }

  /** The queued-abandonment condition, checked again under the lock. */
  ghost predicate MayAbandon(d: D, why: Abandonment) {
    match why
    case Cancelled => !d.guard.NoGuard? && d.cancelled
    case ClientGone => d.guard.OnCancelOrClientGone? && !d.present
  }

  /** The same condition when the executor is about to start the work. */
  ghost function Refusal(d: D): Reply {
    if !d.guard.NoGuard? && d.cancelled then Sent(Abandoned(Cancelled))
    else if d.guard.OnCancelOrClientGone? && !d.present then Sent(Abandoned(ClientGone))
    else None
  }

  /** What one dispatch's step can see of the rest. */
  datatype View = View(closing: bool, permitsClosed: bool, queueClosed: bool, full: bool, queued: bool, inHand: bool)

  /** Its new record, the permits and gauge units it adds, and where its queue entry is now. */
  datatype Effect = Effect(d: D, permits: int, gauge: int, queued: bool, inHand: bool)

  ghost predicate OfOne(op: Op) {
    !op.Begin? && !op.MarkClosing? && !op.ClosePermits? && !op.CloseQueue? && !op.Drain? && !op.TallyDrained?
  }

  /** The user slot is dropped, with whatever held it. */
  ghost function LetGo(d: D): D {
    d.(held := false, drops := d.drops + 1)
  }

  /** Steps of the call up to its entry in the map. */
  ghost function Enter(op: Op, d: D, v: View): Effect
    requires op.Acquire? || op.Check? || op.Insert?
  {
    var same := Effect(d, 0, 0, v.queued, v.inHand);
    match op
    case Acquire(_) =>
      if !d.caller.Fresh? then same
      else if v.permitsClosed then same.(d := LetGo(d).(caller := Returned(Closed)))
      else if v.full then same.(d := LetGo(d).(caller := Returned(QueueFull)))
      else same.(d := d.(caller := HasPermit), permits := -1)
    case Check(_) =>
      if !d.caller.HasPermit? then same
      else if v.closing then same.(d := LetGo(d).(caller := Returned(Closed)), permits := 1)
      else same.(d := d.(caller := Checked))
    case Insert(_) =>
      if !d.caller.Checked? then same
      else if v.closing then same.(d := LetGo(d).(caller := Returned(Closed)), permits := 1)
      else same.(d := d.(caller := Inserted, item := Pending))
  }

  /** Steps of the queue entry. */
  ghost function Queueing(op: Op, d: D, v: View): Effect
    requires op.Tally? || op.Enqueue?
  {
    var same := Effect(d, 0, 0, v.queued, v.inHand);
    match op
    case Tally(_) =>
      if !d.caller.Inserted? then same else same.(d := d.(caller := Tallied), gauge := 1)
    case Enqueue(_) =>
      if !d.caller.Tallied? then same
      else same.(d := d.(caller := Waiting), queued := v.queued || !v.queueClosed)
  }

  /** Steps of an executor up to its removal of the entry. */
  ghost function Fetching(op: Op, d: D, v: View): Effect
    requires op.Dequeue? || op.Take?
  {
    var same := Effect(d, 0, 0, v.queued, v.inHand);
    match op
    case Dequeue(_) =>
      if !v.queued then same else same.(queued := false, inHand := true)
    case Take(_) =>
      if !v.inHand then same
      else if d.item.Pending? then
        same.(d := d.(item := Executor(Took), taken := d.taken + 1, taker := ByExecutor), inHand := false)
      else same.(inHand := false)
  }

  /** Steps of abandonment while queued. */
  ghost function Abandoning(op: Op, d: D, v: View): Effect
    requires op.Abandon? || op.TallyAbandoned? || op.DropAbandoned?
  {
    var same := Effect(d, 0, 0, v.queued, v.inHand);
    match op
    case Abandon(_, why) =>
      if !d.caller.Waiting? || !MayAbandon(d, why) then same
      else if d.item.Pending? then
        same.(d := d.(caller := Leaving(why), item := WonBack, taken := d.taken + 1, taker := ByCaller))
      else same.(d := d.(caller := AwaitingReply))
    case TallyAbandoned(_) =>
      if !d.caller.Leaving? then same else same.(d := d.(caller := Left(d.caller.why)), gauge := -1)
    case DropAbandoned(_) =>
      if !d.caller.Left? then same
      else same.(d := LetGo(d).(caller := Returned(Abandoned(d.caller.why)), item := Over), permits := 1)
  }

  /** Steps of the end of the call. */
  ghost function Ending(op: Op, d: D, v: View): Effect
    requires op.Receive? || op.CallerDrops?
  {
    var same := Effect(d, 0, 0, v.queued, v.inHand);
    match op
    case Receive(_) =>
      if !(d.caller.Waiting? || d.caller.AwaitingReply?) || d.reply.None? then same
      else same.(d := d.(caller := Returned(if d.reply.Sent? then d.reply.outcome else Closed)))
    case CallerDrops(_) =>
      if d.caller.Fresh? then same.(d := LetGo(d).(caller := Dropped))
      else if d.caller.Waiting? || d.caller.AwaitingReply? then same.(d := d.(caller := Dropped))
      else same
  }

  /** Steps of an executor that took the entry. */
  ghost function Claiming(op: Op, d: D, v: View): Effect
    requires op.ReturnPermit? || op.TallyTaken?
  {
    var same := Effect(d, 0, 0, v.queued, v.inHand);
    match op
    case ReturnPermit(_) =>
      if !AtStep(d, Took) then same else same.(d := d.(item := Executor(PermitBack)), permits := 1)
    case TallyTaken(_) =>
      if !AtStep(d, PermitBack) then same else same.(d := d.(item := Executor(Counted)), gauge := -1)
  }

  /** Steps of an executor about to run the work. */
  ghost function Starting(op: Op, d: D, v: View): Effect
    requires op.Start?
  {
    var same := Effect(d, 0, 0, v.queued, v.inHand);
    match op
    case Start(_) =>
      if !AtStep(d, Counted) then same
      else if d.caller.Dropped? then same.(d := LetGo(d).(item := Over, reply := Hung))
      else if Refusal(d).Sent? then same.(d := LetGo(d).(item := Over, reply := Refusal(d)))
      else same.(d := d.(item := Executor(Working), starts := d.starts + 1))
  }

  /** Steps of whoever holds the reply. */
  ghost function Replying(op: Op, d: D, v: View): Effect
    requires op.Finish? || op.Panic? || op.SendClosed?
  {
    var same := Effect(d, 0, 0, v.queued, v.inHand);
    match op
    case Finish(_, value) =>
      if !AtStep(d, Working) then same else same.(d := LetGo(d).(item := Over, reply := Sent(Result(value))))
    case Panic(_) =>
      if !AtStep(d, Working) then same else same.(d := LetGo(d).(item := Over, reply := Hung))
    case SendClosed(_) =>
      if !d.item.Stranded? then same else same.(d := d.(item := Over, reply := Sent(Closed)))
  }

  ghost function Act(op: Op, d: D, v: View): Effect
    requires OfOne(op)
  {
    if op.Acquire? || op.Check? || op.Insert? then Enter(op, d, v)
    else if op.Tally? || op.Enqueue? then Queueing(op, d, v)
    else if op.Dequeue? || op.Take? then Fetching(op, d, v)
    else if op.Abandon? || op.TallyAbandoned? || op.DropAbandoned? then Abandoning(op, d, v)
    else if op.Receive? || op.CallerDrops? then Ending(op, d, v)
    else if op.ReturnPermit? || op.TallyTaken? then Claiming(op, d, v)
    else if op.Start? then Starting(op, d, v)
    else if op.Finish? || op.Panic? || op.SendClosed? then Replying(op, d, v)
    else if op.SetCancelled? then Effect(d.(cancelled := true), 0, 0, v.queued, v.inHand)
    else Effect(d.(present := op.present), 0, 0, v.queued, v.inHand)
  }

  ghost function ViewOf(s: State, i: Id): View {
    View(s.closing, s.permitsClosed, s.queueClosed, s.free == 0, i in s.queue, i in s.hands)
  }

  ghost function Apply(s: State, i: Id, e: Effect): State {
    s.(ds := s.ds[i := e.d], free := s.free + e.permits, depth := s.depth + e.gauge,
       queue := if e.queued then s.queue + {i} else s.queue - {i},
       hands := if e.inHand then s.hands + {i} else s.hands - {i})
  }

  ghost function Drained(d: D): D {
    if d.item.Pending? then LetGo(d).(item := Stranded, taken := d.taken + 1, taker := ByClose) else d
  }

  ghost function Step(s: State, op: Op): State {
    match op
    case Begin(i, guard) =>
      if i in s.ds then s else s.(ds := s.ds[i := D(guard, Fresh, NoItem, None, 0, ByClose, 0, false, true, true, 0)])
    case MarkClosing => s.(closing := true)
    case ClosePermits => if s.closing then s.(permitsClosed := true) else s
    case CloseQueue(keep) => if s.permitsClosed then s.(queueClosed := true, queue := s.queue * keep) else s
    case Drain =>
      if !s.queueClosed then s else
        var n := |Sel(s.ds, IsPending)|;
        s.(ds := map i | i in s.ds :: Drained(s.ds[i]), free := s.free + n, drainDue := s.drainDue + n, drained := true)
    case TallyDrained => s.(depth := s.depth - s.drainDue, drainDue := 0)
    case _ => if op.d in s.ds then Apply(s, op.d, Act(op, s.ds[op.d], ViewOf(s, op.d))) else s
  }

  ghost function Run(s: State, ops: seq<Op>): State
    decreases ops
  {
    if ops == [] then s else Run(Step(s, ops[0]), ops[1..])
  }

  // ---------------------------------------------------------------- invariants

  /** One dispatch on its own: who has it, and what that says about the work and the reply. */
  ghost predicate Ok(d: D) {
    && TakenOk(d)
    && WorkOk(d)
    && CallerOk(d)
  }

  ghost predicate TakenOk(d: D) {
    match d.item
    case NoItem => d.taken == 0 && d.reply.None?
    case Pending => d.taken == 0 && d.reply.None?
    case Executor(_) => (d.taken == 1 && d.taker == ByExecutor) && d.reply.None?
    case WonBack => (d.taken == 1 && d.taker == ByCaller) && d.reply.None?
    case Stranded => (d.taken == 1 && d.taker == ByClose) && d.reply.None?
    case Over =>
      || ((d.taken == 1 && d.taker == ByExecutor) && !d.reply.None?)
      || ((d.taken == 1 && d.taker == ByCaller) && d.reply.None?)
      || ((d.taken == 1 && d.taker == ByClose) && d.reply.Sent? && d.reply.outcome.Closed?)
  }

  ghost predicate WorkOk(d: D) {
    && d.starts <= 1
    && (d.starts > 0 ==> (d.taken == 1 && d.taker == ByExecutor) && (AtStep(d, Working) || d.item.Over?)
                         && (d.reply.Sent? ==> !d.reply.outcome.Abandoned?))
    && (AtStep(d, Working) || (d.reply.Sent? && d.reply.outcome.Result?) ==> d.starts > 0)
  }

  ghost predicate CallerOk(d: D) {
    match d.caller
    case Fresh => d.item.NoItem?
    case HasPermit => d.item.NoItem?
    case Checked => d.item.NoItem?
    case Inserted => InProtocol(d)
    case Tallied => InProtocol(d)
    case Waiting => InProtocol(d)
    case AwaitingReply => InProtocol(d) && !d.item.Pending?
    case Leaving(_) => d.item.WonBack?
    case Left(_) => d.item.WonBack?
    case Dropped => !(d.taken == 1 && d.taker == ByCaller)
    case Returned(o) =>
      if d.taken == 0 then d.item.NoItem? && (o.QueueFull? || o.Closed?)
      else if (d.taken == 1 && d.taker == ByCaller) then d.item.Over? && o.Abandoned?
      else !d.reply.None? && o == if d.reply.Sent? then d.reply.outcome else Closed
  }

  ghost predicate InProtocol(d: D) {
    !d.item.NoItem? && !(d.taken == 1 && d.taker == ByCaller)
  }

  /** An enqueued entry still pending can still be found by an executor. */
  ghost predicate Findable(d: D, queueClosed: bool, queued: bool, inHand: bool) {
    d.item.Pending? && !d.caller.Inserted? && !d.caller.Tallied? && !queueClosed ==> queued || inHand
  }

  ghost predicate FindableIn(s: State, i: Id)
    requires i in s.ds
  {
    Findable(s.ds[i], s.queueClosed, i in s.queue, i in s.hands)
  }

  ghost predicate EachOk(s: State) {
    forall i | i in s.ds :: Ok(s.ds[i]) && FindableIn(s, i)
  }

  ghost predicate CloseOk(s: State) {
    && (s.queueClosed ==> s.permitsClosed) && (s.permitsClosed ==> s.closing)
    && (s.drained ==> s.closing && forall i | i in s.ds :: !s.ds[i].item.Pending?)
  }

  ghost predicate PermitsBalance(s: State) {
    s.free >= 0 && s.free + |Sel(s.ds, HoldsPermit)| == s.capacity
  }

  ghost predicate GaugeBalances(s: State) {
    s.depth == |Sel(s.ds, IsPending)| - |Sel(s.ds, NotYetAdded)| + |Sel(s.ds, NotYetTakenOff)| + s.drainDue
  }

  ghost predicate Inv(s: State) {
    EachOk(s) && CloseOk(s) && PermitsBalance(s) && GaugeBalances(s)
  }

  // ------------------------------------------------------- each step keeps them

  /** A dispatch's step moves the permits and the gauge exactly as its record says. */
  ghost predicate Balanced(d: D, e: Effect, v: View) {
    && e.permits == One(HoldsPermit(d)) - One(HoldsPermit(e.d))
    && e.gauge == One(IsPending(e.d)) - One(NotYetAdded(e.d)) + One(NotYetTakenOff(e.d))
                  - One(IsPending(d)) + One(NotYetAdded(d)) - One(NotYetTakenOff(d))
    && (e.permits >= 0 || (e.permits == -1 && !v.full))
    && (e.d.item.Pending? ==> d.item.Pending? || !v.closing)
    && Findable(e.d, v.queueClosed, e.queued, e.inHand)
  }

  ghost predicate Accounted(d: D, e: Effect, v: View) {
    Ok(e.d) && Balanced(d, e, v)
  }

  lemma EnterAccounted(op: Op, d: D, v: View)
    requires op.Acquire? || op.Check? || op.Insert?
    requires Ok(d) && Findable(d, v.queueClosed, v.queued, v.inHand)
    ensures Accounted(d, Enter(op, d, v), v)
  {
    EnterOk(op, d, v);
    EnterBalanced(op, d, v);
  }

  lemma EnterOk(op: Op, d: D, v: View)
    requires (op.Acquire? || op.Check? || op.Insert?) && Ok(d)
    ensures Ok(Enter(op, d, v).d)
  {
  }

  lemma EnterBalanced(op: Op, d: D, v: View)
    requires (op.Acquire? || op.Check? || op.Insert?) && CallerOk(d) && Findable(d, v.queueClosed, v.queued, v.inHand)
    ensures Balanced(d, Enter(op, d, v), v)
  {
    if op.Acquire? {
      AcquireBalanced(op, d, v);
    } else if op.Check? {
      CheckBalanced(op, d, v);
    } else {
      InsertBalanced(op, d, v);
    }
  }

  lemma AcquireBalanced(op: Op, d: D, v: View)
    requires op.Acquire? && CallerOk(d) && Findable(d, v.queueClosed, v.queued, v.inHand)
    ensures Balanced(d, Enter(op, d, v), v)
  {
  }

  lemma CheckBalanced(op: Op, d: D, v: View)
    requires op.Check? && CallerOk(d) && Findable(d, v.queueClosed, v.queued, v.inHand)
    ensures Balanced(d, Enter(op, d, v), v)
  {
  }

  lemma InsertBalanced(op: Op, d: D, v: View)
    requires op.Insert? && CallerOk(d) && Findable(d, v.queueClosed, v.queued, v.inHand)
    ensures Balanced(d, Enter(op, d, v), v)
  {
  }

  lemma QueueingAccounted(op: Op, d: D, v: View)
    requires op.Tally? || op.Enqueue?
    requires Ok(d) && Findable(d, v.queueClosed, v.queued, v.inHand)
    ensures Accounted(d, Queueing(op, d, v), v)
  {
    QueueingOk(op, d, v);
    QueueingBalanced(op, d, v);
  }

  lemma QueueingOk(op: Op, d: D, v: View)
    requires (op.Tally? || op.Enqueue?) && Ok(d)
    ensures Ok(Queueing(op, d, v).d)
  {
  }

  lemma QueueingBalanced(op: Op, d: D, v: View)
    requires (op.Tally? || op.Enqueue?) && CallerOk(d) && Findable(d, v.queueClosed, v.queued, v.inHand)
    ensures Balanced(d, Queueing(op, d, v), v)
  {
    if op.Tally? {
      TallyBalanced(op, d, v);
    } else {
      EnqueueBalanced(op, d, v);
    }
  }

  lemma TallyBalanced(op: Op, d: D, v: View)
    requires op.Tally? && CallerOk(d) && Findable(d, v.queueClosed, v.queued, v.inHand)
    ensures Balanced(d, Queueing(op, d, v), v)
  {
  }

  lemma EnqueueBalanced(op: Op, d: D, v: View)
    requires op.Enqueue? && CallerOk(d) && Findable(d, v.queueClosed, v.queued, v.inHand)
    ensures Balanced(d, Queueing(op, d, v), v)
  {
  }

  lemma FetchingAccounted(op: Op, d: D, v: View)
    requires op.Dequeue? || op.Take?
    requires Ok(d) && Findable(d, v.queueClosed, v.queued, v.inHand)
    ensures Accounted(d, Fetching(op, d, v), v)
  {
    FetchingOk(op, d, v);
    FetchingBalanced(op, d, v);
  }

  lemma FetchingOk(op: Op, d: D, v: View)
    requires (op.Dequeue? || op.Take?) && Ok(d)
    ensures Ok(Fetching(op, d, v).d)
  {
  }

  lemma FetchingBalanced(op: Op, d: D, v: View)
    requires (op.Dequeue? || op.Take?) && CallerOk(d) && Findable(d, v.queueClosed, v.queued, v.inHand)
    ensures Balanced(d, Fetching(op, d, v), v)
  {
    if op.Dequeue? {
      DequeueBalanced(op, d, v);
    } else {
      TakeBalanced(op, d, v);
    }
  }

  lemma DequeueBalanced(op: Op, d: D, v: View)
    requires op.Dequeue? && CallerOk(d) && Findable(d, v.queueClosed, v.queued, v.inHand)
    ensures Balanced(d, Fetching(op, d, v), v)
  {
  }

  lemma TakeBalanced(op: Op, d: D, v: View)
    requires op.Take? && CallerOk(d) && Findable(d, v.queueClosed, v.queued, v.inHand)
    ensures Balanced(d, Fetching(op, d, v), v)
  {
  }

  lemma AbandoningAccounted(op: Op, d: D, v: View)
    requires op.Abandon? || op.TallyAbandoned? || op.DropAbandoned?
    requires Ok(d) && Findable(d, v.queueClosed, v.queued, v.inHand)
    ensures Accounted(d, Abandoning(op, d, v), v)
  {
    AbandoningOk(op, d, v);
    AbandoningBalanced(op, d, v);
  }

  lemma AbandoningOk(op: Op, d: D, v: View)
    requires (op.Abandon? || op.TallyAbandoned? || op.DropAbandoned?) && Ok(d)
    ensures Ok(Abandoning(op, d, v).d)
  {
  }

  lemma AbandoningBalanced(op: Op, d: D, v: View)
    requires (op.Abandon? || op.TallyAbandoned? || op.DropAbandoned?) && CallerOk(d) && Findable(d, v.queueClosed, v.queued, v.inHand)
    ensures Balanced(d, Abandoning(op, d, v), v)
  {
    if op.Abandon? {
      AbandonBalanced(op, d, v);
    } else if op.TallyAbandoned? {
      TallyAbandonedBalanced(op, d, v);
    } else {
      DropAbandonedBalanced(op, d, v);
    }
  }

  lemma AbandonBalanced(op: Op, d: D, v: View)
    requires op.Abandon? && CallerOk(d) && Findable(d, v.queueClosed, v.queued, v.inHand)
    ensures Balanced(d, Abandoning(op, d, v), v)
  {
  }

  lemma TallyAbandonedBalanced(op: Op, d: D, v: View)
    requires op.TallyAbandoned? && CallerOk(d) && Findable(d, v.queueClosed, v.queued, v.inHand)
    ensures Balanced(d, Abandoning(op, d, v), v)
  {
  }

  lemma DropAbandonedBalanced(op: Op, d: D, v: View)
    requires op.DropAbandoned? && CallerOk(d) && Findable(d, v.queueClosed, v.queued, v.inHand)
    ensures Balanced(d, Abandoning(op, d, v), v)
  {
  }

  lemma EndingAccounted(op: Op, d: D, v: View)
    requires op.Receive? || op.CallerDrops?
    requires Ok(d) && Findable(d, v.queueClosed, v.queued, v.inHand)
    ensures Accounted(d, Ending(op, d, v), v)
  {
    EndingOk(op, d, v);
    EndingBalanced(op, d, v);
  }

  lemma EndingOk(op: Op, d: D, v: View)
    requires (op.Receive? || op.CallerDrops?) && Ok(d)
    ensures Ok(Ending(op, d, v).d)
  {
  }

  lemma EndingBalanced(op: Op, d: D, v: View)
    requires (op.Receive? || op.CallerDrops?) && CallerOk(d) && Findable(d, v.queueClosed, v.queued, v.inHand)
    ensures Balanced(d, Ending(op, d, v), v)
  {
    if op.Receive? {
      ReceiveBalanced(op, d, v);
    } else {
      CallerDropsBalanced(op, d, v);
    }
  }

  lemma ReceiveBalanced(op: Op, d: D, v: View)
    requires op.Receive? && CallerOk(d) && Findable(d, v.queueClosed, v.queued, v.inHand)
    ensures Balanced(d, Ending(op, d, v), v)
  {
  }

  lemma CallerDropsBalanced(op: Op, d: D, v: View)
    requires op.CallerDrops? && CallerOk(d) && Findable(d, v.queueClosed, v.queued, v.inHand)
    ensures Balanced(d, Ending(op, d, v), v)
  {
  }

  lemma ClaimingAccounted(op: Op, d: D, v: View)
    requires op.ReturnPermit? || op.TallyTaken?
    requires Ok(d) && Findable(d, v.queueClosed, v.queued, v.inHand)
    ensures Accounted(d, Claiming(op, d, v), v)
  {
    ClaimingOk(op, d, v);
    ClaimingBalanced(op, d, v);
  }

  lemma ClaimingOk(op: Op, d: D, v: View)
    requires (op.ReturnPermit? || op.TallyTaken?) && Ok(d)
    ensures Ok(Claiming(op, d, v).d)
  {
  }

  lemma ClaimingBalanced(op: Op, d: D, v: View)
    requires (op.ReturnPermit? || op.TallyTaken?) && CallerOk(d) && Findable(d, v.queueClosed, v.queued, v.inHand)
    ensures Balanced(d, Claiming(op, d, v), v)
  {
  }

  lemma StartingAccounted(op: Op, d: D, v: View)
    requires op.Start?
    requires Ok(d) && Findable(d, v.queueClosed, v.queued, v.inHand)
    ensures Accounted(d, Starting(op, d, v), v)
  {
    StartingOk(op, d, v);
    StartingBalanced(op, d, v);
  }

  lemma StartingOk(op: Op, d: D, v: View)
    requires (op.Start?) && Ok(d)
    ensures Ok(Starting(op, d, v).d)
  {
  }

  lemma StartingBalanced(op: Op, d: D, v: View)
    requires (op.Start?) && CallerOk(d) && Findable(d, v.queueClosed, v.queued, v.inHand)
    ensures Balanced(d, Starting(op, d, v), v)
  {
  }

  lemma ReplyingAccounted(op: Op, d: D, v: View)
    requires op.Finish? || op.Panic? || op.SendClosed?
    requires Ok(d) && Findable(d, v.queueClosed, v.queued, v.inHand)
    ensures Accounted(d, Replying(op, d, v), v)
  {
    ReplyingOk(op, d, v);
    ReplyingBalanced(op, d, v);
  }

  lemma ReplyingOk(op: Op, d: D, v: View)
    requires (op.Finish? || op.Panic? || op.SendClosed?) && Ok(d)
    ensures Ok(Replying(op, d, v).d)
  {
  }

  lemma ReplyingBalanced(op: Op, d: D, v: View)
    requires (op.Finish? || op.Panic? || op.SendClosed?) && CallerOk(d) && Findable(d, v.queueClosed, v.queued, v.inHand)
    ensures Balanced(d, Replying(op, d, v), v)
  {
    if op.Finish? {
      FinishBalanced(op, d, v);
    } else if op.Panic? {
      PanicBalanced(op, d, v);
    } else {
      SendClosedBalanced(op, d, v);
    }
  }

  lemma FinishBalanced(op: Op, d: D, v: View)
    requires op.Finish? && CallerOk(d) && Findable(d, v.queueClosed, v.queued, v.inHand)
    ensures Balanced(d, Replying(op, d, v), v)
  {
  }

  lemma PanicBalanced(op: Op, d: D, v: View)
    requires op.Panic? && CallerOk(d) && Findable(d, v.queueClosed, v.queued, v.inHand)
    ensures Balanced(d, Replying(op, d, v), v)
  {
  }

  lemma SendClosedBalanced(op: Op, d: D, v: View)
    requires op.SendClosed? && CallerOk(d) && Findable(d, v.queueClosed, v.queued, v.inHand)
    ensures Balanced(d, Replying(op, d, v), v)
  {
  }

  /** Steps of the dispatching call. */
  ghost predicate OfCall(op: Op) {
    || op.Acquire? || op.Check? || op.Insert? || op.Tally? || op.Enqueue? || op.Abandon? || op.TallyAbandoned?
    || op.DropAbandoned? || op.Receive? || op.CallerDrops?
  }

  lemma CallAccounted(op: Op, d: D, v: View)
    requires OfCall(op) && Ok(d) && Findable(d, v.queueClosed, v.queued, v.inHand)
    ensures Accounted(d, Act(op, d, v), v)
  {
    if op.Acquire? || op.Check? || op.Insert? {
      EnterAccounted(op, d, v);
    } else if op.Tally? || op.Enqueue? {
      QueueingAccounted(op, d, v);
    } else if op.Abandon? || op.TallyAbandoned? || op.DropAbandoned? {
      AbandoningAccounted(op, d, v);
    } else {
      EndingAccounted(op, d, v);
    }
  }

  lemma SignalAccounted(op: Op, d: D, v: View)
    requires (op.SetCancelled? || op.SetPresent?) && Ok(d) && Findable(d, v.queueClosed, v.queued, v.inHand)
    ensures Accounted(d, Act(op, d, v), v)
  {
  }

  lemma ExecutorAccounted(op: Op, d: D, v: View)
    requires OfOne(op) && !OfCall(op) && Ok(d) && Findable(d, v.queueClosed, v.queued, v.inHand)
    ensures Accounted(d, Act(op, d, v), v)
  {
    if op.Dequeue? || op.Take? {
      FetchingAccounted(op, d, v);
    } else if op.ReturnPermit? || op.TallyTaken? {
      ClaimingAccounted(op, d, v);
    } else if op.Start? {
      StartingAccounted(op, d, v);
    } else if op.Finish? || op.Panic? || op.SendClosed? {
      ReplyingAccounted(op, d, v);
    } else {
      SignalAccounted(op, d, v);
    }
  }

  // ----------------------------------------------------------- the user slot

  /** The call holds the slot up to its entry in the map; from then on the entry does. */
  ghost predicate CarriesSlot(d: D) {
    || d.caller.Fresh? || d.caller.HasPermit? || d.caller.Checked?
    || d.item.Pending? || d.item.Executor? || d.item.WonBack?
  }

  ghost predicate SlotOk(d: D) {
    (d.held <==> CarriesSlot(d)) && d.drops == One(!d.held)
  }

  lemma EnteringSlot(op: Op, d: D, v: View)
    requires CallerOk(d) && SlotOk(d)
    ensures op.Acquire? || op.Check? || op.Insert? ==> SlotOk(Enter(op, d, v).d)
    ensures op.Tally? || op.Enqueue? ==> SlotOk(Queueing(op, d, v).d)
    ensures op.Dequeue? || op.Take? ==> SlotOk(Fetching(op, d, v).d)
  {
  }

  lemma LeavingSlot(op: Op, d: D, v: View)
    requires CallerOk(d) && SlotOk(d)
    ensures op.Abandon? || op.TallyAbandoned? || op.DropAbandoned? ==> SlotOk(Abandoning(op, d, v).d)
    ensures op.Receive? || op.CallerDrops? ==> SlotOk(Ending(op, d, v).d)
  {
  }

  lemma RunningSlot(op: Op, d: D, v: View)
    requires CallerOk(d) && SlotOk(d)
    ensures op.ReturnPermit? || op.TallyTaken? ==> SlotOk(Claiming(op, d, v).d)
    ensures op.Start? ==> SlotOk(Starting(op, d, v).d)
    ensures op.Finish? || op.Panic? || op.SendClosed? ==> SlotOk(Replying(op, d, v).d)
  {
  }

  lemma ActSlotOk(op: Op, d: D, v: View)
    requires OfOne(op) && CallerOk(d) && SlotOk(d)
    ensures SlotOk(Act(op, d, v).d)
  {
    EnteringSlot(op, d, v);
    LeavingSlot(op, d, v);
    RunningSlot(op, d, v);
  }

  ghost predicate SlotsOk(ds: map<Id, D>) {
    forall i | i in ds :: SlotOk(ds[i])
  }

  lemma UpdateSlots(ds: map<Id, D>, i: Id, d: D)
    requires SlotsOk(ds) && SlotOk(d)
    ensures SlotsOk(ds[i := d])
  {
  }

  lemma DrainSlots(ds: map<Id, D>)
    requires SlotsOk(ds) && forall i | i in ds :: CallerOk(ds[i])
    ensures SlotsOk(map i | i in ds :: Drained(ds[i]))
  {
    forall i | i in ds ensures SlotOk(Drained(ds[i])) {
      assert CallerOk(ds[i]) && SlotOk(ds[i]);
    }
  }

  lemma StepSlots(s: State, op: Op)
    requires EachOk(s) && SlotsOk(s.ds)
    ensures SlotsOk(Step(s, op).ds)
  {
    if OfOne(op) {
      if op.d in s.ds {
        assert Ok(s.ds[op.d]);
        ActSlotOk(op, s.ds[op.d], ViewOf(s, op.d));
        UpdateSlots(s.ds, op.d, Act(op, s.ds[op.d], ViewOf(s, op.d)).d);
      }
    } else if op.Drain? {
      forall i | i in s.ds ensures CallerOk(s.ds[i]) { assert Ok(s.ds[i]); }
      DrainSlots(s.ds);
    } else if op.Begin? && op.d !in s.ds {
      UpdateSlots(s.ds, op.d, Step(s, op).ds[op.d]);
    }
  }

  lemma {:induction false} RunSlots(s: State, ops: seq<Op>)
    requires Inv(s) && SlotsOk(s.ds)
    ensures SlotsOk(Run(s, ops).ds)
    decreases ops
  {
    if ops != [] {
      StepKeeps(s, ops[0]);
      StepSlots(s, ops[0]);
      RunSlots(Step(s, ops[0]), ops[1..]);
    }
  }

  lemma ApplyKeeps(s: State, i: Id, e: Effect)
    requires Inv(s) && i in s.ds && Accounted(s.ds[i], e, ViewOf(s, i))
    ensures Inv(Apply(s, i, e))
  {
    var t := Apply(s, i, e);
    SelUpdate(s.ds, i, e.d, HoldsPermit);
    SelUpdate(s.ds, i, e.d, IsPending);
    SelUpdate(s.ds, i, e.d, NotYetAdded);
    SelUpdate(s.ds, i, e.d, NotYetTakenOff);
    forall j | j in t.ds ensures Ok(t.ds[j]) && FindableIn(t, j) {
      if j != i { assert Ok(s.ds[j]) && FindableIn(s, j); }
    }
  }

  lemma BeginKeeps(s: State, i: Id, d: D)
    requires Inv(s) && i !in s.ds && d.caller.Fresh? && Ok(d)
    ensures Inv(s.(ds := s.ds[i := d]))
  {
    var t := s.(ds := s.ds[i := d]);
    SelUpdate(s.ds, i, d, HoldsPermit);
    SelUpdate(s.ds, i, d, IsPending);
    SelUpdate(s.ds, i, d, NotYetAdded);
    SelUpdate(s.ds, i, d, NotYetTakenOff);
    forall j | j in t.ds ensures Ok(t.ds[j]) && FindableIn(t, j) {
      if j != i { assert Ok(s.ds[j]) && FindableIn(s, j); }
    }
  }

  lemma DrainKeeps(s: State, t: State, n: nat)
    requires Inv(s) && s.queueClosed && n == |Sel(s.ds, IsPending)|
    requires t == s.(ds := t.ds, free := s.free + n, drainDue := s.drainDue + n, drained := true)
    requires t.ds == map i | i in s.ds :: Drained(s.ds[i])
    ensures Inv(t)
  {
    DrainCounts(s, t);
    DrainEachOk(s, t);
    assert forall i | i in t.ds :: !t.ds[i].item.Pending?;
  }

  lemma DrainedCounts(d: D)
    requires Ok(d)
    ensures HoldsPermit(d) == (HoldsPermit(Drained(d)) || IsPending(d)) && !(HoldsPermit(Drained(d)) && IsPending(d))
    ensures NotYetAdded(Drained(d)) == NotYetAdded(d) && NotYetTakenOff(Drained(d)) == NotYetTakenOff(d)
    ensures !IsPending(Drained(d))
  {
  }

  lemma DrainCounts(s: State, t: State)
    requires EachOk(s) && t.ds == map i | i in s.ds :: Drained(s.ds[i])
    ensures |Sel(s.ds, HoldsPermit)| == |Sel(t.ds, HoldsPermit)| + |Sel(s.ds, IsPending)|
    ensures Sel(t.ds, IsPending) == {}
    ensures Sel(t.ds, NotYetAdded) == Sel(s.ds, NotYetAdded)
    ensures Sel(t.ds, NotYetTakenOff) == Sel(s.ds, NotYetTakenOff)
  {
    forall i | i in s.ds
      ensures HoldsPermit(s.ds[i]) == (HoldsPermit(t.ds[i]) || IsPending(s.ds[i]))
      ensures !(HoldsPermit(t.ds[i]) && IsPending(s.ds[i]))
      ensures NotYetTakenOff(s.ds[i]) == NotYetTakenOff(t.ds[i])
    {
      assert Ok(s.ds[i]);
      DrainedCounts(s.ds[i]);
    }
    SelSplit(s.ds, t.ds, HoldsPermit, IsPending);
    SelSame(s.ds, t.ds, NotYetAdded);
    SelSame(s.ds, t.ds, NotYetTakenOff);
  }

  lemma DrainEachOk(s: State, t: State)
    requires EachOk(s) && t.queueClosed && t.ds == map i | i in s.ds :: Drained(s.ds[i])
    ensures EachOk(t)
  {
    forall j | j in t.ds ensures Ok(t.ds[j]) && FindableIn(t, j) {
      assert Ok(s.ds[j]);
    }
  }

  /** Steps that touch no dispatch and no queue entry. */
  lemma FlagsKeep(s: State, t: State)
    requires Inv(s) && CloseOk(t) && t.capacity == s.capacity
    requires t.ds == s.ds && t.queue == s.queue && t.hands == s.hands && t.queueClosed == s.queueClosed
    requires t.free == s.free && t.depth - t.drainDue == s.depth - s.drainDue
    ensures Inv(t)
  {
    assert EachOk(t) by {
      forall j | j in t.ds ensures Ok(t.ds[j]) && FindableIn(t, j) {
        assert Ok(s.ds[j]) && FindableIn(s, j);
      }
    }
  }

  lemma CloseQueueKeeps(s: State, keep: set<Id>)
    requires Inv(s) && s.permitsClosed
    ensures Inv(s.(queueClosed := true, queue := s.queue * keep))
  {
    var t := s.(queueClosed := true, queue := s.queue * keep);
    forall j | j in t.ds ensures Ok(t.ds[j]) && FindableIn(t, j) {
      assert Ok(s.ds[j]);
    }
  }

  lemma OtherKeeps(s: State, op: Op)
    requires Inv(s) && !OfOne(op) && !op.Begin? && !op.Drain?
    ensures Inv(Step(s, op)) && Step(s, op).capacity == s.capacity
  {
    if op.CloseQueue? {
      if s.permitsClosed { CloseQueueKeeps(s, op.keep); }
    } else if op.TallyDrained? {
      TallyDrainedKeeps(s);
    } else {
      ClosingKeeps(s, op);
    }
  }

  lemma ClosingKeeps(s: State, op: Op)
    requires Inv(s) && (op.MarkClosing? || op.ClosePermits?)
    ensures Inv(Step(s, op)) && Step(s, op).capacity == s.capacity
  {
    FlagsKeep(s, Step(s, op));
  }

  lemma TallyDrainedKeeps(s: State)
    requires Inv(s)
    ensures Inv(s.(depth := s.depth - s.drainDue, drainDue := 0))
  {
    FlagsKeep(s, s.(depth := s.depth - s.drainDue, drainDue := 0));
  }

  lemma ActKeeps(s: State, op: Op)
    requires Inv(s) && OfOne(op) && op.d in s.ds
    ensures Inv(Apply(s, op.d, Act(op, s.ds[op.d], ViewOf(s, op.d))))
  {
    var d, v := s.ds[op.d], ViewOf(s, op.d);
    assert Ok(d) && FindableIn(s, op.d);
    if OfCall(op) {
      CallAccounted(op, d, v);
    } else {
      ExecutorAccounted(op, d, v);
    }
    ApplyKeeps(s, op.d, Act(op, d, v));
  }

  lemma StepKeeps(s: State, op: Op)
    requires Inv(s)
    ensures Inv(Step(s, op)) && Step(s, op).capacity == s.capacity
  {
    if op.Begin? {
      if op.d !in s.ds { BeginKeeps(s, op.d, Step(s, op).ds[op.d]); }
    } else if op.Drain? {
      if s.queueClosed { DrainKeeps(s, Step(s, op), |Sel(s.ds, IsPending)|); }
    } else if OfOne(op) {
      if op.d in s.ds { ActKeeps(s, op); }
    } else {
      OtherKeeps(s, op);
    }
  }

  lemma {:induction false} RunKeeps(s: State, ops: seq<Op>)
    requires Inv(s)
    ensures Inv(Run(s, ops)) && Run(s, ops).capacity == s.capacity
    decreases ops
  {
    if ops != [] {
      StepKeeps(s, ops[0]);
      RunKeeps(Step(s, ops[0]), ops[1..]);
    }
  }

  // --------------------------------------------------------- through the queue

  /** The call has put its entry in the queue. */
  ghost predicate WasQueued(d: D) {
    !d.caller.Fresh? && !d.caller.HasPermit? && !d.caller.Checked? && !d.caller.Inserted? && !d.caller.Tallied?
  }

  /** A queue entry, in the queue or in an executor's hands, and an entry an executor took, came by the queue. */
  ghost predicate CameByQueue(d: D, queued: bool, inHand: bool) {
    queued || inHand || (d.taken > 0 && d.taker == ByExecutor) ==> WasQueued(d)
  }

  ghost predicate QueueOk(s: State) {
    && (forall i | i in s.queue || i in s.hands :: i in s.ds)
    && (forall i | i in s.ds :: CameByQueue(s.ds[i], i in s.queue, i in s.hands))
  }

  lemma CallByQueue(op: Op, d: D, v: View)
    requires OfCall(op) && CameByQueue(d, v.queued, v.inHand)
    ensures var e := Act(op, d, v); CameByQueue(e.d, e.queued, e.inHand)
  {
  }

  lemma ExecutorByQueue(op: Op, d: D, v: View)
    requires OfOne(op) && !OfCall(op) && CameByQueue(d, v.queued, v.inHand)
    ensures var e := Act(op, d, v); CameByQueue(e.d, e.queued, e.inHand)
    ensures op.Take? ==> !Act(op, d, v).inHand
    ensures op.Dequeue? && v.queued ==> Act(op, d, v).inHand && !Act(op, d, v).queued
  {
  }

  lemma StepQueueOk(s: State, op: Op)
    requires QueueOk(s)
    ensures QueueOk(Step(s, op))
  {
    if OfOne(op) {
      if op.d in s.ds {
        if OfCall(op) {
          CallByQueue(op, s.ds[op.d], ViewOf(s, op.d));
        } else {
          ExecutorByQueue(op, s.ds[op.d], ViewOf(s, op.d));
        }
        ApplyQueueOk(s, op.d, Act(op, s.ds[op.d], ViewOf(s, op.d)));
      }
    } else {
      SharedQueueOk(s, op);
    }
  }

  lemma ApplyQueueOk(s: State, i: Id, e: Effect)
    requires QueueOk(s) && i in s.ds && CameByQueue(e.d, e.queued, e.inHand)
    ensures QueueOk(Apply(s, i, e))
  {
  }

  lemma SharedQueueOk(s: State, op: Op)
    requires QueueOk(s) && !OfOne(op)
    ensures QueueOk(Step(s, op))
  {
  }

  /** No executor gets at an entry before the call has enqueued it. */
  lemma {:induction false} TakenThroughQueue(capacity: nat, ops: seq<Op>)
    ensures QueueOk(Run(Init(capacity), ops))
    decreases |ops|
  {
    if ops != [] {
      var before, op := ops[..|ops| - 1], ops[|ops| - 1];
      assert ops == before + [op];
      TakenThroughQueue(capacity, before);
      RunSnoc(Init(capacity), before, op);
      StepQueueOk(Run(Init(capacity), before), op);
    }
  }

  // ------------------------------------------------ what each answer rests on

  /** What a step found: the dispatch as it was, and what it could see. */
  datatype Moment = Moment(op: Op, d: D, free: int, permitsClosed: bool, closing: bool)

  /** The n-th step of a run is of dispatch i and found this. */
  ghost predicate Found(s0: State, ops: seq<Op>, i: Id, n: nat, m: Moment) {
    && n < |ops| && OfOne(ops[n]) && ops[n].d == i && ops[n] == m.op
    && var s := Run(s0, ops[..n]);
       i in s.ds && s.ds[i] == m.d && s.free == m.free && s.permitsClosed == m.permitsClosed
       && s.closing == m.closing
  }

  /** The work returned this value. */
  ghost predicate WorkReturned(m: Moment, value: int) {
    m.op.Finish? && m.op.value == value && m.d.item == Executor(Working)
  }

  /** No permit was free although permits were still given out. */
  ghost predicate WasFull(m: Moment) {
    m.op.Acquire? && m.free == 0 && !m.permitsClosed
  }

  /** The guard asked to stop for this reason, and the reason was there. */
  ghost predicate HadReason(m: Moment, why: Abandonment) {
    && ((m.op.Abandon? && m.op.why == why) || (m.op.Start? && (why == ClientGone ==> !m.d.cancelled)))
    && (why == Cancelled ==> m.d.guard != NoGuard && m.d.cancelled)
    && (why == ClientGone ==> m.d.guard == OnCancelOrClientGone && !m.d.present)
  }

  /** The work was started with its caller there and no reason to stop. */
  ghost predicate StartedFreely(m: Moment) {
    && m.op.Start? && m.d.caller != Dropped
    && (m.d.cancelled ==> m.d.guard == NoGuard)
    && (!m.d.present ==> m.d.guard != OnCancelOrClientGone)
  }

  /** Close had begun, had drained the entry, or the work broke off without an answer. */
  ghost predicate WasShut(m: Moment) {
    m.closing || m.permitsClosed || m.d.item.Stranded? || (m.op.Panic? && m.d.item == Executor(Working))
  }

  /** What a record says that needs a cause. */
  datatype Fact = Value(value: int) | NoPermit | Stopped(why: Abandonment) | Begun | Shut

  ghost predicate Says(d: D, f: Fact) {
    match f
    case Value(v) => d.reply == Sent(Result(v)) || d.caller == Returned(Result(v))
    case NoPermit => d.reply == Sent(QueueFull) || d.caller == Returned(QueueFull)
    case Stopped(why) =>
      || d.reply == Sent(Abandoned(why)) || d.caller == Returned(Abandoned(why))
      || d.caller == Leaving(why) || d.caller == Left(why)
    case Begun => d.starts > 0
    case Shut => d.reply == Sent(Closed) || d.caller == Returned(Closed) || (d.reply == Hung && d.caller != Dropped)
  }

  ghost predicate Causes(m: Moment, f: Fact)
    requires OfOne(m.op)
  {
    match f
    case Value(v) => WorkReturned(m, v)
    case NoPermit => WasFull(m)
    case Stopped(why) => HadReason(m, why)
    case Begun => StartedFreely(m)
    case Shut => WasShut(m)
  }

  lemma EnterFact(op: Op, d: D, v: View, f: Fact, free: int)
    requires (op.Acquire? || op.Check? || op.Insert? || op.Tally? || op.Enqueue?) && (v.full <==> free == 0)
    requires Says(Act(op, d, v).d, f) && !Says(d, f)
    ensures Causes(Moment(op, d, free, v.permitsClosed, v.closing), f)
  {
  }

  lemma LeaveFact(op: Op, d: D, v: View, f: Fact, free: int)
    requires op.Abandon? || op.TallyAbandoned? || op.DropAbandoned? || op.Receive? || op.CallerDrops?
    requires Says(Act(op, d, v).d, f) && !Says(d, f)
    ensures Causes(Moment(op, d, free, v.permitsClosed, v.closing), f)
  {
  }

  lemma CallFact(op: Op, d: D, v: View, f: Fact, free: int)
    requires OfCall(op) && (v.full <==> free == 0)
    requires Says(Act(op, d, v).d, f) && !Says(d, f)
    ensures Causes(Moment(op, d, free, v.permitsClosed, v.closing), f)
  {
    if op.Acquire? || op.Check? || op.Insert? || op.Tally? || op.Enqueue? {
      EnterFact(op, d, v, f, free);
    } else {
      LeaveFact(op, d, v, f, free);
    }
  }

  lemma ExecutorFact(op: Op, d: D, v: View, f: Fact, free: int)
    requires OfOne(op) && !OfCall(op)
    requires Says(Act(op, d, v).d, f) && !Says(d, f)
    ensures Causes(Moment(op, d, free, v.permitsClosed, v.closing), f)
  {
  }

  ghost predicate Caused(s0: State, ops: seq<Op>, i: Id, f: Fact) {
    exists n: nat, m: Moment :: Found(s0, ops, i, n, m) && Causes(m, f)
  }

  lemma {:induction false} RunSnoc(s: State, ops: seq<Op>, op: Op)
    ensures Run(s, ops + [op]) == Step(Run(s, ops), op)
    decreases ops
  {
    RunAppend(s, ops, [op]);
    assert [op][1..] == [];
  }

  lemma CausedBefore(s0: State, ops: seq<Op>, op: Op, i: Id, f: Fact)
    requires Caused(s0, ops, i, f)
    ensures Caused(s0, ops + [op], i, f)
  {
    var n: nat, m: Moment :| Found(s0, ops, i, n, m) && Causes(m, f);
    assert (ops + [op])[..n] == ops[..n];
    assert Found(s0, ops + [op], i, n, m);
  }

  /** A step of no single dispatch leaves every dispatch's sayings as they are. */
  lemma SharedStepSays(s: State, op: Op, i: Id, f: Fact)
    requires !OfOne(op) && i in Step(s, op).ds && Says(Step(s, op).ds[i], f)
    ensures i in s.ds && Says(s.ds[i], f)
  {
    if op.Drain? {
      if s.queueClosed { assert Step(s, op).ds[i] == Drained(s.ds[i]); }
    } else if !op.Begin? {
      assert Step(s, op).ds == s.ds;
    }
  }

  lemma CausedNow(s0: State, before: seq<Op>, op: Op, i: Id, f: Fact)
    requires OfOne(op) && op.d == i && i in Run(s0, before).ds
    requires var s := Run(s0, before); Says(Act(op, s.ds[i], ViewOf(s, i)).d, f) && !Says(s.ds[i], f)
    ensures Caused(s0, before + [op], i, f)
  {
    var s, ops := Run(s0, before), before + [op];
    var m := Moment(op, s.ds[i], s.free, s.permitsClosed, s.closing);
    if OfCall(op) {
      CallFact(op, s.ds[i], ViewOf(s, i), f, s.free);
    } else {
      ExecutorFact(op, s.ds[i], ViewOf(s, i), f, s.free);
    }
    assert ops[..|before|] == before;
    assert Found(s0, ops, i, |before|, m);
  }

  lemma {:induction false} EverythingCaused(s0: State, ops: seq<Op>, i: Id, f: Fact)
    requires s0.ds == map[] && i in Run(s0, ops).ds && Says(Run(s0, ops).ds[i], f)
    ensures Caused(s0, ops, i, f)
    decreases |ops|
  {
    if ops != [] {
      var before, op := ops[..|ops| - 1], ops[|ops| - 1];
      assert ops == before + [op];
      RunSnoc(s0, before, op);
      var s := Run(s0, before);
      if i in s.ds && Says(s.ds[i], f) {
        EverythingCaused(s0, before, i, f);
        CausedBefore(s0, before, op, i, f);
      } else if OfOne(op) {
        assert op.d == i;
        CausedNow(s0, before, op, i, f);
      } else {
        SharedStepSays(s, op, i, f);
      }
    }
  }

  // ------------------------------------------------------------------ theorems

  lemma InitHolds(capacity: nat)
    ensures Inv(Init(capacity))
  {
    var s := Init(capacity);
    assert Sel(s.ds, HoldsPermit) == {} && Sel(s.ds, IsPending) == {};
    assert Sel(s.ds, NotYetAdded) == {} && Sel(s.ds, NotYetTakenOff) == {};
  }

  /**
   * Removal from the map decides: an entry is removed at most once, exactly once when it is
   * no longer pending, its work starts at most once and only for an executor, and a call
   * answered Cancelled or ClientGone by the dispatcher never had its work started.
   */
  lemma RemovalDecides(capacity: nat, ops: seq<Op>, i: Id)
    requires i in Run(Init(capacity), ops).ds
    ensures var d := Run(Init(capacity), ops).ds[i];
            && d.taken == (if d.item.NoItem? || d.item.Pending? then 0 else 1)
            && d.starts <= d.taken && (d.starts == 1 ==> d.taker == ByExecutor)
            && (d.caller.Returned? && d.caller.outcome.Abandoned? ==> d.starts == 0)
            && (d.caller.Returned? && d.caller.outcome.Result? ==> d.starts == 1)
            && (d.caller.Returned? && d.taken == 1 && d.taker == ByClose ==> d.caller.outcome == Closed)
            && (d.caller.Returned? && d.taken == 1 && d.taker == ByCaller ==> d.caller.outcome.Abandoned?)
  {
    InitHolds(capacity);
    RunKeeps(Init(capacity), ops);
    assert Ok(Run(Init(capacity), ops).ds[i]);
  }

  /**
   * Every answer rests on the step that caused it: a value is what the work returned, a full queue
   * was full when the permit was asked for, Cancelled and ClientGone had their reason under the
   * guard, closed means that close had begun or the work broke off, and work was only started with
   * no reason against it.
   */
  lemma AnswersHaveCauses(capacity: nat, ops: seq<Op>, i: Id)
    requires i in Run(Init(capacity), ops).ds
    ensures var s0 := Init(capacity);
            var d := Run(s0, ops).ds[i];
            && (d.caller.Returned? && d.caller.outcome.Result? ==>
                  exists n: nat, m: Moment :: Found(s0, ops, i, n, m) && WorkReturned(m, d.caller.outcome.value))
            && (d.caller.Returned? && d.caller.outcome.QueueFull? ==>
                  exists n: nat, m: Moment :: Found(s0, ops, i, n, m) && WasFull(m))
            && (d.caller.Returned? && d.caller.outcome.Abandoned? ==>
                  exists n: nat, m: Moment :: Found(s0, ops, i, n, m) && HadReason(m, d.caller.outcome.why))
            && (d.caller.Returned? && d.caller.outcome.Closed? ==>
                  exists n: nat, m: Moment :: Found(s0, ops, i, n, m) && WasShut(m))
            && (d.starts > 0 ==> exists n: nat, m: Moment :: Found(s0, ops, i, n, m) && StartedFreely(m))
  {
    var s0 := Init(capacity);
    var d := Run(s0, ops).ds[i];
    if d.starts > 0 {
      EverythingCaused(s0, ops, i, Begun);
      var n: nat, m: Moment :| Found(s0, ops, i, n, m) && Causes(m, Begun);
    }
    if d.caller.Returned? {
      if d.caller.outcome.Result? {
        EverythingCaused(s0, ops, i, Value(d.caller.outcome.value));
        var n: nat, m: Moment :| Found(s0, ops, i, n, m) && Causes(m, Value(d.caller.outcome.value));
      } else if d.caller.outcome.QueueFull? {
        EverythingCaused(s0, ops, i, NoPermit);
        var n: nat, m: Moment :| Found(s0, ops, i, n, m) && Causes(m, NoPermit);
      } else if d.caller.outcome.Abandoned? {
        EverythingCaused(s0, ops, i, Stopped(d.caller.outcome.why));
        var n: nat, m: Moment :| Found(s0, ops, i, n, m) && Causes(m, Stopped(d.caller.outcome.why));
      } else {
        EverythingCaused(s0, ops, i, Shut);
        var n: nat, m: Moment :| Found(s0, ops, i, n, m) && Causes(m, Shut);
      }
    }
  }

  /** Every waiting call has someone who will answer it, and an enqueued entry can be found. */
  lemma NobodyForgotten(capacity: nat, ops: seq<Op>, i: Id)
    requires i in Run(Init(capacity), ops).ds
    requires var d := Run(Init(capacity), ops).ds[i]; d.caller.Waiting? || d.caller.AwaitingReply?
    ensures var s := Run(Init(capacity), ops);
            var d := s.ds[i];
            && (d.item.Pending? || d.item.Executor? || d.item.Stranded? || !d.reply.None?)
            && (d.item.Pending? && !s.queueClosed ==> i in s.queue || i in s.hands)
  {
    InitHolds(capacity);
    RunKeeps(Init(capacity), ops);
    var s := Run(Init(capacity), ops);
    assert Ok(s.ds[i]) && FindableIn(s, i);
  }

  /**
   * A call's user slot is held exactly while the call has not inserted its entry, or the entry
   * is pending, with an executor or won back; it is let go once, on every way out.
   */
  lemma SlotHeldThroughout(capacity: nat, ops: seq<Op>, i: Id)
    requires i in Run(Init(capacity), ops).ds
    ensures var d := Run(Init(capacity), ops).ds[i];
            && (d.held <==> CarriesSlot(d)) && d.drops == One(!d.held)
            && (d.item.Executor? && d.item.step.Working? ==> d.held)
            && (d.caller.Returned? && !d.item.Executor? ==> d.drops == 1)
            && (!d.reply.None? ==> d.drops == 1)
  {
    InitHolds(capacity);
    RunKeeps(Init(capacity), ops);
    RunSlots(Init(capacity), ops);
    var s := Run(Init(capacity), ops);
    assert Ok(s.ds[i]) && SlotOk(s.ds[i]);
  }

  lemma {:induction false} DrainedStays(s: State, ops: seq<Op>)
    requires s.drained
    ensures Run(s, ops).drained
    decreases ops
  {
    if ops != [] { DrainedStays(Step(s, ops[0]), ops[1..]); }
  }

  lemma {:induction false} RunAppend(s: State, ops: seq<Op>, more: seq<Op>)
    ensures Run(s, ops + more) == Run(Run(s, ops), more)
    decreases ops
  {
    if ops == [] {
      assert ops + more == more;
    } else {
      RunAppend(Step(s, ops[0]), ops[1..], more);
      assert (ops + more)[1..] == ops[1..] + more;
    }
  }

  /**
   * Once `close` has drained the map it stays empty in every later state, and every entry
   * the drain removed has been sent "dispatcher closed" or is in the hands of the closer.
   */
  lemma CloseStrandsNobody(capacity: nat, ops: seq<Op>, more: seq<Op>)
    requires Run(Init(capacity), ops).drained
    ensures var t := Run(Init(capacity), ops + more);
            && Sel(t.ds, IsPending) == {}
            && forall i | i in t.ds && t.ds[i].taken == 1 && t.ds[i].taker == ByClose ::
                 t.ds[i].item.Stranded? || t.ds[i].reply == Sent(Closed)
  {
    InitHolds(capacity);
    RunKeeps(Init(capacity), ops + more);
    RunAppend(Init(capacity), ops, more);
    DrainedStays(Run(Init(capacity), ops), more);
    var t := Run(Init(capacity), ops + more);
    forall i | i in t.ds && t.ds[i].taken == 1 && t.ds[i].taker == ByClose
      ensures t.ds[i].item.Stranded? || t.ds[i].reply == Sent(Closed)
    {
      assert Ok(t.ds[i]);
    }
  }

  /**
   * Permits and gauge balance in every state: free and held permits add up to the capacity,
   * and the gauge is the number of pending entries, corrected by the updates still under way.
   */
  lemma ResourcesConserved(capacity: nat, ops: seq<Op>)
    ensures var s := Run(Init(capacity), ops);
            && s.free >= 0 && s.free + |Sel(s.ds, HoldsPermit)| == capacity
            && s.depth == |Sel(s.ds, IsPending)| - |Sel(s.ds, NotYetAdded)| + |Sel(s.ds, NotYetTakenOff)| + s.drainDue
            && |Sel(s.ds, IsPending)| <= capacity
  {
    InitHolds(capacity);
    RunKeeps(Init(capacity), ops);
    var s := Run(Init(capacity), ops);
    SubsetSize(Sel(s.ds, IsPending), Sel(s.ds, HoldsPermit));
  }

  // ------------------------------------------------------------ the ways out

  /** Closing runs through from any state: new calls are shut out, then permits and queue closed, then the map drained. */
  lemma CloseRunsThrough(s: State, keep: set<Id>)
    ensures Step(s, MarkClosing) == s.(closing := true)
    ensures s.closing ==> Step(s, ClosePermits) == s.(permitsClosed := true)
    ensures s.permitsClosed ==> Step(s, CloseQueue(keep)) == s.(queueClosed := true, queue := s.queue * keep)
    ensures s.queueClosed ==>
              var t := Step(s, Drain);
              t.drained && forall i | i in s.ds && s.ds[i].item.Pending? :: i in t.ds && t.ds[i].item.Stranded?
    ensures Step(s, TallyDrained).drainDue == 0
  {
  }

  lemma Told(d: D, i: Id, v: View)
    requires d.caller.Waiting? && !d.reply.None?
    ensures Act(Receive(i), d, v).d.caller == Returned(if d.reply.Sent? then d.reply.outcome else Closed)
  {
  }

  /** A caller stranded by close is told so once the closer sends. */
  lemma StrandedIsTold(d: D, i: Id, v: View)
    requires d.caller.Waiting? && d.item.Stranded?
    ensures Act(Receive(i), Act(SendClosed(i), d, v).d, v).d.caller == Returned(Closed)
  {
    Told(Act(SendClosed(i), d, v).d, i, v);
  }

  /** A caller whose work panics is let go, with its slot. */
  lemma PanickedIsTold(d: D, i: Id, v: View)
    requires d.caller.Waiting? && AtStep(d, Working)
    ensures var gone := Act(Receive(i), Act(Panic(i), d, v).d, v).d; gone.caller == Returned(Closed) && !gone.held
  {
    Told(Act(Panic(i), d, v).d, i, v);
  }

  /** A call can be dropped where it waits; one dropped at its start lets its slot go, and work of a dropped call is not started. */
  lemma DroppedCalls(d: D, i: Id, v: View)
    ensures d.caller.Fresh? ==> Act(CallerDrops(i), d, v).d == LetGo(d).(caller := Dropped)
    ensures d.caller.Waiting? || d.caller.AwaitingReply? ==> Act(CallerDrops(i), d, v).d == d.(caller := Dropped)
    ensures d.caller.Dropped? && AtStep(d, Counted) ==>
              Act(Start(i), d, v).d.item == Over && Act(Start(i), d, v).d.starts == d.starts && !Act(Start(i), d, v).d.held
  {
  }

  // ----------------------------------------------------- runs that get there

  ghost predicate Reachable(s: State, capacity: nat) {
    exists ops: seq<Op> :: s == Run(Init(capacity), ops)
  }

  lemma Then(s: State, capacity: nat, op: Op) returns (t: State)
    requires Reachable(s, capacity)
    ensures t == Step(s, op) && Reachable(t, capacity)
  {
    var ops: seq<Op> :| s == Run(Init(capacity), ops);
    t := Step(s, op);
    RunSnoc(Init(capacity), ops, op);
    assert t == Run(Init(capacity), ops + [op]);
  }

  /** One dispatch alone: where it stands, and what is free, counted, queued and in hand. */
  ghost predicate Alone(s: State, d: D, free: int, depth: int, queued: bool, inHand: bool) {
    && s.ds == map[0 := d] && s.free == free && s.depth == depth && s.drainDue == 0
    && !s.closing && !s.permitsClosed && !s.queueClosed
    && s.queue == (if queued then {0} else {}) && s.hands == if inHand then {0} else {}
  }

  /** A run gets to one dispatch standing so. */
  ghost predicate Gets(capacity: nat, d: D, free: int, depth: int, queued: bool, inHand: bool) {
    exists s :: Reachable(s, capacity) && Alone(s, d, free, depth, queued, inHand)
  }

  lemma Does(capacity: nat, op: Op, d: D, free: int, depth: int, queued: bool, inHand: bool, e: Effect)
    requires Gets(capacity, d, free, depth, queued, inHand) && OfOne(op) && op.d == 0
    requires e == Act(op, d, View(false, false, false, free == 0, queued, inHand))
    ensures Gets(capacity, e.d, free + e.permits, depth + e.gauge, e.queued, e.inHand)
  {
    var s :| Reachable(s, capacity) && Alone(s, d, free, depth, queued, inHand);
    var t := Then(s, capacity, op);
    assert ViewOf(s, 0) == View(false, false, false, free == 0, queued, inHand);
    assert t == Apply(s, 0, e);
    AloneAfter(s, d, free, depth, queued, inHand, e);
  }

  lemma AloneAfter(s: State, d: D, free: int, depth: int, queued: bool, inHand: bool, e: Effect)
    requires Alone(s, d, free, depth, queued, inHand)
    ensures Alone(Apply(s, 0, e), e.d, free + e.permits, depth + e.gauge, e.queued, e.inHand)
  {
    assert s.ds[0 := e.d] == map[0 := e.d];
  }

  ghost function Newcomer(guard: Guard): D {
    D(guard, Fresh, NoItem, None, 0, ByClose, 0, false, true, true, 0)
  }

  lemma Begins(capacity: nat, guard: Guard)
    ensures Gets(capacity, Newcomer(guard), capacity, 0, false, false)
  {
    assert Init(capacity) == Run(Init(capacity), []);
    var s := Then(Init(capacity), capacity, Begin(0, guard));
    assert Alone(s, Newcomer(guard), capacity, 0, false, false);
  }

  ghost function Waiter(guard: Guard, item: Item, taken: nat, taker: Taker, starts: nat): D {
    D(guard, Waiting, item, None, taken, taker, starts, false, true, true, 0)
  }

  /** Into the map and the queue. */
  lemma Queued(capacity: nat, guard: Guard)
    requires capacity > 0
    ensures Gets(capacity, Waiter(guard, Pending, 0, ByClose, 0), capacity - 1, 1, true, false)
  {
    Begins(capacity, guard);
    var d, free := Newcomer(guard), capacity - 1;
    Does(capacity, Acquire(0), d, capacity, 0, false, false, Effect(d.(caller := HasPermit), -1, 0, false, false));
    d := d.(caller := HasPermit);
    Does(capacity, Check(0), d, free, 0, false, false, Effect(d.(caller := Checked), 0, 0, false, false));
    d := d.(caller := Checked);
    Does(capacity, Insert(0), d, free, 0, false, false, Effect(d.(caller := Inserted, item := Pending), 0, 0, false, false));
    d := d.(caller := Inserted, item := Pending);
    Does(capacity, Tally(0), d, free, 0, false, false, Effect(d.(caller := Tallied), 0, 1, false, false));
    d := d.(caller := Tallied);
    Does(capacity, Enqueue(0), d, free, 1, false, false, Effect(d.(caller := Waiting), 0, 0, true, false));
  }

  ghost function Held(guard: Guard, step: ExecStep): D {
    Waiter(guard, Executor(step), 1, ByExecutor, 0)
  }

  /** Taken by an executor, and the permit given back. */
  lemma Fetched(capacity: nat, guard: Guard)
    requires capacity > 0
    ensures Gets(capacity, Held(guard, PermitBack), capacity, 1, false, false)
  {
    Queued(capacity, guard);
    var d, free := Waiter(guard, Pending, 0, ByClose, 0), capacity - 1;
    Does(capacity, Dequeue(0), d, free, 1, true, false, Effect(d, 0, 0, false, true));
    Does(capacity, Take(0), d, free, 1, false, true, Effect(Held(guard, Took), 0, 0, false, false));
    Does(capacity, ReturnPermit(0), Held(guard, Took), free, 1, false, false, Effect(Held(guard, PermitBack), 1, 0, false, false));
  }

  /** The gauge given back too, and the work started. */
  lemma Started(capacity: nat, guard: Guard)
    requires capacity > 0
    ensures Gets(capacity, Waiter(guard, Executor(Working), 1, ByExecutor, 1), capacity, 0, false, false)
  {
    Fetched(capacity, guard);
    Does(capacity, TallyTaken(0), Held(guard, PermitBack), capacity, 1, false, false,
         Effect(Held(guard, Counted), 0, -1, false, false));
    Does(capacity, Start(0), Held(guard, Counted), capacity, 0, false, false,
         Effect(Waiter(guard, Executor(Working), 1, ByExecutor, 1), 0, 0, false, false));
  }

  /** With room for one, any value the work returns reaches the caller, and everything is given back. */
  lemma WorkCompletes(capacity: nat, guard: Guard, value: int) returns (d: D)
    requires capacity > 0
    ensures Gets(capacity, d, capacity, 0, false, false)
    ensures d.caller == Returned(Result(value)) && d.drops == 1
  {
    Started(capacity, guard);
    var w := Waiter(guard, Executor(Working), 1, ByExecutor, 1);
    var done := LetGo(w).(item := Over, reply := Sent(Result(value)));
    Does(capacity, Finish(0, value), w, capacity, 0, false, false, Effect(done, 0, 0, false, false));
    d := done.(caller := Returned(Result(value)));
    Does(capacity, Receive(0), done, capacity, 0, false, false, Effect(d, 0, 0, false, false));
  }

  /** A job cancelled while it waits is abandoned by its caller, and everything but the tombstone is given back. */
  lemma CancelAbandons(capacity: nat) returns (d: D)
    requires capacity > 0
    ensures Gets(capacity, d, capacity, 0, true, false)
    ensures d.caller == Returned(Abandoned(Cancelled)) && d.starts == 0 && d.drops == 1
  {
    Queued(capacity, OnCancel);
    var w, free := Waiter(OnCancel, Pending, 0, ByClose, 0), capacity - 1;
    var c := w.(cancelled := true);
    Does(capacity, SetCancelled(0), w, free, 1, true, false, Effect(c, 0, 0, true, false));
    var won := c.(caller := Leaving(Cancelled), item := WonBack, taken := 1, taker := ByCaller);
    Does(capacity, Abandon(0, Cancelled), c, free, 1, true, false, Effect(won, 0, 0, true, false));
    var left := won.(caller := Left(Cancelled));
    Does(capacity, TallyAbandoned(0), won, free, 1, true, false, Effect(left, 0, -1, true, false));
    d := LetGo(left).(caller := Returned(Abandoned(Cancelled)), item := Over);
    Does(capacity, DropAbandoned(0), left, free, 0, true, false, Effect(d, 1, 0, true, false));
  }

  /** So is a waiting job whose client left, under the guard that asks for a client. */
  lemma DepartureAbandons(capacity: nat) returns (d: D)
    requires capacity > 0
    ensures Gets(capacity, d, capacity, 0, true, false)
    ensures d.caller == Returned(Abandoned(ClientGone)) && d.starts == 0 && d.drops == 1
  {
    Queued(capacity, OnCancelOrClientGone);
    var w, free := Waiter(OnCancelOrClientGone, Pending, 0, ByClose, 0), capacity - 1;
    var c := w.(present := false);
    Does(capacity, SetPresent(0, false), w, free, 1, true, false, Effect(c, 0, 0, true, false));
    var won := c.(caller := Leaving(ClientGone), item := WonBack, taken := 1, taker := ByCaller);
    Does(capacity, Abandon(0, ClientGone), c, free, 1, true, false, Effect(won, 0, 0, true, false));
    var left := won.(caller := Left(ClientGone));
    Does(capacity, TallyAbandoned(0), won, free, 1, true, false, Effect(left, 0, -1, true, false));
    d := LetGo(left).(caller := Returned(Abandoned(ClientGone)), item := Over);
    Does(capacity, DropAbandoned(0), left, free, 0, true, false, Effect(d, 1, 0, true, false));
  }
}
