/** The cost-weighted worker: a heap of entries, the cheapest first, oldest first among equals. */
module CostQueue {
  import opened WorkerLog
  import AgeOrder

  type Job = AgeOrder.Job

  datatype Entry = Entry(cost: nat, ord: nat, job: Job)

  type Command = Cmd<Entry>

  type Handover = Delivery<Entry, ()>

  function CostOf(job: Job): nat {
    if job.cost.Some? then job.cost.value else 0
  }

  function Enqueued(job: Job, ord: nat): (c: Command)
    ensures Honest([c]) && c.Enqueue? && c.entry.job == job && c.entry.ord == ord
    ensures job.cost.Some? ==> c.entry.cost == job.cost.value
    ensures job.cost.None? ==> c.entry.cost == 0
  {
    Enqueue(Entry(CostOf(job), ord, job))
  }

  /** Every command was built by the queue's own enqueue, so its cost is the job's. */
  ghost predicate Honest(cmds: seq<Command>) {
    forall c | c in cmds && c.Enqueue? :: c.entry.cost == CostOf(c.entry.job)
  }

  /** The reversed order of the heap: greater means cheaper, then older. */
  predicate Less(a: Entry, b: Entry) {
    a.cost > b.cost || (a.cost == b.cost && a.ord > b.ord)
  }

  method Pop(heap: seq<Entry>) returns (top: Entry, rest: seq<Entry>)
    requires heap != []
    ensures multiset(heap) == multiset(rest) + multiset{top}
    ensures forall e | e in heap :: e.cost > top.cost || (e.cost == top.cost && e.ord >= top.ord)
  {
    var k := 0;
    for i := 1 to |heap|
      invariant k < i && forall j | 0 <= j < i :: !Less(heap[k], heap[j])
    {
      if Less(heap[k], heap[i]) {
        k := i;
      }
    }
    top, rest := heap[k], heap[..k] + heap[k + 1..];
    assert heap == heap[..k] + [heap[k]] + heap[k + 1..];
  }

  /** Each delivered entry had the least (cost, ordinal) of all that were present. */
  ghost predicate CheapestFirst(log: seq<Handover>) {
    forall i, e | 0 <= i < |log| && e in log[i].rest ::
      e.cost > log[i].entry.cost || (e.cost == log[i].entry.cost && e.ord >= log[i].entry.ord)
  }

  ghost predicate Costed(heap: seq<Entry>) {
    forall e | e in heap :: e.cost == CostOf(e.job)
  }

  lemma SameMembers(heap: seq<Entry>, rest: seq<Entry>, top: Entry)
    requires multiset(heap) == multiset(rest) + multiset{top}
    ensures top in heap
    ensures forall e | e in rest :: e in heap
  {
    assert top in multiset(heap);
    forall e | e in rest ensures e in heap { assert e in multiset(heap); }
  }

  /** How far one pass has come. */
  ghost predicate Serving(heap: seq<Entry>, waiters: seq<Waiter>, left: seq<Entry>, waiting: seq<Waiter>,
                          served: seq<Handover>, turn: nat) {
    && Costed(left) && CheapestFirst(served) && Pass(heap, served, turn)
    && multiset(heap) == multiset(left) + multiset(Entries(served))
    && Takers(waiters) == ServedBy(served) + Takers(waiting)
  }

  lemma CheapestMore(served: seq<Handover>, sent: Handover)
    requires CheapestFirst(served)
    requires forall e | e in sent.rest :: e.cost > sent.entry.cost || (e.cost == sent.entry.cost && e.ord >= sent.entry.ord)
    ensures CheapestFirst(served + [sent])
  {
  }

  /** A send that succeeded: the popped entry is out, the rest is what stays. */
  lemma Handed(heap: seq<Entry>, waiters: seq<Waiter>, left: seq<Entry>, waiting: seq<Waiter>,
               served: seq<Handover>, turn: nat, entry: Entry, rest: seq<Entry>)
    requires Serving(heap, waiters, left, waiting, served, turn) && waiting != []
    requires !waiting[0].closed && waiting[0].takes
    requires multiset(left) == multiset(rest) + multiset{entry}
    requires forall e | e in left :: e.cost > entry.cost || (e.cost == entry.cost && e.ord >= entry.ord)
    ensures Serving(heap, waiters, rest, waiting[1..], served + [Delivery(waiting[0], entry, turn, rest, ())], turn)
  {
    var sent := Delivery(waiting[0], entry, turn, rest, ());
    SameMembers(left, rest, entry);
    LogOne(served, sent);
    TakerServed(ServedBy(served), waiting);
    CheapestMore(served, sent);
    PassMore(heap, served, turn, sent);
  }

  lemma PassMore(heap: seq<Entry>, served: seq<Handover>, turn: nat, sent: Handover)
    requires Pass(heap, served, turn) && sent.turn == turn
    requires multiset(Entries(served + [sent])) + multiset(sent.rest) == multiset(heap)
    ensures Pass(heap, served + [sent], turn)
  {
    var all := served + [sent];
    forall j | 0 <= j < |all| ensures all[j].turn == turn && Leaves(heap, all, j) {
      if j < |served| {
        assert all[..j + 1] == served[..j + 1] && Leaves(heap, served, j);
      } else {
        assert all[..j + 1] == all;
      }
    }
  }

  /** A send that failed: the entry goes back with its cost read from the job again, and is the same. */
  lemma PutBack(heap: seq<Entry>, waiters: seq<Waiter>, left: seq<Entry>, waiting: seq<Waiter>,
                served: seq<Handover>, turn: nat, entry: Entry, rest: seq<Entry>)
    requires Serving(heap, waiters, left, waiting, served, turn) && waiting != []
    requires waiting[0].closed || !waiting[0].takes
    requires multiset(left) == multiset(rest) + multiset{entry}
    ensures Serving(heap, waiters, rest + [Entry(CostOf(entry.job), entry.ord, entry.job)], waiting[1..], served, turn)
  {
    SameMembers(left, rest, entry);
    assert Entry(CostOf(entry.job), entry.ord, entry.job) == entry;
    assert multiset(rest + [entry]) == multiset(left);
  }

  /**
   * The service loop of one turn. Each delivery is the least (cost, ordinal) of everything then
   * stored, and the loop ends with heap or requests empty.
   */
  method ServiceWaiters(heap: seq<Entry>, waiters: seq<Waiter>, turn: nat)
    returns (left: seq<Entry>, waiting: seq<Waiter>, served: seq<Handover>)
    requires Costed(heap)
    ensures left == [] || waiting == []
    ensures Costed(left)
    ensures multiset(heap) == multiset(left) + multiset(Entries(served))
    ensures Takers(waiters) == ServedBy(served) + Takers(waiting)
    ensures CheapestFirst(served) && Pass(heap, served, turn)
  {
    left, waiting, served := heap, waiters, [];
    while waiting != [] && left != []
      invariant Serving(heap, waiters, left, waiting, served, turn)
      decreases |waiting|
    {
      var reply := waiting[0];
      var entry, rest := Pop(left);
      if !reply.closed && reply.takes {
        Handed(heap, waiters, left, waiting, served, turn, entry, rest);
        left, served := rest, served + [Delivery(reply, entry, turn, rest, ())];
      } else {
        PutBack(heap, waiters, left, waiting, served, turn, entry, rest);
        left := rest + [Entry(CostOf(entry.job), entry.ord, entry.job)];
      }
      waiting := waiting[1..];
    }
  }

  method HandleCmd(cmd: Command, heap: seq<Entry>, waiters: seq<Waiter>)
    returns (stored: seq<Entry>, waiting: seq<Waiter>)
    requires Costed(heap) && Honest([cmd])
    ensures stored == heap + Arrivals([cmd]) && Costed(stored)
    ensures waiting == waiters + Requests([cmd])
  {
    stored, waiting := heap, waiters;
    match cmd {
      case Enqueue(entry) =>
        assert cmd in [cmd];
        stored := stored + [entry];
      case Dequeue(reply) => waiting := waiting + [reply];
    }
  }

  /** Every command is a turn of its own. */
  function Turns(cmds: seq<Command>): (ts: seq<seq<Command>>)
    ensures |ts| == |cmds|
  {
    seq(|cmds|, i requires 0 <= i < |cmds| => [cmds[i]])
  }

  lemma {:induction false} FlatTurns(cmds: seq<Command>)
    ensures Flat(Turns(cmds)) == cmds
  {
    if cmds != [] {
      var n := |cmds| - 1;
      FlatTurns(cmds[..n]);
      assert Turns(cmds)[..n] == Turns(cmds[..n]);
    }
  }

  lemma TurnsMore(cmds: seq<Command>, i: nat)
    requires i < |cmds|
    ensures Turns(cmds[..i + 1]) == Turns(cmds[..i]) + [[cmds[i]]]
  {
  }

  lemma CheapestJoin(log: seq<Handover>, served: seq<Handover>)
    requires CheapestFirst(log) && CheapestFirst(served)
    ensures CheapestFirst(log + served)
  {
  }

  /** Where the worker stands after i turns. */
  ghost predicate Booked(cmds: seq<Command>, i: nat, log: seq<Handover>, left: seq<Entry>, waiters: seq<Waiter>)
    requires i <= |cmds|
  {
    Timely(Turns(cmds[..i]), log) && Accounted(Flat(Turns(cmds[..i])), log, left, waiters)
  }

  lemma TurnBooked(cmds: seq<Command>, i: nat, log: seq<Handover>, served: seq<Handover>, entries: seq<Entry>,
                   stored: seq<Entry>, left: seq<Entry>, waiters: seq<Waiter>, waiting: seq<Waiter>)
    requires i < |cmds| && Booked(cmds, i, log, entries, waiters)
    requires stored == entries + Arrivals([cmds[i]])
    requires multiset(stored) == multiset(left) + multiset(Entries(served))
    requires Takers(waiters + Requests([cmds[i]])) == ServedBy(served) + Takers(waiting)
    requires Pass(stored, served, i) && (left == [] || waiting == [])
    ensures Booked(cmds, i + 1, log + served, left, waiting)
  {
    TurnsMore(cmds, i);
    AppendCounts(entries, Arrivals([cmds[i]]));
    TurnTimely(Turns(cmds[..i]), [cmds[i]], log, served, entries, stored, left, waiters, waiting);
  }

  /**
   * The worker over any commands. Every job that arrived is delivered once or still stored; each
   * delivery is the least (cost, ordinal) of all that had arrived and was not yet delivered;
   * requests are served in order, and no turn ends with both a job and a request left.
   */
  method Worker(cmds: seq<Command>) returns (log: seq<Handover>, left: seq<Entry>)
    requires Honest(cmds)
    ensures multiset(Arrivals(cmds)) == multiset(Entries(log)) + multiset(left)
    ensures CheapestFirst(log) && Timely(Turns(cmds), log)
    ensures ServedBy(log) <= Takers(Requests(cmds))
  {
    var waiters: seq<Waiter> := [];
    log, left := [], [];
    NothingYet<Entry, ()>();
    for i := 0 to |cmds|
      invariant Booked(cmds, i, log, left, waiters) && CheapestFirst(log) && Costed(left)
    {
      var heap, waiting := HandleCmd(cmds[i], left, waiters);
      var rest, unserved, served := ServiceWaiters(heap, waiting, i);
      TurnBooked(cmds, i, log, served, left, heap, rest, waiters, unserved);
      CheapestJoin(log, served);
      log, left, waiters := log + served, rest, unserved;
    }
    assert cmds[..|cmds|] == cmds;
    FlatTurns(cmds);
  }
}
