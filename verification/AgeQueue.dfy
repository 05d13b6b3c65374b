/** The age-priority worker: a sorted vector, re-sorted after arrivals and on idle ticks. */
module AgeQueue {
  import opened AgeOrder
  import opened Sorting
  import opened WorkerLog

  type Command = Cmd<Entry>

  type Handover = Delivery<Entry, Instant>

  /** One turn of the worker: a batch of commands, or a timeout. */
  datatype Event = Batch(first: Command, more: seq<Command>, now: Instant) | Timeout(now: Instant)

  function Before(now: Instant): (Entry, Entry) -> bool {
    (a, b) => Compare(a, b, now) == LT
  }

  lemma BeforeOrder(now: Instant)
    ensures WeakOrder(Before(now))
  {
    var less := Before(now);
    forall a, b ensures !(less(a, b) && less(b, a)) { TotalOrder(a, b, a, now); }
    forall a, b, c | !less(b, a) && !less(c, b) ensures !less(c, a) {
      TotalOrder(a, b, c, now);
      TotalOrder(b, a, c, now);
      TotalOrder(c, b, a, now);
      TotalOrder(c, a, b, now);
    }
  }

  function Rebalanced(entries: seq<Entry>, now: Instant): (r: seq<Entry>)
    ensures multiset(r) == multiset(entries)
    ensures Sorted(r, Before(now))
  {
    BeforeOrder(now);
    if |entries| < 2 then entries else
      SortSorted(entries, Before(now));
      Sort(entries, Before(now))
  }

  /** The i-th delivery of a pass takes the i-th entry from the back and leaves those before it. */
  ghost predicate FromBack(entries: seq<Entry>, served: seq<Handover>, turn: nat, at: Instant) {
    && |served| <= |entries|
    && forall i | 0 <= i < |served| ::
         && served[i].entry == entries[|entries| - 1 - i] && served[i].rest == entries[..|entries| - 1 - i]
         && served[i].turn == turn && served[i].at == at
  }

  /**
   * Match requests against entries from the back. Cancelled requests cost nothing: exactly
   * the first min(entries, takers) takers are served, from the greatest entry down.
   */
  method ServiceWaiters(entries: seq<Entry>, waiters: seq<Waiter>, turn: nat, at: Instant)
    returns (left: seq<Entry>, waiting: seq<Waiter>, served: seq<Handover>)
    ensures left == [] || waiting == []
    ensures FromBack(entries, served, turn, at) && left == entries[..|entries| - |served|]
    ensures Takers(waiters) == ServedBy(served) + Takers(waiting)
  {
    left, waiting, served := entries, waiters, [];
    while waiting != [] && left != []
      invariant FromBack(entries, served, turn, at) && left == entries[..|entries| - |served|]
      invariant Takers(waiters) == ServedBy(served) + Takers(waiting)
      decreases |waiting|
    {
      var reply := waiting[0];
      ghost var before := waiting;
      waiting := waiting[1..];
      if reply.closed {
        continue;
      }
      var entry := left[|left| - 1];
      left := left[..|left| - 1];
      if reply.takes {
        TakerServed(ServedBy(served), before);
        OneFromBack(entries, served, turn, at, reply);
        served := served + [Delivery(reply, entry, turn, left, at)];
      } else {
        left := left + [entry];
      }
    }
  }

  lemma OneFromBack(entries: seq<Entry>, served: seq<Handover>, turn: nat, at: Instant, reply: Waiter)
    requires FromBack(entries, served, turn, at) && |served| < |entries|
    ensures var k := |entries| - 1 - |served|;
      var sent := Delivery(reply, entries[k], turn, entries[..k], at);
      && FromBack(entries, served + [sent], turn, at)
      && ServedBy(served + [sent]) == ServedBy(served) + [reply]
      && entries[..k + 1][..k] == entries[..k]
  {
    var k := |entries| - 1 - |served|;
    LogOne(served, Delivery(reply, entries[k], turn, entries[..k], at));
  }

  function Cmds(event: Event): seq<Command> {
    if event.Batch? then [event.first] + event.more else []
  }

  function Turns(events: seq<Event>): (ts: seq<seq<Command>>)
    ensures |ts| == |events|
  {
    seq(|events|, i requires 0 <= i < |events| => Cmds(events[i]))
  }

  method HandleCmds(cmds: seq<Command>, entries: seq<Entry>, waiters: seq<Waiter>)
    returns (stored: seq<Entry>, waiting: seq<Waiter>, arrived: bool)
    ensures stored == entries + Arrivals(cmds) && waiting == waiters + Requests(cmds)
    ensures arrived <==> Arrivals(cmds) != []
  {
    stored, waiting, arrived := entries, waiters, false;
    for i := 0 to |cmds|
      invariant stored == entries + Arrivals(cmds[..i]) && waiting == waiters + Requests(cmds[..i])
      invariant arrived <==> Arrivals(cmds[..i]) != []
    {
      assert cmds[..i + 1] == cmds[..i] + [cmds[i]];
      ArrivalsAppend(cmds[..i], [cmds[i]]);
      RequestsAppend(cmds[..i], [cmds[i]]);
      match cmds[i]
      case Enqueue(entry) => stored, arrived := stored + [entry], true;
      case Dequeue(waiter) => waiting := waiting + [waiter];
    }
    assert cmds[..|cmds|] == cmds;
  }

  /** Each delivered entry was the greatest under the order of its rebalance time. */
  ghost predicate GreatestFirst(log: seq<Handover>) {
    forall i, e | 0 <= i < |log| && e in log[i].rest :: Compare(e, log[i].entry, log[i].at) != GT
  }

  /** A turn that re-sorts whatever there is to sort: something arrived, or the wait ran out. */
  predicate Sorts(event: Event) {
    event.Timeout? || Arrivals(Cmds(event)) != []
  }

  /** `at` is the time of the last re-sorting turn among the first n. */
  ghost predicate FixedAt(events: seq<Event>, n: nat, at: Instant)
    requires n <= |events|
  {
    exists e: nat :: LastSort(events, n, e) && events[e].now == at
  }

  ghost predicate LastSort(events: seq<Event>, n: nat, e: nat)
    requires n <= |events|
  {
    e < n && Sorts(events[e]) && forall x | e < x < n :: !Sorts(events[x])
  }

  /** Wherever there was a choice, the order was that of the last rebalance. */
  ghost predicate Anchored(events: seq<Event>, log: seq<Handover>) {
    forall i | 0 <= i < |log| && log[i].rest != [] ::
      log[i].turn < |events| && FixedAt(events, log[i].turn + 1, log[i].at)
  }

  lemma {:induction false} PassCounts(entries: seq<Entry>, served: seq<Handover>, turn: nat, at: Instant)
    requires FromBack(entries, served, turn, at)
    ensures multiset(entries) == multiset(entries[..|entries| - |served|]) + multiset(Entries(served))
    decreases |served|
  {
    if served == [] {
      assert entries[..|entries|] == entries;
    } else {
      var n := |served| - 1;
      var front, k := served[..n], |entries| - |served|;
      PassCounts(entries, front, turn, at);
      LastOut(entries, k + 1);
      assert served == front + [served[n]];
      LogOne(front, served[n]);
      Shift(multiset(entries[..k]), entries[k], multiset(Entries(front)));
    }
  }

  lemma LastOut(entries: seq<Entry>, k: nat)
    requires 0 < k <= |entries|
    ensures multiset(entries[..k]) == multiset(entries[..k - 1]) + multiset{entries[k - 1]}
  {
    assert entries[..k] == entries[..k - 1] + [entries[k - 1]];
  }

  lemma PassIsPass(entries: seq<Entry>, served: seq<Handover>, turn: nat, at: Instant)
    requires FromBack(entries, served, turn, at)
    ensures Pass(entries, served, turn)
  {
    forall j | 0 <= j < |served| ensures served[j].turn == turn && Leaves(entries, served, j) {
      PassCounts(entries, served[..j + 1], turn, at);
    }
  }

  lemma PassGreatest(entries: seq<Entry>, served: seq<Handover>, turn: nat, at: Instant)
    requires Sorted(entries, Before(at)) && FromBack(entries, served, turn, at)
    ensures GreatestFirst(served)
  {
    forall i, e | 0 <= i < |served| && e in served[i].rest
      ensures Compare(e, served[i].entry, served[i].at) != GT
    {
      var k :| 0 <= k < |served[i].rest| && served[i].rest[k] == e;
      assert !Before(at)(served[i].entry, e);
      TotalOrder(e, served[i].entry, e, at);
    }
  }

  /** Take a batch of commands or a timeout, and rebalance if needed. */
  method Receive(event: Event, entries: seq<Entry>, waiters: seq<Waiter>, at: Instant)
    returns (stored: seq<Entry>, waiting: seq<Waiter>, last: Instant)
    requires Sorted(entries, Before(at))
    ensures multiset(stored) == multiset(entries) + multiset(Arrivals(Cmds(event)))
    ensures waiting == waiters + Requests(Cmds(event))
    ensures Sorted(stored, Before(last))
    ensures if Sorts(event) then |stored| > 1 ==> last == event.now else stored == entries && last == at
  {
    stored, waiting, last := entries, waiters, at;
    var needsRebalance;
    match event {
      case Batch(first, more, now) =>
        stored, waiting, needsRebalance := HandleCmds([first] + more, entries, waiters);
      case Timeout(now) =>
        needsRebalance := |stored| > 1;
    }
    if needsRebalance {
      stored, last := Rebalanced(stored, event.now), event.now;
    }
  }

  /** One pass of the service loop over sorted entries, in terms of what it conserves. */
  method Serve(entries: seq<Entry>, waiters: seq<Waiter>, turn: nat, at: Instant)
    returns (left: seq<Entry>, waiting: seq<Waiter>, served: seq<Handover>)
    requires Sorted(entries, Before(at))
    ensures multiset(entries) == multiset(left) + multiset(Entries(served)) && |left| <= |entries|
    ensures Takers(waiters) == ServedBy(served) + Takers(waiting)
    ensures GreatestFirst(served) && Sorted(left, Before(at)) && Pass(entries, served, turn)
    ensures forall i | 0 <= i < |served| :: served[i].at == at && served[i].turn == turn && |served[i].rest| < |entries|
    ensures left == [] || waiting == []
  {
    left, waiting, served := ServiceWaiters(entries, waiters, turn, at);
    PassCounts(entries, served, turn, at);
    PassIsPass(entries, served, turn, at);
    PassGreatest(entries, served, turn, at);
  }

  lemma FixedHere(events: seq<Event>, i: nat)
    requires i < |events| && Sorts(events[i])
    ensures FixedAt(events, i + 1, events[i].now)
  {
    assert LastSort(events, i + 1, i);
  }

  lemma FixedBefore(events: seq<Event>, i: nat, at: Instant)
    requires i < |events| && !Sorts(events[i]) && FixedAt(events, i, at)
    ensures FixedAt(events, i + 1, at)
  {
    var e: nat :| LastSort(events, i, e) && events[e].now == at;
    assert LastSort(events, i + 1, e);
  }

  /** The order of this turn's entries was fixed by the last turn that re-sorts. */
  lemma FixedNow(events: seq<Event>, i: nat, entries: seq<Entry>, stored: seq<Entry>, at: Instant, last: Instant)
    requires i < |events| && (|entries| > 1 ==> FixedAt(events, i, at))
    requires if Sorts(events[i]) then |stored| > 1 ==> last == events[i].now else stored == entries && last == at
    ensures |stored| > 1 ==> FixedAt(events, i + 1, last)
  {
    if Sorts(events[i]) {
      FixedHere(events, i);
    } else if |stored| > 1 {
      FixedBefore(events, i, at);
    }
  }

  lemma AnchoredMore(events: seq<Event>, log: seq<Handover>, served: seq<Handover>, i: nat, at: Instant, stored: nat)
    requires i < |events| && Anchored(events, log) && (stored > 1 ==> FixedAt(events, i + 1, at))
    requires forall j | 0 <= j < |served| :: served[j].at == at && served[j].turn == i && |served[j].rest| < stored
    ensures Anchored(events, log + served)
  {
  }

  lemma GreatestMore(log: seq<Handover>, served: seq<Handover>)
    requires GreatestFirst(log) && GreatestFirst(served)
    ensures GreatestFirst(log + served)
  {
  }

  /** Where the worker stands after i turns: what went in and out, and in which order. */
  ghost predicate Booked(events: seq<Event>, i: nat, log: seq<Handover>, left: seq<Entry>, waiters: seq<Waiter>)
    requires i <= |events|
  {
    Timely(Turns(events[..i]), log) && Accounted(Flat(Turns(events[..i])), log, left, waiters)
  }

  ghost predicate Ordered(events: seq<Event>, i: nat, log: seq<Handover>, left: seq<Entry>, at: Instant)
    requires i <= |events|
  {
    GreatestFirst(log) && Anchored(events, log) && (|left| > 1 ==> FixedAt(events, i, at))
  }

  lemma TurnsMore(events: seq<Event>, i: nat)
    requires i < |events|
    ensures Turns(events[..i + 1]) == Turns(events[..i]) + [Cmds(events[i])]
  {
  }

  lemma TurnBooked(events: seq<Event>, i: nat, log: seq<Handover>, served: seq<Handover>, entries: seq<Entry>,
                   stored: seq<Entry>, left: seq<Entry>, waiters: seq<Waiter>, waiting: seq<Waiter>)
    requires i < |events| && Booked(events, i, log, entries, waiters)
    requires multiset(stored) == multiset(entries) + multiset(Arrivals(Cmds(events[i])))
    requires multiset(stored) == multiset(left) + multiset(Entries(served))
    requires Takers(waiters + Requests(Cmds(events[i]))) == ServedBy(served) + Takers(waiting)
    requires Pass(stored, served, i) && (left == [] || waiting == [])
    ensures Booked(events, i + 1, log + served, left, waiting)
  {
    TurnsMore(events, i);
    TurnTimely(Turns(events[..i]), Cmds(events[i]), log, served, entries, stored, left, waiters, waiting);
  }

  lemma TurnOrdered(events: seq<Event>, i: nat, log: seq<Handover>, served: seq<Handover>, entries: seq<Entry>,
                    stored: seq<Entry>, left: seq<Entry>, at: Instant, last: Instant)
    requires i < |events| && Ordered(events, i, log, entries, at)
    requires if Sorts(events[i]) then |stored| > 1 ==> last == events[i].now else stored == entries && last == at
    requires GreatestFirst(served) && |left| <= |stored|
    requires forall j | 0 <= j < |served| :: served[j].at == last && served[j].turn == i && |served[j].rest| < |stored|
    ensures Ordered(events, i + 1, log + served, left, last)
  {
    FixedNow(events, i, entries, stored, at, last);
    AnchoredMore(events, log, served, i, last, |stored|);
    GreatestMore(log, served);
  }

  /**
   * The worker over any sequence of turns. Every job that arrived is delivered once or still
   * stored; each delivery is the greatest, in the order of the last rebalance, of all that had
   * arrived and was not yet delivered; requests are served in order, and no turn ends with both
   * a job and a request left.
   */
  method Worker(events: seq<Event>) returns (log: seq<Handover>, left: seq<Entry>)
    ensures multiset(Arrivals(Flat(Turns(events)))) == multiset(Entries(log)) + multiset(left)
    ensures GreatestFirst(log) && Anchored(events, log) && Timely(Turns(events), log)
    ensures ServedBy(log) <= Takers(Requests(Flat(Turns(events))))
  {
    var waiters: seq<Waiter> := [];
    var at: Instant := 0;
    log, left := [], [];
    NothingYet<Entry, Instant>();
    for i := 0 to |events|
      invariant Booked(events, i, log, left, waiters) && Ordered(events, i, log, left, at)
      invariant Sorted(left, Before(at))
    {
      var stored, waiting, last := Receive(events[i], left, waiters, at);
      var rest, unserved, served := Serve(stored, waiting, i, last);
      TurnBooked(events, i, log, served, left, stored, rest, waiters, unserved);
      TurnOrdered(events, i, log, served, left, stored, rest, at, last);
      log, left, waiters, at := log + served, rest, unserved, last;
    }
    assert events[..|events|] == events;
  }
}
