/** What both priority workers keep account of: commands in, deliveries out. */
module WorkerLog {

  /** A dequeue request: whether it was already closed when looked at, and whether its send succeeded. */
  datatype Waiter = Waiter(id: nat, closed: bool, takes: bool)

  datatype Cmd<E> = Enqueue(entry: E) | Dequeue(waiter: Waiter)

  /** A delivered entry, the turn it went out in, what stayed stored then, and what fixed the order. */
  datatype Delivery<E, K> = Delivery(waiter: Waiter, entry: E, turn: nat, rest: seq<E>, at: K)

  /** The requests that really take a job. */
  function Takers(ws: seq<Waiter>): seq<Waiter> {
    if ws == [] then []
    else if !ws[0].closed && ws[0].takes then [ws[0]] + Takers(ws[1..]) else Takers(ws[1..])
  }

  function ServedBy<E, K>(served: seq<Delivery<E, K>>): seq<Waiter> {
    seq(|served|, i requires 0 <= i < |served| => served[i].waiter)
  }

  function Arrivals<E>(cmds: seq<Cmd<E>>): seq<E> {
    if cmds == [] then []
    else if cmds[0].Enqueue? then [cmds[0].entry] + Arrivals(cmds[1..]) else Arrivals(cmds[1..])
  }

  function Requests<E>(cmds: seq<Cmd<E>>): seq<Waiter> {
    if cmds == [] then []
    else if cmds[0].Dequeue? then [cmds[0].waiter] + Requests(cmds[1..]) else Requests(cmds[1..])
  }

  lemma {:induction false} ArrivalsAppend<E>(a: seq<Cmd<E>>, b: seq<Cmd<E>>)
    ensures Arrivals(a + b) == Arrivals(a) + Arrivals(b)
  {
    if a == [] {
      assert a + b == b;
    } else {
      ArrivalsAppend(a[1..], b);
      assert (a + b)[0] == a[0] && (a + b)[1..] == a[1..] + b;
      if a[0].Enqueue? {
        Assoc([a[0].entry], Arrivals(a[1..]), Arrivals(b));
      }
    }
  }

  lemma {:induction false} RequestsAppend<E>(a: seq<Cmd<E>>, b: seq<Cmd<E>>)
    ensures Requests(a + b) == Requests(a) + Requests(b)
  {
    if a == [] {
      assert a + b == b;
    } else {
      RequestsAppend(a[1..], b);
      assert (a + b)[0] == a[0] && (a + b)[1..] == a[1..] + b;
      if a[0].Dequeue? {
        Assoc([a[0].waiter], Requests(a[1..]), Requests(b));
      }
    }
  }

  lemma {:induction false} TakersAppend(a: seq<Waiter>, b: seq<Waiter>)
    ensures Takers(a + b) == Takers(a) + Takers(b)
  {
    if a == [] {
      assert a + b == b;
    } else {
      TakersAppend(a[1..], b);
      assert (a + b)[0] == a[0] && (a + b)[1..] == a[1..] + b;
      if !a[0].closed && a[0].takes {
        Assoc([a[0]], Takers(a[1..]), Takers(b));
      }
    }
  }

  function Entries<E, K>(log: seq<Delivery<E, K>>): seq<E> {
    seq(|log|, i requires 0 <= i < |log| => log[i].entry)
  }

  lemma LogAppend<E, K>(log: seq<Delivery<E, K>>, served: seq<Delivery<E, K>>)
    ensures Entries(log + served) == Entries(log) + Entries(served)
    ensures ServedBy(log + served) == ServedBy(log) + ServedBy(served)
  {
  }

  lemma LogOne<E, K>(served: seq<Delivery<E, K>>, sent: Delivery<E, K>)
    ensures multiset(Entries(served + [sent])) == multiset(Entries(served)) + multiset{sent.entry}
    ensures ServedBy(served + [sent]) == ServedBy(served) + [sent.waiter]
  {
    LogAppend(served, [sent]);
    assert Entries([sent]) == [sent.entry] && ServedBy([sent]) == [sent.waiter];
  }

  lemma TakerServed(done: seq<Waiter>, waiting: seq<Waiter>)
    requires waiting != [] && !waiting[0].closed && waiting[0].takes
    ensures done + Takers(waiting) == done + [waiting[0]] + Takers(waiting[1..])
  {
  }

  /** Nothing lost, nothing delivered twice, requests served in order. */
  ghost predicate Accounted<E, K>(cmds: seq<Cmd<E>>, log: seq<Delivery<E, K>>, left: seq<E>, waiters: seq<Waiter>) {
    && multiset(Arrivals(cmds)) == multiset(Entries(log)) + multiset(left)
    && Takers(Requests(cmds)) == ServedBy(log) + Takers(waiters)
  }

  lemma {:induction false} TurnAccounts<E, K>(cmds: seq<Cmd<E>>, more: seq<Cmd<E>>, log: seq<Delivery<E, K>>, served: seq<Delivery<E, K>>,
                     entries: seq<E>, left: seq<E>, waiters: seq<Waiter>, waiting: seq<Waiter>)
    requires Accounted(cmds, log, entries, waiters)
    requires multiset(entries) + multiset(Arrivals(more)) == multiset(left) + multiset(Entries(served))
    requires Takers(waiters + Requests(more)) == ServedBy(served) + Takers(waiting)
    ensures Accounted(cmds + more, log + served, left, waiting)
  {
    LogAppend(log, served);
    ArrivalsAppend(cmds, more);
    AppendCounts(Arrivals(cmds), Arrivals(more));
    AppendCounts(Entries(log), Entries(served));
    Balance(multiset(Arrivals(more)), multiset(Entries(log)), multiset(entries), multiset(left), multiset(Entries(served)));
    RequestsAccount(cmds, more, ServedBy(log), ServedBy(served), waiters, waiting);
  }

  lemma RequestsAccount<E>(cmds: seq<Cmd<E>>, more: seq<Cmd<E>>, before: seq<Waiter>, served: seq<Waiter>,
                        waiters: seq<Waiter>, waiting: seq<Waiter>)
    requires Takers(Requests(cmds)) == before + Takers(waiters)
    requires Takers(waiters + Requests(more)) == served + Takers(waiting)
    ensures Takers(Requests(cmds + more)) == before + served + Takers(waiting)
  {
    RequestsAppend(cmds, more);
    TakersAppend(Requests(cmds), Requests(more));
    TakersAppend(waiters, Requests(more));
    Regroup(before, Takers(waiters), Takers(Requests(more)), served, Takers(waiting));
  }

  lemma Assoc<T>(a: seq<T>, b: seq<T>, c: seq<T>)
    ensures a + (b + c) == (a + b) + c
  {
  }

  lemma AppendCounts<T>(a: seq<T>, b: seq<T>)
    ensures multiset(a + b) == multiset(a) + multiset(b)
  {
  }

  lemma Shift<T>(a: multiset<T>, x: T, b: multiset<T>)
    ensures (a + multiset{x}) + b == a + (b + multiset{x})
  {
  }

  lemma Balance<T>(more: multiset<T>, delivered: multiset<T>, stored: multiset<T>, left: multiset<T>, served: multiset<T>)
    requires stored + more == left + served
    ensures (delivered + stored) + more == (delivered + served) + left
  {
    assert (delivered + stored) + more == delivered + (stored + more);
    assert (delivered + served) + left == delivered + (left + served);
  }

  lemma Regroup<T>(a: seq<T>, b: seq<T>, c: seq<T>, d: seq<T>, e: seq<T>)
    requires b + c == d + e
    ensures (a + b) + c == (a + d) + e
  {
    assert (a + b) + c == a + (b + c);
    assert (a + d) + e == a + (d + e);
  }

  // ------------------------------------------------------------ turn by turn

  /** The commands of all turns, in order. */
  function Flat<E>(ts: seq<seq<Cmd<E>>>): seq<Cmd<E>> {
    if ts == [] then [] else Flat(ts[..|ts| - 1]) + ts[|ts| - 1]
  }

  /** Deliveries of one pass: each left behind exactly what was stored and not yet delivered. */
  ghost predicate Pass<E, K>(stored: seq<E>, served: seq<Delivery<E, K>>, turn: nat) {
    forall j | 0 <= j < |served| :: served[j].turn == turn && Leaves(stored, served, j)
  }

  ghost predicate Leaves<E, K>(stored: seq<E>, served: seq<Delivery<E, K>>, j: nat)
    requires j < |served|
  {
    multiset(Entries(served[..j + 1])) + multiset(served[j].rest) == multiset(stored)
  }

  /** What the i-th delivery left behind is all that had arrived by its turn and was not delivered. */
  ghost predicate Complete<E, K>(ts: seq<seq<Cmd<E>>>, log: seq<Delivery<E, K>>, i: nat)
    requires i < |log|
  {
    && log[i].turn < |ts|
    && multiset(Entries(log[..i + 1])) + multiset(log[i].rest) == multiset(Arrivals(Flat(ts[..log[i].turn + 1])))
  }

  ghost predicate Truthful<E, K>(ts: seq<seq<Cmd<E>>>, log: seq<Delivery<E, K>>) {
    forall i {:trigger Complete(ts, log, i)} | 0 <= i < |log| :: Complete(ts, log, i)
  }

  /** The first k deliveries are those of the first n turns. */
  ghost predicate Cut<E, K>(log: seq<Delivery<E, K>>, k: nat, n: nat) {
    && k <= |log|
    && (forall i | 0 <= i < k :: log[i].turn < n)
    && (forall i | k <= i < |log| :: log[i].turn >= n)
  }

  /** After n turns nothing was stored, or every request that could take a job had one. */
  ghost predicate Settled<E, K>(ts: seq<seq<Cmd<E>>>, log: seq<Delivery<E, K>>, n: nat)
    requires n <= |ts|
  {
    exists k: nat :: Cut(log, k, n) && Exhausted(Flat(ts[..n]), log[..k])
  }

  ghost predicate Exhausted<E, K>(cmds: seq<Cmd<E>>, log: seq<Delivery<E, K>>) {
    |log| == |Arrivals(cmds)| || ServedBy(log) == Takers(Requests(cmds))
  }

  /** Every delivery says truly what was present, and no turn ends with a job and a request left over. */
  ghost predicate Timely<E, K>(ts: seq<seq<Cmd<E>>>, log: seq<Delivery<E, K>>) {
    && Truthful(ts, log)
    && (forall n | 0 <= n <= |ts| :: Settled(ts, log, n))
  }

  lemma FlatMore<E>(ts: seq<seq<Cmd<E>>>, cmds: seq<Cmd<E>>, n: nat)
    requires n <= |ts|
    ensures Flat(ts + [cmds]) == Flat(ts) + cmds && (ts + [cmds])[..n] == ts[..n]
  {
    assert (ts + [cmds])[..|ts|] == ts;
  }

  lemma CompleteKept<E, K>(ts: seq<seq<Cmd<E>>>, cmds: seq<Cmd<E>>, log: seq<Delivery<E, K>>, served: seq<Delivery<E, K>>, i: nat)
    requires i < |log| && Complete(ts, log, i)
    ensures Complete(ts + [cmds], log + served, i)
  {
    FlatMore(ts, cmds, log[i].turn + 1);
    assert (log + served)[..i + 1] == log[..i + 1];
  }

  /** What a pass leaves behind, together with all that was ever delivered, is all that arrived. */
  lemma PresentNow<E, K>(cmds: seq<Cmd<E>>, more: seq<Cmd<E>>, log: seq<Delivery<E, K>>, mine: seq<Delivery<E, K>>,
                         entries: seq<E>, stored: seq<E>, rest: seq<E>)
    requires multiset(Entries(mine)) + multiset(rest) == multiset(stored)
    requires multiset(Arrivals(cmds)) == multiset(Entries(log)) + multiset(entries)
    requires multiset(stored) == multiset(entries) + multiset(Arrivals(more))
    ensures multiset(Entries(log + mine)) + multiset(rest) == multiset(Arrivals(cmds + more))
  {
    LogAppend(log, mine);
    ArrivalsAppend(cmds, more);
    AppendCounts(Arrivals(cmds), Arrivals(more));
    AppendCounts(Entries(log), Entries(mine));
    Balance(multiset(Arrivals(more)), multiset(Entries(log)), multiset(entries), multiset(rest), multiset(Entries(mine)));
  }

  lemma CompleteNew<E, K>(ts: seq<seq<Cmd<E>>>, cmds: seq<Cmd<E>>, log: seq<Delivery<E, K>>, served: seq<Delivery<E, K>>,
                          entries: seq<E>, stored: seq<E>, i: nat)
    requires |log| <= i < |log + served| && Pass(stored, served, |ts|)
    requires multiset(Arrivals(Flat(ts))) == multiset(Entries(log)) + multiset(entries)
    requires multiset(stored) == multiset(entries) + multiset(Arrivals(cmds))
    ensures Complete(ts + [cmds], log + served, i)
  {
    var j := i - |log|;
    assert Leaves(stored, served, j) && (log + served)[i] == served[j];
    PresentNow(Flat(ts), cmds, log, served[..j + 1], entries, stored, served[j].rest);
    FlatMore(ts, cmds, |ts|);
    assert (ts + [cmds])[..|ts| + 1] == ts + [cmds];
    assert (log + served)[..i + 1] == log + served[..j + 1];
  }

  lemma SettledKept<E, K>(ts: seq<seq<Cmd<E>>>, cmds: seq<Cmd<E>>, log: seq<Delivery<E, K>>, served: seq<Delivery<E, K>>, n: nat)
    requires n <= |ts| && Settled(ts, log, n) && forall j | 0 <= j < |served| :: served[j].turn == |ts|
    ensures Settled(ts + [cmds], log + served, n)
  {
    var k: nat :| Cut(log, k, n) && Exhausted(Flat(ts[..n]), log[..k]);
    FlatMore(ts, cmds, n);
    assert (log + served)[..k] == log[..k];
    assert Cut(log + served, k, n);
  }

  lemma ExhaustedNow<E, K>(cmds: seq<Cmd<E>>, all: seq<Delivery<E, K>>, left: seq<E>, waiting: seq<Waiter>)
    requires Accounted(cmds, all, left, waiting) && (left == [] || waiting == [])
    ensures Exhausted(cmds, all)
  {
    if left == [] {
      assert |multiset(Arrivals(cmds))| == |Arrivals(cmds)|;
      assert |multiset(Entries(all))| == |Entries(all)|;
    }
  }

  lemma SettledNew<E, K>(ts: seq<seq<Cmd<E>>>, all: seq<Delivery<E, K>>)
    requires Exhausted(Flat(ts), all) && forall i | 0 <= i < |all| :: all[i].turn < |ts|
    ensures Settled(ts, all, |ts|)
  {
    assert ts[..|ts|] == ts && all[..|all|] == all;
    assert Cut(all, |all|, |ts|) && Exhausted(Flat(ts[..|ts|]), all[..|all|]);
  }

  lemma TurnComplete<E, K>(ts: seq<seq<Cmd<E>>>, cmds: seq<Cmd<E>>, log: seq<Delivery<E, K>>, served: seq<Delivery<E, K>>,
                           entries: seq<E>, stored: seq<E>)
    requires Truthful(ts, log) && Pass(stored, served, |ts|)
    requires multiset(Arrivals(Flat(ts))) == multiset(Entries(log)) + multiset(entries)
    requires multiset(stored) == multiset(entries) + multiset(Arrivals(cmds))
    ensures Truthful(ts + [cmds], log + served)
  {
    forall i | 0 <= i < |log + served| ensures Complete(ts + [cmds], log + served, i) {
      if i < |log| {
        CompleteKept(ts, cmds, log, served, i);
      } else {
        CompleteNew(ts, cmds, log, served, entries, stored, i);
      }
    }
  }

  lemma TurnSettled<E, K>(ts: seq<seq<Cmd<E>>>, cmds: seq<Cmd<E>>, log: seq<Delivery<E, K>>, served: seq<Delivery<E, K>>)
    requires forall n | 0 <= n <= |ts| :: Settled(ts, log, n)
    requires (forall j | 0 <= j < |served| :: served[j].turn == |ts|) && (forall i | 0 <= i < |log| :: log[i].turn < |ts|)
    requires Exhausted(Flat(ts + [cmds]), log + served)
    ensures forall n | 0 <= n <= |ts + [cmds]| :: Settled(ts + [cmds], log + served, n)
  {
    forall n | 0 <= n <= |ts + [cmds]| ensures Settled(ts + [cmds], log + served, n) {
      if n <= |ts| {
        SettledKept(ts, cmds, log, served, n);
      } else {
        SettledNew(ts + [cmds], log + served);
      }
    }
  }

  /** One more turn keeps the whole account. */
  lemma TurnTimely<E, K>(ts: seq<seq<Cmd<E>>>, cmds: seq<Cmd<E>>, log: seq<Delivery<E, K>>, served: seq<Delivery<E, K>>,
                         entries: seq<E>, stored: seq<E>, left: seq<E>, waiters: seq<Waiter>, waiting: seq<Waiter>)
    requires Timely(ts, log) && Accounted(Flat(ts), log, entries, waiters) && Pass(stored, served, |ts|)
    requires multiset(stored) == multiset(entries) + multiset(Arrivals(cmds))
    requires multiset(stored) == multiset(left) + multiset(Entries(served))
    requires Takers(waiters + Requests(cmds)) == ServedBy(served) + Takers(waiting)
    requires left == [] || waiting == []
    ensures Timely(ts + [cmds], log + served) && Accounted(Flat(ts + [cmds]), log + served, left, waiting)
  {
    TurnAccounts(Flat(ts), cmds, log, served, entries, left, waiters, waiting);
    FlatMore(ts, cmds, |ts|);
    TurnComplete(ts, cmds, log, served, entries, stored);
    ExhaustedNow(Flat(ts + [cmds]), log + served, left, waiting);
    forall i | 0 <= i < |log| ensures log[i].turn < |ts| {
      assert Complete(ts, log, i);
    }
    TurnSettled(ts, cmds, log, served);
  }

  lemma NothingYet<E, K>()
    ensures Timely<E, K>([], []) && Accounted<E, K>(Flat<E>([]), [], [], [])
  {
    assert Cut<E, K>([], 0, 0) && Exhausted<E, K>(Flat<E>([][..0]), [][..0]);
  }
}
