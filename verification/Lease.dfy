/**
 * Broker leases: how long one counts as active, how the heartbeat renews it, and when another
 * broker's poll may reach the claim. Times are seconds on one shared clock.
 */
module Lease {
  import opened Wrappers

  function Min(a: real, b: real): real { if a <= b then a else b }

  function Max(a: real, b: real): real { if a >= b then a else b }

  // ------------------------------------------------------------------ lookup

  datatype Record = Record(updatedAt: real, leaseUntil: real)

  function Grace(ttl: real): real { Min(ttl / 10.0, 1.0) }

  /** A lease that ends before it begins has no grace at all. */
  function GraceOf(lease: Record): real {
    Grace(Max(lease.leaseUntil - lease.updatedAt, 0.0))
  }

  predicate ActiveWithGrace(lease: Record, now: real) {
    lease.leaseUntil + GraceOf(lease) > now
  }

  /** The store's answer to a lease query: it may fail. */
  datatype Answer = Found(lease: Option<Record>) | Broken

  datatype Lookup = Active(lease: Record) | MissingOrExpired | Unknown

  /** The lease was read some time before; its expiry is tested now. */
  function LookupOwner(store: Option<Answer>, now: real): Lookup {
    match store
    case None => Unknown
    case Some(Broken) => Unknown
    case Some(Found(None)) => MissingOrExpired
    case Some(Found(Some(lease))) => if ActiveWithGrace(lease, now) then Active(lease) else MissingOrExpired
  }

  /** What a poll that found nothing local does next. */
  datatype Next = NotFound | Proxy(lease: Record) | Queued | Claim

  function PollNext(idOwner: Option<string>, me: string, store: Option<Answer>, now: real): Next {
    if idOwner.None? then NotFound
    else if idOwner.value != me then
      match LookupOwner(store, now)
      case Active(lease) => Proxy(lease)
      case Unknown => Queued
      case MissingOrExpired => Claim
    else if store.None? then NotFound
    else Claim
  }

  /** A tenth of the lifetime, at most a second, nothing for a lease that ends before it begins. */
  function TenthUpToOne(lease: Record): real {
    var ttl := lease.leaseUntil - lease.updatedAt;
    if ttl <= 0.0 then 0.0 else if ttl >= 10.0 then 1.0 else ttl / 10.0
  }

  /**
   * A poll reaches the claim exactly for its own ids, and for others whose lease is known to be
   * over; it proxies exactly to another owner whose lease is known to run, stays queued exactly
   * when another owner's lease is not known, and gives up when the id names nobody or its own id
   * has no store behind it.
   */
  lemma ClaimOnlyWhenOver(idOwner: Option<string>, me: string, store: Option<Answer>, now: real)
    ensures PollNext(idOwner, me, store, now) == Claim <==>
      && idOwner.Some? && store.Some?
      && (idOwner.value == me
          || (store.value.Found?
              && (store.value.lease.Some? ==>
                    var l := store.value.lease.value;
                    now >= l.leaseUntil + TenthUpToOne(l))))
    ensures PollNext(idOwner, me, store, now).Proxy? <==>
      && idOwner.Some? && idOwner.value != me && store.Some? && store.value.Found? && store.value.lease.Some?
      && var l := store.value.lease.value;
         now < l.leaseUntil + TenthUpToOne(l)
    ensures PollNext(idOwner, me, store, now).Proxy? ==>
      store.Some? && store.value.Found? && store.value.lease == Some(PollNext(idOwner, me, store, now).lease)
    ensures PollNext(idOwner, me, store, now) == Queued <==>
      idOwner.Some? && idOwner.value != me && (store.None? || store.value.Broken?)
  {
  }

  // --------------------------------------------------------------- heartbeat

  function Tick(ttl: real): real { Max(ttl / 2.0, 0.1) }

  function RetryWait(ttl: real): real { Min(0.5, Tick(ttl)) }

  /** One upsert, in seconds after its start: when it was stamped, became visible and returned. */
  datatype Try = Try(ok: bool, stamp: real, visible: real, done: real)

  type Upsert = t: Try | 0.0 <= t.stamp <= t.visible <= t.done witness Try(true, 0.0, 0.0, 0.0)

  /** One turn of the heartbeat: a first upsert and, if that fails, a second. */
  datatype Round = Round(first: Upsert, retry: Upsert)

  datatype Write = Write(stamp: real, visible: real)

  /** When the last upsert of a round starts, counted from the round's start. */
  function LastStart(ttl: real, r: Round): real {
    if r.first.ok then 0.0 else r.first.done + RetryWait(ttl)
  }

  function Last(r: Round): Upsert { if r.first.ok then r.first else r.retry }

  /** The leases written by a run of rounds, in order. */
  function Beats(ttl: real, start: real, rounds: seq<Round>): seq<Write>
    decreases |rounds|
  {
    if rounds == [] then [] else
      var at := start + LastStart(ttl, rounds[0]);
      var u := Last(rounds[0]);
      var rest := Beats(ttl, at + u.done + Tick(ttl), rounds[1..]);
      if u.ok then [Write(at + u.stamp, at + u.visible)] + rest else rest
  }

  /** The heartbeat loop, up to shutdown. */
  method Heartbeat(ttl: real, start: real, rounds: seq<Round>) returns (writes: seq<Write>)
    ensures writes == Beats(ttl, start, rounds)
  {
    var now := start;
    writes := [];
    for i := 0 to |rounds|
      invariant writes + Beats(ttl, now, rounds[i..]) == Beats(ttl, start, rounds)
    {
      BeatsStep(ttl, now, rounds, i, writes);
      var r := rounds[i];
      if r.first.ok {
        assert LastStart(ttl, r) == 0.0 && Last(r) == r.first;
        writes := writes + [Write(now + r.first.stamp, now + r.first.visible)];
        now := now + r.first.done;
      } else {
        assert LastStart(ttl, r) == r.first.done + RetryWait(ttl) && Last(r) == r.retry;
        now := now + (r.first.done + RetryWait(ttl));
        if r.retry.ok {
          writes := writes + [Write(now + r.retry.stamp, now + r.retry.visible)];
        }
        now := now + r.retry.done;
      }
      now := now + Tick(ttl);
    }
    assert rounds[|rounds|..] == [];
  }

  lemma BeatsStep(ttl: real, now: real, rounds: seq<Round>, i: nat, writes: seq<Write>)
    requires i < |rounds|
    ensures var at, u := now + LastStart(ttl, rounds[i]), Last(rounds[i]);
      writes + Beats(ttl, now, rounds[i..]) ==
        (if u.ok then writes + [Write(at + u.stamp, at + u.visible)] else writes)
        + Beats(ttl, at + u.done + Tick(ttl), rounds[i + 1..])
  {
    assert rounds[i..][0] == rounds[i] && rounds[i..][1..] == rounds[i + 1..];
  }

  /** With an instant store, rounds are half a lifetime apart but at least 100 ms; a retry waits 500 ms but at most that long. */
  lemma InstantRounds(ttl: real, start: real)
    ensures var good, bad := Try(true, 0.0, 0.0, 0.0), Try(false, 0.0, 0.0, 0.0);
      var apart := if ttl / 2.0 >= 0.1 then ttl / 2.0 else 0.1;
      var pause := if 0.5 <= apart then 0.5 else apart;
      && Beats(ttl, start, [Round(good, good), Round(good, good)])
         == [Write(start, start), Write(start + apart, start + apart)]
      && Beats(ttl, start, [Round(bad, good)]) == [Write(start + pause, start + pause)]
  {
    var good, bad := Try(true, 0.0, 0.0, 0.0), Try(false, 0.0, 0.0, 0.0);
    var two := [Round(good, good), Round(good, good)];
    assert two[1..] == [Round(good, good)] && two[1..][1..] == [] && [Round(bad, good)][1..] == [];
    assert Beats(ttl, start + Tick(ttl), two[1..]) == [Write(start + Tick(ttl), start + Tick(ttl))];
  }

  /** Every round gets one of its two upserts through. */
  ghost predicate Renewing(rounds: seq<Round>) {
    forall i | 0 <= i < |rounds| :: Last(rounds[i]).ok
  }

  /** Time spent in the store between the stamp of one round's lease and the next one being visible. */
  function Lag(a: Round, b: Round): real {
    Last(a).done - Last(a).stamp + (if b.first.ok then 0.0 else b.first.done) + Last(b).visible
  }

  ghost predicate Prompt(rounds: seq<Round>, limit: real) {
    forall i | 0 <= i < |rounds| - 1 :: Lag(rounds[i], rounds[i + 1]) <= limit
  }

  /** How much store latency a lease can bear. */
  function Slack(ttl: real): real {
    ttl + Grace(ttl) - Tick(ttl) - RetryWait(ttl)
  }

  ghost predicate Spaced(writes: seq<Write>, reach: real) {
    && (forall i | 0 <= i < |writes| :: writes[i].stamp <= writes[i].visible)
    && (forall i | 0 <= i < |writes| - 1 ::
          writes[i].visible <= writes[i + 1].visible && writes[i + 1].visible <= writes[i].stamp + reach)
  }

  lemma SpacedCons(w: Write, ws: seq<Write>, reach: real)
    requires Spaced(ws, reach) && w.stamp <= w.visible
    requires ws != [] ==> w.visible <= ws[0].visible && ws[0].visible <= w.stamp + reach
    ensures Spaced([w] + ws, reach)
  {
    var all := [w] + ws;
    assert forall i | 1 <= i < |all| :: all[i] == ws[i - 1];
  }

  function FirstWrite(ttl: real, start: real, r: Round): Write {
    Write(start + LastStart(ttl, r) + Last(r).stamp, start + LastStart(ttl, r) + Last(r).visible)
  }

  /** From one round to the next, with `spare` seconds left over. */
  lemma Gap(ttl: real, start: real, a: Round, b: Round, spare: real)
    requires 0.0 <= ttl && Lag(a, b) <= Slack(ttl) - spare
    ensures var w, x := FirstWrite(ttl, start, a), FirstWrite(ttl, start + LastStart(ttl, a) + Last(a).done + Tick(ttl), b);
      w.visible <= x.visible && x.visible <= w.stamp + (ttl + Grace(ttl) - spare)
  {
  }

  lemma RestRenews(rounds: seq<Round>, limit: real)
    requires rounds != [] && Renewing(rounds) && Prompt(rounds, limit)
    ensures Renewing(rounds[1..]) && Prompt(rounds[1..], limit)
  {
    var rest := rounds[1..];
    forall i | 0 <= i < |rest| ensures Last(rest[i]).ok { assert rest[i] == rounds[i + 1]; }
    forall i | 0 <= i < |rest| - 1 ensures Lag(rest[i], rest[i + 1]) <= limit {
      assert rest[i] == rounds[i + 1] && rest[i + 1] == rounds[i + 2];
    }
  }

  lemma {:induction false} BeatsSpaced(ttl: real, start: real, rounds: seq<Round>, spare: real)
    requires 0.0 <= ttl && Renewing(rounds) && Prompt(rounds, Slack(ttl) - spare)
    ensures |Beats(ttl, start, rounds)| == |rounds|
    ensures Spaced(Beats(ttl, start, rounds), ttl + Grace(ttl) - spare)
    ensures rounds != [] ==> Beats(ttl, start, rounds)[0] == FirstWrite(ttl, start, rounds[0])
    decreases |rounds|
  {
    if rounds != [] {
      var r, rest := rounds[0], rounds[1..];
      assert Last(r).ok;
      var next := start + LastStart(ttl, r) + Last(r).done + Tick(ttl);
      RestRenews(rounds, Slack(ttl) - spare);
      BeatsSpaced(ttl, next, rest, spare);
      if rest != [] {
        assert rest[0] == rounds[1] && Lag(rounds[0], rounds[1]) <= Slack(ttl) - spare;
        Gap(ttl, start, r, rounds[1], spare);
      }
      SpacedCons(FirstWrite(ttl, start, r), Beats(ttl, next, rest), ttl + Grace(ttl) - spare);
    }
  }

  /** The record a reader sees: the last one that became visible. */
  function Seen(writes: seq<Write>, ttl: real, now: real): Option<Record> {
    if writes == [] then None
    else
      var w := writes[|writes| - 1];
      if w.visible <= now then Some(Record(w.stamp, w.stamp + ttl)) else Seen(writes[..|writes| - 1], ttl, now)
  }

  /** A record read at one instant is still active when it is looked at, up to `delay` later. */
  lemma {:induction false} SpacedIsActive(writes: seq<Write>, ttl: real, delay: real, read: real, now: real)
    requires 0.0 <= ttl && writes != [] && Spaced(writes, ttl + Grace(ttl) - delay)
    requires writes[0].visible <= read <= now <= read + delay && now < writes[|writes| - 1].stamp + ttl + Grace(ttl)
    ensures Seen(writes, ttl, read).Some? && ActiveWithGrace(Seen(writes, ttl, read).value, now)
  {
    var n := |writes| - 1;
    if read < writes[n].visible {
      SpacedIsActive(writes[..n], ttl, delay, read, now);
    }
  }

  /**
   * A renewing broker is never reclaimed. When store lag and the time a lookup takes stay within
   * the slack together, every lookup that starts once the first lease is visible, and is decided
   * before the last one runs out, finds the broker active; no other broker's poll reaches the claim.
   */
  lemma NeverReclaimed(ttl: real, start: real, rounds: seq<Round>, delay: real, read: real, now: real, owner: string, other: string)
    requires 0.0 <= ttl && rounds != [] && Renewing(rounds) && Prompt(rounds, Slack(ttl) - delay) && owner != other
    requires var writes := Beats(ttl, start, rounds);
      && writes != [] && writes[0].visible <= read <= now <= read + delay
      && now < writes[|writes| - 1].stamp + ttl + Grace(ttl)
    ensures PollNext(Some(owner), other, Some(Found(Seen(Beats(ttl, start, rounds), ttl, read))), now).Proxy?
  {
    BeatsSpaced(ttl, start, rounds, delay);
    SpacedIsActive(Beats(ttl, start, rounds), ttl, delay, read, now);
  }

  /** With the least configurable lifetime the slack is at least the grace, which is the promise made. */
  lemma GraceIsEnough(ttl: real)
    requires ttl >= 1.0
    ensures Slack(ttl) >= Grace(ttl) > 0.0
    ensures Slack(ttl) == Grace(ttl) <==> ttl == 1.0
  {
  }

  /** A lifetime of two elevenths of a second is the least that even an instant store can keep alive. */
  lemma SlackIsPositive(ttl: real)
    requires 0.0 <= ttl
    ensures Slack(ttl) >= 0.0 <==> ttl >= 2.0 / 11.0
  {
  }

  /** The bound is exact: if lag and read delay exceed the slack together, two rounds can let a lookup find the lease over. */
  lemma SlackIsExact(ttl: real, lag: real, delay: real) returns (rounds: seq<Round>, read: real, now: real)
    requires 0.0 <= ttl && lag >= 0.0 && delay >= 0.0 && lag + delay > Slack(ttl)
    ensures |rounds| == 2 && Renewing(rounds) && Lag(rounds[0], rounds[1]) == lag
    ensures var writes := Beats(ttl, 0.0, rounds);
      && |writes| == 2 && writes[0].visible <= read < writes[1].visible && read <= now <= read + delay
      && LookupOwner(Some(Found(Seen(writes, ttl, read))), now) == MissingOrExpired
  {
    var good, bad, slow := Try(true, 0.0, 0.0, 0.0), Try(false, 0.0, 0.0, 0.0), Try(true, 0.0, lag, lag);
    rounds := [Round(good, good), Round(bad, slow)];
    now := ttl + Grace(ttl);
    read := Max(now - delay, 0.0);
    var writes := Beats(ttl, 0.0, rounds);
    assert Beats(ttl, 0.0 + 0.0 + 0.0 + Tick(ttl), rounds[1..])
        == [Write(Tick(ttl) + RetryWait(ttl), Tick(ttl) + RetryWait(ttl) + lag)];
    assert writes == [Write(0.0, 0.0), Write(Tick(ttl) + RetryWait(ttl), Tick(ttl) + RetryWait(ttl) + lag)];
    assert Seen(writes[..1], ttl, read) == Some(Record(0.0, ttl));
  }

  // ---------------------------------------------------------- claim backoff

  const MS: nat := 1_000_000

  datatype ClaimAnswer<T> = Settled(value: T) | Conflict | SlotExhausted | Backend

  /** The pause after n failures, before it is cut to the remaining budget. */
  function Delay(n: nat): (d: nat)
    ensures 100 * MS <= d <= 1000 * MS
  {
    if n == 0 then 100 * MS else if 2 * Delay(n - 1) <= 1000 * MS then 2 * Delay(n - 1) else 1000 * MS
  }

  function Budget(timeout: Option<nat>): nat {
    if timeout.Some? && timeout.value < 2000 * MS then timeout.value else 2000 * MS
  }

  function Total(latency: nat -> nat, n: nat): nat {
    if n == 0 then 0 else Total(latency, n - 1) + latency(n - 1)
  }

  /** Time slept before attempt n: each pause is cut to what the attempts and pauses before it left of the budget. */
  function Slept(budget: nat, latency: nat -> nat, n: nat): (t: nat)
    ensures t <= budget
  {
    if n == 0 then 0 else
      var used := Total(latency, n) + Slept(budget, latency, n - 1);
      if used >= budget then Slept(budget, latency, n - 1)
      else Slept(budget, latency, n - 1) + if Delay(n - 1) <= budget - used then Delay(n - 1) else budget - used
  }

  /** When attempt n (from 0) has its answer, counted from the start. */
  function Answered(budget: nat, latency: nat -> nat, n: nat): nat {
    Total(latency, n + 1) + Slept(budget, latency, n)
  }

  /** Attempt n failed in the store, with budget left. */
  ghost predicate Retries<T>(budget: nat, answers: nat -> ClaimAnswer<T>, latency: nat -> nat, n: nat) {
    answers(n) == Backend && Answered(budget, latency, n) < budget
  }

  ghost predicate AllRetry<T>(budget: nat, answers: nat -> ClaimAnswer<T>, latency: nat -> nat, n: nat) {
    n == 0 || (AllRetry(budget, answers, latency, n - 1) && Retries(budget, answers, latency, n - 1))
  }

  lemma {:induction false} EachRetries<T>(budget: nat, answers: nat -> ClaimAnswer<T>, latency: nat -> nat, n: nat)
    requires AllRetry(budget, answers, latency, n)
    ensures forall i | 0 <= i < n :: Retries(budget, answers, latency, i)
  {
    if n > 0 {
      EachRetries(budget, answers, latency, n - 1);
    }
  }

  /** One more pause. */
  lemma Paused(budget: nat, latency: nat -> nat, n: nat)
    ensures var used := Answered(budget, latency, n);
      Slept(budget, latency, n + 1) == Slept(budget, latency, n) +
        if used >= budget then 0 else if Delay(n) <= budget - used then Delay(n) else budget - used
  {
  }

  function Delays(n: nat): nat {
    if n == 0 then 0 else Delays(n - 1) + Delay(n - 1)
  }

  /** Unless the budget is spent, every pause was a full one. */
  lemma {:induction false} SpentOrPaused(budget: nat, latency: nat -> nat, n: nat)
    ensures Total(latency, n) + Slept(budget, latency, n) >= budget || Slept(budget, latency, n) == Delays(n)
  {
    if n > 0 {
      SpentOrPaused(budget, latency, n - 1);
      Paused(budget, latency, n - 1);
    }
  }

  lemma FiveDelays()
    ensures Delays(5) == 2500 * MS
  {
    assert Delay(0) == 100 * MS;
    assert Delay(1) == 200 * MS;
    assert Delay(2) == 400 * MS;
    assert Delay(3) == 800 * MS;
    assert Delay(4) == 1000 * MS;
    assert Delays(2) == 300 * MS;
    assert Delays(4) == 1500 * MS;
  }

  /** Before attempt n: the clock and the next pause are as they should be, and all attempts so far had to be retried. */
  ghost predicate OnTime<T>(budget: nat, answers: nat -> ClaimAnswer<T>, latency: nat -> nat, start: nat, n: nat, now: nat, delay: nat) {
    && delay == Delay(n)
    && now == start + Total(latency, n) + Slept(budget, latency, n)
    && AllRetry(budget, answers, latency, n)
  }

  function Min2(a: nat, b: nat): nat { if a <= b then a else b }

  lemma GoesOn<T>(budget: nat, answers: nat -> ClaimAnswer<T>, latency: nat -> nat, start: nat, n: nat, now: nat, delay: nat)
    requires OnTime(budget, answers, latency, start, n, now, delay) && n <= 5 && budget <= 2000 * MS
    requires answers(n) == Backend && now + latency(n) < start + budget
    ensures n < 5
    ensures OnTime(budget, answers, latency, start, n + 1,
                   now + latency(n) + Min2(delay, start + budget - (now + latency(n))), Min2(2 * delay, 1000 * MS))
  {
    SixSuffice(budget, latency);
    Paused(budget, latency, n);
    assert Answered(budget, latency, n) == now + latency(n) - start;
    assert Retries(budget, answers, latency, n);
  }

  lemma Stops<T>(budget: nat, answers: nat -> ClaimAnswer<T>, latency: nat -> nat, start: nat, n: nat, now: nat, delay: nat)
    requires OnTime(budget, answers, latency, start, n, now, delay)
    ensures now + latency(n) == start + Answered(budget, latency, n) && now <= start + budget
    ensures forall i | 0 <= i < n :: Retries(budget, answers, latency, i)
  {
    EachRetries(budget, answers, latency, n);
    if n > 0 {
      assert Retries(budget, answers, latency, n - 1);
      Paused(budget, latency, n - 1);
    }
  }

  /** After six answers the budget is spent, however fast the store fails. */
  lemma SixSuffice(budget: nat, latency: nat -> nat)
    requires budget <= 2000 * MS
    ensures Answered(budget, latency, 5) >= budget
  {
    SpentOrPaused(budget, latency, 5);
    FiveDelays();
  }

  /**
   * Claim with retries on backend errors. `answers` and `latency` say what the store does at
   * each attempt and how long it takes; times are nanoseconds. It retries exactly as long as the
   * store fails within the budget, and returns when the last attempt has its answer.
   */
  method ClaimWithBackoff<T>(timeout: Option<nat>, start: nat, answers: nat -> ClaimAnswer<T>, latency: nat -> nat)
    returns (answer: ClaimAnswer<T>, tries: nat, end: nat)
    ensures 1 <= tries <= 6 && answer == answers(tries - 1)
    ensures end == start + Answered(Budget(timeout), latency, tries - 1)
    ensures forall i | 0 <= i < tries - 1 :: Retries(Budget(timeout), answers, latency, i)
    ensures answer != Backend || end >= start + Budget(timeout)
    ensures end - latency(tries - 1) <= start + 2000 * MS
    ensures timeout.Some? && timeout.value < 2000 * MS ==>
              end - latency(tries - 1) <= start + timeout.value && (answer == Backend ==> end >= start + timeout.value)
    ensures timeout.None? || timeout.value >= 2000 * MS ==> answer == Backend ==> end >= start + 2000 * MS
  {
    var budget := Budget(timeout);
    var deadline := start + budget;
    var delay: nat := 100 * MS;
    end, tries := start, 0;
    while true
      invariant tries <= 5 && OnTime(budget, answers, latency, start, tries, end, delay)
      decreases 6 - tries
    {
      var answered := end + latency(tries);
      answer := answers(tries);
      if answer != Backend || answered >= deadline {
        Stops(budget, answers, latency, start, tries, end, delay);
        tries, end := tries + 1, answered;
        return;
      }
      var remaining := deadline - answered;
      var pause := Min2(delay, remaining);
      GoesOn(budget, answers, latency, start, tries, end, delay);
      end := answered + pause;
      delay := Min2(2 * delay, 1000 * MS);
      tries := tries + 1;
    }
  }
}
