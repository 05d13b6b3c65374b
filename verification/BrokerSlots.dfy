/** Broker slots for one site and environment: any number of interleaved compare-and-set allocators. */
module BrokerSlots {
  import RequestId

  const SLOT_LIMIT := 0x1_0000

  type AllocId = nat

  /** The counter holds the next slot; a missing one counts as zero. */
  datatype Counter = Missing | Purged | Next(value: nat)

  datatype Outcome = Granted(slot: nat) | Exhausted

  datatype Pc = Reading | Writing(seen: Counter, rev: nat) | Finished(outcome: Outcome)

  datatype Grant = Grant(taker: AllocId, slot: nat)

  /** `grants` lists who was granted which slot, in order. */
  datatype State = State(counter: Counter, rev: nat, allocs: map<AllocId, Pc>, grants: seq<Grant>)

  datatype Op = Start(a: AllocId) | Read(a: AllocId) | Write(a: AllocId) | Purge

  const INIT := State(Missing, 0, map[], [])

  /** The slot a counter would hand out; also the whole of the in-memory allocator. */
  function SlotOf(c: Counter): nat {
    if c.Next? then c.value else 0
  }

  function Allocate(next: nat): Outcome {
    if next >= SLOT_LIMIT then Exhausted else Granted(next)
  }

  ghost function Step(s: State, op: Op): State {
    match op
    case Start(a) => if a in s.allocs then s else s.(allocs := s.allocs[a := Reading])
    case Read(a) =>
      if a !in s.allocs || !s.allocs[a].Reading? then s
      else if Allocate(SlotOf(s.counter)).Exhausted? then s.(allocs := s.allocs[a := Finished(Exhausted)])
      else s.(allocs := s.allocs[a := Writing(s.counter, s.rev)])
    case Write(a) =>
      if a !in s.allocs || !s.allocs[a].Writing? then s
      else if s.rev != s.allocs[a].rev then s.(allocs := s.allocs[a := Reading])
      else
        var slot := SlotOf(s.allocs[a].seen);
        State(Next(slot + 1), s.rev + 1, s.allocs[a := Finished(Granted(slot))], s.grants + [Grant(a, slot)])
    case Purge => s.(counter := Purged, rev := s.rev + 1)
  }

  ghost function Run(s: State, ops: seq<Op>): State
    decreases ops
  {
    if ops == [] then s else Run(Step(s, ops[0]), ops[1..])
  }

  // ---------------------------------------------------------------- invariants

  ghost predicate Distinct(s: State) {
    forall i, j | 0 <= i < j < |s.grants| :: s.grants[i].slot != s.grants[j].slot
  }

  /** The i-th grant is slot i. */
  ghost predicate Straight(s: State) {
    forall i | 0 <= i < |s.grants| :: s.grants[i].slot == i
  }

  /** The counter never runs ahead of the grants, and slots go straight up until one repeats. */
  ghost predicate Counts(s: State) {
    && SlotOf(s.counter) <= |s.grants| && SlotOf(s.counter) <= SLOT_LIMIT
    && (Distinct(s) <==> Straight(s))
    && forall i | 0 <= i < |s.grants| :: s.grants[i].slot < SLOT_LIMIT
  }

  /** The list of grants and the allocators' own answers agree. */
  ghost predicate Recorded(s: State) {
    && (forall i | 0 <= i < |s.grants| ::
          s.grants[i].taker in s.allocs && s.allocs[s.grants[i].taker] == Finished(Granted(s.grants[i].slot)))
    && (forall i, j | 0 <= i < j < |s.grants| :: s.grants[i].taker != s.grants[j].taker)
    && (forall a | a in s.allocs && s.allocs[a].Finished? ::
          match s.allocs[a].outcome
          case Granted(n) => Grant(a, n) in s.grants
          case Exhausted => |s.grants| >= SLOT_LIMIT)
  }

  ghost predicate Fresh(s: State) {
    forall a | a in s.allocs && s.allocs[a].Writing? ::
      && s.allocs[a].rev <= s.rev
      && (s.allocs[a].rev == s.rev ==> s.allocs[a].seen == s.counter && SlotOf(s.counter) < SLOT_LIMIT)
  }

  ghost predicate Inv(s: State) {
    Counts(s) && Recorded(s) && Fresh(s)
  }

  /** An allocator whose write goes through now. */
  ghost predicate Grants(s: State, op: Op) {
    op.Write? && op.a in s.allocs && s.allocs[op.a].Writing? && s.rev == s.allocs[op.a].rev
  }

  /** The counter has lost count: there were grants before the last purge. */
  ghost predicate LostCount(s: State) {
    SlotOf(s.counter) != |s.grants|
  }

  /** A grant keeps slots distinct exactly while the counter has not lost count. */
  lemma OneMoreGrant(s: State, t: State, g: Grant)
    requires Counts(s) && t.grants == s.grants + [g] && g.slot == SlotOf(s.counter)
    ensures Distinct(t) <==> Distinct(s) && !LostCount(s)
    ensures Straight(t) <==> Straight(s) && !LostCount(s)
  {
    var n := |s.grants|;
    assert t.grants[n] == g && forall i | 0 <= i < n :: t.grants[i] == s.grants[i];
    if Straight(s) && LostCount(s) {
      assert t.grants[g.slot].slot == t.grants[n].slot;
    }
  }

  lemma CountsKept(s: State, op: Op)
    requires Counts(s) && Fresh(s)
    ensures Counts(Step(s, op))
  {
    var t := Step(s, op);
    if Grants(s, op) {
      OneMoreGrant(s, t, Grant(op.a, SlotOf(s.counter)));
    } else {
      assert t.grants == s.grants;
    }
  }

  lemma RecordedKept(s: State, op: Op)
    requires Counts(s) && Recorded(s)
    ensures Recorded(Step(s, op))
  {
    var t := Step(s, op);
    if Grants(s, op) {
      GrantRecorded(s, t, op.a, SlotOf(s.allocs[op.a].seen));
    } else {
      assert t.grants == s.grants;
    }
  }

  lemma GrantRecorded(s: State, t: State, a: AllocId, slot: nat)
    requires Recorded(s) && a in s.allocs && s.allocs[a].Writing?
    requires t.allocs == s.allocs[a := Finished(Granted(slot))] && t.grants == s.grants + [Grant(a, slot)]
    ensures Recorded(t)
  {
    forall b | b in t.allocs && t.allocs[b].Finished? && t.allocs[b].outcome.Granted?
      ensures Grant(b, t.allocs[b].outcome.slot) in t.grants
    {
      assert b != a ==> Grant(b, t.allocs[b].outcome.slot) in s.grants;
      assert t.grants[|s.grants|] == Grant(a, slot);
    }
  }

  lemma FreshKept(s: State, op: Op)
    requires Fresh(s) && SlotOf(s.counter) <= SLOT_LIMIT
    ensures Fresh(Step(s, op))
  {
  }

  lemma StepKeeps(s: State, op: Op)
    requires Inv(s)
    ensures Inv(Step(s, op))
  {
    CountsKept(s, op);
    RecordedKept(s, op);
    FreshKept(s, op);
  }

  lemma {:induction false} RunKeeps(s: State, ops: seq<Op>)
    requires Inv(s)
    ensures Inv(Run(s, ops))
    decreases ops
  {
    if ops != [] {
      StepKeeps(s, ops[0]);
      RunKeeps(Step(s, ops[0]), ops[1..]);
    }
  }

  // ------------------------------------------------------ when slots are unique

  lemma {:induction false} RunSnoc(s: State, ops: seq<Op>, op: Op)
    ensures Run(s, ops + [op]) == Step(Run(s, ops), op)
    decreases ops
  {
    if ops == [] {
      assert [op][1..] == [];
      assert ops + [op] == [op];
    } else {
      assert (ops + [op])[0] == ops[0] && (ops + [op])[1..] == ops[1..] + [op];
      RunSnoc(Step(s, ops[0]), ops[1..], op);
    }
  }

  /** The i-th step of a run grants a slot. */
  ghost predicate GrantAt(ops: seq<Op>, i: nat)
    requires i < |ops|
  {
    Grants(Run(INIT, ops[..i]), ops[i])
  }

  ghost predicate PurgeAt(ops: seq<Op>, i: nat)
    requires i < |ops|
  {
    ops[i].Purge?
  }

  ghost predicate SomeGrant(ops: seq<Op>) {
    exists i: nat | i < |ops| :: GrantAt(ops, i)
  }

  /** Some purge came after some grant. */
  ghost predicate Forgot(ops: seq<Op>) {
    exists i: nat, p: nat | i < p < |ops| :: GrantAt(ops, i) && PurgeAt(ops, p)
  }

  /** Some grant came after a purge that came after a grant. */
  ghost predicate Regrants(ops: seq<Op>) {
    exists i: nat, p: nat, j: nat | i < p < j < |ops| :: GrantAt(ops, i) && PurgeAt(ops, p) && GrantAt(ops, j)
  }

  lemma GrantBefore(ops: seq<Op>, op: Op, i: nat)
    requires i <= |ops|
    ensures i < |ops| ==> (GrantAt(ops + [op], i) <==> GrantAt(ops, i)) && (PurgeAt(ops + [op], i) <==> PurgeAt(ops, i))
    ensures GrantAt(ops + [op], |ops|) <==> Grants(Run(INIT, ops), op)
  {
    assert (ops + [op])[..|ops|] == ops;
    assert i < |ops| ==> (ops + [op])[..i] == ops[..i];
  }

  lemma MoreHistory(ops: seq<Op>, op: Op)
    ensures SomeGrant(ops + [op]) <==> SomeGrant(ops) || Grants(Run(INIT, ops), op)
    ensures Forgot(ops + [op]) <==> Forgot(ops) || (op.Purge? && SomeGrant(ops))
    ensures Regrants(ops + [op]) <==> Regrants(ops) || (Grants(Run(INIT, ops), op) && Forgot(ops))
  {
    var all, n := ops + [op], |ops|;
    forall i: nat | i <= n
      ensures i < n ==> (GrantAt(all, i) <==> GrantAt(ops, i)) && (PurgeAt(all, i) <==> PurgeAt(ops, i))
    {
      GrantBefore(ops, op, i);
    }
    GrantBefore(ops, op, n);
    assert PurgeAt(all, n) <==> op.Purge?;
    assert GrantAt(all, n) <==> Grants(Run(INIT, ops), op);
  }

  /** The history of a run and the state it ends in tell the same. */
  lemma {:induction false} HistoryTold(ops: seq<Op>)
    ensures var s := Run(INIT, ops);
      && Inv(s)
      && (SomeGrant(ops) <==> s.grants != [])
      && (Forgot(ops) <==> LostCount(s))
      && (Regrants(ops) <==> !Distinct(s))
    decreases |ops|
  {
    if ops != [] {
      var before, op := ops[..|ops| - 1], ops[|ops| - 1];
      assert ops == before + [op];
      HistoryTold(before);
      RunSnoc(INIT, before, op);
      MoreHistory(before, op);
      var s := Run(INIT, before);
      StepKeeps(s, op);
      if Grants(s, op) {
        OneMoreGrant(s, Step(s, op), Grant(op.a, SlotOf(s.counter)));
      } else {
        assert Step(s, op).grants == s.grants;
      }
    }
  }

  /** Over every run, purges included: slots are unique if and only if no grant follows a purge that follows a grant. */
  lemma UniqueUnlessRegranted(ops: seq<Op>)
    ensures Distinct(Run(INIT, ops)) <==> !Regrants(ops)
  {
    HistoryTold(ops);
  }

  /**
   * Then the i-th allocator to be granted gets slot i: slots are contiguous from 0, and an
   * allocator is turned away only once all 65536 have been granted.
   */
  lemma SlotsAreContiguous(ops: seq<Op>)
    requires !Regrants(ops)
    ensures var s := Run(INIT, ops);
            && |s.grants| <= SLOT_LIMIT
            && (forall i | 0 <= i < |s.grants| ::
                  && s.grants[i].slot == i && s.grants[i].taker in s.allocs
                  && s.allocs[s.grants[i].taker] == Finished(Granted(i)))
            && (forall a | a in s.allocs && s.allocs[a].Finished? && s.allocs[a].outcome.Granted? ::
                  var n := s.allocs[a].outcome.slot; n < |s.grants| && s.grants[n].taker == a)
            && (forall a | a in s.allocs && s.allocs[a] == Finished(Exhausted) :: |s.grants| == SLOT_LIMIT)
  {
    HistoryTold(ops);
    var s := Run(INIT, ops);
    assert s.grants == [] || s.grants[|s.grants| - 1].slot == |s.grants| - 1;
    forall a | a in s.allocs && s.allocs[a].Finished? && s.allocs[a].outcome.Granted?
      ensures var n := s.allocs[a].outcome.slot; n < |s.grants| && s.grants[n].taker == a
    {
      var g := Grant(a, s.allocs[a].outcome.slot);
      assert g in s.grants;
      var k :| 0 <= k < |s.grants| && s.grants[k] == g;
    }
  }

  /** So ids made by two brokers differ, whatever their clocks and random bytes. */
  lemma IdsNeverCollide(ops: seq<Op>, a: AllocId, b: AllocId, site: string, env: string,
                        ts: int, random: seq<RequestId.u8>, ts': int, random': seq<RequestId.u8>)
    requires !Regrants(ops)
    requires var s := Run(INIT, ops);
             && a in s.allocs && b in s.allocs && a != b
             && s.allocs[a].Finished? && s.allocs[a].outcome.Granted?
             && s.allocs[b].Finished? && s.allocs[b].outcome.Granted?
    requires |random| == |random'| == 5
    ensures var s := Run(INIT, ops);
            var m, n := s.allocs[a].outcome.slot, s.allocs[b].outcome.slot;
            && m < SLOT_LIMIT && n < SLOT_LIMIT && m != n && RequestId.CROCKFORD.Wf()
            && var x := RequestId.CROCKFORD.Encode(site, env, m, ts, random);
               x.Ok? ==> x != RequestId.CROCKFORD.Encode(site, env, n, ts', random')
  {
    SlotsAreContiguous(ops);
    RequestId.CrockfordWf();
    var s := Run(INIT, ops);
    var m, n := s.allocs[a].outcome.slot, s.allocs[b].outcome.slot;
    assert s.grants[m].taker == a && s.grants[n].taker == b;
    DifferentSlots(site, env, m, n, ts, random, ts', random');
  }

  lemma DifferentSlots(site: string, env: string, m: RequestId.u16, n: RequestId.u16,
                       ts: int, random: seq<RequestId.u8>, ts': int, random': seq<RequestId.u8>)
    requires |random| == |random'| == 5 && m != n && RequestId.CROCKFORD.Wf()
    ensures var x := RequestId.CROCKFORD.Encode(site, env, m, ts, random);
            x.Ok? ==> x != RequestId.CROCKFORD.Encode(site, env, n, ts', random')
  {
    var x := RequestId.CROCKFORD.Encode(site, env, m, ts, random);
    if x.Ok? && x == RequestId.CROCKFORD.Encode(site, env, n, ts', random') {
      RequestId.CROCKFORD.EncodeInjective(site, env, m, ts, random, site, env, n, ts', random');
    }
  }

  /** After any run with a grant, a purge lets the next allocator repeat a slot. */
  lemma PurgeRepeatsSlots(ops: seq<Op>, a: AllocId)
    requires SomeGrant(ops) && a !in Run(INIT, ops).allocs
    ensures !Distinct(Run(INIT, ops + [Purge] + [Start(a)] + [Read(a)] + [Write(a)]))
  {
    HistoryTold(ops);
    var s := Run(INIT, ops);
    RunSnoc(INIT, ops, Purge);
    RunSnoc(INIT, ops + [Purge], Start(a));
    RunSnoc(INIT, ops + [Purge] + [Start(a)], Read(a));
    RunSnoc(INIT, ops + [Purge] + [Start(a)] + [Read(a)], Write(a));
    var ready := Step(Step(Step(s, Purge), Start(a)), Read(a));
    assert ready.allocs[a] == Writing(Purged, s.rev + 1) && ready.grants == s.grants && ready.counter == Purged;
    HistoryTold(ops + [Purge] + [Start(a)] + [Read(a)]);
    OneMoreGrant(ready, Step(ready, Write(a)), Grant(a, 0));
  }
}
