/**
 * One durable job over whole runs: the record is put any number of times, by the broker named
 * in the id or by another, any number of brokers run claim loops on it step by step, and it may
 * be purged at any time.
 */
module Ownership {
  import opened Claims
  import opened Counting

  type CallId = nat

  /** Where a claim loop stands; `entry` is what its last read returned. */
  datatype Pc =
    | Reading(attempt: nat)
    | Writing(attempt: nat, entry: Kv)
    | Rereading
    | Returned(answer: ClaimResult, atomic: bool)

  datatype Call = Call(claimant: BrokerId, pc: Pc)

  /**
   * `owners` lists the successive owners the record has had; `puts` counts the puts by home,
   * `foreign` those by other brokers, `moves` the claims that took the record over.
   */
  datatype State = State(home: BrokerId, kv: Kv, owners: seq<BrokerId>, puts: nat, foreign: nat, moves: nat,
                         calls: map<CallId, Call>)

  datatype Op =
    | Put(record: Record)
    | Purge
    | Start(c: CallId, claimant: BrokerId)
    | Read(c: CallId)
    | Write(c: CallId)
    | Reread(c: CallId)

  ghost function Init(home: BrokerId): State {
    State(home, Kv(Empty, 0), [], 0, 0, 0, map[])
  }

  /** Store a cell, noting the owner if it is a new one. */
  ghost function Store(s: State, cell: Cell): State {
    s.(kv := Kv(cell, s.kv.rev + 1),
       owners := if cell.Live? && (s.owners == [] || s.owners[|s.owners| - 1] != cell.record.owner)
                 then s.owners + [cell.record.owner] else s.owners)
  }

  ghost function Go(s: State, c: CallId, pc: Pc): State
    requires c in s.calls
  {
    s.(calls := s.calls[c := s.calls[c].(pc := pc)])
  }

  ghost function Step(s: State, op: Op): State {
    match op
    case Put(record) =>
      var t := Store(s, Live(record));
      if record.owner == s.home then t.(puts := s.puts + 1) else t.(foreign := s.foreign + 1)
    case Purge => Store(s, Tombstone)
    case Start(c, claimant) =>
      if c in s.calls then s else s.(calls := s.calls[c := Call(claimant, Reading(0))])
    case Read(c) =>
      if c !in s.calls || !s.calls[c].pc.Reading? then s else
        var call := s.calls[c];
        if NeedsWrite(s.kv.cell, s.home, call.claimant) then Go(s, c, Writing(call.pc.attempt, s.kv))
        else Go(s, c, Returned(AtomicAnswer(s.kv.cell, s.home, call.claimant), true))
    case Write(c) =>
      if c !in s.calls || !s.calls[c].pc.Writing? || !s.calls[c].pc.entry.cell.Live? then s else
        var call := s.calls[c];
        var claimed := call.pc.entry.cell.record.(owner := call.claimant);
        if s.kv.rev == call.pc.entry.rev
        then Go(Store(s, Live(claimed)).(moves := s.moves + 1), c, Returned(Claimed(claimed), true))
        else Go(s, c, if call.pc.attempt + 1 < MAX_CAS_ATTEMPTS then Reading(call.pc.attempt + 1) else Rereading)
    case Reread(c) =>
      if c !in s.calls || !s.calls[c].pc.Rereading? then s else
        var call := s.calls[c];
        Go(s, c, Returned(if !s.kv.cell.Live? then NotFound
                          else if s.kv.cell.record.owner == call.claimant then Claimed(s.kv.cell.record)
                          else Active(s.kv.cell.record.owner),
                          !NeedsWrite(s.kv.cell, s.home, call.claimant)))
  }

  ghost function Run(s: State, ops: seq<Op>): State
    decreases ops
  {
    if ops == [] then s else Run(Step(s, ops[0]), ops[1..])
  }

  // ---------------------------------------------------------------- invariants

  ghost predicate AtHome(s: State) {
    s.kv.cell.Live? && s.kv.cell.record.owner == s.home
  }

  /** Every takeover uses up a put by home; every new owner is a put or a takeover. */
  ghost predicate OwnersOk(s: State) {
    && s.moves + One(AtHome(s)) <= s.puts
    && |s.owners| <= s.puts + s.foreign + s.moves
    && (s.foreign == 0 && s.owners != [] ==> s.owners[0] == s.home)
    && (s.kv.cell.Live? ==> s.owners != [] && s.kv.cell.record.owner == s.owners[|s.owners| - 1])
  }

  /** Each lost attempt that found home as the owner was followed by another put before the next one did. */
  ghost predicate CallOk(s: State, call: Call) {
    match call.pc
    case Reading(a) => a < MAX_CAS_ATTEMPTS && a + One(AtHome(s)) <= s.puts
    case Writing(a, e) =>
      && a < MAX_CAS_ATTEMPTS && e.rev <= s.kv.rev && NeedsWrite(e.cell, s.home, call.claimant)
      && (if e.rev == s.kv.rev then s.kv.cell == e.cell && a + 1 <= s.puts else a + 1 + One(AtHome(s)) <= s.puts)
    case Rereading => MAX_CAS_ATTEMPTS + One(AtHome(s)) <= s.puts
    case Returned(answer, atomic) =>
      && (!atomic ==> answer == Active(s.home) && MAX_CAS_ATTEMPTS < s.puts)
      && (answer.Active? ==> answer.owner != call.claimant)
      && (answer.Claimed? ==> answer.record.owner == call.claimant && call.claimant in s.owners)
  }

  ghost predicate Inv(s: State) {
    OwnersOk(s) && forall c | c in s.calls :: CallOk(s, s.calls[c])
  }

  lemma OwnersKept(s: State, op: Op)
    requires OwnersOk(s) && (op.Write? && op.c in s.calls ==> CallOk(s, s.calls[op.c]))
    ensures OwnersOk(Step(s, op))
  {
  }

  /** A call that is not stepping stands as well after another's step. */
  lemma BystanderKept(s: State, t: State, call: Call)
    requires CallOk(s, call) && t.home == s.home && s.kv.rev <= t.kv.rev && s.puts <= t.puts
    requires t.kv.rev == s.kv.rev ==> t.kv == s.kv
    requires forall b | b in s.owners :: b in t.owners
    requires One(AtHome(t)) + s.puts <= One(AtHome(s)) + t.puts
    requires t.kv.rev > s.kv.rev && AtHome(t) ==> s.puts < t.puts
    ensures CallOk(t, call)
  {
  }

  /** What any step does to the record, as the other calls see it. */
  lemma StepSeen(s: State, op: Op)
    requires op.Write? && op.c in s.calls ==> CallOk(s, s.calls[op.c])
    ensures var t := Step(s, op);
      && t.home == s.home && s.kv.rev <= t.kv.rev && s.puts <= t.puts
      && (t.kv.rev == s.kv.rev ==> t.kv == s.kv)
      && (forall b | b in s.owners :: b in t.owners)
      && One(AtHome(t)) + s.puts <= One(AtHome(s)) + t.puts
      && (t.kv.rev > s.kv.rev && AtHome(t) ==> s.puts < t.puts)
  {
  }

  lemma ReadKept(s: State, c: CallId)
    requires Inv(s) && c in s.calls
    ensures c in Step(s, Read(c)).calls && CallOk(Step(s, Read(c)), Step(s, Read(c)).calls[c])
  {
    assert CallOk(s, s.calls[c]);
  }

  lemma WriteKept(s: State, c: CallId)
    requires Inv(s) && c in s.calls
    ensures c in Step(s, Write(c)).calls && CallOk(Step(s, Write(c)), Step(s, Write(c)).calls[c])
  {
    assert CallOk(s, s.calls[c]);
  }

  lemma RereadKept(s: State, c: CallId)
    requires Inv(s) && c in s.calls
    ensures c in Step(s, Reread(c)).calls && CallOk(Step(s, Reread(c)), Step(s, Reread(c)).calls[c])
  {
    assert CallOk(s, s.calls[c]);
  }

  lemma StepKeeps(s: State, op: Op)
    requires Inv(s)
    ensures Inv(Step(s, op))
  {
    var t := Step(s, op);
    OwnersKept(s, op);
    StepSeen(s, op);
    forall c | c in t.calls ensures CallOk(t, t.calls[c]) {
      if c !in s.calls {
        assert t.calls[c].pc == Reading(0);
      } else if op == Read(c) {
        ReadKept(s, c);
      } else if op == Write(c) {
        WriteKept(s, c);
      } else if op == Reread(c) {
        RereadKept(s, c);
      } else {
        BystanderKept(s, t, s.calls[c]);
      }
    }
  }

  lemma {:induction false} RunKeeps(s: State, ops: seq<Op>)
    requires Inv(s)
    ensures Inv(Run(s, ops)) && Run(s, ops).home == s.home
    decreases ops
  {
    if ops != [] {
      StepKeeps(s, ops[0]);
      RunKeeps(Step(s, ops[0]), ops[1..]);
    }
  }

  // ------------------------------------------------------------------ theorems

  /**
   * Ownership moves by claim at most as often as home has put the record, and only away from
   * home; so at most once for a record put once, and then its first owner is home.
   */
  lemma MovesWithinPuts(home: BrokerId, ops: seq<Op>)
    ensures var s := Run(Init(home), ops);
            && s.moves <= s.puts && |s.owners| <= s.puts + s.foreign + s.moves
            && (s.kv.cell.Live? ==> s.owners != [] && s.kv.cell.record.owner == s.owners[|s.owners| - 1])
            && (s.puts <= 1 && s.foreign == 0 ==> |s.owners| <= 2 && (s.owners != [] ==> s.owners[0] == home))
  {
    RunKeeps(Init(home), ops);
  }

  /** A step by which a claim takes the record over takes it from home. */
  lemma MovesFromHome(home: BrokerId, ops: seq<Op>, op: Op)
    ensures var s := Run(Init(home), ops);
            var t := Step(s, op);
            t.moves > s.moves ==> AtHome(s) && t.kv.cell.Live? && t.kv.cell.record.owner != home
  {
    RunKeeps(Init(home), ops);
    var s := Run(Init(home), ops);
    if op.Write? && op.c in s.calls {
      assert CallOk(s, s.calls[op.c]);
    }
  }

  /** Of a record that only home put, and once, at most one other broker ever wins a claim. */
  lemma OneWinner(home: BrokerId, ops: seq<Op>, c: CallId, d: CallId)
    requires var s := Run(Init(home), ops);
             && s.puts <= 1 && s.foreign == 0
             && c in s.calls && s.calls[c].pc.Returned? && s.calls[c].pc.answer.Claimed?
             && d in s.calls && s.calls[d].pc.Returned? && s.calls[d].pc.answer.Claimed?
             && s.calls[c].claimant != home && s.calls[d].claimant != home
    ensures Run(Init(home), ops).calls[c].claimant == Run(Init(home), ops).calls[d].claimant
  {
    RunKeeps(Init(home), ops);
    var s := Run(Init(home), ops);
    assert CallOk(s, s.calls[c]) && CallOk(s, s.calls[d]);
  }

  /**
   * Each attempt after the first needs one more put by home: attempt a happens only after a + 1
   * puts when it finds work to do, and the guess after the last attempt only after four. A record
   * put once is therefore settled in two attempts.
   */
  lemma AttemptsWithinPuts(home: BrokerId, ops: seq<Op>, c: CallId)
    requires c in Run(Init(home), ops).calls
    ensures var s := Run(Init(home), ops);
            var pc := s.calls[c].pc;
            && (pc.Reading? ==> pc.attempt <= s.puts)
            && (pc.Writing? ==> pc.attempt < s.puts)
            && (pc.Rereading? ==> MAX_CAS_ATTEMPTS <= s.puts)
            && (pc.Returned? && !pc.atomic ==> MAX_CAS_ATTEMPTS < s.puts && pc.answer == Active(home))
  {
    RunKeeps(Init(home), ops);
    var s := Run(Init(home), ops);
    assert CallOk(s, s.calls[c]);
  }

  /** The step that ends a call is one atomic claim, same answer and same effect, unless it is the guess after four puts. */
  lemma ReturnsAtomically(home: BrokerId, ops: seq<Op>, op: Op, c: CallId)
    requires var s := Run(Init(home), ops);
             && c in s.calls && !s.calls[c].pc.Returned?
             && Step(s, op).calls[c].pc.Returned?
    ensures var s, t := Run(Init(home), ops), Step(Run(Init(home), ops), op);
            if t.calls[c].pc.atomic then
              && t.calls[c].pc.answer == AtomicAnswer(s.kv.cell, home, s.calls[c].claimant)
              && t.kv.cell == AtomicEffect(s.kv.cell, home, s.calls[c].claimant)
            else s.puts >= 4 && AtHome(s) && t.calls[c].pc.answer == Active(home)
  {
    RunKeeps(Init(home), ops);
    var s := Run(Init(home), ops);
    assert CallOk(s, s.calls[c]);
  }

  lemma {:induction false} RunSnoc(s: State, ops: seq<Op>, op: Op)
    ensures Run(s, ops + [op]) == Step(Run(s, ops), op)
    decreases ops
  {
    if ops == [] {
      assert ops + [op] == [op] && [op][1..] == [];
    } else {
      assert (ops + [op])[0] == ops[0] && (ops + [op])[1..] == ops[1..] + [op];
      RunSnoc(Step(s, ops[0]), ops[1..], op);
    }
  }

  /** From any state, home puts the record and a new claim takes it over. */
  lemma PutAndClaim(home: BrokerId, ops: seq<Op>, content: string, c: CallId, claimant: BrokerId) returns (more: seq<Op>)
    requires c !in Run(Init(home), ops).calls && claimant != home
    ensures var s, t := Run(Init(home), ops), Run(Init(home), more);
            && t.puts == s.puts + 1 && t.foreign == s.foreign
            && t.calls == s.calls[c := Call(claimant, Returned(Claimed(Record(content, claimant)), true))]
  {
    RunKeeps(Init(home), ops);
    var put, start, read, write := Put(Record(content, home)), Start(c, claimant), Read(c), Write(c);
    RunSnoc(Init(home), ops, put);
    RunSnoc(Init(home), ops + [put], start);
    RunSnoc(Init(home), ops + [put] + [start], read);
    RunSnoc(Init(home), ops + [put] + [start] + [read], write);
    more := ops + [put] + [start] + [read] + [write];
  }

  /** A record put twice can be won by two brokers: the condition of `OneWinner` is needed. */
  lemma TwoPutsTwoWinners(home: BrokerId, a: BrokerId, b: BrokerId, content: string) returns (ops: seq<Op>)
    requires a != home && b != home
    ensures var s := Run(Init(home), ops);
            && s.puts == 2 && s.foreign == 0 && 0 in s.calls && 1 in s.calls
            && s.calls[0] == Call(a, Returned(Claimed(Record(content, a)), true))
            && s.calls[1] == Call(b, Returned(Claimed(Record(content, b)), true))
  {
    assert Run(Init(home), []) == Init(home);
    ops := PutAndClaim(home, [], content, 0, a);
    ops := PutAndClaim(home, ops, content, 1, b);
  }

  /** An attempt that home's next put overtakes: it has lost, and home still owns the record. */
  lemma LostAttempt(home: BrokerId, ops: seq<Op>, record: Record, c: CallId, claimant: BrokerId, attempt: nat)
    returns (more: seq<Op>)
    requires record.owner == home && claimant != home
    requires var s := Run(Init(home), ops);
             AtHome(s) && c in s.calls && s.calls[c] == Call(claimant, Reading(attempt))
    ensures var s, t := Run(Init(home), ops), Run(Init(home), more);
            && t.puts == s.puts + 1 && AtHome(t) && c in t.calls
            && t.calls[c] == Call(claimant, if attempt + 1 < MAX_CAS_ATTEMPTS then Reading(attempt + 1) else Rereading)
  {
    RunKeeps(Init(home), ops);
    RunSnoc(Init(home), ops, Read(c));
    RunSnoc(Init(home), ops + [Read(c)], Put(record));
    RunSnoc(Init(home), ops + [Read(c)] + [Put(record)], Write(c));
    more := ops + [Read(c)] + [Put(record)] + [Write(c)];
  }

  /** Home puts the record, and a claim begins. */
  lemma PutAndStart(home: BrokerId, record: Record, claimant: BrokerId) returns (ops: seq<Op>)
    requires record.owner == home
    ensures var s := Run(Init(home), ops);
            s.puts == 1 && AtHome(s) && 0 in s.calls && s.calls[0] == Call(claimant, Reading(0))
  {
    assert Run(Init(home), []) == Init(home);
    RunSnoc(Init(home), [], Put(record));
    RunSnoc(Init(home), [] + [Put(record)], Start(0, claimant));
    ops := [] + [Put(record)] + [Start(0, claimant)];
  }

  /** Four puts do let a claim loop end in its guess: the bound of `AttemptsWithinPuts` is attained. */
  lemma FourPutsReachTheGuess(home: BrokerId, record: Record, claimant: BrokerId) returns (ops: seq<Op>)
    requires record.owner == home && claimant != home
    ensures var s := Run(Init(home), ops);
            s.puts == 4 && 0 in s.calls && s.calls[0] == Call(claimant, Returned(Active(home), false))
  {
    ops := PutAndStart(home, record, claimant);
    ops := LostAttempt(home, ops, record, 0, claimant, 0);
    ops := LostAttempt(home, ops, record, 0, claimant, 1);
    ops := LostAttempt(home, ops, record, 0, claimant, 2);
    RunKeeps(Init(home), ops);
    RunSnoc(Init(home), ops, Reread(0));
    ops := ops + [Reread(0)];
  }
}
