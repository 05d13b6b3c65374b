/** Claiming a durable job record: the atomic store, and the compare-and-set loops that stand for it. */
module Claims {

  type BrokerId = string

  /** A durable record; `content` is everything but the owner. */
  datatype Record = Record(content: string, owner: BrokerId)

  datatype ClaimResult = NotFound | Active(owner: BrokerId) | Claimed(record: Record)

  /** What a revisioned store holds under one key. */
  datatype Cell = Empty | Tombstone | Live(record: Record)

  datatype Kv = Kv(cell: Cell, rev: nat)

  /** The answer and effect of a claim made in one atomic step. */
  function AtomicAnswer(cell: Cell, expected: BrokerId, claimant: BrokerId): ClaimResult {
    if !cell.Live? then NotFound
    else if cell.record.owner == claimant then Claimed(cell.record)
    else if cell.record.owner != expected then Active(cell.record.owner)
    else Claimed(cell.record.(owner := claimant))
  }

  function AtomicEffect(cell: Cell, expected: BrokerId, claimant: BrokerId): Cell {
    if cell.Live? && cell.record.owner == expected then Live(cell.record.(owner := claimant)) else cell
  }

  /** The claim is answered without a write unless the expected owner still holds the record. */
  predicate NeedsWrite(cell: Cell, expected: BrokerId, claimant: BrokerId) {
    cell.Live? && cell.record.owner != claimant && cell.record.owner == expected
  }

  /** Other clients' writes, each with a new revision. */
  function Interfere(kv: Kv, writes: seq<Cell>): (r: Kv)
    ensures r.rev == kv.rev + |writes| && (writes == [] ==> r == kv)
    decreases writes
  {
    if writes == [] then kv else Interfere(Kv(writes[0], kv.rev + 1), writes[1..])
  }

  function CompareAndSet(kv: Kv, rev: nat, cell: Cell): (bool, Kv) {
    if kv.rev == rev then (true, Kv(cell, rev + 1)) else (false, kv)
  }

  const MAX_CAS_ATTEMPTS := 3

  /** The three-attempt loop gave up and only reported who owns the record. */
  ghost predicate GaveUp(at: Kv, expected: BrokerId, claimant: BrokerId, r: ClaimResult) {
    NeedsWrite(at.cell, expected, claimant) && r == Active(expected)
  }

  /**
   * Read, compare-and-set, retry; `others[i]` are the writes other clients slip in before
   * our i-th access. `at` is the store when the answer was fixed, `kv` the store at return.
   */
  method NatsClaim(start: Kv, others: seq<seq<Cell>>, expected: BrokerId, claimant: BrokerId)
    returns (r: ClaimResult, kv: Kv, ghost at: Kv, ghost gaveUp: bool)
    requires |others| == 2 * MAX_CAS_ATTEMPTS + 1
    ensures gaveUp ==> GaveUp(at, expected, claimant, r) && kv == at
    ensures !gaveUp ==> r == AtomicAnswer(at.cell, expected, claimant)
                        && kv.cell == AtomicEffect(at.cell, expected, claimant)
                        && kv.rev == at.rev + if NeedsWrite(at.cell, expected, claimant) then 1 else 0
    ensures r.Active? ==> r.owner != claimant
    ensures r.Claimed? ==> kv.cell == Live(r.record) && r.record.owner == claimant
    ensures exists n | 0 <= n <= |others| :: at == During(start, others, n)
    ensures gaveUp <==> KeepsLosing(start, others, expected, claimant)
  {
    kv := start;
    var i := 0;
    while i < MAX_CAS_ATTEMPTS
      invariant 0 <= i <= MAX_CAS_ATTEMPTS
      invariant kv == During(start, others, 2 * i)
      invariant forall m | 0 <= m < i :: Loses(start, others, expected, claimant, m)
    {
      kv := Interfere(kv, others[2 * i]);
      DuringStep(start, others, 2 * i);
      if !NeedsWrite(kv.cell, expected, claimant) {
        assert !Loses(start, others, expected, claimant, i);
        return AtomicAnswer(kv.cell, expected, claimant), kv, kv, false;
      }
      var entry := kv;
      kv := Interfere(kv, others[2 * i + 1]);
      DuringStep(start, others, 2 * i + 1);
      at := kv;
      var claimed := entry.cell.record.(owner := claimant);
      var (won, after) := CompareAndSet(kv, entry.rev, Live(claimed));
      if won {
        assert !Loses(start, others, expected, claimant, i);
        return Claimed(claimed), after, at, false;
      }
      i := i + 1;
    }
    kv := Interfere(kv, others[2 * i]);
    DuringStep(start, others, 2 * i);
    at := kv;
    gaveUp := NeedsWrite(kv.cell, expected, claimant);
    r := if !kv.cell.Live? then NotFound
         else if kv.cell.record.owner == claimant then Claimed(kv.cell.record)
         else Active(kv.cell.record.owner);
  }

  /** The m-th attempt found the expected owner and was overtaken before its write. */
  ghost predicate Loses(start: Kv, others: seq<seq<Cell>>, expected: BrokerId, claimant: BrokerId, m: nat)
    requires 2 * m + 1 < |others|
  {
    NeedsWrite(During(start, others, 2 * m + 1).cell, expected, claimant) && others[2 * m + 1] != []
  }

  /** Overtaken three times, and the expected owner still holds the record at the last read. */
  ghost predicate KeepsLosing(start: Kv, others: seq<seq<Cell>>, expected: BrokerId, claimant: BrokerId)
    requires |others| == 2 * MAX_CAS_ATTEMPTS + 1
  {
    && (forall m | 0 <= m < MAX_CAS_ATTEMPTS :: Loses(start, others, expected, claimant, m))
    && NeedsWrite(During(start, others, |others|).cell, expected, claimant)
  }

  /** It can happen: three rewrites by the owner make the loop answer what the atomic store never would. */
  lemma KeepsLosingHappens(x: string, a: BrokerId, b: BrokerId)
    requires a != b
    ensures var w := [Live(Record(x, a))];
            KeepsLosing(Kv(w[0], 0), [[], w, [], w, [], w, []], a, b)
    ensures AtomicAnswer(Live(Record(x, a)), a, b) != Active(a)
  {
    var w := [Live(Record(x, a))];
    var start, others := Kv(w[0], 0), [[], w, [], w, [], w, []];
    forall n | 0 <= n <= 7 ensures During(start, others, n).cell == w[0] {
      AlwaysSame(start, others, w[0], n);
    }
  }

  lemma {:induction false} AlwaysSame(start: Kv, others: seq<seq<Cell>>, c: Cell, n: nat)
    requires n <= |others| && start.cell == c && forall i | 0 <= i < |others| :: others[i] == [] || others[i] == [c]
    ensures During(start, others, n).cell == c
  {
    if n > 0 {
      AlwaysSame(start, others, c, n - 1);
      assert others[n - 1] == [c] ==> [c][1..] == [];
    }
  }

  const MAX_TXN_ATTEMPTS := 2

  /**
   * The optimistic-transaction variant: a snapshot read and a commit that fails if the key
   * changed. After two conflicts it reports one instead of guessing, so it never deviates.
   */
  method TikvClaim(start: Kv, others: seq<seq<Cell>>, expected: BrokerId, claimant: BrokerId)
    returns (ok: bool, r: ClaimResult, kv: Kv, ghost at: Kv)
    requires |others| == 4
    ensures ok ==> r == AtomicAnswer(at.cell, expected, claimant)
                   && kv.cell == AtomicEffect(at.cell, expected, claimant)
    ensures ok ==> exists n | 0 <= n <= |others| :: at == During(start, others, n)
    ensures !ok <==> Loses(start, others, expected, claimant, 0) && Loses(start, others, expected, claimant, 1)
    ensures !ok ==> kv == During(start, others, |others|)
  {
    kv := start;
    var i := 0;
    while i < MAX_TXN_ATTEMPTS
      invariant 0 <= i <= MAX_TXN_ATTEMPTS
      invariant kv == During(start, others, 2 * i)
      invariant forall m | 0 <= m < i :: Loses(start, others, expected, claimant, m)
    {
      kv := Interfere(kv, others[2 * i]);
      DuringStep(start, others, 2 * i);
      if !NeedsWrite(kv.cell, expected, claimant) {
        assert !Loses(start, others, expected, claimant, i);
        return true, AtomicAnswer(kv.cell, expected, claimant), kv, kv;
      }
      var snapshot := kv;
      kv := Interfere(kv, others[2 * i + 1]);
      DuringStep(start, others, 2 * i + 1);
      at := kv;
      var record := snapshot.cell.record.(owner := claimant);
      var (committed, after) := CompareAndSet(kv, snapshot.rev, Live(record));
      if committed {
        assert !Loses(start, others, expected, claimant, i);
        return true, Claimed(record), after, at;
      }
      i := i + 1;
    }
    return false, NotFound, kv, kv;
  }

  /** The store after the first n rounds of other clients' writes. */
  ghost function During(start: Kv, others: seq<seq<Cell>>, n: nat): Kv
    requires n <= |others|
  {
    if n == 0 then start else Interfere(During(start, others, n - 1), others[n - 1])
  }

  lemma DuringStep(start: Kv, others: seq<seq<Cell>>, n: nat)
    requires n < |others|
    ensures During(start, others, n + 1) == Interfere(During(start, others, n), others[n])
  {
  }
}
