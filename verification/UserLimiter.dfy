/** The admission call's local parts: resolving a ceiling, ranking a listing, the local counters. */
module UserLimiter {
  import opened Wrappers
  import opened UserSlots
  import opened Admission
  import opened Sorting

  // ------------------------------------------------------------ resolving a ceiling

  datatype RealmLimit = RealmLimit(default: Option<nat>, roles: map<string, nat>)
  datatype Config = Config(default: Option<nat>, realms: map<string, RealmLimit>)

  /** The auth fields of a user; a missing or non-string field is None. */
  datatype Auth = Auth(realm: Option<string>, username: Option<string>, roles: Option<seq<Option<string>>>)

  const SEPARATOR: char := '\U{1f}'

  function UserKey(realm: string, username: string): string {
    realm + [SEPARATOR] + username
  }

  /** Whether n is a ceiling that applies to the user: global, realm, or one of its realm's roles. */
  predicate Candidate(cfg: Config, realm: string, roles: seq<Option<string>>, n: nat) {
    || cfg.default == Some(n)
    || (realm in cfg.realms &&
         (cfg.realms[realm].default == Some(n)
          || exists i :: 0 <= i < |roles| && roles[i].Some? && roles[i].value in cfg.realms[realm].roles
                         && cfg.realms[realm].roles[roles[i].value] == n))
  }

  ghost predicate Greatest(cfg: Config, realm: string, roles: seq<Option<string>>, r: Option<nat>) {
    && (r.Some? ==> Candidate(cfg, realm, roles, r.value))
    && forall n: nat | Candidate(cfg, realm, roles, n) :: r.Some? && n <= r.value
  }

  function MaxWith(e: Option<nat>, n: nat): (r: Option<nat>)
    ensures r.Some? && n <= r.value && (r.value == n || r == e) && (e.Some? ==> e.value <= r.value)
  {
    match e
    case None => Some(n)
    case Some(m) => Some(if m < n then n else m)
  }

  /** The greatest applicable ceiling; None exactly when the user is unidentifiable or no ceiling applies. */
  method Resolve(cfg: Config, auth: Auth) returns (r: Option<(string, nat)>)
    ensures auth.realm.None? || auth.username.None? ==> r == None
    ensures auth.realm.Some? && auth.username.Some? ==>
              var roles := if auth.roles.Some? then auth.roles.value else [];
              && Greatest(cfg, auth.realm.value, roles, if r.Some? then Some(r.value.1) else None)
              && (r.Some? ==> r.value.0 == UserKey(auth.realm.value, auth.username.value))
  {
    if auth.realm.None? || auth.username.None? { return None; }
    var realm := auth.realm.value;
    var effective := cfg.default;
    if realm in cfg.realms {
      var block := cfg.realms[realm];
      if block.default.Some? { effective := MaxWith(effective, block.default.value); }
      if auth.roles.Some? {
        var roles := auth.roles.value;
        for i := 0 to |roles|
          invariant Greatest(cfg, realm, roles[..i], effective)
        {
          ghost var before := effective;
          if roles[i].Some? && roles[i].value in block.roles {
            effective := MaxWith(effective, block.roles[roles[i].value]);
          }
          RoleAdded(cfg, realm, roles, i, before, effective);
        }
        assert roles[..|roles|] == roles;
      }
    }
    r := if effective.Some? then Some((UserKey(realm, auth.username.value), effective.value)) else None;
  }

  lemma RoleAdded(cfg: Config, realm: string, roles: seq<Option<string>>, i: nat, before: Option<nat>, after: Option<nat>)
    requires realm in cfg.realms && i < |roles| && Greatest(cfg, realm, roles[..i], before)
    requires after == if roles[i].Some? && roles[i].value in cfg.realms[realm].roles
                      then MaxWith(before, cfg.realms[realm].roles[roles[i].value]) else before
    ensures Greatest(cfg, realm, roles[..i + 1], after)
  {
    var block := cfg.realms[realm];
    forall n: nat
      ensures Candidate(cfg, realm, roles[..i + 1], n) <==>
              Candidate(cfg, realm, roles[..i], n)
              || (roles[i].Some? && roles[i].value in block.roles && block.roles[roles[i].value] == n)
    {
      assert forall x | 0 <= x < i :: roles[..i + 1][x] == roles[..i][x];
      assert roles[..i + 1][i] == roles[i];
    }
    var upto := roles[..i + 1];
    if after.Some? {
      assert Candidate(cfg, realm, upto, after.value);
    }
    forall n: nat | Candidate(cfg, realm, upto, n) ensures after.Some? && n <= after.value {
      assert Candidate(cfg, realm, roles[..i], n) ==> before.Some? && n <= before.value;
    }
  }

  /** Another identity has the same key exactly when the realm or the name holds the separator. */
  lemma UserKeyUnique(realm: string, username: string)
    ensures (forall r, u | UserKey(r, u) == UserKey(realm, username) :: r == realm && u == username)
            <==> SEPARATOR !in realm && SEPARATOR !in username
  {
    var key := UserKey(realm, username);
    if SEPARATOR in realm {
      var i :| 0 <= i < |realm| && realm[i] == SEPARATOR;
      var r, u := realm[..i], realm[i + 1..] + [SEPARATOR] + username;
      assert UserKey(r, u) == key && r != realm;
    } else if SEPARATOR in username {
      var i :| 0 <= i < |username| && username[i] == SEPARATOR;
      var r, u := realm + [SEPARATOR] + username[..i], username[i + 1..];
      assert UserKey(r, u) == key && r != realm;
    } else {
      assert forall i | 0 <= i < |key| && key[i] == SEPARATOR :: i == |realm|;
      forall r, u | UserKey(r, u) == key ensures r == realm && u == username {
        assert key[|r|] == SEPARATOR;
        assert r == key[..|r|] && realm == key[..|realm|];
        assert u == key[|r| + 1..] && username == key[|realm| + 1..];
      }
    }
  }

  // ------------------------------------------------------------------- ranking

  type Ranked = (nat, JobId)

  predicate Less(a: Ranked, b: Ranked) {
    a.0 < b.0 || (a.0 == b.0 && StrLess(a.1, b.1))
  }

  lemma {:induction false} StrOrder(a: string, b: string, c: string)
    ensures !(StrLess(a, b) && StrLess(b, a))
    ensures a != b ==> StrLess(a, b) || StrLess(b, a)
    ensures StrLess(a, b) && StrLess(b, c) ==> StrLess(a, c)
  {
    if a != "" && b != "" {
      StrOrder(a[1..], b[1..], if c == "" then "" else c[1..]);
      assert a == [a[0]] + a[1..] && b == [b[0]] + b[1..];
    }
  }

  lemma LessOrder(a: Ranked, b: Ranked, c: Ranked)
    ensures !(Less(a, b) && Less(b, a))
    ensures a != b ==> Less(a, b) || Less(b, a)
    ensures Less(a, b) && Less(b, c) ==> Less(a, c)
  {
    StrOrder(a.1, b.1, c.1);
  }

  lemma LessIsOrder()
    ensures WeakOrder(Less)
  {
    forall a, b ensures !(Less(a, b) && Less(b, a)) { LessOrder(a, b, a); }
    forall a, b, c | !Less(b, a) && !Less(c, b) ensures !Less(c, a) {
      LessOrder(a, b, c);
      LessOrder(c, a, b);
    }
  }

  /** How many elements of the listing precede x. */
  function CountLess(s: seq<Ranked>, x: Ranked): nat {
    if s == [] then 0 else (if Less(s[0], x) then 1 else 0) + CountLess(s[1..], x)
  }

  lemma {:induction false} CountLessAppend(s: seq<Ranked>, t: seq<Ranked>, x: Ranked)
    ensures CountLess(s + t, x) == CountLess(s, x) + CountLess(t, x)
  {
    if s == [] {
      assert s + t == t;
    } else {
      CountLessAppend(s[1..], t, x);
      assert (s + t)[1..] == s[1..] + t;
    }
  }

  lemma {:induction false} CountLessNone(s: seq<Ranked>, x: Ranked)
    requires forall i | 0 <= i < |s| :: !Less(s[i], x)
    ensures CountLess(s, x) == 0
  {
    if s != [] { CountLessNone(s[1..], x); }
  }

  lemma {:induction false} CountLessAll(s: seq<Ranked>, x: Ranked)
    requires forall i | 0 <= i < |s| :: Less(s[i], x)
    ensures CountLess(s, x) == |s|
  {
    if s != [] { CountLessAll(s[1..], x); }
  }

  /** The position of x in a sorted listing is the number of elements before it. */
  lemma PositionCounts(s: seq<Ranked>, p: nat)
    requires Sorted(s, Less) && p < |s| && forall i | 0 <= i < p :: s[i] != s[p]
    ensures CountLess(s, s[p]) == p
  {
    assert s == s[..p] + s[p..];
    CountLessAppend(s[..p], s[p..], s[p]);
    forall i | 0 <= i < p ensures Less(s[..p][i], s[p]) { LessOrder(s[i], s[p], s[p]); }
    forall i | 0 <= i < |s[p..]| ensures !Less(s[p..][i], s[p]) { LessOrder(s[p], s[p], s[p]); }
    CountLessAll(s[..p], s[p]);
    CountLessNone(s[p..], s[p]);
  }

  lemma {:induction false} InsertCounts(x: Ranked, s: seq<Ranked>, y: Ranked)
    ensures CountLess(Insert(x, s, Less), y) == CountLess(s, y) + if Less(x, y) then 1 else 0
  {
    if s != [] && Less(s[0], x) {
      InsertCounts(x, s[1..], y);
      assert Insert(x, s, Less)[1..] == Insert(x, s[1..], Less);
    } else {
      assert Insert(x, s, Less)[1..] == s;
    }
  }

  lemma {:induction false} SortCounts(s: seq<Ranked>, y: Ranked)
    ensures CountLess(Sort(s, Less), y) == CountLess(s, y)
  {
    if s != [] {
      SortCounts(s[1..], y);
      InsertCounts(s[0], Sort(s[1..], Less), y);
    }
  }

  /** Sort the listing by (ord, job) and find one's own place; a missing entry ranks 0. */
  method RankOf(listed: seq<Ranked>, ord: nat, job: JobId) returns (rank: nat)
    ensures rank == if (ord, job) in listed then CountLess(listed, (ord, job)) else 0
  {
    var ordered := Sort(listed, Less);
    LessIsOrder();
    SortSorted(listed, Less);
    SortCounts(listed, (ord, job));
    assert (ord, job) in listed <==> (ord, job) in multiset(ordered);
    for i := 0 to |ordered|
      invariant (ord, job) !in ordered[..i]
    {
      if ordered[i] == (ord, job) {
        PositionCounts(ordered, i);
        return i;
      }
    }
    rank := 0;
  }

  /** A listing names each reservation of the table once, in any order. */
  ghost predicate Lists(listed: seq<Ranked>, es: map<JobId, Entry>) {
    && (forall a, b | 0 <= a < b < |listed| :: listed[a].1 != listed[b].1)
    && (forall a | 0 <= a < |listed| :: listed[a].1 in es && es[listed[a].1].ord == listed[a].0)
    && (forall i | i in es :: exists a :: 0 <= a < |listed| && listed[a].1 == i)
  }

  /** Whatever order the store lists in, the rank is the protocol's `RankIn`. */
  lemma RankIsProtocolRank(listed: seq<Ranked>, es: map<JobId, Entry>, ord: nat, j: JobId)
    requires Lists(listed, es)
    ensures RankIn(es, ord, j) == if (ord, j) in listed then CountLess(listed, (ord, j)) else 0
  {
    CountIsAhead(listed, es, ord, j);
    if j in es && es[j].ord == ord {
      var a :| 0 <= a < |listed| && listed[a].1 == j;
      assert listed[a] == (ord, j);
    }
  }

  lemma ListsTail(listed: seq<Ranked>, es: map<JobId, Entry>)
    requires listed != [] && Lists(listed, es)
    ensures Lists(listed[1..], es - {listed[0].1})
  {
    var rest := listed[1..];
    forall i | i in es && i != listed[0].1 ensures exists a :: 0 <= a < |rest| && rest[a].1 == i {
      var a :| 0 <= a < |listed| && listed[a].1 == i;
      assert rest[a - 1].1 == i;
    }
  }

  lemma {:induction false} CountIsAhead(listed: seq<Ranked>, es: map<JobId, Entry>, ord: nat, j: JobId)
    requires Lists(listed, es)
    ensures CountLess(listed, (ord, j)) == |Ahead(es, ord, j)|
  {
    if listed == [] {
      assert Ahead(es, ord, j) == {};
    } else {
      var first := listed[0];
      ListsTail(listed, es);
      CountIsAhead(listed[1..], es - {first.1}, ord, j);
      AheadSplit(es, first.1, ord, j);
    }
  }

  lemma AheadSplit(es: map<JobId, Entry>, i: JobId, ord: nat, j: JobId)
    requires i in es
    ensures |Ahead(es, ord, j)| == |Ahead(es - {i}, ord, j)| + if Less((es[i].ord, i), (ord, j)) then 1 else 0
  {
    var mine := if Less((es[i].ord, i), (ord, j)) then {i} else {};
    assert Ahead(es, ord, j) == Ahead(es - {i}, ord, j) + mine;
  }

  // -------------------------------------------------------------- local counters

  /** The per-broker counters; an absent key counts zero. */
  class Counters {
    var counts: map<string, nat>

    constructor ()
      ensures counts == map[]
    {
      counts := map[];
    }

    /** Admit one job if the key is under its cap. */
    method TryAdmitLocal(key: string, max: nat) returns (ok: bool, n: nat)
      modifies this
      ensures ok == (CountAt(old(counts), key) < max) && n == CountAt(counts, key)
      ensures ok ==> counts == Increment(old(counts), key)
      ensures !ok ==> forall q :: CountAt(counts, q) == CountAt(old(counts), q)
    {
      if key !in counts { counts := counts[key := 0]; }
      if counts[key] >= max {
        return false, counts[key];
      }
      counts := counts[key := counts[key] + 1];
      return true, counts[key];
    }

    method IncrLocal(key: string)
      modifies this
      ensures counts == Increment(old(counts), key)
    {
      if key !in counts { counts := counts[key := 0]; }
      counts := counts[key := counts[key] + 1];
    }

    /** Two steps: another admission may come between them without being lost. */
    method ReleaseLocal(key: string)
      modifies this
      ensures counts == DropZero(SaturatingDecrement(old(counts), key), key)
      ensures forall q :: CountAt(counts, q) ==
                if q == key && CountAt(old(counts), q) > 0 then CountAt(old(counts), q) - 1 else CountAt(old(counts), q)
    {
      if key in counts {
        counts := counts[key := if counts[key] == 0 then 0 else counts[key] - 1];
      }
      if key in counts && counts[key] == 0 {
        counts := counts - {key};
      }
    }
  }
}
