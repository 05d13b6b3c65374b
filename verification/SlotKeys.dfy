/** Keys of user reservations in the revisioned store: hex tokens joined by dots. */
module SlotKeys {

  type Byte = b: nat | b < 256

  /** The bytes of a scope, user or job id. */
  type Text = seq<Byte>

  const HEX := "0123456789abcdef"

  function HexToken(s: Text): (r: string)
    ensures |r| == 2 * |s|
  {
    if s == [] then "" else [HEX[s[0] / 16], HEX[s[0] % 16]] + HexToken(s[1..])
  }

  method WriteHex(s: Text) returns (out: string)
    ensures out == HexToken(s)
  {
    out := "";
    for i := 0 to |s|
      invariant out + HexToken(s[i..]) == HexToken(s)
    {
      assert s[i..][0] == s[i] && s[i..][1..] == s[i + 1..];
      var pair := [HEX[s[i] / 16], HEX[s[i] % 16]];
      assert out + (pair + HexToken(s[i + 1..])) == (out + pair) + HexToken(s[i + 1..]);
      out := out + pair;
    }
    assert s[|s|..] == [];
    assert out + "" == out;
  }

  function Prefix(scope: Text, user: Text): string {
    "ul." + (HexToken(scope) + "." + (HexToken(user) + "." + ""))
  }

  function SlotKey(scope: Text, user: Text, job: Text): string {
    "ul." + (HexToken(scope) + "." + (HexToken(user) + "." + HexToken(job)))
  }

  ghost predicate Dotless(s: string) { forall i | 0 <= i < |s| :: s[i] != '.' }

  lemma {:induction false} TokenDotless(s: Text)
    ensures Dotless(HexToken(s))
  {
    if s != [] {
      TokenDotless(s[1..]);
      var pair := [HEX[s[0] / 16], HEX[s[0] % 16]];
      forall i | 0 <= i < 16 ensures HEX[i] != '.' {}
      assert Dotless(pair);
    }
  }

  lemma HexDistinct(a: nat, b: nat)
    requires a < 16 && b < 16 && HEX[a] == HEX[b]
    ensures a == b
  {
    assert HEX == "0123456789abcdef";
  }

  lemma {:induction false} TokenInjective(s: Text, t: Text)
    requires HexToken(s) == HexToken(t)
    ensures s == t
  {
    assert |s| == |t|;
    if s != [] {
      var x, y := HexToken(s), HexToken(t);
      assert x[0] == HEX[s[0] / 16] && x[1] == HEX[s[0] % 16] && x[2..] == HexToken(s[1..]);
      assert y[0] == HEX[t[0] / 16] && y[1] == HEX[t[0] % 16] && y[2..] == HexToken(t[1..]);
      HexDistinct(s[0] / 16, t[0] / 16);
      HexDistinct(s[0] % 16, t[0] % 16);
      TokenInjective(s[1..], t[1..]);
      assert s == [s[0]] + s[1..] && t == [t[0]] + t[1..];
    }
  }

  /** The first dot ends the first token. */
  lemma FirstToken(a: string, x: string, b: string, y: string)
    requires Dotless(a) && Dotless(b) && a + "." + x == b + "." + y
    ensures a == b && x == y
  {
    var s, t := a + "." + x, b + "." + y;
    assert s[|a|] == '.' && t[|b|] == '.';
    assert |a| == |b|;
    assert a == s[..|a|] && b == t[..|b|];
    assert x == s[|a| + 1..] && y == t[|b| + 1..];
  }

  lemma TwoTokens(scope: Text, user: Text, x: string, scope': Text, user': Text, y: string)
    requires HexToken(scope) + "." + (HexToken(user) + "." + x) == HexToken(scope') + "." + (HexToken(user') + "." + y)
    ensures scope == scope' && user == user' && x == y
  {
    TokenDotless(scope);
    TokenDotless(scope');
    TokenDotless(user);
    TokenDotless(user');
    FirstToken(HexToken(scope), HexToken(user) + "." + x, HexToken(scope'), HexToken(user') + "." + y);
    FirstToken(HexToken(user), x, HexToken(user'), y);
    TokenInjective(scope, scope');
    TokenInjective(user, user');
  }

  /** Two reservations never share a key. */
  lemma KeysNeverClash(scope: Text, user: Text, job: Text, scope': Text, user': Text, job': Text)
    ensures SlotKey(scope, user, job) == SlotKey(scope', user', job') <==> scope == scope' && user == user' && job == job'
  {
    var k, k' := SlotKey(scope, user, job), SlotKey(scope', user', job');
    if k == k' {
      assert k[3..] == HexToken(scope) + "." + (HexToken(user) + "." + HexToken(job));
      assert k'[3..] == HexToken(scope') + "." + (HexToken(user') + "." + HexToken(job'));
      TwoTokens(scope, user, HexToken(job), scope', user', HexToken(job'));
      TokenInjective(job, job');
    }
  }

  /** Listing by prefix finds a reservation exactly when it belongs to that scope and user. */
  lemma PrefixSelects(scope: Text, user: Text, scope': Text, user': Text, job: Text)
    ensures Prefix(scope, user) <= SlotKey(scope', user', job) <==> scope == scope' && user == user'
  {
    var p, k := Prefix(scope, user), SlotKey(scope', user', job);
    if scope == scope' && user == user' {
      Regroup(HexToken(scope), HexToken(user), HexToken(job));
    }
    if p <= k {
      var rest := k[|p|..];
      assert k == p + rest;
      Regroup(HexToken(scope), HexToken(user), rest);
      SameTail(HexToken(scope) + "." + (HexToken(user) + "." + rest),
               HexToken(scope') + "." + (HexToken(user') + "." + HexToken(job)));
      TwoTokens(scope, user, rest, scope', user', HexToken(job));
    }
  }

  lemma Regroup(a: string, b: string, rest: string)
    ensures "ul." + (a + "." + (b + "." + "")) + rest == "ul." + (a + "." + (b + "." + rest))
  {
  }

  lemma SameTail(x: string, y: string)
    requires "ul." + x == "ul." + y
    ensures x == y
  {
    assert ("ul." + x)[3..] == x && ("ul." + y)[3..] == y;
  }
}
