/** The permission cache's keys: when two lookups can share one. */
module PermKeys {
  const PERM_PREFIX: string := "authy:perm:"

  function Digit(d: nat): char
    requires d < 10
  {
    '0' + d as char
  }

  /** The decimal form of a role version. */
  function Decimal(n: nat): (s: string)
    ensures |s| >= 1 && NoColon(s)
  {
    if n < 10 then [Digit(n)] else Decimal(n / 10) + [Digit(n % 10)]
  }

  predicate NoColon(s: string) { ':' !in s }

  function PermKey(userId: string, appId: string, roleVersion: nat): string {
    PERM_PREFIX + userId + ":" + appId + ":" + Decimal(roleVersion)
  }

  function Value(s: string): int {
    if s == [] then 0 else Value(s[..|s| - 1]) * 10 + (s[|s| - 1] as int - '0' as int)
  }

  /** Reading the decimal form back gives the number. */
  lemma {:induction false} DecimalRoundTrip(n: nat)
    ensures Value(Decimal(n)) == n
  {
    if n < 10 {
      assert Decimal(n)[..0] == [];
    } else {
      DecimalRoundTrip(n / 10);
      assert Decimal(n)[..|Decimal(n)| - 1] == Decimal(n / 10);
    }
  }

  /** A string splits in one way only at its last colon. */
  lemma LastColonSplits(a: string, b: string, a': string, b': string)
    requires a + ":" + b == a' + ":" + b' && NoColon(b) && NoColon(b')
    ensures a == a' && b == b'
  {
    var s := a + ":" + b;
    forall j | |a| < j < |s| ensures s[j] != ':' { assert s[j] == b[j - |a| - 1]; }
    forall j | |a'| < j < |s| ensures s[j] != ':' { assert s[j] == b'[j - |a'| - 1]; }
    assert s[|a|] == ':' && s[|a'|] == ':';
    assert a == s[..|a|] && b == s[|a| + 1..];
  }

  /** And at its first colon. */
  lemma FirstColonSplits(a: string, b: string, a': string, b': string)
    requires a + ":" + b == a' + ":" + b' && NoColon(a) && NoColon(a')
    ensures a == a' && b == b'
  {
    var s := a + ":" + b;
    forall j | 0 <= j < |a| ensures s[j] != ':' { assert s[j] == a[j]; }
    forall j | 0 <= j < |a'| ensures s[j] != ':' { assert s[j] == a'[j]; }
    assert s[|a|] == ':' && s[|a'|] == ':';
    assert a == s[..|a|] && b == s[|a| + 1..];
  }

  lemma KeyShape(userId: string, appId: string, roleVersion: nat)
    ensures PermKey(userId, appId, roleVersion) == PERM_PREFIX + ((userId + ":" + appId) + ":" + Decimal(roleVersion))
  {
  }

  lemma SamePrefix(p: string, a: string, b: string)
    requires p + a == p + b
    ensures a == b
  {
    assert a == (p + a)[|p|..] && b == (p + b)[|p|..];
  }

  /** The key determines the user, the app and the version as soon as either kind of id is free of colons. */
  lemma PermKeyInjective(u: string, a: string, v: nat, u': string, a': string, v': nat)
    requires PermKey(u, a, v) == PermKey(u', a', v')
    requires (NoColon(u) && NoColon(u')) || (NoColon(a) && NoColon(a'))
    ensures u == u' && a == a' && v == v'
  {
    KeyShape(u, a, v);
    KeyShape(u', a', v');
    SamePrefix(PERM_PREFIX, (u + ":" + a) + ":" + Decimal(v), (u' + ":" + a') + ":" + Decimal(v'));
    LastColonSplits(u + ":" + a, Decimal(v), u' + ":" + a', Decimal(v'));
    DecimalRoundTrip(v);
    DecimalRoundTrip(v');
    if NoColon(u) && NoColon(u') {
      FirstColonSplits(u, a, u', a');
    } else {
      LastColonSplits(u, a, u', a');
    }
  }

  /** With colons in both, different users and apps can share a key. */
  lemma KeysCollide(x: string, y: string, z: string, v: nat)
    ensures PermKey(x + ":" + y, z, v) == PermKey(x, y + ":" + z, v)
  {
  }
}
