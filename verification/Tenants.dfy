/** The (user, agent) scope of the Redis counters, and the key strings they are stored under. */
module Tenants {

  /** One (user, agent) pair; an empty agent stands for none. */
  datatype Tenant = Tenant(user: string, agent: string)

  /** `{prefix}{user}:{agent}:{window}`, or `{prefix}{user}:{window}` without an agent. */
  function KeyString(prefix: string, t: Tenant, window: string): (r: string) {
    if t.agent != "" then prefix + t.user + ":" + t.agent + ":" + window else prefix + t.user + ":" + window
  }

  /** What stands after the last colon is determined by the whole. */
  lemma {:induction false} LastColon(a: string, x: string, b: string, y: string)
    requires ':' !in x && ':' !in y && a + ":" + x == b + ":" + y
    ensures a == b && x == y
  {
    var (s, s') := (a + ":" + x, b + ":" + y);
    assert s[|s| - 1] == if x == "" then ':' else x[|x| - 1];
    assert s'[|s'| - 1] == if y == "" then ':' else y[|y| - 1];
    if x == "" {
      assert a == s[..|s| - 1] && b == s'[..|s'| - 1];
    } else {
      var (x', y') := (x[..|x| - 1], y[..|y| - 1]);
      assert s[..|s| - 1] == a + ":" + x' && s'[..|s'| - 1] == b + ":" + y';
      LastColon(a, x', b, y');
      assert x == x' + [x[|x| - 1]] && y == y' + [y[|y| - 1]];
    }
  }

  /** What a tenant's counters are kept under, within one window. */
  function Scope(t: Tenant): (s: string) {
    if t.agent != "" then t.user + ":" + t.agent else t.user
  }

  /** The user of `t'` begins with the user of `t` and a colon, and the agent of `t` is all that follows. */
  predicate Swallows(t: Tenant, t': Tenant) {
    && t.agent != "" && t.user + ":" <= t'.user
    && t.agent == Scope(Tenant(t'.user[|t.user| + 1..], t'.agent))
  }

  lemma {:induction false} SwallowedScope(t: Tenant, t': Tenant)
    requires Swallows(t, t')
    ensures Scope(t) == Scope(t')
  {
    assert t'.user == t.user + ":" + t'.user[|t.user| + 1..];
    assert Scope(t) == Scope(t');
  }

  /** Of two scopes that read alike, the one with the shorter user swallows the other. */
  lemma {:induction false} ShorterUserSwallows(t: Tenant, t': Tenant)
    requires Scope(t) == Scope(t') && |t.user| < |t'.user|
    ensures Swallows(t, t')
  {
    var (s, n) := (Scope(t), |t.user|);
    assert |s| > n && t.agent != "";
    assert s == t.user + ":" + t.agent && s[..n + 1] == t.user + ":" && s[n + 1..] == t.agent;
    assert s[..|t'.user|] == t'.user;
    assert t'.user[..n + 1] == s[..n + 1] && t'.user[n + 1..] == s[n + 1..|t'.user|];
    assert Scope(Tenant(t'.user[n + 1..], t'.agent)) == s[n + 1..];
  }

  lemma {:induction false} SameLengthUser(t: Tenant, t': Tenant)
    requires Scope(t) == Scope(t') && |t.user| == |t'.user|
    ensures t == t'
  {
    var (s, n) := (Scope(t), |t.user|);
    assert t.user == s[..n] && t'.user == s[..n];
    assert |s| == n <==> t.agent == "";
    assert |s| == n <==> t'.agent == "";
    if |s| > n { assert t.agent == s[n + 1..] && t'.agent == s[n + 1..]; }
  }

  /** Which tenants share a scope: none but the same, or one whose user reads as the other's user and agent. */
  lemma {:induction false} ScopesAgreeIff(t: Tenant, t': Tenant)
    ensures Scope(t) == Scope(t') <==> t == t' || Swallows(t, t') || Swallows(t', t)
  {
    if Scope(t) == Scope(t') {
      if |t.user| < |t'.user| {
        ShorterUserSwallows(t, t');
      } else if |t'.user| < |t.user| {
        ShorterUserSwallows(t', t);
      } else {
        SameLengthUser(t, t');
      }
    }
    if Swallows(t, t') { SwallowedScope(t, t'); }
    if Swallows(t', t) { SwallowedScope(t', t); }
  }

  lemma {:induction false} KeyIsScopeAndWindow(prefix: string, t: Tenant, w: string)
    ensures KeyString(prefix, t, w) == (prefix + Scope(t)) + ":" + w
  {
    assert prefix + t.user + ":" + t.agent == prefix + (t.user + ":" + t.agent);
  }

  /** Exactly which counters share a key: the same window, and tenants one of which reads as the other. */
  lemma {:induction false} SharedKeyIff(prefix: string, t: Tenant, w: string, t': Tenant, w': string)
    requires ':' !in w && ':' !in w'
    ensures KeyString(prefix, t, w) == KeyString(prefix, t', w') <==>
              w == w' && (t == t' || Swallows(t, t') || Swallows(t', t))
  {
    KeyIsScopeAndWindow(prefix, t, w);
    KeyIsScopeAndWindow(prefix, t', w');
    ScopesAgreeIff(t, t');
    if KeyString(prefix, t, w) == KeyString(prefix, t', w') {
      LastColon(prefix + Scope(t), w, prefix + Scope(t'), w');
      assert (prefix + Scope(t))[|prefix|..] == Scope(t) && (prefix + Scope(t'))[|prefix|..] == Scope(t');
    }
  }

  lemma {:induction false} SwallowedHasColon(t: Tenant, t': Tenant)
    requires Swallows(t, t')
    ensures ':' in t'.user
  {
    assert t'.user[|t.user|] == (t.user + ":")[|t.user|];
  }

  /** Users without a colon never share a counter, whatever their agents are called. */
  lemma {:induction false} KeysAreInjective(prefix: string, t: Tenant, w: string, t': Tenant, w': string)
    requires ':' !in t.user && ':' !in t'.user && ':' !in w && ':' !in w'
    requires KeyString(prefix, t, w) == KeyString(prefix, t', w')
    ensures t == t' && w == w'
  {
    SharedKeyIff(prefix, t, w, t', w');
    if Swallows(t, t') { SwallowedHasColon(t, t'); }
    if Swallows(t', t) { SwallowedHasColon(t', t); }
  }
}
