/** What one entry of an acquire gets. */
module McpPoolUse {
  import opened McpPool
  import opened Options
  import opened Sequences

  /** The slot at `i` is the wanted one, and unexpired. */
  predicate FreshAt(s: State, i: nat, want: Want) {
    i < |s.cache| && s.cache[i].key == want.key && s.cache[i].expiresAt > want.now
  }

  predicate StaleAt(s: State, i: nat, want: Want) {
    i < |s.cache| && s.cache[i].key == want.key && s.cache[i].expiresAt <= want.now
  }

  /** `after` holds the slots of `before` in their order, but for the one at `i`. */
  ghost predicate LeavesOut(before: seq<Slot>, after: seq<Slot>, i: nat) {
    && i < |before| && |after| == |before| - 1
    && forall j :: 0 <= j < |after| ==> after[j] == before[if j < i then j else j + 1]
  }

  /** The newest `max` of these slots. */
  ghost predicate NewestOf(all: seq<Slot>, after: seq<Slot>, max: nat) {
    && |after| == (if |all| <= max then |all| else max)
    && forall j :: 0 <= j < |after| ==> after[j] == all[|all| - |after| + j]
  }

  lemma {:induction false} AcquireOne(s: State, want: Want, ttl: int, max: nat)
    ensures var (r, s') := Fetch(s, want, ttl, max);
            Acquire(s, [want], ttl, max) == (if r == None then None else Some([r.value]), s')
  {
    var (r, s') := Fetch(s, want, ttl, max);
    assert [want][1..] == [];
    assert Acquire(s', [], ttl, max) == (Some([]), s');
    if r.Some? { AppendNil([r.value]); }
  }

  lemma {:induction false} KeyIsAt(s: State, i: nat, key: Key)
    requires DistinctKeys(s.cache) && i < |s.cache| && s.cache[i].key == key
    ensures IndexOf(s.cache, key) == i
  {
  }

  lemma {:induction false} KeyIsNowhere(s: State, key: Key)
    requires !Cached(s.cache, key)
    ensures IndexOf(s.cache, key) == |s.cache|
  {
  }

  /** A cached server that has not expired is served again: nothing is built or cleaned up, and its slot is newest. */
  lemma {:induction false} FreshIsServed(calls: seq<Call>, ttl: int, max: nat, want: Want, i: nat)
    ensures var s := Run(calls, ttl, max);
            FreshAt(s, i, want) ==>
              var (r, s') := Acquire(s, [want], ttl, max);
              && r == Some([s.cache[i].server]) && s'.builds == s.builds && s'.cleaned == s.cleaned
              && |s'.cache| == |s.cache| && s'.cache[|s.cache| - 1] == s.cache[i]
              && LeavesOut(s.cache, s'.cache[..|s.cache| - 1], i)
  {
    var s := Run(calls, ttl, max);
    RunConserves(calls, ttl, max);
    if FreshAt(s, i, want) {
      KeyIsAt(s, i, want.key);
      AcquireOne(s, want, ttl, max);
      assert (Without(s.cache, i) + [s.cache[i]])[..|s.cache| - 1] == Without(s.cache, i);
    }
  }

  /** Every server built is live exactly while it is cached, and cleaned up once otherwise. */
  ghost predicate Accounts(s: State) {
    forall id: nat :: id < |s.builds| ==> s.cleaned[id] == if Holds(s.cache, id) then 0 else 1
  }

  lemma {:induction false} InvAccounts(s: State, ttl: int, max: nat)
    requires Inv(s, ttl, max)
    ensures Accounts(s)
  {
    forall id: nat | id < |s.builds| ensures s.cleaned[id] == if Holds(s.cache, id) then 0 else 1 {
      InBag(s.cache, id);
      assert (Bag(s.cache) + s.cleaned)[id] == 1;
    }
  }

  lemma {:induction false} EvictIsNewest(s: State, max: nat)
    ensures NewestOf(s.cache, Evict(s, max).cache, max) && Evict(s, max).builds == s.builds
  {
  }

  /** The wanted slot is stale, or there is none and `i` is past the end. */
  predicate Misses(s: State, i: nat, want: Want) {
    StaleAt(s, i, want) || (i == |s.cache| && !Cached(s.cache, want.key))
  }

  lemma {:induction false} MissIsAt(s: State, i: nat, want: Want)
    requires DistinctKeys(s.cache) && Misses(s, i, want)
    ensures IndexOf(s.cache, want.key) == i
  {
    if i < |s.cache| { KeyIsAt(s, i, want.key); } else { KeyIsNowhere(s, want.key); }
  }

  /** What a miss leaves of the slots there were. */
  ghost predicate Remain(s: State, rest: seq<Slot>, i: nat) {
    if i < |s.cache| then LeavesOut(s.cache, rest, i) else rest == s.cache
  }

  lemma {:induction false} DroppedRemain(s: State, i: nat)
    requires i <= |s.cache|
    ensures Remain(s, DropStale(s, i).cache, i) && DropStale(s, i).builds == s.builds
  {
  }

  lemma {:induction false} MissFetch(s: State, want: Want, ttl: int, max: nat, i: nat)
    requires want.connects && DistinctKeys(s.cache) && Misses(s, i, want)
    ensures Fetch(s, want, ttl, max) == (Some(|s.builds|), Evict(Store(DropStale(s, i), want, ttl), max))
  {
    MissIsAt(s, i, want);
    DroppedRemain(s, i);
  }

  lemma {:induction false} StoredIsNewest(d: State, want: Want, ttl: int, max: nat)
    ensures var (s', slot) := (Evict(Store(d, want, ttl), max), Slot(want.key, |d.builds|, want.now + ttl));
            s'.builds == d.builds + [Build(want.key, want.now)] && NewestOf(d.cache + [slot], s'.cache, max)
  {
    EvictIsNewest(Store(d, want, ttl), max);
  }

  lemma {:induction false} AcquireAccounts(s: State, wants: seq<Want>, ttl: int, max: nat)
    requires Inv(s, ttl, max)
    ensures Accounts(Acquire(s, wants, ttl, max).1)
  {
    AcquireKeepsInv(s, wants, ttl, max);
    InvAccounts(Acquire(s, wants, ttl, max).1, ttl, max);
  }

  /**
   * A connecting entry without a fresh slot builds exactly one server, which it gets; the slot it would have
   * used, if it is stale, and the oldest slots beyond the maximum go and are cleaned up.
   */
  lemma {:induction false} MissBuildsOne(calls: seq<Call>, ttl: int, max: nat, want: Want, i: nat)
    returns (rest: seq<Slot>)
    requires want.connects
    ensures var s := Run(calls, ttl, max);
            Misses(s, i, want) ==>
              var (r, s') := Acquire(s, [want], ttl, max);
              && r == Some([|s.builds|]) && s'.builds == s.builds + [Build(want.key, want.now)] && Accounts(s')
              && Remain(s, rest, i)
              && NewestOf(rest + [Slot(want.key, |s.builds|, want.now + ttl)], s'.cache, max)
  {
    var s := Run(calls, ttl, max);
    rest := [];
    RunConserves(calls, ttl, max);
    if Misses(s, i, want) {
      rest := DropStale(s, i).cache;
      DroppedRemain(s, i);
      AcquireOne(s, want, ttl, max);
      MissFetch(s, want, ttl, max, i);
      StoredIsNewest(DropStale(s, i), want, ttl, max);
      AcquireAccounts(s, [want], ttl, max);
    }
  }

  /** One that fails to connect builds nothing: only its stale slot, if there is one, goes and is cleaned up. */
  lemma {:induction false} FailureBuildsNothing(calls: seq<Call>, ttl: int, max: nat, want: Want, i: nat)
    requires !want.connects
    ensures var s := Run(calls, ttl, max);
            Misses(s, i, want) ==>
              var (r, s') := Acquire(s, [want], ttl, max);
              r == None && s'.builds == s.builds && Accounts(s') && Remain(s, s'.cache, i)
  {
    var s := Run(calls, ttl, max);
    RunConserves(calls, ttl, max);
    if Misses(s, i, want) {
      MissIsAt(s, i, want);
      AcquireOne(s, want, ttl, max);
      DroppedRemain(s, i);
      AcquireAccounts(s, [want], ttl, max);
    }
  }

  /** The entries are served one after the other, and none after one that fails. */
  lemma {:induction false} AcquireInTurn(s: State, a: seq<Want>, b: seq<Want>, ttl: int, max: nat)
    ensures var (r, s1) := Acquire(s, a, ttl, max);
            var (r', s2) := Acquire(s1, b, ttl, max);
            Acquire(s, a + b, ttl, max) ==
            if r == None then (None, s1) else (if r' == None then None else Some(r.value + r'.value), s2)
    decreases |a|
  {
    if a == [] {
      assert a + b == b;
      var r' := Acquire(s, b, ttl, max).0;
      assert r'.Some? ==> [] + r'.value == r'.value;
    } else {
      assert (a + b)[0] == a[0] && (a + b)[1..] == a[1..] + b;
      var (first, s1) := Fetch(s, a[0], ttl, max);
      AcquireInTurn(s1, a[1..], b, ttl, max);
      var (r, s2) := Acquire(s1, a[1..], ttl, max);
      if first.Some? && r.Some? && Acquire(s2, b, ttl, max).0.Some? {
        Assoc([first.value], r.value, Acquire(s2, b, ttl, max).0.value);
      }
    }
  }

  /** Closing and invalidating build nothing. */
  lemma {:induction false} OnlyAcquiresBuild(calls: seq<Call>, ttl: int, max: nat, call: Call)
    requires !call.AcquireCall?
    ensures var s := Run(calls, ttl, max);
            Apply(s, call, ttl, max).builds == s.builds && Accounts(Apply(s, call, ttl, max))
  {
    var more := calls + [call];
    assert more[..|more| - 1] == calls;
    RunConserves(more, ttl, max);
    InvAccounts(Run(more, ttl, max), ttl, max);
  }

  // ---------------------------------------------------------------- invalidation

  /** The entry is of another user than the one asked for, or of another server. */
  predicate Spared(slot: Slot, user: Option<string>, slug: Option<string>) {
    (user.Some? && slot.key.user != user.value) || (slug.Some? && slot.key.slug != slug.value)
  }

  /** The spared entries, in the cache's order. */
  function SparedOf(cache: seq<Slot>, user: Option<string>, slug: Option<string>): (r: seq<Slot>) {
    if cache == [] then []
    else
      var last := cache[|cache| - 1];
      SparedOf(cache[..|cache| - 1], user, slug) + if Spared(last, user, slug) then [last] else []
  }

  lemma {:induction false} SelectLast(cache: seq<Slot>, last: Slot, user: Option<string>, slug: Option<string>,
                                      keep: bool)
    ensures Select(cache + [last], user, slug, keep) ==
            Select(cache, user, slug, keep) + if Matches(last.key, user, slug) != keep then [last] else []
  {
    if cache == [] {
      assert cache + [last] == [last] && [last][1..] == [];
    } else {
      var first := if Matches(cache[0].key, user, slug) != keep then [cache[0]] else [];
      var more := if Matches(last.key, user, slug) != keep then [last] else [];
      assert (cache + [last])[1..] == cache[1..] + [last] && (cache + [last])[0] == cache[0];
      SelectLast(cache[1..], last, user, slug, keep);
      Assoc(first, Select(cache[1..], user, slug, keep), more);
    }
  }

  lemma {:induction false} SelectSpares(cache: seq<Slot>, user: Option<string>, slug: Option<string>)
    ensures Select(cache, user, slug, true) == SparedOf(cache, user, slug)
  {
    if cache != [] {
      var (init, last) := (cache[..|cache| - 1], cache[|cache| - 1]);
      SelectSpares(init, user, slug);
      SelectLast(init, last, user, slug, true);
      AppendLast(cache);
    }
  }

  /**
   * Invalidating a user, a server, both or neither leaves the entries of other users and other servers, in order, and
   * cleans the rest up: the servers cleaned are those that left the cache, each once.
   */
  lemma {:induction false} InvalidateSpares(s: State, user: Option<string>, slug: Option<string>)
    ensures var s' := Invalidate(s, user, slug);
            && s'.cache == SparedOf(s.cache, user, slug) && s'.builds == s.builds
            && s'.cleaned + Bag(s'.cache) == s.cleaned + Bag(s.cache)
  {
    SelectSpares(s.cache, user, slug);
    SelectSplits(s.cache, user, slug);
  }
}
