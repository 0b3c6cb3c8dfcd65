/** The MCP connection pool: an LRU cache with expiry that owns live servers. Calls do not overlap. */
module McpPool {
  import opened Options
  import opened Sequences

  /** `_cache_key`: tenant, slug and URL. */
  datatype Key = Key(user: string, slug: string, url: string)

  datatype Slot = Slot(key: Key, server: nat, expiresAt: int)

  /** A connected server is known by its position in the build log. */
  datatype Build = Build(key: Key, at: int)

  /** `cache` is in LRU order, oldest first; `cleaned` counts the cleanup calls per server. */
  datatype State = State(cache: seq<Slot>, builds: seq<Build>, cleaned: multiset<nat>)

  /** One entry of an acquire: its key, the clock reading, and whether decrypt and connect succeed. */
  datatype Want = Want(key: Key, now: int, connects: bool)

  // ---------------------------------------------------------------- the specification

  predicate Cached(cache: seq<Slot>, key: Key) {
    exists i :: 0 <= i < |cache| && cache[i].key == key
  }

  /** Position of `key`, or the length when it is absent. */
  function IndexOf(cache: seq<Slot>, key: Key): (i: nat)
    ensures i <= |cache| && (i < |cache| ==> cache[i].key == key)
    ensures forall j :: 0 <= j < i ==> cache[j].key != key
  {
    if cache == [] || cache[0].key == key then 0 else 1 + IndexOf(cache[1..], key)
  }

  function Without(cache: seq<Slot>, i: nat): (r: seq<Slot>)
    requires i < |cache|
  {
    cache[..i] + cache[i + 1..]
  }

  /** The servers of some entries, as a bag. */
  function Bag(cache: seq<Slot>): (r: multiset<nat>) {
    if cache == [] then multiset{} else multiset{cache[0].server} + Bag(cache[1..])
  }

  /** The `n` oldest entries leave the cache and are cleaned up. */
  function Pop(s: State, n: nat): (r: State)
    requires n <= |s.cache|
  {
    s.(cache := s.cache[n..], cleaned := s.cleaned + Bag(s.cache[..n]))
  }

  /** `_evict_if_full`: the oldest entries beyond the bound are popped and cleaned up. */
  function Evict(s: State, max: nat): (r: State) {
    if |s.cache| <= max then s else Pop(s, |s.cache| - max)
  }

  /** The entry at `i`, if there is one, leaves the cache and is cleaned up. */
  function DropStale(s: State, i: nat): (r: State) {
    if i < |s.cache|
    then s.(cache := Without(s.cache, i), cleaned := s.cleaned + multiset{s.cache[i].server}) else s
  }

  /** A new server enters the cache as the newest entry. */
  function Store(s: State, want: Want, ttl: int): (r: State) {
    State(s.cache + [Slot(want.key, |s.builds|, want.now + ttl)], s.builds + [Build(want.key, want.now)], s.cleaned)
  }

  /** A stale or missing entry: clean up what is there, connect, store, evict. */
  function Rebuild(s: State, want: Want, ttl: int, max: nat): (r: (Option<nat>, State)) {
    var dropped := DropStale(s, IndexOf(s.cache, want.key));
    if !want.connects then (None, dropped)
    else (Some(|s.builds|), Evict(Store(dropped, want, ttl), max))
  }

  function Fetch(s: State, want: Want, ttl: int, max: nat): (r: (Option<nat>, State)) {
    var i := IndexOf(s.cache, want.key);
    if i < |s.cache| && s.cache[i].expiresAt > want.now then
      (Some(s.cache[i].server), s.(cache := Without(s.cache, i) + [s.cache[i]]))
    else Rebuild(s, want, ttl, max)
  }

  /** `acquire`: None when an entry fails to connect. */
  function Acquire(s: State, wants: seq<Want>, ttl: int, max: nat): (r: (Option<seq<nat>>, State))
    decreases |wants|
  {
    if wants == [] then (Some([]), s)
    else
      var (first, s1) := Fetch(s, wants[0], ttl, max);
      if first == None then (None, s1)
      else
        var (rest, s2) := Acquire(s1, wants[1..], ttl, max);
        (if rest == None then None else Some([first.value] + rest.value), s2)
  }

  predicate Matches(key: Key, user: Option<string>, slug: Option<string>) {
    (user == None || key.user == user.value) && (slug == None || key.slug == slug.value)
  }

  function Select(cache: seq<Slot>, user: Option<string>, slug: Option<string>, keep: bool): (r: seq<Slot>) {
    if cache == [] then []
    else (if Matches(cache[0].key, user, slug) != keep then [cache[0]] else []) + Select(cache[1..], user, slug, keep)
  }

  /** `invalidate`: matching entries leave the cache and are cleaned up, the rest keep their order. */
  function Invalidate(s: State, user: Option<string>, slug: Option<string>): (r: State) {
    s.(cache := Select(s.cache, user, slug, true),
       cleaned := s.cleaned + Bag(Select(s.cache, user, slug, false)))
  }

  function Shutdown(s: State): (r: State) {
    s.(cache := [], cleaned := s.cleaned + Bag(s.cache))
  }

  // ---------------------------------------------------------------- the pool

  lemma {:induction false} BagAppend(a: seq<Slot>, b: seq<Slot>)
    ensures Bag(a + b) == Bag(a) + Bag(b)
  {
    if a == [] {
      assert a + b == b;
    } else {
      assert (a + b)[1..] == a[1..] + b;
      BagAppend(a[1..], b);
    }
  }

  lemma BagMore(entries: seq<Slot>, k: nat)
    requires k < |entries|
    ensures Bag(entries[..k + 1]) == Bag(entries[..k]) + multiset{entries[k].server}
  {
    assert entries[..k + 1] == entries[..k] + [entries[k]];
    BagAppend(entries[..k], [entries[k]]);
    BagOne(entries[k]);
  }

  lemma BagOne(x: Slot)
    ensures Bag([x]) == multiset{x.server}
  {
    assert [x][1..] == [];
  }

  lemma {:induction false} SelectAppend(a: seq<Slot>, x: Slot, user: Option<string>, slug: Option<string>, keep: bool)
    ensures Select(a + [x], user, slug, keep) ==
            Select(a, user, slug, keep) + (if Matches(x.key, user, slug) != keep then [x] else [])
  {
    if a == [] {
      assert a + [x] == [x];
    } else {
      assert (a + [x])[1..] == a[1..] + [x] && (a + [x])[0] == a[0];
      SelectAppend(a[1..], x, user, slug, keep);
      var head := if Matches(a[0].key, user, slug) != keep then [a[0]] else [];
      Assoc(head, Select(a[1..], user, slug, keep), if Matches(x.key, user, slug) != keep then [x] else []);
    }
  }

  lemma BagTake(cache: seq<Slot>, n: nat)
    requires 0 < n <= |cache|
    ensures Bag(cache[..n]) == multiset{cache[0].server} + Bag(cache[1..][..n - 1])
  {
    assert cache[..n][1..] == cache[1..][..n - 1] && cache[..n][0] == cache[0];
  }

  lemma AddAssoc(a: multiset<nat>, b: multiset<nat>, c: multiset<nat>)
    ensures (a + b) + c == a + (b + c)
  {
  }

  lemma {:induction false} PopOneMore(s: State, s': State, n: nat)
    requires 0 < n <= |s.cache|
    requires s' == s.(cache := s.cache[1..], cleaned := s.cleaned + multiset{s.cache[0].server})
    ensures Pop(s', n - 1) == Pop(s, n)
  {
    BagTake(s.cache, n);
    AddAssoc(s.cleaned, multiset{s.cache[0].server}, Bag(s'.cache[..n - 1]));
    DropOfTail(s.cache, n);
  }

  lemma PopNone(s: State)
    ensures Pop(s, 0) == s
  {
    assert s.cache[0..] == s.cache && s.cache[..0] == [];
    assert s.cleaned + multiset{} == s.cleaned;
  }

  /** Popping the oldest entry is one turn of the eviction. */
  lemma {:induction false} EvictOldest(s: State, s': State, max: nat)
    requires |s.cache| > max
    requires s' == s.(cache := s.cache[1..], cleaned := s.cleaned + multiset{s.cache[0].server})
    ensures Evict(s', max) == Evict(s, max)
  {
    PopOneMore(s, s', |s.cache| - max);
    PopNone(s');
  }

  class Pool {
    const ttl: int
    const max: nat
    var cache: seq<Slot>
    var builds: seq<Build>
    var cleaned: multiset<nat>

    function Now(): (result: State)
      reads this
    {
      State(cache, builds, cleaned)
    }

    constructor (ttl: int, max: nat)
      ensures this.ttl == ttl && this.max == max && Now() == State([], [], multiset{})
    {
      this.ttl, this.max := ttl, max;
      cache, builds, cleaned := [], [], multiset{};
    }

    method Find(key: Key) returns (i: nat)
      ensures i == IndexOf(cache, key)
    {
      i := 0;
      while i < |cache| && cache[i].key != key
        invariant i <= |cache| && i + IndexOf(cache[i..], key) == IndexOf(cache, key)
      {
        assert cache[i..][1..] == cache[i + 1..];
        i := i + 1;
      }
    }

    method EvictIfFull()
      modifies this`cache, this`cleaned
      ensures Now() == Evict(old(Now()), max)
    {
      while |cache| > max
        invariant Evict(Now(), max) == Evict(old(Now()), max)
      {
        ghost var before := Now();
        var oldest := cache[0];
        cache := cache[1..];
        cleaned := cleaned + multiset{oldest.server};
        EvictOldest(before, Now(), max);
      }
    }

    method GetOrBuild(want: Want) returns (r: Option<nat>)
      modifies this
      ensures (r, Now()) == Fetch(old(Now()), want, ttl, max)
    {
      var i := Find(want.key);
      if i < |cache| && cache[i].expiresAt > want.now {
        r := Some(cache[i].server);
        cache := cache[..i] + cache[i + 1..] + [cache[i]];
        return;
      }
      if i < |cache| {
        cleaned := cleaned + multiset{cache[i].server};
        cache := cache[..i] + cache[i + 1..];
      }
      if !want.connects { return None; }
      r := Some(|builds|);
      cache := cache + [Slot(want.key, |builds|, want.now + ttl)];
      builds := builds + [Build(want.key, want.now)];
      EvictIfFull();
    }

    method AcquireAll(wants: seq<Want>) returns (r: Option<seq<nat>>)
      modifies this
      ensures (r, Now()) == Acquire(old(Now()), wants, ttl, max)
    {
      var out: seq<nat> := [];
      ghost var whole := Acquire(Now(), wants, ttl, max);
      assert wants[0..] == wants;
      assert whole.0.Some? ==> [] + whole.0.value == whole.0.value;
      for k := 0 to |wants|
        invariant var (rest, s) := Acquire(Now(), wants[k..], ttl, max);
                  && whole.1 == s && (rest == None ==> whole.0 == None)
                  && (rest.Some? ==> whole.0 == Some(out + rest.value))
      {
        assert wants[k..][1..] == wants[k + 1..];
        ghost var (rest, s) := Acquire(Now(), wants[k..], ttl, max);
        var server := GetOrBuild(wants[k]);
        if server == None { return None; }
        ghost var before := out;
        out := out + [server.value];
        ghost var (rest', s') := Acquire(Now(), wants[k + 1..], ttl, max);
        if rest'.Some? {
          assert rest.value == [server.value] + rest'.value;
          assert before + ([server.value] + rest'.value) == out + rest'.value;
        }
      }
      assert out + [] == out;
      r := Some(out);
    }

    method Drop(user: Option<string>, slug: Option<string>) returns (n: nat)
      modifies this
      ensures Now() == Invalidate(old(Now()), user, slug) && n == |old(cache)| - |cache|
    {
      var kept, victims: seq<Slot> := [], [];
      for k := 0 to |cache|
        invariant Now() == old(Now()) && |kept| + |victims| == k
        invariant kept == Select(cache[..k], user, slug, true) && victims == Select(cache[..k], user, slug, false)
      {
        assert cache[..k + 1] == cache[..k] + [cache[k]];
        SelectAppend(cache[..k], cache[k], user, slug, true);
        SelectAppend(cache[..k], cache[k], user, slug, false);
        if Matches(cache[k].key, user, slug) {
          victims := victims + [cache[k]];
        } else {
          kept := kept + [cache[k]];
        }
      }
      assert cache[..|cache|] == cache;
      cache := kept;
      CleanUp(victims);
      n := |victims|;
    }

    /** One cleanup call per listed entry. */
    method CleanUp(entries: seq<Slot>)
      modifies this`cleaned
      ensures cleaned == old(cleaned) + Bag(entries)
    {
      for k := 0 to |entries|
        invariant cleaned == old(cleaned) + Bag(entries[..k])
      {
        BagMore(entries, k);
        cleaned := cleaned + multiset{entries[k].server};
      }
      assert entries[..|entries|] == entries;
    }

    method Close()
      modifies this
      ensures Now() == Shutdown(old(Now()))
    {
      var entries := cache;
      cache := [];
      CleanUp(entries);
    }
  }

  // ---------------------------------------------------------------- what every call keeps

  datatype Call =
    | AcquireCall(wants: seq<Want>)
    | InvalidateCall(user: Option<string>, slug: Option<string>)
    | ShutdownCall

  function Apply(s: State, call: Call, ttl: int, max: nat): (r: State) {
    match call
    case AcquireCall(wants) => Acquire(s, wants, ttl, max).1
    case InvalidateCall(user, slug) => Invalidate(s, user, slug)
    case ShutdownCall => Shutdown(s)
  }

  function Run(calls: seq<Call>, ttl: int, max: nat): (r: State) {
    if calls == [] then State([], [], multiset{})
    else Apply(Run(calls[..|calls| - 1], ttl, max), calls[|calls| - 1], ttl, max)
  }

  /** The numbers below `n`, each once. */
  function Below(n: nat): (r: multiset<nat>)
    ensures forall id: nat :: r[id] == if id < n then 1 else 0
  {
    if n == 0 then multiset{} else Below(n - 1) + multiset{n - 1}
  }

  /** Every server built is in the cache or has been cleaned up, and only once. */
  ghost predicate Conserved(s: State) {
    Bag(s.cache) + s.cleaned == Below(|s.builds|)
  }

  ghost predicate DistinctKeys(cache: seq<Slot>) {
    forall i, j :: 0 <= i < j < |cache| ==> cache[i].key != cache[j].key
  }

  predicate SlotFits(builds: seq<Build>, slot: Slot, ttl: int) {
    slot.server < |builds| && builds[slot.server] == Build(slot.key, slot.expiresAt - ttl)
  }

  ghost predicate SlotsFit(builds: seq<Build>, cache: seq<Slot>, ttl: int) {
    forall i :: 0 <= i < |cache| ==> SlotFits(builds, cache[i], ttl)
  }

  ghost predicate Inv(s: State, ttl: int, max: nat) {
    |s.cache| <= max && DistinctKeys(s.cache) && Conserved(s) && SlotsFit(s.builds, s.cache, ttl)
  }

  lemma {:induction false} BagAround(a: seq<Slot>, x: Slot, b: seq<Slot>)
    ensures Bag(a + ([x] + b)) == Bag(a + b) + multiset{x.server}
  {
    BagAppend(a, [x] + b);
    BagAppend([x], b);
    BagOne(x);
    BagAppend(a, b);
    assert Bag(a) + (multiset{x.server} + Bag(b)) == Bag(a) + Bag(b) + multiset{x.server};
  }

  lemma {:induction false} BagWithout(cache: seq<Slot>, i: nat)
    requires i < |cache|
    ensures Bag(cache) == Bag(Without(cache, i)) + multiset{cache[i].server}
  {
    CutAround(cache, i);
    BagAround(cache[..i], cache[i], cache[i + 1..]);
  }

  lemma WithoutKeepsRest(cache: seq<Slot>, i: nat, builds: seq<Build>, ttl: int)
    requires i < |cache| && DistinctKeys(cache) && SlotsFit(builds, cache, ttl)
    ensures DistinctKeys(Without(cache, i)) && SlotsFit(builds, Without(cache, i), ttl)
    ensures !Cached(Without(cache, i), cache[i].key)
  {
    var r := Without(cache, i);
    assert forall k :: 0 <= k < |r| ==> r[k] == if k < i then cache[k] else cache[k + 1];
  }

  lemma DropStaleKeeps(s: State, key: Key, ttl: int, max: nat)
    requires Inv(s, ttl, max)
    ensures var s' := DropStale(s, IndexOf(s.cache, key)); Inv(s', ttl, max) && !Cached(s'.cache, key)
  {
    var i := IndexOf(s.cache, key);
    if i < |s.cache| {
      BagWithout(s.cache, i);
      WithoutKeepsRest(s.cache, i, s.builds, ttl);
    }
  }

  lemma PopConserves(s: State, n: nat)
    requires Conserved(s) && n <= |s.cache|
    ensures Conserved(Pop(s, n))
  {
    assert s.cache == s.cache[..n] + s.cache[n..];
    BagAppend(s.cache[..n], s.cache[n..]);
  }

  lemma SuffixKeeps(cache: seq<Slot>, n: nat, builds: seq<Build>, ttl: int)
    requires n <= |cache| && DistinctKeys(cache) && SlotsFit(builds, cache, ttl)
    ensures DistinctKeys(cache[n..]) && SlotsFit(builds, cache[n..], ttl)
  {
  }

  lemma EvictKeeps(s: State, ttl: int, max: nat)
    requires DistinctKeys(s.cache) && Conserved(s) && SlotsFit(s.builds, s.cache, ttl)
    ensures Inv(Evict(s, max), ttl, max)
  {
    if |s.cache| > max {
      var n := |s.cache| - max;
      PopConserves(s, n);
      SuffixKeeps(s.cache, n, s.builds, ttl);
    }
  }

  lemma OneMore(bag: multiset<nat>, cleaned: multiset<nat>, n: nat)
    requires bag + cleaned == Below(n)
    ensures bag + multiset{n} + cleaned == Below(n + 1)
  {
    assert Below(n + 1) == Below(n) + multiset{n};
  }

  lemma BagPush(cache: seq<Slot>, slot: Slot)
    ensures Bag(cache + [slot]) == Bag(cache) + multiset{slot.server}
  {
    BagAppend(cache, [slot]);
    BagOne(slot);
  }

  lemma StoreConserves(s: State, want: Want, ttl: int)
    requires Conserved(s)
    ensures Conserved(Store(s, want, ttl))
  {
    var (s', slot) := (Store(s, want, ttl), Slot(want.key, |s.builds|, want.now + ttl));
    BagPush(s.cache, slot);
    OneMore(Bag(s.cache), s.cleaned, |s.builds|);
    assert s'.cache == s.cache + [slot] && |s'.builds| == |s.builds| + 1 && s'.cleaned == s.cleaned;
  }

  lemma StoreKeeps(s: State, want: Want, ttl: int, max: nat)
    requires Inv(s, ttl, max) && !Cached(s.cache, want.key)
    ensures var s' := Store(s, want, ttl); DistinctKeys(s'.cache) && Conserved(s') && SlotsFit(s'.builds, s'.cache, ttl)
  {
    StoreConserves(s, want, ttl);
    var s' := Store(s, want, ttl);
    forall i | 0 <= i < |s'.cache| ensures SlotFits(s'.builds, s'.cache[i], ttl) {
      assert i < |s.cache| ==> SlotFits(s.builds, s.cache[i], ttl);
    }
  }

  /** Moving an entry to the newest end. */
  lemma HitKeepsInv(s: State, i: nat, ttl: int, max: nat)
    requires Inv(s, ttl, max) && i < |s.cache|
    ensures Inv(s.(cache := Without(s.cache, i) + [s.cache[i]]), ttl, max)
  {
    var rest, x := Without(s.cache, i), s.cache[i];
    BagWithout(s.cache, i);
    BagAppend(rest, [x]);
    BagOne(x);
    WithoutKeepsRest(s.cache, i, s.builds, ttl);
    assert SlotFits(s.builds, x, ttl);
  }

  lemma FetchKeepsInv(s: State, want: Want, ttl: int, max: nat)
    requires Inv(s, ttl, max)
    ensures Inv(Fetch(s, want, ttl, max).1, ttl, max)
  {
    var i := IndexOf(s.cache, want.key);
    if i < |s.cache| && s.cache[i].expiresAt > want.now {
      HitKeepsInv(s, i, ttl, max);
    } else {
      DropStaleKeeps(s, want.key, ttl, max);
      if want.connects {
        var dropped := DropStale(s, i);
        StoreKeeps(dropped, want, ttl, max);
        EvictKeeps(Store(dropped, want, ttl), ttl, max);
      }
    }
  }

  lemma {:induction false} AcquireKeepsInv(s: State, wants: seq<Want>, ttl: int, max: nat)
    requires Inv(s, ttl, max)
    ensures Inv(Acquire(s, wants, ttl, max).1, ttl, max)
    decreases |wants|
  {
    if wants != [] {
      FetchKeepsInv(s, wants[0], ttl, max);
      var (first, s1) := Fetch(s, wants[0], ttl, max);
      if first.Some? { AcquireKeepsInv(s1, wants[1..], ttl, max); }
    }
  }

  lemma BagCons(x: Slot, rest: seq<Slot>)
    ensures Bag([x] + rest) == multiset{x.server} + Bag(rest)
  {
    assert ([x] + rest)[1..] == rest;
  }

  lemma {:induction false} SelectSplits(cache: seq<Slot>, user: Option<string>, slug: Option<string>)
    ensures Bag(cache) == Bag(Select(cache, user, slug, true)) + Bag(Select(cache, user, slug, false))
    ensures |cache| == |Select(cache, user, slug, true)| + |Select(cache, user, slug, false)|
  {
    if cache != [] {
      var x := cache[0];
      var kept, gone := Select(cache[1..], user, slug, true), Select(cache[1..], user, slug, false);
      SelectSplits(cache[1..], user, slug);
      BagCons(x, kept);
      BagCons(x, gone);
      var kept', gone' := Select(cache, user, slug, true), Select(cache, user, slug, false);
      if Matches(x.key, user, slug) {
        assert kept' == kept && gone' == [x] + gone;
      } else {
        assert kept' == [x] + kept && gone' == gone;
      }
      assert Bag(kept') + Bag(gone') == multiset{x.server} + (Bag(kept) + Bag(gone));
    }
  }

  /** `Select` keeps exactly the entries it should. */
  lemma {:induction false} SelectIsFilter(cache: seq<Slot>, user: Option<string>, slug: Option<string>, keep: bool,
                                                 x: Slot)
    ensures x in Select(cache, user, slug, keep) <==> x in cache && Matches(x.key, user, slug) != keep
  {
    if cache != [] {
      SelectIsFilter(cache[1..], user, slug, keep, x);
      assert cache == [cache[0]] + cache[1..];
    }
  }

  lemma {:induction false} SelectDistinct(cache: seq<Slot>, user: Option<string>, slug: Option<string>, keep: bool)
    requires DistinctKeys(cache)
    ensures DistinctKeys(Select(cache, user, slug, keep))
  {
    if cache != [] {
      var rest := Select(cache[1..], user, slug, keep);
      SelectDistinct(cache[1..], user, slug, keep);
      forall j | 0 <= j < |rest| ensures rest[j].key != cache[0].key {
        SelectIsFilter(cache[1..], user, slug, keep, rest[j]);
        assert rest[j] in rest;
      }
    }
  }

  lemma InvalidateKeepsInv(s: State, user: Option<string>, slug: Option<string>, ttl: int, max: nat)
    requires Inv(s, ttl, max)
    ensures Inv(Invalidate(s, user, slug), ttl, max)
  {
    SelectSplits(s.cache, user, slug);
    SelectDistinct(s.cache, user, slug, true);
    var kept := Select(s.cache, user, slug, true);
    forall i | 0 <= i < |kept| ensures SlotFits(s.builds, kept[i], ttl) {
      assert kept[i] in kept;
      SelectIsFilter(s.cache, user, slug, true, kept[i]);
    }
  }

  /**
   * After any calls the cache is within its bound and every server ever built is either cached under one key
   * or has been cleaned up exactly once.
   */
  lemma {:induction false} RunConserves(calls: seq<Call>, ttl: int, max: nat)
    ensures Inv(Run(calls, ttl, max), ttl, max)
  {
    if calls != [] {
      var s := Run(calls[..|calls| - 1], ttl, max);
      RunConserves(calls[..|calls| - 1], ttl, max);
      match calls[|calls| - 1]
      case AcquireCall(wants) => AcquireKeepsInv(s, wants, ttl, max);
      case InvalidateCall(user, slug) => InvalidateKeepsInv(s, user, slug, ttl, max);
      case ShutdownCall =>
    }
  }

  /** After `shutdown` nothing is cached and every server ever built has been cleaned up exactly once. */
  lemma {:induction false} ShutdownCleansAll(calls: seq<Call>, ttl: int, max: nat)
    ensures var s := Shutdown(Run(calls, ttl, max));
            s.cache == [] && forall id: nat :: s.cleaned[id] == if id < |s.builds| then 1 else 0
  {
    RunConserves(calls, ttl, max);
    var s := Run(calls, ttl, max);
    assert Shutdown(s).cleaned == Below(|s.builds|);
  }

  // ---------------------------------------------------------------- what an acquire returns

  /** Server `id` is one built for this key, and unexpired at `now` when the time to live is positive. */
  predicate Serves(builds: seq<Build>, id: nat, want: Want, ttl: int) {
    id < |builds| && builds[id].key == want.key && (ttl > 0 ==> want.now < builds[id].at + ttl)
  }

  lemma FetchServes(s: State, want: Want, ttl: int, max: nat)
    requires Inv(s, ttl, max)
    ensures var (r, s') := Fetch(s, want, ttl, max);
            s.builds <= s'.builds && (r.Some? ==> Serves(s'.builds, r.value, want, ttl))
  {
    var i := IndexOf(s.cache, want.key);
    if i < |s.cache| { assert SlotFits(s.builds, s.cache[i], ttl); }
  }

  /** A server that serves the first entry still does when the rest are served from a longer build log. */
  lemma ServedOneMore(before: seq<Build>, after: seq<Build>, first: nat, rest: seq<nat>, wants: seq<Want>, ttl: int)
    requires wants != [] && |rest| == |wants| - 1 && before <= after && Serves(before, first, wants[0], ttl)
    requires forall k :: 0 <= k < |rest| ==> Serves(after, rest[k], wants[1..][k], ttl)
    ensures forall k :: 0 <= k < |wants| ==> Serves(after, ([first] + rest)[k], wants[k], ttl)
  {
    forall k | 0 <= k < |wants| ensures Serves(after, ([first] + rest)[k], wants[k], ttl) {
      if k > 0 { assert wants[1..][k - 1] == wants[k] && Serves(after, rest[k - 1], wants[1..][k - 1], ttl); }
    }
  }

  /** No tenant, slug or URL ever gets a server built for another, nor one that had expired when fetched. */
  lemma {:induction false} AcquireServes(s: State, wants: seq<Want>, ttl: int, max: nat)
    requires Inv(s, ttl, max)
    ensures var (r, s') := Acquire(s, wants, ttl, max);
            && s.builds <= s'.builds
            && (r.Some? ==>
                  |r.value| == |wants| && forall k :: 0 <= k < |wants| ==> Serves(s'.builds, r.value[k], wants[k], ttl))
    decreases |wants|
  {
    if wants != [] {
      FetchServes(s, wants[0], ttl, max);
      FetchKeepsInv(s, wants[0], ttl, max);
      var (first, s1) := Fetch(s, wants[0], ttl, max);
      if first.Some? {
        AcquireServes(s1, wants[1..], ttl, max);
        var (rest, s') := Acquire(s1, wants[1..], ttl, max);
        if rest.Some? { ServedOneMore(s1.builds, s'.builds, first.value, rest.value, wants, ttl); }
      }
    }
  }

  ghost predicate DistinctWants(wants: seq<Want>) {
    forall i, j :: 0 <= i < j < |wants| ==> wants[i].key != wants[j].key
  }

  /** `cache` ends with exactly these entries. */
  ghost predicate EndsWith(cache: seq<Slot>, tail: seq<Slot>) {
    |tail| <= |cache| && cache[|cache| - |tail|..] == tail
  }

  /** Dropping an entry older than the tail leaves the tail. */
  lemma WithoutBeforeTail(cache: seq<Slot>, i: nat, tail: seq<Slot>)
    requires EndsWith(cache, tail) && i < |cache| && !Cached(tail, cache[i].key)
    ensures EndsWith(Without(cache, i), tail)
  {
    var n := |cache| - |tail|;
    forall j | n <= j < |cache| ensures cache[j].key != cache[i].key { assert tail[j - n] == cache[j]; }
    assert Without(cache, i) == cache[..i] + cache[i + 1..n] + cache[n..];
  }

  lemma EvictBeforeTail(s: State, max: nat, tail: seq<Slot>)
    requires EndsWith(s.cache, tail) && |tail| <= max
    ensures EndsWith(Evict(s, max).cache, tail)
  {
    var n := |s.cache| - max;
    if n > 0 { assert s.cache[n..][max - |tail|..] == s.cache[|s.cache| - |tail|..]; }
  }

  lemma EndsWithOneMore(cache: seq<Slot>, tail: seq<Slot>, last: Slot)
    requires EndsWith(cache, tail)
    ensures EndsWith(cache + [last], tail + [last])
  {
    var n := |cache| - |tail|;
    assert (cache + [last])[n..] == cache[n..] + [last];
  }

  lemma HitExtendsTail(cache: seq<Slot>, i: nat, tail: seq<Slot>)
    requires EndsWith(cache, tail) && i < |cache| && !Cached(tail, cache[i].key)
    ensures EndsWith(Without(cache, i) + [cache[i]], tail + [cache[i]])
  {
    WithoutBeforeTail(cache, i, tail);
    EndsWithOneMore(Without(cache, i), tail, cache[i]);
  }

  lemma DropStaleBeforeTail(s: State, i: nat, tail: seq<Slot>)
    requires EndsWith(s.cache, tail) && i <= |s.cache| && (i < |s.cache| ==> !Cached(tail, s.cache[i].key))
    ensures EndsWith(DropStale(s, i).cache, tail)
  {
    if i < |s.cache| { WithoutBeforeTail(s.cache, i, tail); }
  }

  lemma StoreExtendsTail(s: State, want: Want, ttl: int, max: nat, tail: seq<Slot>)
    requires EndsWith(s.cache, tail) && |tail| < max
    ensures EndsWith(Evict(Store(s, want, ttl), max).cache, tail + [Slot(want.key, |s.builds|, want.now + ttl)])
  {
    var last := Slot(want.key, |s.builds|, want.now + ttl);
    EndsWithOneMore(s.cache, tail, last);
    EvictBeforeTail(Store(s, want, ttl), max, tail + [last]);
  }

  /** A fetch that connects puts its entry behind the entries of the fetches before it. */
  lemma FetchExtendsTail(s: State, want: Want, ttl: int, max: nat, tail: seq<Slot>) returns (last: Slot)
    requires EndsWith(s.cache, tail) && |tail| < max && want.connects && !Cached(tail, want.key)
    ensures var (r, s') := Fetch(s, want, ttl, max);
            r == Some(last.server) && last.key == want.key && EndsWith(s'.cache, tail + [last])
  {
    var i := IndexOf(s.cache, want.key);
    if i < |s.cache| && s.cache[i].expiresAt > want.now {
      last := s.cache[i];
      HitExtendsTail(s.cache, i, tail);
    } else {
      last := Slot(want.key, |s.builds|, want.now + ttl);
      DropStaleBeforeTail(s, i, tail);
      StoreExtendsTail(DropStale(s, i), want, ttl, max, tail);
    }
  }

  lemma SameServers(last: Slot, more: seq<Slot>, rest: seq<nat>)
    requires |more| == |rest| && forall k :: 0 <= k < |more| ==> more[k].server == rest[k]
    ensures forall k :: 0 <= k < |[last] + more| ==> ([last] + more)[k].server == ([last.server] + rest)[k]
  {
  }

  lemma CachedOneMore(tail: seq<Slot>, last: Slot, key: Key)
    ensures Cached(tail + [last], key) ==> Cached(tail, key) || last.key == key
  {
  }

  lemma OtherWants(wants: seq<Want>, tail: seq<Slot>, last: Slot)
    requires wants != [] && DistinctWants(wants) && last.key == wants[0].key
    requires forall k :: 0 <= k < |wants| ==> wants[k].connects && !Cached(tail, wants[k].key)
    ensures DistinctWants(wants[1..])
    ensures forall k :: 0 <= k < |wants[1..]| ==> wants[1..][k].connects && !Cached(tail + [last], wants[1..][k].key)
  {
    forall k | 0 <= k < |wants[1..]| ensures wants[1..][k].connects && !Cached(tail + [last], wants[1..][k].key) {
      assert wants[1..][k] == wants[k + 1];
      CachedOneMore(tail, last, wants[k + 1].key);
    }
  }

  /** The servers of an acquire of distinct keys that fits the cache end up as its newest entries, in order. */
  lemma {:induction false} AcquireFillsTail(s: State, wants: seq<Want>, ttl: int, max: nat, tail: seq<Slot>)
    returns (more: seq<Slot>)
    requires EndsWith(s.cache, tail) && |tail| + |wants| <= max && DistinctWants(wants)
    requires forall k :: 0 <= k < |wants| ==> wants[k].connects && !Cached(tail, wants[k].key)
    ensures var (r, s') := Acquire(s, wants, ttl, max);
            && r.Some? && EndsWith(s'.cache, tail + more) && |more| == |r.value|
            && forall k :: 0 <= k < |more| ==> more[k].server == r.value[k]
    decreases |wants|
  {
    if wants == [] {
      more := [];
      assert tail + more == tail;
    } else {
      var last := FetchExtendsTail(s, wants[0], ttl, max, tail);
      OtherWants(wants, tail, last);
      var fetched := Fetch(s, wants[0], ttl, max).1;
      var behind := AcquireFillsTail(fetched, wants[1..], ttl, max, tail + [last]);
      var (rest, s') := Acquire(fetched, wants[1..], ttl, max);
      assert Acquire(s, wants, ttl, max) == (Some([last.server] + rest.value), s');
      Assoc(tail, [last], behind);
      SameServers(last, behind, rest.value);
      more := [last] + behind;
    }
  }

  /** Some entry holds server `id`. */
  predicate Holds(cache: seq<Slot>, id: nat) {
    exists i :: 0 <= i < |cache| && cache[i].server == id
  }

  lemma {:induction false} InBag(cache: seq<Slot>, id: nat)
    ensures id in Bag(cache) <==> Holds(cache, id)
  {
    if cache != [] {
      InBag(cache[1..], id);
      assert id in Bag(cache) <==> id == cache[0].server || id in Bag(cache[1..]);
      if id in Bag(cache[1..]) {
        var i :| 0 <= i < |cache[1..]| && cache[1..][i].server == id;
        assert cache[i + 1].server == id;
      }
      if i :| 0 <= i < |cache| && cache[i].server == id {
        assert i > 0 ==> cache[1..][i - 1].server == id;
      }
    }
  }

  lemma LiveIffCached(s: State, ttl: int, max: nat, id: nat)
    requires Inv(s, ttl, max) && id < |s.builds|
    ensures id !in s.cleaned <==> Holds(s.cache, id)
  {
    InBag(s.cache, id);
    assert (Bag(s.cache) + s.cleaned)[id] == 1;
  }

  lemma {:induction false} DistinctFit(ids: seq<nat>, cache: seq<Slot>)
    requires forall i, j :: 0 <= i < j < |ids| ==> ids[i] != ids[j]
    requires forall k :: 0 <= k < |ids| ==> Holds(cache, ids[k])
    ensures |ids| <= |cache|
  {
    if ids != [] {
      var at :| 0 <= at < |cache| && cache[at].server == ids[0];
      var rest := Without(cache, at);
      forall k | 0 <= k < |ids[1..]| ensures Holds(rest, ids[1..][k]) {
        assert ids[1..][k] == ids[k + 1] && ids[0] != ids[k + 1];
        var i :| 0 <= i < |cache| && cache[i].server == ids[k + 1];
        assert rest[if i < at then i else i - 1].server == ids[k + 1];
      }
      DistinctFit(ids[1..], rest);
    }
  }

  lemma {:induction false} AcquireSucceeds(s: State, wants: seq<Want>, ttl: int, max: nat)
    requires forall k :: 0 <= k < |wants| ==> wants[k].connects
    ensures Acquire(s, wants, ttl, max).0.Some?
    decreases |wants|
  {
    if wants != [] { AcquireSucceeds(Fetch(s, wants[0], ttl, max).1, wants[1..], ttl, max); }
  }

  lemma FittingAcquireFillsTail(s: State, wants: seq<Want>, ttl: int, max: nat) returns (more: seq<Slot>)
    requires |wants| <= max && DistinctWants(wants) && forall k :: 0 <= k < |wants| ==> wants[k].connects
    ensures var (r, s') := Acquire(s, wants, ttl, max);
            && r.Some? && EndsWith(s'.cache, more) && |more| == |r.value|
            && forall k :: 0 <= k < |more| ==> more[k].server == r.value[k]
  {
    assert s.cache[|s.cache|..] == [];
    more := AcquireFillsTail(s, wants, ttl, max, []);
    assert [] + more == more;
  }

  lemma {:induction false} FittingAcquireIsLive(s: State, wants: seq<Want>, ttl: int, max: nat)
    requires Inv(s, ttl, max) && DistinctWants(wants) && forall k :: 0 <= k < |wants| ==> wants[k].connects
    requires |wants| <= max && Acquire(s, wants, ttl, max).0.Some?
    ensures var (r, s') := Acquire(s, wants, ttl, max);
            forall k :: 0 <= k < |r.value| ==> r.value[k] !in s'.cleaned
  {
    var (r, s') := Acquire(s, wants, ttl, max);
    AcquireKeepsInv(s, wants, ttl, max);
    AcquireServes(s, wants, ttl, max);
    var more := FittingAcquireFillsTail(s, wants, ttl, max);
    forall k | 0 <= k < |r.value| ensures r.value[k] !in s'.cleaned {
      assert s'.cache[|s'.cache| - |more| + k] == more[k];
      assert Serves(s'.builds, r.value[k], wants[k], ttl);
      LiveIffCached(s', ttl, max, r.value[k]);
    }
  }

  lemma {:induction false} LiveAcquireFits(s: State, wants: seq<Want>, ttl: int, max: nat)
    requires Inv(s, ttl, max) && DistinctWants(wants) && Acquire(s, wants, ttl, max).0.Some?
    requires var (r, s') := Acquire(s, wants, ttl, max);
             forall k :: 0 <= k < |r.value| ==> r.value[k] !in s'.cleaned
    ensures |wants| <= max
  {
    var (r, s') := Acquire(s, wants, ttl, max);
    AcquireKeepsInv(s, wants, ttl, max);
    AcquireServes(s, wants, ttl, max);
    var ids := r.value;
    forall k | 0 <= k < |ids| ensures Holds(s'.cache, ids[k]) {
      assert Serves(s'.builds, ids[k], wants[k], ttl);
      LiveIffCached(s', ttl, max, ids[k]);
    }
    forall i, j | 0 <= i < j < |ids| ensures ids[i] != ids[j] {
      assert Serves(s'.builds, ids[i], wants[i], ttl) && Serves(s'.builds, ids[j], wants[j], ttl);
    }
    DistinctFit(ids, s'.cache);
  }

  /**
   * An acquire of distinct keys that all connect returns only live servers exactly when the keys fit the
   * cache; one key more and some server it returns has already been cleaned up.
   */
  lemma {:induction false} AcquireReturnsLiveIffFits(calls: seq<Call>, wants: seq<Want>, ttl: int, max: nat)
    requires DistinctWants(wants) && forall k :: 0 <= k < |wants| ==> wants[k].connects
    ensures var (r, s') := Acquire(Run(calls, ttl, max), wants, ttl, max);
            r.Some? && ((forall k :: 0 <= k < |r.value| ==> r.value[k] !in s'.cleaned) <==> |wants| <= max)
  {
    var s := Run(calls, ttl, max);
    RunConserves(calls, ttl, max);
    AcquireSucceeds(s, wants, ttl, max);
    var (r, s') := Acquire(s, wants, ttl, max);
    if |wants| <= max {
      FittingAcquireIsLive(s, wants, ttl, max);
    } else if forall k :: 0 <= k < |r.value| ==> r.value[k] !in s'.cleaned {
      LiveAcquireFits(s, wants, ttl, max);
    }
  }

  /** `invalidate` evicts exactly the matching entries and cleans each of them up. */
  lemma InvalidateIsExact(s: State, user: Option<string>, slug: Option<string>, x: Slot)
    ensures var s' := Invalidate(s, user, slug);
            && (x in s'.cache <==> x in s.cache && !Matches(x.key, user, slug))
            && (x in s.cache && Matches(x.key, user, slug) ==> x.server in s'.cleaned)
            && |s'.cleaned| - |s.cleaned| == |s.cache| - |s'.cache|
  {
    SelectIsFilter(s.cache, user, slug, true, x);
    SelectIsFilter(s.cache, user, slug, false, x);
    SelectSplits(s.cache, user, slug);
    var gone := Select(s.cache, user, slug, false);
    BagSize(gone);
    InBag(gone, x.server);
  }

  lemma {:induction false} BagSize(cache: seq<Slot>)
    ensures |Bag(cache)| == |cache|
  {
    if cache != [] { BagSize(cache[1..]); }
  }
}
