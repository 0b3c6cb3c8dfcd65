/** `list_effective`: bundled, official and user rows merged into one list, in three repositories. */
module Layered {
  import opened Options
  import opened Sorting
  import opened Text

  /** A current row of any tier; `content` is everything the merge only copies. */
  datatype Row = Row(slug: string, mandatory: bool, enabled: bool, priority: int, content: string)

  datatype Tier = Bundled | Official | User

  datatype Resolved = Resolved(slug: string, tier: Tier, content: string, priority: int, enabled: bool, mandatory: bool)

  // ---------------------------------------------------------------- a dict keyed by slug

  /** `merged[r.slug] = r` on a Python dict: in place if the key is there, else at the end. */
  function Put(merged: seq<Resolved>, r: Resolved): (result: seq<Resolved>) {
    if merged == [] then [r]
    else if merged[0].slug == r.slug then [r] + merged[1..]
    else [merged[0]] + Put(merged[1..], r)
  }

  function Get(merged: seq<Resolved>, slug: string): (r: Option<Resolved>) {
    if merged == [] then None else if merged[0].slug == slug then Some(merged[0]) else Get(merged[1..], slug)
  }

  /** One pass: every row that `keep` accepts is put, resolved by `make`. */
  function PutAll(merged: seq<Resolved>, rows: seq<Row>, keep: Row -> bool, make: Row -> Resolved): (r: seq<Resolved>) {
    if rows == [] then merged
    else
      var n := |rows| - 1;
      var before := PutAll(merged, rows[..n], keep, make);
      if keep(rows[n]) then Put(before, make(rows[n])) else before
  }

  // ---------------------------------------------------------------- the tiers

  function Always(): (result: Row -> bool) { (r: Row) => true }

  function NotOptedOut(optOuts: set<string>): (result: Row -> bool) { (r: Row) => r.mandatory || r.slug !in optOuts }

  function EnabledNotOptedOut(optOuts: set<string>): (result: Row -> bool) {
    (r: Row) => r.enabled && (r.mandatory || r.slug !in optOuts)
  }

  function NotShadowed(mandatory: set<string>): (result: Row -> bool) { (r: Row) => r.slug !in mandatory }

  function EnabledNotShadowed(mandatory: set<string>): (result: Row -> bool) {
    (r: Row) => r.enabled && r.slug !in mandatory
  }

  function MandatorySlugs(officials: seq<Row>): (r: set<string>) {
    set i | 0 <= i < |officials| && officials[i].mandatory :: officials[i].slug
  }

  /** Bundled skills are always enabled by default and never mandatory. */
  function OfBundledSkill(r: Row): (result: Resolved) { Resolved(r.slug, Bundled, r.content, 0, true, false) }

  function OfBundledInstruction(r: Row): (result: Resolved) {
    Resolved(r.slug, Bundled, r.content, r.priority, r.enabled, r.mandatory)
  }

  function OfOfficial(r: Row): (result: Resolved) {
    Resolved(r.slug, Official, r.content, r.priority, r.enabled, r.mandatory)
  }

  function OfUser(r: Row): (result: Resolved) { Resolved(r.slug, User, r.content, r.priority, r.enabled, false) }

  predicate SlugLeq(a: Resolved, b: Resolved) { StrLeq(a.slug, b.slug) }

  predicate PriorityLeq(a: Resolved, b: Resolved) {
    a.priority < b.priority || (a.priority == b.priority && StrLeq(a.slug, b.slug))
  }

  // ---------------------------------------------------------------- the three methods

  method Position(merged: seq<Resolved>, slug: string) returns (i: nat)
    ensures i <= |merged| && (i < |merged| ==> merged[i].slug == slug)
    ensures forall k :: 0 <= k < i ==> merged[k].slug != slug
  {
    i := 0;
    while i < |merged| && merged[i].slug != slug
      invariant i <= |merged| && forall k :: 0 <= k < i ==> merged[k].slug != slug
    {
      i := i + 1;
    }
  }

  lemma {:induction false} PutAt(merged: seq<Resolved>, r: Resolved, i: nat)
    requires i <= |merged| && (i < |merged| ==> merged[i].slug == r.slug)
    requires forall k :: 0 <= k < i ==> merged[k].slug != r.slug
    ensures Put(merged, r) == if i < |merged| then merged[i := r] else merged + [r]
  {
    if merged != [] && i > 0 {
      PutAt(merged[1..], r, i - 1);
      assert merged == [merged[0]] + merged[1..];
    }
  }

  method Assign(merged: seq<Resolved>, r: Resolved) returns (m: seq<Resolved>)
    ensures m == Put(merged, r)
  {
    var i := Position(merged, r.slug);
    PutAt(merged, r, i);
    m := if i < |merged| then merged[i := r] else merged + [r];
  }

  method ListEffectiveSkills(bundled: seq<Row>, officials: seq<Row>, users: seq<Row>, optOuts: set<string>)
    returns (out: seq<Resolved>)
    ensures out == Sort(SkillMerge(bundled, officials, users, optOuts), SlugLeq)
  {
    var mandatory := MandatorySlugs(officials);
    var merged: seq<Resolved> := [];
    for i := 0 to |bundled|
      invariant merged == PutAll([], bundled[..i], Always(), OfBundledSkill)
    {
      assert bundled[..i + 1][..i] == bundled[..i];
      merged := Assign(merged, OfBundledSkill(bundled[i]));
    }
    assert bundled[..|bundled|] == bundled;
    var base := merged;
    for i := 0 to |officials|
      invariant merged == PutAll(base, officials[..i], NotOptedOut(optOuts), OfOfficial)
    {
      assert officials[..i + 1][..i] == officials[..i];
      if !officials[i].mandatory && officials[i].slug in optOuts { continue; }
      merged := Assign(merged, OfOfficial(officials[i]));
    }
    assert officials[..|officials|] == officials;
    base := merged;
    for i := 0 to |users|
      invariant merged == PutAll(base, users[..i], NotShadowed(mandatory), OfUser)
    {
      assert users[..i + 1][..i] == users[..i];
      if users[i].slug in mandatory { continue; }
      merged := Assign(merged, OfUser(users[i]));
    }
    assert users[..|users|] == users;
    out := Sort(merged, SlugLeq);
  }

  method ListEffectiveInstructions(bundled: seq<Row>, officials: seq<Row>, users: seq<Row>, optOuts: set<string>)
    returns (out: seq<Resolved>)
    ensures out == Sort(InstructionMerge(bundled, officials, users, optOuts), PriorityLeq)
  {
    var mandatory := MandatorySlugs(officials);
    var merged: seq<Resolved> := [];
    for i := 0 to |bundled|
      invariant merged == PutAll([], bundled[..i], Always(), OfBundledInstruction)
    {
      assert bundled[..i + 1][..i] == bundled[..i];
      merged := Assign(merged, OfBundledInstruction(bundled[i]));
    }
    assert bundled[..|bundled|] == bundled;
    var base := merged;
    for i := 0 to |officials|
      invariant merged == PutAll(base, officials[..i], NotOptedOut(optOuts), OfOfficial)
    {
      assert officials[..i + 1][..i] == officials[..i];
      if !officials[i].mandatory && officials[i].slug in optOuts { continue; }
      merged := Assign(merged, OfOfficial(officials[i]));
    }
    assert officials[..|officials|] == officials;
    base := merged;
    for i := 0 to |users|
      invariant merged == PutAll(base, users[..i], NotShadowed(mandatory), OfUser)
    {
      assert users[..i + 1][..i] == users[..i];
      if users[i].slug in mandatory { continue; }
      merged := Assign(merged, OfUser(users[i]));
    }
    assert users[..|users|] == users;
    out := Sort(merged, PriorityLeq);
  }

  method ListEffectiveMcp(officials: seq<Row>, users: seq<Row>, optOuts: set<string>) returns (out: seq<Resolved>)
    ensures out == Sort(McpMerge(officials, users, optOuts), SlugLeq)
  {
    var mandatory := MandatorySlugs(officials);
    var merged: seq<Resolved> := [];
    for i := 0 to |officials|
      invariant merged == PutAll([], officials[..i], EnabledNotOptedOut(optOuts), OfOfficial)
    {
      assert officials[..i + 1][..i] == officials[..i];
      if !officials[i].enabled { continue; }
      if !officials[i].mandatory && officials[i].slug in optOuts { continue; }
      merged := Assign(merged, OfOfficial(officials[i]));
    }
    assert officials[..|officials|] == officials;
    var base := merged;
    for i := 0 to |users|
      invariant merged == PutAll(base, users[..i], EnabledNotShadowed(mandatory), OfUser)
    {
      assert users[..i + 1][..i] == users[..i];
      if !users[i].enabled { continue; }
      if users[i].slug in mandatory { continue; }
      merged := Assign(merged, OfUser(users[i]));
    }
    assert users[..|users|] == users;
    out := Sort(merged, SlugLeq);
  }

  function SkillMerge(bundled: seq<Row>, officials: seq<Row>, users: seq<Row>, optOuts: set<string>)
    : (r: seq<Resolved>)
  {
    PutAll(PutAll(PutAll([], bundled, Always(), OfBundledSkill), officials, NotOptedOut(optOuts), OfOfficial),
           users, NotShadowed(MandatorySlugs(officials)), OfUser)
  }

  function InstructionMerge(bundled: seq<Row>, officials: seq<Row>, users: seq<Row>, optOuts: set<string>)
    : (r: seq<Resolved>)
  {
    PutAll(PutAll(PutAll([], bundled, Always(), OfBundledInstruction), officials, NotOptedOut(optOuts), OfOfficial),
           users, NotShadowed(MandatorySlugs(officials)), OfUser)
  }

  function McpMerge(officials: seq<Row>, users: seq<Row>, optOuts: set<string>): (r: seq<Resolved>) {
    PutAll(PutAll([], officials, EnabledNotOptedOut(optOuts), OfOfficial),
           users, EnabledNotShadowed(MandatorySlugs(officials)), OfUser)
  }

  // ---------------------------------------------------------------- the dict

  ghost predicate DistinctSlugs(merged: seq<Resolved>) {
    forall i, j :: 0 <= i < j < |merged| ==> merged[i].slug != merged[j].slug
  }

  lemma {:induction false} GetMember(merged: seq<Resolved>, r: Resolved)
    requires DistinctSlugs(merged)
    ensures r in merged <==> Get(merged, r.slug) == Some(r)
  {
    if merged != [] {
      GetMember(merged[1..], r);
      assert merged == [merged[0]] + merged[1..];
      assert forall k :: 0 <= k < |merged[1..]| ==>
                           merged[1..][k] == merged[k + 1] && merged[k + 1].slug != merged[0].slug;
    }
  }

  lemma {:induction false} PutGet(merged: seq<Resolved>, r: Resolved, slug: string)
    ensures Get(Put(merged, r), slug) == if slug == r.slug then Some(r) else Get(merged, slug)
  {
    if merged != [] && merged[0].slug != r.slug { PutGet(merged[1..], r, slug); }
  }

  lemma {:induction false} PutDistinct(merged: seq<Resolved>, r: Resolved)
    requires DistinctSlugs(merged)
    ensures DistinctSlugs(Put(merged, r))
    ensures forall k :: 0 <= k < |Put(merged, r)| ==> Put(merged, r)[k] == r || Put(merged, r)[k] in merged
  {
    if merged != [] && merged[0].slug != r.slug {
      var rest := Put(merged[1..], r);
      PutDistinct(merged[1..], r);
      forall k | 0 <= k < |rest| ensures rest[k].slug != merged[0].slug && (rest[k] == r || rest[k] in merged) {
        if rest[k] != r {
          var j :| 0 <= j < |merged[1..]| && merged[1..][j] == rest[k];
          assert merged[j + 1] == rest[k];
        }
      }
    }
  }

  /** The last row that `keep` accepts for a slug. */
  function LastKept(rows: seq<Row>, keep: Row -> bool, slug: string): (r: Option<Row>) {
    if rows == [] then None
    else
      var n := |rows| - 1;
      if rows[n].slug == slug && keep(rows[n]) then Some(rows[n]) else LastKept(rows[..n], keep, slug)
  }

  /** A pass overwrites exactly the slugs it keeps a row for, and keeps slugs distinct. */
  lemma {:induction false} PutAllGet(merged: seq<Resolved>, rows: seq<Row>, keep: Row -> bool, make: Row -> Resolved,
                                            slug: string)
    requires DistinctSlugs(merged) && forall r :: make(r).slug == r.slug
    ensures var m := PutAll(merged, rows, keep, make);
            && DistinctSlugs(m)
            && Get(m, slug) == match LastKept(rows, keep, slug)
                               case Some(r) => Some(make(r))
                               case None => Get(merged, slug)
  {
    if rows != [] {
      var n := |rows| - 1;
      PutAllGet(merged, rows[..n], keep, make, slug);
      if keep(rows[n]) {
        var before := PutAll(merged, rows[..n], keep, make);
        PutGet(before, make(rows[n]), slug);
        PutDistinct(before, make(rows[n]));
      }
    }
  }

  // ---------------------------------------------------------------- the precedence rule

  /** The database's partial unique index: one current row per slug. */
  ghost predicate OnePerSlug(rows: seq<Row>) {
    forall i, j :: 0 <= i < j < |rows| ==> rows[i].slug != rows[j].slug
  }

  function Find(rows: seq<Row>, slug: string): (r: Option<Row>) {
    LastKept(rows, Always(), slug)
  }

  /** A mandatory official row, else the user row, else the official row unless opted out, else the bundled row. */
  function SkillRule(bundled: seq<Row>, officials: seq<Row>, users: seq<Row>, optOuts: set<string>, slug: string,
                     make: Row -> Resolved): (r: Option<Resolved>) {
    var (b, o, u) := (Find(bundled, slug), Find(officials, slug), Find(users, slug));
    if o.Some? && o.value.mandatory then Some(OfOfficial(o.value))
    else if u.Some? then Some(OfUser(u.value))
    else if o.Some? && slug !in optOuts then Some(OfOfficial(o.value))
    else if b.Some? then Some(make(b.value))
    else None
  }

  /** A mandatory official row decides alone, and yields nothing when disabled; only enabled rows count. */
  function McpRule(officials: seq<Row>, users: seq<Row>, optOuts: set<string>, slug: string): (r: Option<Resolved>) {
    var (o, u) := (Find(officials, slug), Find(users, slug));
    if o.Some? && o.value.mandatory then if o.value.enabled then Some(OfOfficial(o.value)) else None
    else if u.Some? && u.value.enabled then Some(OfUser(u.value))
    else if o.Some? && o.value.enabled && slug !in optOuts then Some(OfOfficial(o.value))
    else None
  }

  /** With one row per slug, filtering and finding commute. */
  lemma {:induction false} KeptIsFound(rows: seq<Row>, keep: Row -> bool, slug: string)
    requires OnePerSlug(rows)
    ensures var f := Find(rows, slug);
            LastKept(rows, keep, slug) == if f.Some? && keep(f.value) then f else None
    ensures Find(rows, slug).Some? ==> Find(rows, slug).value in rows && Find(rows, slug).value.slug == slug
    ensures forall r :: r in rows && r.slug == slug ==> Find(rows, slug) == Some(r)
  {
    if rows != [] {
      var n := |rows| - 1;
      KeptIsFound(rows[..n], keep, slug);
      assert rows == rows[..n] + [rows[n]];
      assert forall k :: 0 <= k < n ==> rows[..n][k] == rows[k] && rows[k].slug != rows[n].slug;
    }
  }

  lemma MandatoryIffFound(officials: seq<Row>, slug: string)
    requires OnePerSlug(officials)
    ensures slug in MandatorySlugs(officials) <==>
              Find(officials, slug).Some? && Find(officials, slug).value.mandatory
  {
    KeptIsFound(officials, Always(), slug);
    if slug in MandatorySlugs(officials) {
      var i :| 0 <= i < |officials| && officials[i].mandatory && officials[i].slug == slug;
      assert officials[i] in officials;
    }
    var f := Find(officials, slug);
    if f.Some? {
      var i :| 0 <= i < |officials| && officials[i] == f.value;
    }
  }

  lemma ThreePasses(bundled: seq<Row>, officials: seq<Row>, users: seq<Row>, optOuts: set<string>, slug: string,
                    make: Row -> Resolved)
    requires OnePerSlug(officials) && OnePerSlug(users) && forall r :: make(r).slug == r.slug
    ensures var base := PutAll([], bundled, Always(), make);
            var mid := PutAll(base, officials, NotOptedOut(optOuts), OfOfficial);
            var m := PutAll(mid, users, NotShadowed(MandatorySlugs(officials)), OfUser);
            DistinctSlugs(m) && Get(m, slug) == SkillRule(bundled, officials, users, optOuts, slug, make)
  {
    var mandatory := MandatorySlugs(officials);
    var base := PutAll([], bundled, Always(), make);
    var mid := PutAll(base, officials, NotOptedOut(optOuts), OfOfficial);
    PutAllGet([], bundled, Always(), make, slug);
    PutAllGet(base, officials, NotOptedOut(optOuts), OfOfficial, slug);
    PutAllGet(mid, users, NotShadowed(mandatory), OfUser, slug);
    KeptIsFound(officials, NotOptedOut(optOuts), slug);
    KeptIsFound(users, NotShadowed(mandatory), slug);
    MandatoryIffFound(officials, slug);
  }

  /** A list with these slugs and this order: each slug's row is the rule's, none twice, sorted by the key. */
  ghost predicate ListOf(out: seq<Resolved>, leq: (Resolved, Resolved) -> bool, rule: string -> Option<Resolved>) {
    && (forall r :: r in out <==> rule(r.slug) == Some(r))
    && DistinctSlugs(out) && Sorted(out, leq)
  }

  lemma SlugOrders()
    ensures TotalPreorder(SlugLeq) && TotalPreorder(PriorityLeq)
  {
    forall a: Resolved, b: Resolved ensures StrLeq(a.slug, b.slug) || StrLeq(b.slug, a.slug) {
      StrLeqTotal(a.slug, b.slug);
    }
    forall a: Resolved, b: Resolved, c: Resolved
      ensures StrLeq(a.slug, b.slug) && StrLeq(b.slug, c.slug) ==> StrLeq(a.slug, c.slug)
    {
      if StrLeq(a.slug, b.slug) && StrLeq(b.slug, c.slug) { StrLeqTransitive(a.slug, b.slug, c.slug); }
    }
  }

  lemma RepeatCounts(xs: seq<Resolved>, i: nat, j: nat)
    requires i < j < |xs| && xs[i] == xs[j]
    ensures multiset(xs)[xs[i]] >= 2
  {
    assert xs == xs[..i] + [xs[i]] + xs[i + 1..j] + [xs[j]] + xs[j + 1..];
  }

  lemma SortKeepsDistinct(merged: seq<Resolved>, leq: (Resolved, Resolved) -> bool)
    requires DistinctSlugs(merged) && TotalPreorder(leq)
    ensures DistinctSlugs(Sort(merged, leq))
  {
    SortSpec(merged, leq);
    var out := Sort(merged, leq);
    forall i, j | 0 <= i < j < |out| ensures out[i].slug != out[j].slug {
      if out[i].slug == out[j].slug {
        OnceEach(merged, out[i]);
        SortMembers(merged, leq, out[i]);
        SortMembers(merged, leq, out[j]);
        RepeatCounts(out, i, j);
      }
    }
  }

  lemma {:induction false} OnceEach(merged: seq<Resolved>, r: Resolved)
    requires DistinctSlugs(merged)
    ensures multiset(merged)[r] <= 1
    ensures forall x :: x in merged && r in merged && x.slug == r.slug ==> x == r
  {
    if merged != [] {
      OnceEach(merged[1..], r);
      assert merged == [merged[0]] + merged[1..];
      assert forall k :: 0 <= k < |merged[1..]| ==>
                           merged[1..][k] == merged[k + 1] && merged[k + 1].slug != merged[0].slug;
    }
  }

  /** Sorting a dict whose lookups follow a rule gives the list of that rule. */
  lemma {:induction false} SortedDictIsList(merged: seq<Resolved>, leq: (Resolved, Resolved) -> bool,
                                            rule: string -> Option<Resolved>)
    requires TotalPreorder(leq) && DistinctSlugs(merged) && forall slug :: Get(merged, slug) == rule(slug)
    ensures ListOf(Sort(merged, leq), leq, rule)
  {
    SortSpec(merged, leq);
    SortKeepsDistinct(merged, leq);
    forall r ensures r in Sort(merged, leq) <==> rule(r.slug) == Some(r) {
      SortMembers(merged, leq, r);
      GetMember(merged, r);
      assert Get(merged, r.slug) == rule(r.slug);
    }
  }

  /** `list_effective` of skills is the list of the precedence rule, sorted by slug. */
  lemma SkillsFollowTheRule(bundled: seq<Row>, officials: seq<Row>, users: seq<Row>, optOuts: set<string>)
    requires OnePerSlug(officials) && OnePerSlug(users)
    ensures ListOf(Sort(SkillMerge(bundled, officials, users, optOuts), SlugLeq), SlugLeq,
                   slug => SkillRule(bundled, officials, users, optOuts, slug, OfBundledSkill))
  {
    SlugOrders();
    var merged := SkillMerge(bundled, officials, users, optOuts);
    ThreePasses(bundled, officials, users, optOuts, "", OfBundledSkill);
    forall slug ensures Get(merged, slug) == SkillRule(bundled, officials, users, optOuts, slug, OfBundledSkill) {
      ThreePasses(bundled, officials, users, optOuts, slug, OfBundledSkill);
    }
    SortedDictIsList(merged, SlugLeq, slug => SkillRule(bundled, officials, users, optOuts, slug, OfBundledSkill));
  }

  /** `list_effective` of instructions is the list of the same rule, sorted by priority then slug. */
  lemma InstructionsFollowTheRule(bundled: seq<Row>, officials: seq<Row>, users: seq<Row>, optOuts: set<string>)
    requires OnePerSlug(officials) && OnePerSlug(users)
    ensures ListOf(Sort(InstructionMerge(bundled, officials, users, optOuts), PriorityLeq), PriorityLeq,
                   slug => SkillRule(bundled, officials, users, optOuts, slug, OfBundledInstruction))
  {
    SlugOrders();
    var merged := InstructionMerge(bundled, officials, users, optOuts);
    ThreePasses(bundled, officials, users, optOuts, "", OfBundledInstruction);
    forall slug ensures Get(merged, slug) == SkillRule(bundled, officials, users, optOuts, slug, OfBundledInstruction) {
      ThreePasses(bundled, officials, users, optOuts, slug, OfBundledInstruction);
    }
    SortedDictIsList(merged, PriorityLeq,
                     slug => SkillRule(bundled, officials, users, optOuts, slug, OfBundledInstruction));
  }

  /** `list_effective` of MCP servers is the list of the rule with the enabled filter, sorted by slug. */
  lemma McpFollowsTheRule(officials: seq<Row>, users: seq<Row>, optOuts: set<string>)
    requires OnePerSlug(officials) && OnePerSlug(users)
    ensures ListOf(Sort(McpMerge(officials, users, optOuts), SlugLeq), SlugLeq,
                   slug => McpRule(officials, users, optOuts, slug))
  {
    SlugOrders();
    var mandatory := MandatorySlugs(officials);
    var mid := PutAll([], officials, EnabledNotOptedOut(optOuts), OfOfficial);
    var merged := McpMerge(officials, users, optOuts);
    PutAllGet([], officials, EnabledNotOptedOut(optOuts), OfOfficial, "");
    PutAllGet(mid, users, EnabledNotShadowed(mandatory), OfUser, "");
    forall slug ensures Get(merged, slug) == McpRule(officials, users, optOuts, slug) {
      PutAllGet([], officials, EnabledNotOptedOut(optOuts), OfOfficial, slug);
      PutAllGet(mid, users, EnabledNotShadowed(mandatory), OfUser, slug);
      KeptIsFound(officials, EnabledNotOptedOut(optOuts), slug);
      KeptIsFound(users, EnabledNotShadowed(mandatory), slug);
      MandatoryIffFound(officials, slug);
    }
    SortedDictIsList(merged, SlugLeq, slug => McpRule(officials, users, optOuts, slug));
  }
}
