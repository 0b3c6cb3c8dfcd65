/** Which rows a merged list shows, and in what order. */
module EffectiveRows {
  import opened Dictionary
  import opened Layered
  import opened Options
  import opened Sorting

  // ---------------------------------------------------------------- the order

  /** Each slug once, in dictionary order. */
  ghost predicate BySlug(out: seq<Resolved>) {
    forall i, j :: 0 <= i < j < |out| ==> Precedes(out[i].slug, out[j].slug)
  }

  /** Each slug once, by ascending priority and, where that ties, in dictionary order. */
  ghost predicate ByPriority(out: seq<Resolved>) {
    forall i, j :: 0 <= i < j < |out| ==>
      && out[i].slug != out[j].slug
      && (out[i].priority < out[j].priority
          || (out[i].priority == out[j].priority && Precedes(out[i].slug, out[j].slug)))
  }

  lemma {:induction false} SortedBySlug(out: seq<Resolved>)
    requires Sorted(out, SlugLeq) && DistinctSlugs(out)
    ensures BySlug(out)
  {
    forall i, j | 0 <= i < j < |out| ensures Precedes(out[i].slug, out[j].slug) {
      assert SlugLeq(out[i], out[j]);
      LeqIsDictionaryOrder(out[i].slug, out[j].slug);
    }
  }

  lemma {:induction false} SortedByPriority(out: seq<Resolved>)
    requires Sorted(out, PriorityLeq) && DistinctSlugs(out)
    ensures ByPriority(out)
  {
    forall i, j | 0 <= i < j < |out|
      ensures out[i].priority < out[j].priority
              || (out[i].priority == out[j].priority && Precedes(out[i].slug, out[j].slug))
    {
      assert PriorityLeq(out[i], out[j]);
      LeqIsDictionaryOrder(out[i].slug, out[j].slug);
    }
  }

  // ---------------------------------------------------------------- the rows

  /** What the list says of a row it shows. */
  predicate Shows(r: Resolved, row: Row, tier: Tier, priority: int, enabled: bool, mandatory: bool) {
    && r.slug == row.slug && r.content == row.content && r.tier == tier
    && r.priority == priority && r.enabled == enabled && r.mandatory == mandatory
  }

  predicate HasSlug(rows: seq<Row>, slug: string) {
    exists i :: 0 <= i < |rows| && rows[i].slug == slug
  }

  predicate Overruled(officials: seq<Row>, slug: string) {
    exists i :: 0 <= i < |officials| && officials[i].slug == slug && officials[i].mandatory
  }

  /** An official row that is mandatory, or that the user neither opted out of nor overwrote. */
  ghost predicate OfficialEntry(r: Resolved, officials: seq<Row>, users: seq<Row>, optOuts: set<string>) {
    exists i :: 0 <= i < |officials|
                && Shows(r, officials[i], Official, officials[i].priority, officials[i].enabled, officials[i].mandatory)
                && (officials[i].mandatory || (officials[i].slug !in optOuts && !HasSlug(users, officials[i].slug)))
  }

  /** A user row that no mandatory official row overrules. */
  ghost predicate UserEntry(r: Resolved, officials: seq<Row>, users: seq<Row>) {
    exists i :: 0 <= i < |users| && Shows(r, users[i], User, users[i].priority, users[i].enabled, false)
                && !Overruled(officials, users[i].slug)
  }

  /** The last bundled row of a slug that has no user row, and no official row but an optional one opted out of. */
  ghost predicate BundledAt(k: nat, bundled: seq<Row>, officials: seq<Row>, users: seq<Row>, optOuts: set<string>) {
    && k < |bundled| && (forall j :: k < j < |bundled| ==> bundled[j].slug != bundled[k].slug)
    && !HasSlug(users, bundled[k].slug) && !Overruled(officials, bundled[k].slug)
    && (HasSlug(officials, bundled[k].slug) ==> bundled[k].slug in optOuts)
  }

  ghost predicate SkillEntry(r: Resolved, bundled: seq<Row>, officials: seq<Row>, users: seq<Row>,
                             optOuts: set<string>) {
    || OfficialEntry(r, officials, users, optOuts) || UserEntry(r, officials, users)
    || exists k: nat :: BundledAt(k, bundled, officials, users, optOuts)
                        && Shows(r, bundled[k], Bundled, 0, true, false)
  }

  ghost predicate InstructionEntry(r: Resolved, bundled: seq<Row>, officials: seq<Row>, users: seq<Row>,
                                   optOuts: set<string>) {
    || OfficialEntry(r, officials, users, optOuts) || UserEntry(r, officials, users)
    || exists k: nat :: BundledAt(k, bundled, officials, users, optOuts)
                        && Shows(r, bundled[k], Bundled, bundled[k].priority, bundled[k].enabled, bundled[k].mandatory)
  }

  lemma {:induction false} FindIs(rows: seq<Row>, slug: string)
    ensures match Find(rows, slug)
            case Some(row) => exists k: nat :: LastOf(rows, slug, k) && rows[k] == row
            case None => !HasSlug(rows, slug)
  {
    if rows != [] {
      var n := |rows| - 1;
      FindIs(rows[..n], slug);
      if rows[n].slug == slug {
        assert LastOf(rows, slug, n);
      } else if Find(rows[..n], slug).Some? {
        var k: nat :| LastOf(rows[..n], slug, k) && rows[..n][k] == Find(rows[..n], slug).value;
        assert LastOf(rows, slug, k);
      } else {
        forall i | 0 <= i < |rows| ensures rows[i].slug != slug { assert i < n ==> rows[..n][i] == rows[i]; }
      }
    }
  }

  predicate LastOf(rows: seq<Row>, slug: string, k: nat) {
    k < |rows| && rows[k].slug == slug && forall j :: k < j < |rows| ==> rows[j].slug != slug
  }

  lemma {:induction false} FoundAt(rows: seq<Row>, k: nat)
    requires OnePerSlug(rows) && k < |rows|
    ensures Find(rows, rows[k].slug) == Some(rows[k])
  {
    FindIs(rows, rows[k].slug);
    if Find(rows, rows[k].slug).Some? {
      var j: nat :| LastOf(rows, rows[k].slug, j) && rows[j] == Find(rows, rows[k].slug).value;
      assert j == k;
    }
  }

  /** With one row per slug, what is there of a slug is what is found. */
  lemma {:induction false} FoundIff(rows: seq<Row>, slug: string)
    requires OnePerSlug(rows)
    ensures var f := Find(rows, slug);
            && (f.Some? <==> HasSlug(rows, slug))
            && (f.Some? && f.value.mandatory <==> Overruled(rows, slug))
            && (f.Some? ==> exists i :: 0 <= i < |rows| && rows[i] == f.value && rows[i].slug == slug)
  {
    FindIs(rows, slug);
    if i :| 0 <= i < |rows| && rows[i].slug == slug { FoundAt(rows, i); }
    if i :| 0 <= i < |rows| && rows[i].slug == slug && rows[i].mandatory { FoundAt(rows, i); }
  }

  lemma {:induction false} OfficialRule(r: Resolved, officials: seq<Row>, users: seq<Row>, optOuts: set<string>)
    requires OnePerSlug(officials) && OnePerSlug(users)
    ensures var (o, u) := (Find(officials, r.slug), Find(users, r.slug));
            OfficialEntry(r, officials, users, optOuts) <==>
              o.Some? && r == OfOfficial(o.value) && (o.value.mandatory || (r.slug !in optOuts && u == None))
  {
    FoundIff(officials, r.slug);
    FoundIff(users, r.slug);
    forall i | 0 <= i < |officials| && officials[i].slug == r.slug
      ensures Find(officials, r.slug) == Some(officials[i])
    {
      FoundAt(officials, i);
    }
  }

  lemma {:induction false} UserRule(r: Resolved, officials: seq<Row>, users: seq<Row>)
    requires OnePerSlug(officials) && OnePerSlug(users)
    ensures var (o, u) := (Find(officials, r.slug), Find(users, r.slug));
            UserEntry(r, officials, users) <==>
              u.Some? && r == OfUser(u.value) && !(o.Some? && o.value.mandatory)
  {
    FoundIff(officials, r.slug);
    FoundIff(users, r.slug);
    forall i | 0 <= i < |users| && users[i].slug == r.slug ensures Find(users, r.slug) == Some(users[i]) {
      FoundAt(users, i);
    }
  }

  lemma {:induction false} BundledRule(bundled: seq<Row>, officials: seq<Row>, users: seq<Row>, optOuts: set<string>,
                                       slug: string, row: Row)
    requires OnePerSlug(officials) && OnePerSlug(users)
    ensures var (o, u) := (Find(officials, slug), Find(users, slug));
            (exists k: nat :: BundledAt(k, bundled, officials, users, optOuts) && bundled[k].slug == slug
                              && bundled[k] == row) <==>
              && Find(bundled, slug) == Some(row) && u == None
              && !(o.Some? && o.value.mandatory) && (o.Some? ==> slug in optOuts)
  {
    FoundIff(officials, slug);
    FoundIff(users, slug);
    FindIs(bundled, slug);
    if k: nat :| BundledAt(k, bundled, officials, users, optOuts) && bundled[k].slug == slug && bundled[k] == row {
      assert LastOf(bundled, slug, k);
    }
    if Find(bundled, slug).Some? {
      var k: nat :| LastOf(bundled, slug, k) && bundled[k] == Find(bundled, slug).value;
      assert forall j: nat :: LastOf(bundled, slug, j) ==> j == k;
    }
  }

  /** The list of skills shows exactly these rows, with their content, in dictionary order. */
  lemma {:induction false} EffectiveSkills(bundled: seq<Row>, officials: seq<Row>, users: seq<Row>,
                                           optOuts: set<string>)
    requires OnePerSlug(officials) && OnePerSlug(users)
    ensures var out := Sort(SkillMerge(bundled, officials, users, optOuts), SlugLeq);
            BySlug(out) && forall r :: r in out <==> SkillEntry(r, bundled, officials, users, optOuts)
  {
    var out := Sort(SkillMerge(bundled, officials, users, optOuts), SlugLeq);
    SkillsFollowTheRule(bundled, officials, users, optOuts);
    SortedBySlug(out);
    forall r ensures r in out <==> SkillEntry(r, bundled, officials, users, optOuts) {
      assert r in out <==> SkillRule(bundled, officials, users, optOuts, r.slug, OfBundledSkill) == Some(r);
      SkillRuleIs(r, bundled, officials, users, optOuts);
    }
  }

  lemma {:induction false} SkillRuleIs(r: Resolved, bundled: seq<Row>, officials: seq<Row>, users: seq<Row>,
                                       optOuts: set<string>)
    requires OnePerSlug(officials) && OnePerSlug(users)
    ensures SkillRule(bundled, officials, users, optOuts, r.slug, OfBundledSkill) == Some(r) <==>
              SkillEntry(r, bundled, officials, users, optOuts)
  {
    OfficialRule(r, officials, users, optOuts);
    UserRule(r, officials, users);
    var b := Find(bundled, r.slug);
    if b.Some? { BundledRule(bundled, officials, users, optOuts, r.slug, b.value); }
    forall k: nat | BundledAt(k, bundled, officials, users, optOuts) && bundled[k].slug == r.slug
      ensures b == Some(bundled[k])
    {
      BundledRule(bundled, officials, users, optOuts, r.slug, bundled[k]);
    }
  }

  /** The list of instructions shows exactly these rows, by priority. */
  lemma {:induction false} EffectiveInstructions(bundled: seq<Row>, officials: seq<Row>, users: seq<Row>,
                                                 optOuts: set<string>)
    requires OnePerSlug(officials) && OnePerSlug(users)
    ensures var out := Sort(InstructionMerge(bundled, officials, users, optOuts), PriorityLeq);
            ByPriority(out) && forall r :: r in out <==> InstructionEntry(r, bundled, officials, users, optOuts)
  {
    var out := Sort(InstructionMerge(bundled, officials, users, optOuts), PriorityLeq);
    InstructionsFollowTheRule(bundled, officials, users, optOuts);
    SortedByPriority(out);
    forall r ensures r in out <==> InstructionEntry(r, bundled, officials, users, optOuts) {
      assert r in out <==> SkillRule(bundled, officials, users, optOuts, r.slug, OfBundledInstruction) == Some(r);
      InstructionRuleIs(r, bundled, officials, users, optOuts);
    }
  }

  lemma {:induction false} InstructionRuleIs(r: Resolved, bundled: seq<Row>, officials: seq<Row>, users: seq<Row>,
                                             optOuts: set<string>)
    requires OnePerSlug(officials) && OnePerSlug(users)
    ensures SkillRule(bundled, officials, users, optOuts, r.slug, OfBundledInstruction) == Some(r) <==>
              InstructionEntry(r, bundled, officials, users, optOuts)
  {
    OfficialRule(r, officials, users, optOuts);
    UserRule(r, officials, users);
    var b := Find(bundled, r.slug);
    if b.Some? { BundledRule(bundled, officials, users, optOuts, r.slug, b.value); }
    forall k: nat | BundledAt(k, bundled, officials, users, optOuts) && bundled[k].slug == r.slug
      ensures b == Some(bundled[k])
    {
      BundledRule(bundled, officials, users, optOuts, r.slug, bundled[k]);
    }
  }

  // ---------------------------------------------------------------- MCP servers

  predicate EnabledFor(users: seq<Row>, slug: string) {
    exists i :: 0 <= i < |users| && users[i].slug == slug && users[i].enabled
  }

  /** An enabled official row that is mandatory, or neither opted out of nor overwritten by an enabled user row. */
  ghost predicate OfficialServer(r: Resolved, officials: seq<Row>, users: seq<Row>, optOuts: set<string>) {
    exists i :: 0 <= i < |officials| && officials[i].enabled
                && Shows(r, officials[i], Official, officials[i].priority, true, officials[i].mandatory)
                && (officials[i].mandatory || (officials[i].slug !in optOuts && !EnabledFor(users, officials[i].slug)))
  }

  /** An enabled user row that no mandatory official row overrules, enabled or not. */
  ghost predicate UserServer(r: Resolved, officials: seq<Row>, users: seq<Row>) {
    exists i :: 0 <= i < |users| && users[i].enabled && Shows(r, users[i], User, users[i].priority, true, false)
                && !Overruled(officials, users[i].slug)
  }

  lemma {:induction false} EnabledIff(rows: seq<Row>, slug: string)
    requires OnePerSlug(rows)
    ensures EnabledFor(rows, slug) <==> Find(rows, slug).Some? && Find(rows, slug).value.enabled
  {
    FoundIff(rows, slug);
    if i :| 0 <= i < |rows| && rows[i].slug == slug && rows[i].enabled { FoundAt(rows, i); }
  }

  lemma {:induction false} McpRuleIs(r: Resolved, officials: seq<Row>, users: seq<Row>, optOuts: set<string>)
    requires OnePerSlug(officials) && OnePerSlug(users)
    ensures McpRule(officials, users, optOuts, r.slug) == Some(r) <==>
              OfficialServer(r, officials, users, optOuts) || UserServer(r, officials, users)
  {
    FoundIff(officials, r.slug);
    FoundIff(users, r.slug);
    EnabledIff(users, r.slug);
    forall i | 0 <= i < |officials| && officials[i].slug == r.slug
      ensures Find(officials, r.slug) == Some(officials[i])
    {
      FoundAt(officials, i);
    }
    forall i | 0 <= i < |users| && users[i].slug == r.slug ensures Find(users, r.slug) == Some(users[i]) {
      FoundAt(users, i);
    }
  }

  /** The list of MCP servers shows exactly these rows, in dictionary order. */
  lemma {:induction false} EffectiveServers(officials: seq<Row>, users: seq<Row>, optOuts: set<string>)
    requires OnePerSlug(officials) && OnePerSlug(users)
    ensures var out := Sort(McpMerge(officials, users, optOuts), SlugLeq);
            && BySlug(out)
            && forall r :: r in out <==> OfficialServer(r, officials, users, optOuts) || UserServer(r, officials, users)
  {
    var out := Sort(McpMerge(officials, users, optOuts), SlugLeq);
    McpFollowsTheRule(officials, users, optOuts);
    SortedBySlug(out);
    forall r ensures r in out <==> OfficialServer(r, officials, users, optOuts) || UserServer(r, officials, users) {
      assert r in out <==> McpRule(officials, users, optOuts, r.slug) == Some(r);
      McpRuleIs(r, officials, users, optOuts);
    }
  }
}
