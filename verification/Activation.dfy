/** Conditional skill activation: scoring against a turn's text, and the top k of the ranking. */
module Activation {
  import opened Options
  import opened Sequences
  import opened Sorting
  import opened Text

  /** One `activate_when` rule, as read from the frontmatter. */
  datatype Rule = Rule(keywords: seq<string>, fileGlobs: seq<string>)

  datatype Skill = Skill(slug: string, rules: seq<Rule>, body: string)

  /** The turn's text and profile; lower-casing and glob matching are the library's. */
  datatype Turn = Turn(text: string, profile: string, lower: string -> string, globMatches: (string, string) -> bool)

  datatype Scored = Scored(score: real, skill: Skill)

  const ALWAYS_ON_SCORE: real := 0.5
  const KEYWORD_IN_TEXT_SCORE: real := 2.0
  const KEYWORD_IN_PROFILE_SCORE: real := 1.0
  const GLOB_MATCH_SCORE: real := 2.0
  const ACTIVATION_TOP_K: int := 8

  // ---------------------------------------------------------------- the score

  predicate InText(t: Turn, kw: string) {
    t.lower(kw) != "" && Contains(t.lower(t.text), t.lower(kw))
  }

  predicate InProfile(t: Turn, kw: string) {
    t.lower(kw) != "" && t.lower(t.profile) != "" && Contains(t.lower(t.profile), t.lower(kw))
  }

  function KeywordsScore(t: Turn, kws: seq<string>): (r: real) {
    if kws == [] then 0.0
    else
      var n := |kws| - 1;
      KeywordsScore(t, kws[..n]) +
      if InText(t, kws[n]) then KEYWORD_IN_TEXT_SCORE
      else if InProfile(t, kws[n]) then KEYWORD_IN_PROFILE_SCORE
      else 0.0
  }

  function GlobsScore(t: Turn, globs: seq<string>): (r: real) {
    if globs == [] then 0.0
    else
      var n := |globs| - 1;
      GlobsScore(t, globs[..n]) + if t.globMatches(globs[n], t.text) then GLOB_MATCH_SCORE else 0.0
  }

  function RulesScore(t: Turn, rules: seq<Rule>): (r: real) {
    if rules == [] then 0.0
    else
      var n := |rules| - 1;
      RulesScore(t, rules[..n]) + KeywordsScore(t, rules[n].keywords) + GlobsScore(t, rules[n].fileGlobs)
  }

  function Score(t: Turn, s: Skill): (r: real) {
    if s.rules == [] then ALWAYS_ON_SCORE else RulesScore(t, s.rules)
  }

  method ScoreEntry(t: Turn, s: Skill) returns (score: real)
    ensures score == Score(t, s)
  {
    if s.rules == [] { return ALWAYS_ON_SCORE; }
    var textLower, profileLower := t.lower(t.text), t.lower(t.profile);
    score := 0.0;
    for i := 0 to |s.rules|
      invariant score == RulesScore(t, s.rules[..i])
    {
      var rule := s.rules[i];
      assert s.rules[..i + 1][..i] == s.rules[..i];
      for k := 0 to |rule.keywords|
        invariant score == RulesScore(t, s.rules[..i]) + KeywordsScore(t, rule.keywords[..k])
      {
        assert rule.keywords[..k + 1][..k] == rule.keywords[..k];
        var kwLower := t.lower(rule.keywords[k]);
        if kwLower != "" && Contains(textLower, kwLower) {
          score := score + KEYWORD_IN_TEXT_SCORE;
        } else if kwLower != "" && profileLower != "" && Contains(profileLower, kwLower) {
          score := score + KEYWORD_IN_PROFILE_SCORE;
        }
      }
      assert rule.keywords[..|rule.keywords|] == rule.keywords;
      for k := 0 to |rule.fileGlobs|
        invariant score == RulesScore(t, s.rules[..i]) + KeywordsScore(t, rule.keywords) +
                           GlobsScore(t, rule.fileGlobs[..k])
      {
        assert rule.fileGlobs[..k + 1][..k] == rule.fileGlobs[..k];
        if t.globMatches(rule.fileGlobs[k], t.text) { score := score + GLOB_MATCH_SCORE; }
      }
      assert rule.fileGlobs[..|rule.fileGlobs|] == rule.fileGlobs;
    }
    assert s.rules[..|s.rules|] == s.rules;
  }

  /** Some keyword or glob of the rule matches the turn. */
  ghost predicate Triggers(t: Turn, rule: Rule) {
    || (exists kw :: kw in rule.keywords && (InText(t, kw) || InProfile(t, kw)))
    || (exists glob :: glob in rule.fileGlobs && t.globMatches(glob, t.text))
  }

  lemma {:induction false} KeywordsScorePositive(t: Turn, kws: seq<string>)
    ensures KeywordsScore(t, kws) >= 0.0
    ensures KeywordsScore(t, kws) > 0.0 <==> exists kw :: kw in kws && (InText(t, kw) || InProfile(t, kw))
  {
    if kws != [] {
      var n := |kws| - 1;
      KeywordsScorePositive(t, kws[..n]);
      assert forall kw :: kw in kws <==> kw in kws[..n] || kw == kws[n];
    }
  }

  lemma {:induction false} GlobsScorePositive(t: Turn, globs: seq<string>)
    ensures GlobsScore(t, globs) >= 0.0
    ensures GlobsScore(t, globs) > 0.0 <==> exists glob :: glob in globs && t.globMatches(glob, t.text)
  {
    if globs != [] {
      var n := |globs| - 1;
      GlobsScorePositive(t, globs[..n]);
      assert forall glob :: glob in globs <==> glob in globs[..n] || glob == globs[n];
    }
  }

  lemma {:induction false} RulesScorePositive(t: Turn, rules: seq<Rule>)
    ensures RulesScore(t, rules) >= 0.0
    ensures RulesScore(t, rules) > 0.0 <==> exists rule :: rule in rules && Triggers(t, rule)
  {
    if rules != [] {
      var n := |rules| - 1;
      RulesScorePositive(t, rules[..n]);
      KeywordsScorePositive(t, rules[n].keywords);
      GlobsScorePositive(t, rules[n].fileGlobs);
      assert forall rule :: rule in rules <==> rule in rules[..n] || rule == rules[n];
      assert Triggers(t, rules[n]) <==>
             KeywordsScore(t, rules[n].keywords) > 0.0 || GlobsScore(t, rules[n].fileGlobs) > 0.0;
    }
  }

  /** A skill stays in the ranking exactly when it has no rules or one of them triggers. */
  lemma StaysIff(t: Turn, s: Skill)
    ensures Score(t, s) > 0.0 <==> s.rules == [] || exists rule :: rule in s.rules && Triggers(t, rule)
  {
    RulesScorePositive(t, s.rules);
  }

  // ---------------------------------------------------------------- the ranking

  /** Descending score, then slug. */
  predicate RankLeq(a: Scored, b: Scored) {
    a.score > b.score || (a.score == b.score && StrLeq(a.skill.slug, b.skill.slug))
  }

  predicate SlugLeq(a: Skill, b: Skill) {
    StrLeq(a.slug, b.slug)
  }

  function Positives(t: Turn, skills: seq<Skill>): (r: seq<Scored>) {
    if skills == [] then []
    else
      var n := |skills| - 1;
      var score := Score(t, skills[n]);
      Positives(t, skills[..n]) + if score > 0.0 then [Scored(score, skills[n])] else []
  }

  /** `xs[:k]` in Python. */
  function Slice<T>(xs: seq<T>, k: int): (r: seq<T>) {
    if k >= |xs| then xs else if k >= 0 then xs[..k] else if |xs| + k >= 0 then xs[..|xs| + k] else []
  }

  function Skills(scored: seq<Scored>): (r: seq<Skill>) {
    seq(|scored|, i requires 0 <= i < |scored| => scored[i].skill)
  }

  /** `filter_resolved_for_turn`; without a user text every skill is listed by slug. */
  function Chosen(t: Turn, skills: seq<Skill>, topK: int): (r: seq<Skill>) {
    Skills(Slice(Sort(Positives(t, skills), RankLeq), topK))
  }

  method FilterResolvedForTurn(skills: seq<Skill>, userText: Option<string>, profile: string,
      lower: string -> string, globMatches: (string, string) -> bool, topK: int := ACTIVATION_TOP_K)
    returns (out: seq<Skill>)
    ensures out == if userText == None then Sort(skills, SlugLeq)
                   else Chosen(Turn(userText.value, profile, lower, globMatches), skills, topK)
  {
    if skills == [] { return []; }
    if userText == None { return Sort(skills, SlugLeq); }
    var t := Turn(userText.value, profile, lower, globMatches);
    var scored: seq<Scored> := [];
    for i := 0 to |skills|
      invariant scored == Positives(t, skills[..i])
    {
      assert skills[..i + 1][..i] == skills[..i];
      var score := ScoreEntry(t, skills[i]);
      if score > 0.0 { scored := scored + [Scored(score, skills[i])]; }
    }
    assert skills[..|skills|] == skills;
    scored := Sort(scored, RankLeq);
    scored := Slice(scored, topK);
    out := seq(|scored|, i requires 0 <= i < |scored| => scored[i].skill);
  }

  lemma RankIsTotalPreorder()
    ensures TotalPreorder(RankLeq)
  {
    forall x: Scored, y: Scored ensures RankLeq(x, y) || RankLeq(y, x) {
      StrLeqTotal(x.skill.slug, y.skill.slug);
    }
    forall x: Scored, y: Scored, z: Scored | RankLeq(x, y) && RankLeq(y, z) ensures RankLeq(x, z) {
      if x.score == y.score == z.score { StrLeqTransitive(x.skill.slug, y.skill.slug, z.skill.slug); }
    }
  }

  lemma {:induction false} PositivesCount(t: Turn, skills: seq<Skill>, p: Scored)
    ensures multiset(Positives(t, skills))[p] ==
            if p.score > 0.0 && p.score == Score(t, p.skill) then multiset(skills)[p.skill] else 0
  {
    if skills != [] {
      var n := |skills| - 1;
      var scored := Scored(Score(t, skills[n]), skills[n]);
      PositivesCount(t, skills[..n], p);
      AppendLast(skills);
      CountAppend(skills[..n], skills[n], p.skill);
      if scored.score > 0.0 { CountAppend(Positives(t, skills[..n]), scored, p); }
    }
  }

  lemma PositivesMembers(t: Turn, skills: seq<Skill>, p: Scored)
    ensures p in Positives(t, skills) <==> p.score > 0.0 && p.score == Score(t, p.skill) && p.skill in skills
  {
    PositivesCount(t, skills, p);
    assert p in Positives(t, skills) <==> p in multiset(Positives(t, skills));
    assert p.skill in skills <==> p.skill in multiset(skills);
  }

  /** The ranking: every positive skill, as often as it was given, in rank order. */
  lemma {:induction false} RankingSpec(t: Turn, skills: seq<Skill>)
    ensures var ranked := Sort(Positives(t, skills), RankLeq);
            && Sorted(ranked, RankLeq) && multiset(ranked) == multiset(Positives(t, skills))
  {
    RankIsTotalPreorder();
    SortSpec(Positives(t, skills), RankLeq);
  }

  ghost predicate SplitsRanking(t: Turn, skills: seq<Skill>, chosen: seq<Scored>, omitted: seq<Scored>) {
    && multiset(chosen) + multiset(omitted) == multiset(Positives(t, skills))
    && Sorted(chosen, RankLeq)
    && forall i, j :: 0 <= i < |chosen| && 0 <= j < |omitted| ==> RankLeq(chosen[i], omitted[j])
  }

  /**
   * What is chosen, in rank order, and what is omitted make up the positive skills; nothing omitted ranks above
   * anything chosen, and something is omitted only when k are chosen.
   */
  lemma TopKIsChosen(t: Turn, skills: seq<Skill>, k: nat) returns (chosen: seq<Scored>, omitted: seq<Scored>)
    ensures Chosen(t, skills, k) == Skills(chosen) && SplitsRanking(t, skills, chosen, omitted)
    ensures |chosen| <= k && (omitted != [] ==> |chosen| == k)
  {
    var ranked := Sort(Positives(t, skills), RankLeq);
    var n := if k < |ranked| then k else |ranked|;
    RankingSpec(t, skills);
    SortedSplits(ranked, n, RankLeq);
    chosen, omitted := ranked[..n], ranked[n..];
    assert Slice(ranked, k) == chosen;
  }

  // ---------------------------------------------------------------- distinct slugs

  ghost predicate DistinctSlugs(skills: seq<Skill>) {
    forall i, j :: 0 <= i < |skills| && 0 <= j < |skills| && skills[i].slug == skills[j].slug ==> i == j
  }

  lemma DistinctSlugsNoTies(t: Turn, skills: seq<Skill>)
    requires DistinctSlugs(skills)
    ensures NoTies(Positives(t, skills), RankLeq)
  {
    var ps := Positives(t, skills);
    forall x, y | x in ps && y in ps && RankLeq(x, y) && RankLeq(y, x) ensures x == y {
      StrLeqAntisymmetric(x.skill.slug, y.skill.slug);
      PositivesMembers(t, skills, x);
      PositivesMembers(t, skills, y);
    }
  }

  lemma {:induction false} SamePositives(t: Turn, skills: seq<Skill>, shuffled: seq<Skill>)
    requires multiset(skills) == multiset(shuffled)
    ensures multiset(Positives(t, skills)) == multiset(Positives(t, shuffled))
  {
    forall p: Scored ensures multiset(Positives(t, skills))[p] == multiset(Positives(t, shuffled))[p] {
      PositivesCount(t, skills, p);
      PositivesCount(t, shuffled, p);
    }
  }

  /** With distinct slugs the choice is the same for every order of the input. */
  lemma OrderDoesNotMatter(t: Turn, skills: seq<Skill>, shuffled: seq<Skill>, topK: int)
    requires DistinctSlugs(skills) && multiset(skills) == multiset(shuffled)
    ensures Chosen(t, skills, topK) == Chosen(t, shuffled, topK)
  {
    var (ps, qs) := (Positives(t, skills), Positives(t, shuffled));
    SamePositives(t, skills, shuffled);
    RankingSpec(t, skills);
    RankingSpec(t, shuffled);
    DistinctSlugsNoTies(t, skills);
    SameBagNoTies(ps, Sort(ps, RankLeq), RankLeq);
    SortedUnique(Sort(ps, RankLeq), Sort(qs, RankLeq), RankLeq);
  }

  /** The positive skills that rank strictly above `s`. */
  ghost function Above(t: Turn, skills: seq<Skill>, s: Skill): (result: set<Skill>) {
    set r | r in skills && Score(t, r) > 0.0 && r != s && RankLeq(Scored(Score(t, r), r), Scored(Score(t, s), s))
  }

  lemma {:induction false} OccursOnce(skills: seq<Skill>, s: Skill)
    requires DistinctSlugs(skills)
    ensures multiset(skills)[s] <= 1
  {
    if skills != [] {
      var n := |skills| - 1;
      OccursOnce(skills[..n], s);
      assert skills == skills[..n] + [skills[n]];
      assert s in skills[..n] ==> s != skills[n];
      assert s !in skills[..n] ==> multiset(skills[..n])[s] == 0;
    }
  }

  lemma TwicePerBag<T>(xs: seq<T>, a: nat, b: nat)
    requires a < b < |xs| && xs[a] == xs[b]
    ensures multiset(xs)[xs[a]] >= 2
  {
    assert xs == xs[..b] + xs[b..];
    assert xs[a] in multiset(xs[..b]) && xs[b] in multiset(xs[b..]) by {
      assert xs[..b][a] == xs[a] && xs[b..][0] == xs[b];
    }
  }

  /** The ranking of skills with distinct slugs: each positive skill at one position, none tied with another. */
  ghost predicate Ranking(t: Turn, skills: seq<Skill>, ranked: seq<Scored>) {
    && Sorted(ranked, RankLeq) && NoTies(ranked, RankLeq)
    && (forall p :: p in ranked <==> p.score > 0.0 && p.score == Score(t, p.skill) && p.skill in skills)
    && (forall a, b :: 0 <= a < b < |ranked| ==> ranked[a].skill != ranked[b].skill)
  }

  lemma {:induction false} DistinctSlugsRank(t: Turn, skills: seq<Skill>)
    requires DistinctSlugs(skills)
    ensures Ranking(t, skills, Sort(Positives(t, skills), RankLeq))
  {
    var (ps, ranked) := (Positives(t, skills), Sort(Positives(t, skills), RankLeq));
    RankingSpec(t, skills);
    DistinctSlugsNoTies(t, skills);
    forall p ensures p in ranked <==> p.score > 0.0 && p.score == Score(t, p.skill) && p.skill in skills {
      assert p in ranked <==> p in multiset(ranked);
      assert p in ps <==> p in multiset(ps);
      PositivesMembers(t, skills, p);
    }
    assert forall p :: p in ranked ==> p in multiset(ranked);
    assert forall p :: p in multiset(ps) ==> p in ps;
    forall a, b | 0 <= a < b < |ranked| ensures ranked[a].skill != ranked[b].skill {
      assert ranked[a] in ranked && ranked[b] in ranked;
      assert ranked[a].skill == ranked[b].skill ==> ranked[a] == ranked[b];
      PositivesCount(t, skills, ranked[a]);
      OccursOnce(skills, ranked[a].skill);
      if ranked[a] == ranked[b] { TwicePerBag(ranked, a, b); }
    }
  }

  /** The skills of a repetition-free ranking before position `i`. */
  ghost function Before(ranked: seq<Scored>, i: nat): (r: set<Skill>)
    requires i <= |ranked|
  {
    set k | 0 <= k < i :: ranked[k].skill
  }

  lemma {:induction false} BeforeSize(ranked: seq<Scored>, i: nat)
    requires i <= |ranked| && forall a, b :: 0 <= a < b < |ranked| ==> ranked[a].skill != ranked[b].skill
    ensures |Before(ranked, i)| == i
  {
    if i > 0 {
      BeforeSize(ranked, i - 1);
      assert Before(ranked, i) == Before(ranked, i - 1) + {ranked[i - 1].skill};
    }
  }

  lemma RanksStrictly(t: Turn, skills: seq<Skill>, ranked: seq<Scored>)
    requires Ranking(t, skills, ranked)
    ensures forall a, b :: 0 <= a < b < |ranked| ==> RankLeq(ranked[a], ranked[b]) && !RankLeq(ranked[b], ranked[a])
  {
    forall a, b | 0 <= a < b < |ranked| ensures !RankLeq(ranked[b], ranked[a]) {
      assert ranked[a] in ranked && ranked[b] in ranked && RankLeq(ranked[a], ranked[b]);
    }
  }

  lemma AboveIsBefore(t: Turn, skills: seq<Skill>, ranked: seq<Scored>, i: nat, r: Skill)
    requires Ranking(t, skills, ranked) && i < |ranked|
    ensures r in Above(t, skills, ranked[i].skill) <==> r in Before(ranked, i)
  {
    RanksStrictly(t, skills, ranked);
    assert forall k :: 0 <= k < |ranked| ==> ranked[k] in ranked;
    if r in Above(t, skills, ranked[i].skill) {
      assert Scored(Score(t, r), r) in ranked;
    }
  }

  /** The skill at position `i` of the ranking has exactly `i` above it. */
  lemma AboveIsPosition(t: Turn, skills: seq<Skill>, ranked: seq<Scored>, i: nat)
    requires Ranking(t, skills, ranked) && i < |ranked|
    ensures |Above(t, skills, ranked[i].skill)| == i
  {
    forall r ensures r in Above(t, skills, ranked[i].skill) <==> r in Before(ranked, i) {
      AboveIsBefore(t, skills, ranked, i, r);
    }
    assert Above(t, skills, ranked[i].skill) == Before(ranked, i);
    BeforeSize(ranked, i);
  }

  /** With distinct slugs, a skill is chosen exactly when it scores and fewer than k skills rank above it. */
  lemma ChosenIff(t: Turn, skills: seq<Skill>, k: nat, s: Skill)
    requires DistinctSlugs(skills) && s in skills
    ensures s in Chosen(t, skills, k) <==> Score(t, s) > 0.0 && |Above(t, skills, s)| < k
  {
    var (ranked, p) := (Sort(Positives(t, skills), RankLeq), Scored(Score(t, s), s));
    DistinctSlugsRank(t, skills);
    if Score(t, s) > 0.0 {
      assert p in ranked;
      var i :| 0 <= i < |ranked| && ranked[i] == p;
      AboveIsPosition(t, skills, ranked, i);
      SkillAt(ranked, k, i);
    } else {
      forall j | 0 <= j < |Skills(Slice(ranked, k))| ensures Skills(Slice(ranked, k))[j] != s {
        assert ranked[j] in ranked;
      }
    }
  }

  lemma SkillAt(ranked: seq<Scored>, k: nat, i: nat)
    requires i < |ranked| && forall a, b :: 0 <= a < b < |ranked| ==> ranked[a].skill != ranked[b].skill
    ensures ranked[i].skill in Skills(Slice(ranked, k)) <==> i < k
  {
    var chosen := Skills(Slice(ranked, k));
    if i < k {
      assert chosen[i] == ranked[i].skill;
    } else {
      assert forall j :: 0 <= j < |chosen| ==> chosen[j] == ranked[j].skill;
    }
  }
}
