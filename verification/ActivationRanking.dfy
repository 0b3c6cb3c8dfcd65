/** How skills are scored, and which are listed first. */
module ActivationRanking {
  import opened Activation
  import opened Dictionary
  import opened Sorting
  import opened Text

  /** `part` stands somewhere in `whole`. */
  ghost predicate Occurs(part: string, whole: string) {
    exists i: nat :: OccursAt(part, whole, i)
  }

  predicate OccursAt(part: string, whole: string, i: nat) {
    i + |part| <= |whole| && whole[i..i + |part|] == part
  }

  /** The keyword, without regard to case, is in the user's text. */
  ghost predicate TextHit(t: Turn, kw: string) {
    t.lower(kw) != "" && Occurs(t.lower(kw), t.lower(t.text))
  }

  /** It is not, but in the user's profile. */
  ghost predicate ProfileHit(t: Turn, kw: string) {
    t.lower(kw) != "" && !TextHit(t, kw) && Occurs(t.lower(kw), t.lower(t.profile))
  }

  /** How many of `xs` satisfy `p`. */
  ghost function Count(xs: seq<string>, p: string -> bool): (n: nat) {
    if xs == [] then 0 else Count(xs[..|xs| - 1], p) + if p(xs[|xs| - 1]) then 1 else 0
  }

  /** All the keywords of the rules, and all their globs. */
  function Keywords(rules: seq<Rule>): (r: seq<string>) {
    if rules == [] then [] else Keywords(rules[..|rules| - 1]) + rules[|rules| - 1].keywords
  }

  function Globs(rules: seq<Rule>): (r: seq<string>) {
    if rules == [] then [] else Globs(rules[..|rules| - 1]) + rules[|rules| - 1].fileGlobs
  }

  lemma {:induction false} CountAppends(a: seq<string>, b: seq<string>, p: string -> bool)
    ensures Count(a + b, p) == Count(a, p) + Count(b, p)
  {
    if b == [] {
      assert a + b == a;
    } else {
      assert (a + b)[..|a + b| - 1] == a + b[..|b| - 1];
      CountAppends(a, b[..|b| - 1], p);
    }
  }

  lemma {:induction false} ContainsIff(whole: string, part: string)
    ensures Contains(whole, part) <==> Occurs(part, whole)
  {
    if i :| 0 <= i <= |whole| && part <= whole[i..] {
      assert whole[i..i + |part|] == whole[i..][..|part|];
      assert OccursAt(part, whole, i);
    }
    if i: nat :| OccursAt(part, whole, i) { assert whole[i..][..|part|] == part && part <= whole[i..]; }
  }

  lemma {:induction false} HitsIff(t: Turn, kw: string)
    ensures InText(t, kw) <==> TextHit(t, kw)
    ensures !InText(t, kw) && InProfile(t, kw) <==> ProfileHit(t, kw)
  {
    ContainsIff(t.lower(t.text), t.lower(kw));
    ContainsIff(t.lower(t.profile), t.lower(kw));
  }

  lemma {:induction false} KeywordsCounted(t: Turn, kws: seq<string>)
    ensures KeywordsScore(t, kws) ==
            2.0 * Count(kws, kw => TextHit(t, kw)) as real + Count(kws, kw => ProfileHit(t, kw)) as real
  {
    if kws != [] {
      KeywordsCounted(t, kws[..|kws| - 1]);
      HitsIff(t, kws[|kws| - 1]);
    }
  }

  lemma {:induction false} GlobsCounted(t: Turn, globs: seq<string>)
    ensures GlobsScore(t, globs) == 2.0 * Count(globs, glob => t.globMatches(glob, t.text)) as real
  {
    if globs != [] { GlobsCounted(t, globs[..|globs| - 1]); }
  }

  lemma {:induction false} RulesCounted(t: Turn, rules: seq<Rule>)
    ensures RulesScore(t, rules) ==
            2.0 * Count(Keywords(rules), kw => TextHit(t, kw)) as real
            + Count(Keywords(rules), kw => ProfileHit(t, kw)) as real
            + 2.0 * Count(Globs(rules), glob => t.globMatches(glob, t.text)) as real
  {
    if rules != [] {
      var (init, last) := (rules[..|rules| - 1], rules[|rules| - 1]);
      RulesCounted(t, init);
      KeywordsCounted(t, last.keywords);
      GlobsCounted(t, last.fileGlobs);
      CountAppends(Keywords(init), last.keywords, kw => TextHit(t, kw));
      CountAppends(Keywords(init), last.keywords, kw => ProfileHit(t, kw));
      CountAppends(Globs(init), last.fileGlobs, glob => t.globMatches(glob, t.text));
    }
  }

  /** Without rules one half; else two for each keyword in the text and each glob, one for one only in the profile. */
  lemma {:induction false} ScoreCounts(t: Turn, s: Skill)
    ensures Score(t, s) ==
            if s.rules == [] then 0.5
            else 2.0 * Count(Keywords(s.rules), kw => TextHit(t, kw)) as real
                 + Count(Keywords(s.rules), kw => ProfileHit(t, kw)) as real
                 + 2.0 * Count(Globs(s.rules), glob => t.globMatches(glob, t.text)) as real
  {
    RulesCounted(t, s.rules);
  }

  /** `a` is listed before `b`, or might be if they tie. */
  ghost predicate ListedBefore(t: Turn, a: Skill, b: Skill) {
    Score(t, a) > Score(t, b) || (Score(t, a) == Score(t, b) && (a.slug == b.slug || Precedes(a.slug, b.slug)))
  }

  /** The chosen skills are listed by descending score and, where that ties, in dictionary order. */
  lemma {:induction false} ChosenInOrder(t: Turn, skills: seq<Skill>, k: nat)
    ensures var chosen := Chosen(t, skills, k);
            && |chosen| <= k && (forall i :: 0 <= i < |chosen| ==> chosen[i] in skills && Score(t, chosen[i]) > 0.0)
            && forall i, j :: 0 <= i < j < |chosen| ==> ListedBefore(t, chosen[i], chosen[j])
  {
    var chosen, omitted := TopKIsChosen(t, skills, k);
    forall i | 0 <= i < |chosen| ensures Scores(t, skills, chosen[i]) { InPositives(t, skills, chosen, omitted, i); }
    forall i, j | 0 <= i < j < |chosen| ensures ListedBefore(t, chosen[i].skill, chosen[j].skill) {
      assert Scores(t, skills, chosen[i]) && Scores(t, skills, chosen[j]) && RankLeq(chosen[i], chosen[j]);
      LeqIsDictionaryOrder(chosen[i].skill.slug, chosen[j].skill.slug);
    }
  }

  predicate Scores(t: Turn, skills: seq<Skill>, p: Scored) {
    p.skill in skills && p.score == Score(t, p.skill) && p.score > 0.0
  }

  lemma {:induction false} InPositives(t: Turn, skills: seq<Skill>, chosen: seq<Scored>, omitted: seq<Scored>, i: nat)
    requires SplitsRanking(t, skills, chosen, omitted) && i < |chosen|
    ensures Scores(t, skills, chosen[i])
  {
    assert chosen[i] in multiset(chosen) + multiset(omitted);
    assert chosen[i] in multiset(Positives(t, skills));
    PositivesMembers(t, skills, chosen[i]);
  }

  /** A skill that scores and is left out comes after all that are chosen, and then there are k of those. */
  lemma {:induction false} LeftOutComesAfter(t: Turn, skills: seq<Skill>, k: nat, s: Skill, i: nat)
    requires s in skills && Score(t, s) > 0.0 && s !in Chosen(t, skills, k)
    ensures |Chosen(t, skills, k)| == k
    ensures i < k ==> ListedBefore(t, Chosen(t, skills, k)[i], s)
  {
    var chosen, omitted := TopKIsChosen(t, skills, k);
    var p := Scored(Score(t, s), s);
    PositivesMembers(t, skills, p);
    assert p in multiset(Positives(t, skills));
    forall j | 0 <= j < |chosen| ensures chosen[j] != p { assert Skills(chosen)[j] in Skills(chosen); }
    assert p in multiset(chosen) + multiset(omitted);
    var j :| 0 <= j < |omitted| && omitted[j] == p;
    if i < k {
      InPositives(t, skills, chosen, omitted, i);
      assert RankLeq(chosen[i], omitted[j]);
      LeqIsDictionaryOrder(chosen[i].skill.slug, s.slug);
    }
  }

  /** The whole ranking, as far as the slice lets it through; a negative number cuts that many off the end. */
  lemma {:induction false} ListedIsAPrefix(t: Turn, skills: seq<Skill>, topK: int)
    ensures var (all, listed) := (Chosen(t, skills, |skills|), Chosen(t, skills, topK));
            && listed <= all
            && |listed| == if topK >= |all| then |all| else if topK >= 0 then topK
                           else if |all| + topK >= 0 then |all| + topK else 0
  {
    RankIsTotalPreorder();
    SortSpec(Positives(t, skills), RankLeq);
    FewerPositives(t, skills);
    Sliced(Sort(Positives(t, skills), RankLeq), topK);
  }

  lemma {:induction false} Sliced(ranked: seq<Scored>, k: int)
    ensures Skills(Slice(ranked, k)) <= Skills(ranked)
    ensures |Skills(Slice(ranked, k))| == if k >= |ranked| then |ranked| else if k >= 0 then k
                                          else if |ranked| + k >= 0 then |ranked| + k else 0
  {
    var n := |Slice(ranked, k)|;
    assert Slice(ranked, k) == ranked[..n];
    assert Skills(ranked)[..n] == Skills(ranked[..n]);
  }

  lemma {:induction false} FewerPositives(t: Turn, skills: seq<Skill>)
    ensures |Positives(t, skills)| <= |skills|
  {
    if skills != [] { FewerPositives(t, skills[..|skills| - 1]); }
  }

  /** Without a user text all skills are listed, in dictionary order. */
  lemma {:induction false} AllBySlug(skills: seq<Skill>)
    ensures var listed := Sort(skills, SlugLeq);
            && multiset(listed) == multiset(skills)
            && forall i, j :: 0 <= i < j < |listed| ==>
                 listed[i].slug == listed[j].slug || Precedes(listed[i].slug, listed[j].slug)
  {
    SlugPreorder();
    SortSpec(skills, SlugLeq);
    var listed := Sort(skills, SlugLeq);
    forall i, j | 0 <= i < j < |listed|
      ensures listed[i].slug == listed[j].slug || Precedes(listed[i].slug, listed[j].slug)
    {
      assert SlugLeq(listed[i], listed[j]);
      LeqIsDictionaryOrder(listed[i].slug, listed[j].slug);
    }
  }

  lemma {:induction false} SlugPreorder()
    ensures TotalPreorder(SlugLeq)
  {
    forall a: Skill, b: Skill ensures SlugLeq(a, b) || SlugLeq(b, a) { StrLeqTotal(a.slug, b.slug); }
    forall a: Skill, b: Skill, c: Skill | SlugLeq(a, b) && SlugLeq(b, c) ensures SlugLeq(a, c) {
      StrLeqTransitive(a.slug, b.slug, c.slug);
    }
  }
}
