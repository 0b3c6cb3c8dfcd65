/** What each operation makes of the official rows. */
module OfficialContents {
  import opened OfficialVersions
  import opened Options

  /** From `t` to `t'` only official rows of `slug` can have changed, and only in being current; `added` may be new. */
  ghost predicate OnlyCurrencyOf(t: Table, t': Table, slug: string, added: set<nat>) {
    && (forall i :: i in t.rows ==> i in t'.rows)
    && (forall i :: i in t'.rows ==> i in t.rows || i in added)
    && forall i :: i in t.rows ==>
         t'.rows[i] == if OfSlug(t.rows[i], slug) then t.rows[i].(isCurrent := t'.rows[i].isCurrent) else t.rows[i]
  }

  /** Field by field: what the patch gives, else what the row had. */
  predicate Takes<T(==)>(given: Option<T>, had: T, has: T) {
    match given
    case Some(v) => has == v
    case None => has == had
  }

  predicate PatchedRow(before: Row, p: Patch, after: Row) {
    && Takes(p.frontmatter, before.content.frontmatter, after.content.frontmatter)
    && Takes(p.body, before.content.body, after.content.body)
    && Takes(p.mandatory, before.content.mandatory, after.content.mandatory)
    && Takes(p.enabledDefault, before.content.enabledDefault, after.content.enabledDefault)
  }

  /** A create is accepted exactly while the slug has no current row, and adds version 1 with this content. */
  lemma {:induction false} CreateAdds(ops: seq<Op>, slug: string, content: Content)
    ensures var t := Run(ops);
            var (o, t') := Apply(t, Op.Create(slug, content));
            if exists c :: IsCurrent(t.rows, c, slug) then o == IntegrityError && t' == t
            else
              && o == Ok && t.next !in t.rows && OnlyCurrencyOf(t, t', slug, {t.next}) && t.next in t'.rows
              && var row := t'.rows[t.next];
                 OfSlug(row, slug) && row.isCurrent && row.version == 1 && row.content == content
  {
    RunInv(ops);
    var t := Run(ops);
    if c :| IsCurrent(t.rows, c, slug) { assert c in Currents(t.rows, slug); }
  }

  /**
   * An update is accepted exactly while the slug has a current row; the new row follows it by one version and
   * has the patched content.
   */
  lemma {:induction false} UpdatePatches(ops: seq<Op>, slug: string, patch: Patch, c: nat)
    ensures var t := Run(ops);
            var (o, t') := Apply(t, Op.Update(slug, patch));
            && (!(exists i :: IsCurrent(t.rows, i, slug)) ==> o == NotFound && t' == t)
            && (IsCurrent(t.rows, c, slug) ==>
                  && o == Ok && t.next !in t.rows && OnlyCurrencyOf(t, t', slug, {t.next}) && t.next in t'.rows
                  && !t'.rows[c].isCurrent
                  && var row := t'.rows[t.next];
                     && OfSlug(row, slug) && row.isCurrent && row.version == t.rows[c].version + 1
                     && PatchedRow(t.rows[c], patch, row))
  {
    RunInv(ops);
    var t := Run(ops);
    if IsCurrent(t.rows, c, slug) {
      assert c in Currents(t.rows, slug);
      assert The(Currents(t.rows, slug)) == c;
    }
  }

  /** A delete is accepted exactly while the slug has a current row, and only ends its being current. */
  lemma {:induction false} DeleteRetires(ops: seq<Op>, slug: string)
    ensures var t := Run(ops);
            var (o, t') := Apply(t, Op.Delete(slug));
            && OnlyCurrencyOf(t, t', slug, {}) && (forall i :: !IsCurrent(t'.rows, i, slug))
            && o == if exists c :: IsCurrent(t.rows, c, slug) then Ok else NotFound
  {
    RunInv(ops);
    var t := Run(ops);
    if c :| IsCurrent(t.rows, c, slug) { assert c in Currents(t.rows, slug); }
  }

  /** Row `i` is an official row of the slug with this version. */
  predicate HasVersion(t: Table, i: nat, slug: string, version: nat) {
    i in t.rows && OfSlug(t.rows[i], slug) && t.rows[i].version == version
  }

  /** A rollback needs one row with that version, which alone is current afterwards. */
  lemma {:induction false} RollbackPromotes(ops: seq<Op>, slug: string, version: nat)
    ensures var t := Run(ops);
            var (o, t') := Apply(t, Op.Rollback(slug, version));
            && (o == NotFound <==> !(exists i :: HasVersion(t, i, slug, version)))
            && (o == MultipleRows <==>
                  exists i, j :: i != j && HasVersion(t, i, slug, version) && HasVersion(t, j, slug, version))
            && (o in {Ok, NotFound, MultipleRows})
            && (o != Ok ==> t' == t)
            && (o == Ok ==>
                  && OnlyCurrencyOf(t, t', slug, {})
                  && forall i :: IsCurrent(t'.rows, i, slug) <==> HasVersion(t, i, slug, version))
  {
    RunInv(ops);
    var t := Run(ops);
    var found := Versions(t.rows, slug, version);
    VersionCases(t, slug, version);
    if |found| == 1 {
      CurrentAfter(ops, Op.Rollback(slug, version));
      RollbackOnlyMoves(t, slug, version);
      var t' := Apply(t, Op.Rollback(slug, version)).1;
      forall i ensures IsCurrent(t'.rows, i, slug) <==> HasVersion(t, i, slug, version) {
        assert IsCurrent(t'.rows, i, slug) <==> i in Currents(t'.rows, slug);
        assert HasVersion(t, i, slug, version) <==> i in found;
      }
    }
  }

  lemma {:induction false} VersionCases(t: Table, slug: string, version: nat)
    ensures var found := Versions(t.rows, slug, version);
            && (found == {} <==> !(exists i :: HasVersion(t, i, slug, version)))
            && (|found| > 1 <==>
                  exists i, j :: i != j && HasVersion(t, i, slug, version) && HasVersion(t, j, slug, version))
  {
    var found := Versions(t.rows, slug, version);
    assert forall i :: HasVersion(t, i, slug, version) <==> i in found;
    if i, j :| i != j && HasVersion(t, i, slug, version) && HasVersion(t, j, slug, version) { TwoIn(found, i, j); }
    if |found| > 1 {
      var i := The(found);
      assert |found - {i}| >= 1;
      var j := The(found - {i});
      assert HasVersion(t, i, slug, version) && HasVersion(t, j, slug, version);
    }
  }

  lemma {:induction false} RollbackOnlyMoves(t: Table, slug: string, version: nat)
    requires |Versions(t.rows, slug, version)| == 1
    ensures OnlyCurrencyOf(t, Apply(t, Op.Rollback(slug, version)).1, slug, {})
  {
  }

  /** User rows: added as current, or taken away, without touching any official row. */
  lemma {:induction false} UserRowsComeAndGo(ops: seq<Op>, userId: string, slug: string, content: Content)
    ensures var t := Run(ops);
            var (o, t') := Apply(t, CreateUser(userId, slug, content));
            var (_, t'') := Apply(t, DeleteUser(userId, slug));
            && (o == Ok ==> t'.rows == t.rows[t.next := Row(User(userId), slug, 1, true, content)] && t.next !in t.rows)
            && (o != Ok ==> t' == t)
            && (forall i :: i in t''.rows <==>
                              i in t.rows && !(t.rows[i].scope == User(userId) && t.rows[i].slug == slug))
            && (forall i :: i in t''.rows ==> t''.rows[i] == t.rows[i])
  {
    RunInv(ops);
  }

  /** A user creates a slug once, whatever is in the row, and again after deleting it. */
  lemma {:induction false} OncePerUserSlug(t: Table, userId: string, slug: string, first: Content, again: Content)
    ensures var t1 := Apply(t, CreateUser(userId, slug, first)).1;
            && Apply(t1, CreateUser(userId, slug, again)) == (IntegrityError, t1)
            && Apply(Apply(t1, DeleteUser(userId, slug)).1, CreateUser(userId, slug, again)).0 == Ok
  {
    var (o, t1) := Apply(t, CreateUser(userId, slug, first));
    if o == Ok { assert t1.rows[t.next] == Row(User(userId), slug, 1, true, first); }
  }
}
