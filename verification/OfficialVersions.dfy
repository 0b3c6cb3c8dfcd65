/** The version history of official rows: create, update, delete and rollback over one table. */
module OfficialVersions {
  import opened Options

  datatype Scope = Official | User(userId: string)

  datatype Content = Content(frontmatter: string, body: string, mandatory: bool, enabledDefault: bool)

  datatype Row = Row(scope: Scope, slug: string, version: nat, isCurrent: bool, content: Content)

  /** The arguments of an update; None keeps what the current row has. */
  datatype Patch = Patch(
    frontmatter: Option<string>, body: Option<string>, mandatory: Option<bool>, enabledDefault: Option<bool>)

  /** The table by row id; `next` is an id no row has had. */
  datatype Table = Table(rows: map<nat, Row>, next: nat)

  datatype Op =
    | Create(slug: string, content: Content)
    | Update(slug: string, patch: Patch)
    | Delete(slug: string)
    | Rollback(slug: string, version: nat)
    | CreateUser(userId: string, slug: string, content: Content)
    | DeleteUser(userId: string, slug: string)

  datatype Outcome = Ok | NotFound | IntegrityError | MultipleRows

  // ---------------------------------------------------------------- the specification

  predicate OfSlug(row: Row, slug: string) {
    row.scope == Official && row.slug == slug
  }

  predicate IsCurrent(rows: map<nat, Row>, i: nat, slug: string) {
    i in rows && OfSlug(rows[i], slug) && rows[i].isCurrent
  }

  /** The rows of a slug with this version number. */
  function Versions(rows: map<nat, Row>, slug: string, version: nat): (r: set<nat>) {
    set i | i in rows && OfSlug(rows[i], slug) && rows[i].version == version
  }

  function Currents(rows: map<nat, Row>, slug: string): (r: set<nat>) {
    set i | i in rows && IsCurrent(rows, i, slug)
  }

  /** UPDATE ... SET is_current = false WHERE the row is a current official row of the slug. */
  function Retire(rows: map<nat, Row>, slug: string): (r: map<nat, Row>) {
    map i | i in rows :: if IsCurrent(rows, i, slug) then rows[i].(isCurrent := false) else rows[i]
  }

  function Or<T>(o: Option<T>, default: T): (r: T) {
    if o.Some? then o.value else default
  }

  function Patched(c: Content, p: Patch): (r: Content) {
    Content(Or(p.frontmatter, c.frontmatter), Or(p.body, c.body), Or(p.mandatory, c.mandatory),
            Or(p.enabledDefault, c.enabledDefault))
  }

  function Add(t: Table, row: Row): (r: Table) {
    Table(t.rows[t.next := row], t.next + 1)
  }

  /** What each operation does; `current` is the row `get_official` finds. */
  ghost function Apply(t: Table, op: Op): (r: (Outcome, Table)) {
    match op
    case Create(slug, content) =>
      // the partial unique index rejects a second current row
      if Currents(t.rows, slug) != {} then (IntegrityError, t)
      else (Ok, Add(t, Row(Official, slug, 1, true, content)))
    case Update(slug, patch) =>
      if Currents(t.rows, slug) == {} then (NotFound, t)
      else
        var current := t.rows[The(Currents(t.rows, slug))];
        (Ok, Add(t.(rows := Retire(t.rows, slug)),
                 Row(Official, slug, current.version + 1, true, Patched(current.content, patch))))
    case Delete(slug) =>
      if Currents(t.rows, slug) == {} then (NotFound, t) else (Ok, t.(rows := Retire(t.rows, slug)))
    case Rollback(slug, version) =>
      var found := Versions(t.rows, slug, version);
      if found == {} then (NotFound, t)
      else if |found| > 1 then (MultipleRows, t)
      else
        var target := The(found);
        var retired := Retire(t.rows, slug);
        (Ok, t.(rows := retired[target := retired[target].(isCurrent := true)]))
    case CreateUser(userId, slug, content) =>
      if exists i :: i in t.rows && t.rows[i].scope == User(userId) && t.rows[i].slug == slug && t.rows[i].isCurrent
      then (IntegrityError, t) else (Ok, Add(t, Row(User(userId), slug, 1, true, content)))
    case DeleteUser(userId, slug) =>
      (Ok, t.(rows := map i | i in t.rows && !(t.rows[i].scope == User(userId) && t.rows[i].slug == slug) :: t.rows[i]))
  }

  /** The element of a non-empty set; where it is used the set has one element. */
  ghost function The(s: set<nat>): (i: nat)
    requires s != {}
    ensures i in s
  {
    var i :| i in s; i
  }

  // ---------------------------------------------------------------- the repository

  /** The database's index: at most one current official row per slug. */
  ghost predicate UniqueCurrent(rows: map<nat, Row>) {
    forall i, j, slug :: IsCurrent(rows, i, slug) && IsCurrent(rows, j, slug) ==> i == j
  }

  ghost predicate Fresh(t: Table) {
    forall i :: i in t.rows ==> i < t.next
  }

  class SkillRepo {
    var rows: map<nat, Row>
    var next: nat

    function Now(): (r: Table)
      reads this
    {
      Table(rows, next)
    }

    constructor ()
      ensures Now() == Table(map[], 0)
    {
      rows, next := map[], 0;
    }

    method GetOfficial(slug: string) returns (i: Option<nat>)
      requires UniqueCurrent(rows)
      ensures i == if Currents(rows, slug) == {} then None else Some(The(Currents(rows, slug)))
    {
      var found := Currents(rows, slug);
      if found == {} { return None; }
      var k :| k in found;
      i := Some(k);
    }

    method Flush(row: Row)
      requires Fresh(Now())
      modifies this
      ensures Now() == Add(old(Now()), row)
    {
      rows := rows[next := row];
      next := next + 1;
    }

    method SetCurrent(id: nat, value: bool)
      requires id in rows
      modifies this`rows
      ensures rows == old(rows)[id := old(rows)[id].(isCurrent := value)]
    {
      rows := rows[id := rows[id].(isCurrent := value)];
    }

    method CreateOfficial(slug: string, content: Content) returns (o: Outcome)
      requires UniqueCurrent(rows) && Fresh(Now())
      modifies this
      ensures (o, Now()) == Apply(old(Now()), Op.Create(slug, content)) && UniqueCurrent(rows)
    {
      if Currents(rows, slug) != {} { return IntegrityError; }
      Flush(Row(Official, slug, 1, true, content));
      o := Ok;
      CreateKeepsIndex(old(rows), next - 1, rows[next - 1]);
    }

    method UpdateOfficial(slug: string, patch: Patch) returns (o: Outcome)
      requires UniqueCurrent(rows) && Fresh(Now())
      modifies this
      ensures (o, Now()) == Apply(old(Now()), Op.Update(slug, patch)) && UniqueCurrent(rows)
    {
      var found := GetOfficial(slug);
      if found == None { return NotFound; }
      var current := rows[found.value];
      RetireOne(rows, slug, found.value);
      SetCurrent(found.value, false);
      RetireKeepsIndex(old(rows), slug);
      assert UniqueCurrent(rows); // the index holds between the two statements
      Flush(Row(Official, slug, current.version + 1, true, Patched(current.content, patch)));
      CreateKeepsIndex(Retire(old(rows), slug), next - 1, rows[next - 1]);
      o := Ok;
    }

    method DeleteOfficial(slug: string) returns (o: Outcome)
      requires UniqueCurrent(rows)
      modifies this
      ensures (o, Now()) == Apply(old(Now()), Op.Delete(slug)) && UniqueCurrent(rows)
    {
      var found := GetOfficial(slug);
      if found == None { return NotFound; }
      RetireOne(rows, slug, found.value);
      SetCurrent(found.value, false);
      RetireKeepsIndex(old(rows), slug);
      o := Ok;
    }

    method RollbackOfficial(slug: string, version: nat) returns (o: Outcome)
      requires UniqueCurrent(rows)
      modifies this
      ensures (o, Now()) == Apply(old(Now()), Op.Rollback(slug, version)) && UniqueCurrent(rows)
    {
      var found := Versions(rows, slug, version);
      if found == {} { return NotFound; }
      if |found| > 1 { return MultipleRows; }
      var target :| target in found;
      Singleton(found, target);
      rows := Retire(rows, slug);
      RetireKeepsIndex(old(rows), slug);
      assert UniqueCurrent(rows); // and between these two
      PromoteKeepsIndex(rows, target, slug);
      SetCurrent(target, true);
      o := Ok;
    }
  }

  lemma Singleton(s: set<nat>, i: nat)
    requires i in s && |s| <= 1
    ensures s == {i} && The(s) == i
  {
    assert |s - {i}| + 1 == |s|;
    assert s - {i} == {};
    assert s == {i};
  }

  /** With the index, retiring the slug is retiring the one current row. */
  lemma RetireOne(rows: map<nat, Row>, slug: string, i: nat)
    requires UniqueCurrent(rows) && IsCurrent(rows, i, slug)
    ensures Retire(rows, slug) == rows[i := rows[i].(isCurrent := false)]
  {
  }

  lemma RetireKeepsIndex(rows: map<nat, Row>, slug: string)
    requires UniqueCurrent(rows)
    ensures UniqueCurrent(Retire(rows, slug)) && Currents(Retire(rows, slug), slug) == {}
  {
    var r := Retire(rows, slug);
    forall i, j, s | IsCurrent(r, i, s) && IsCurrent(r, j, s) ensures i == j {
      assert IsCurrent(rows, i, s) && IsCurrent(rows, j, s);
    }
  }

  /** Making a row current while its slug has none. */
  lemma PromoteKeepsIndex(rows: map<nat, Row>, target: nat, slug: string)
    requires UniqueCurrent(rows) && Currents(rows, slug) == {} && target in rows && OfSlug(rows[target], slug)
    ensures UniqueCurrent(rows[target := rows[target].(isCurrent := true)])
  {
    var r := rows[target := rows[target].(isCurrent := true)];
    forall i, j, s | IsCurrent(r, i, s) && IsCurrent(r, j, s) ensures i == j {
      assert i != target ==> IsCurrent(rows, i, s) && i in Currents(rows, s);
      assert j != target ==> IsCurrent(rows, j, s) && j in Currents(rows, s);
    }
  }

  lemma CreateKeepsIndex(rows: map<nat, Row>, id: nat, row: Row)
    requires UniqueCurrent(rows) && id !in rows
    requires row.scope == Official && row.isCurrent ==> Currents(rows, row.slug) == {}
    ensures UniqueCurrent(rows[id := row])
  {
    var r := rows[id := row];
    forall i, j, s | IsCurrent(r, i, s) && IsCurrent(r, j, s) ensures i == j {
      assert i != id ==> IsCurrent(rows, i, s) && i in Currents(rows, s);
      assert j != id ==> IsCurrent(rows, j, s) && j in Currents(rows, s);
    }
  }

  // ---------------------------------------------------------------- whole histories

  ghost function Run(ops: seq<Op>): (r: Table) {
    if ops == [] then Table(map[], 0) else Apply(Run(ops[..|ops| - 1]), ops[|ops| - 1]).1
  }

  /** A slug's version numbers start at 1 and leave no gap. */
  ghost predicate NoGaps(rows: map<nat, Row>) {
    forall i :: i in rows && rows[i].scope == Official ==>
      rows[i].version >= 1 && (rows[i].version > 1 ==> Versions(rows, rows[i].slug, rows[i].version - 1) != {})
  }

  ghost predicate Inv(t: Table) {
    UniqueCurrent(t.rows) && Fresh(t) && NoGaps(t.rows)
  }

  /** `t'` has every official row of `t`, unchanged but for which one is current. */
  ghost predicate Keeps(t: Table, t': Table) {
    && t.next <= t'.next
    && forall i :: i in t.rows && t.rows[i].scope == Official ==>
         i in t'.rows && t'.rows[i] == t.rows[i].(isCurrent := t'.rows[i].isCurrent)
  }

  lemma RetireKeepsRows(t: Table, slug: string)
    requires Inv(t)
    ensures Inv(t.(rows := Retire(t.rows, slug))) && Keeps(t, t.(rows := Retire(t.rows, slug)))
  {
    RetireKeepsIndex(t.rows, slug);
    var r := Retire(t.rows, slug);
    forall i | i in r && r[i].scope == Official
      ensures r[i].version >= 1 && (r[i].version > 1 ==> Versions(r, r[i].slug, r[i].version - 1) != {})
    {
      if r[i].version > 1 {
        var k :| k in Versions(t.rows, t.rows[i].slug, t.rows[i].version - 1);
        assert k in Versions(r, r[i].slug, r[i].version - 1);
      }
    }
  }

  lemma AddKeepsRows(t: Table, row: Row)
    requires Inv(t) && (row.scope == Official && row.isCurrent ==> Currents(t.rows, row.slug) == {})
    requires row.version >= 1
    requires row.scope == Official && row.version > 1 ==> Versions(t.rows, row.slug, row.version - 1) != {}
    ensures Inv(Add(t, row)) && Keeps(t, Add(t, row))
  {
    var t' := Add(t, row);
    CreateKeepsIndex(t.rows, t.next, row);
    forall i | i in t'.rows && t'.rows[i].scope == Official && t'.rows[i].version > 1
      ensures Versions(t'.rows, t'.rows[i].slug, t'.rows[i].version - 1) != {}
    {
      var k :| k in Versions(t.rows, t'.rows[i].slug, t'.rows[i].version - 1);
      assert k in Versions(t'.rows, t'.rows[i].slug, t'.rows[i].version - 1);
    }
  }

  lemma UpdateKeepsInv(t: Table, slug: string, patch: Patch)
    requires Inv(t) && Currents(t.rows, slug) != {}
    ensures var t' := Apply(t, Op.Update(slug, patch)).1; Inv(t') && Keeps(t, t')
  {
    var i := The(Currents(t.rows, slug));
    var retired := t.(rows := Retire(t.rows, slug));
    RetireKeepsRows(t, slug);
    RetireKeepsIndex(t.rows, slug);
    var row := Row(Official, slug, t.rows[i].version + 1, true, Patched(t.rows[i].content, patch));
    assert i in Versions(retired.rows, slug, row.version - 1);
    AddKeepsRows(retired, row);
  }

  lemma PromoteKeepsRows(t: Table, target: nat, slug: string)
    requires Inv(t) && Currents(t.rows, slug) == {} && target in t.rows && OfSlug(t.rows[target], slug)
    ensures var t' := t.(rows := t.rows[target := t.rows[target].(isCurrent := true)]); Inv(t') && Keeps(t, t')
  {
    var r := t.rows[target := t.rows[target].(isCurrent := true)];
    PromoteKeepsIndex(t.rows, target, slug);
    forall i | i in r && r[i].scope == Official && r[i].version > 1
      ensures Versions(r, r[i].slug, r[i].version - 1) != {}
    {
      var k :| k in Versions(t.rows, t.rows[i].slug, t.rows[i].version - 1);
      assert k in Versions(r, r[i].slug, r[i].version - 1);
    }
  }

  lemma RollbackKeepsInv(t: Table, slug: string, version: nat)
    requires Inv(t)
    ensures var t' := Apply(t, Op.Rollback(slug, version)).1; Inv(t') && Keeps(t, t')
  {
    var found := Versions(t.rows, slug, version);
    if found != {} && |found| <= 1 {
      var retired := t.(rows := Retire(t.rows, slug));
      RetireKeepsRows(t, slug);
      RetireKeepsIndex(t.rows, slug);
      PromoteKeepsRows(retired, The(found), slug);
    }
  }

  lemma DeleteUserKeepsInv(t: Table, userId: string, slug: string)
    requires Inv(t)
    ensures var t' := Apply(t, DeleteUser(userId, slug)).1; Inv(t') && Keeps(t, t')
  {
    var r := Apply(t, DeleteUser(userId, slug)).1.rows;
    forall i, j, s | IsCurrent(r, i, s) && IsCurrent(r, j, s) ensures i == j {
      assert IsCurrent(t.rows, i, s) && IsCurrent(t.rows, j, s);
    }
    forall i | i in r && r[i].scope == Official && r[i].version > 1
      ensures Versions(r, r[i].slug, r[i].version - 1) != {}
    {
      var k :| k in Versions(t.rows, t.rows[i].slug, t.rows[i].version - 1);
      assert k in Versions(r, r[i].slug, r[i].version - 1);
    }
  }

  lemma ApplyKeeps(t: Table, op: Op)
    requires Inv(t)
    ensures Inv(Apply(t, op).1) && Keeps(t, Apply(t, op).1)
  {
    match op
    case Create(slug, content) =>
      if Currents(t.rows, slug) == {} { AddKeepsRows(t, Row(Official, slug, 1, true, content)); }
    case Update(slug, patch) => if Currents(t.rows, slug) != {} { UpdateKeepsInv(t, slug, patch); }
    case Delete(slug) => RetireKeepsRows(t, slug);
    case Rollback(slug, version) => RollbackKeepsInv(t, slug, version);
    case CreateUser(userId, slug, content) =>
      if Apply(t, op).0 == Ok { AddKeepsRows(t, Row(User(userId), slug, 1, true, content)); }
    case DeleteUser(userId, slug) => DeleteUserKeepsInv(t, userId, slug);
  }

  /** After any history at most one row per slug is current, ids are fresh and version numbers have no gaps. */
  lemma {:induction false} RunInv(ops: seq<Op>)
    ensures Inv(Run(ops))
  {
    if ops != [] {
      RunInv(ops[..|ops| - 1]);
      ApplyKeeps(Run(ops[..|ops| - 1]), ops[|ops| - 1]);
    }
  }

  /** No official row is ever lost, and none has its slug, version or content changed. */
  lemma {:induction false} NoRowIsLost(ops: seq<Op>, later: seq<Op>)
    ensures Keeps(Run(ops), Run(ops + later))
  {
    if later == [] {
      assert ops + later == ops;
    } else {
      var n := |later| - 1;
      NoRowIsLost(ops, later[..n]);
      assert (ops + later)[..|ops + later| - 1] == ops + later[..n];
      RunInv(ops + later[..n]);
      ApplyKeeps(Run(ops + later[..n]), later[n]);
    }
  }

  /** Delete leaves the slug with no current row; update and rollback leave exactly the row they name. */
  lemma {:induction false} CurrentAfter(ops: seq<Op>, op: Op)
    ensures var t := Run(ops);
            var (o, t') := Apply(t, op);
            && (op.Delete? ==> Currents(t'.rows, op.slug) == {})
            && (op.Update? && o == Ok ==> Currents(t'.rows, op.slug) == {t.next})
            && (op.Create? && o == Ok ==> Currents(t'.rows, op.slug) == {t.next})
            && (op.Rollback? && o == Ok ==> Currents(t'.rows, op.slug) == Versions(t.rows, op.slug, op.version))
  {
    var t := Run(ops);
    RunInv(ops);
    var (o, t') := Apply(t, op);
    if op.Delete? || op.Update? || op.Rollback? { RetireKeepsIndex(t.rows, op.slug); }
    if op.Update? && o == Ok {
      forall i | i in Currents(t'.rows, op.slug) ensures i == t.next {
        assert i != t.next ==> i !in Currents(Retire(t.rows, op.slug), op.slug);
      }
      assert IsCurrent(t'.rows, t.next, op.slug);
    }
    if op.Create? && o == Ok {
      forall i | i in Currents(t'.rows, op.slug) ensures i == t.next {
        assert i != t.next ==> i !in Currents(t.rows, op.slug);
      }
      assert IsCurrent(t'.rows, t.next, op.slug);
    }
    if op.Rollback? && o == Ok {
      var found := Versions(t.rows, op.slug, op.version);
      Singleton(found, The(found));
      forall i | i in Currents(t'.rows, op.slug) ensures i == The(found) {
        assert i != The(found) ==> i !in Currents(Retire(t.rows, op.slug), op.slug);
      }
      assert IsCurrent(t'.rows, The(found), op.slug);
    }
  }

  // ---------------------------------------------------------------- when version numbers stay unique

  predicate SameVersion(a: Row, b: Row, slug: string) {
    OfSlug(a, slug) && OfSlug(b, slug) && a.version == b.version
  }

  /** No two rows of the slug share a version number. */
  ghost predicate UniqueVersions(rows: map<nat, Row>, slug: string) {
    forall i, j :: i in rows && j in rows && SameVersion(rows[i], rows[j], slug) ==> i == j
  }

  /** The current row carries the highest version number of its slug. */
  ghost predicate CurrentIsLatest(rows: map<nat, Row>, slug: string) {
    forall i, j :: IsCurrent(rows, i, slug) && j in rows && OfSlug(rows[j], slug) ==> rows[j].version <= rows[i].version
  }

  /** With no gaps, every number up to a row's version is taken. */
  lemma {:induction false} VersionsBelow(rows: map<nat, Row>, i: nat, v: nat)
    requires NoGaps(rows) && i in rows && rows[i].scope == Official && 1 <= v <= rows[i].version
    ensures Versions(rows, rows[i].slug, v) != {}
    decreases rows[i].version
  {
    if v < rows[i].version {
      var k :| k in Versions(rows, rows[i].slug, rows[i].version - 1);
      VersionsBelow(rows, k, v);
    } else {
      assert i in Versions(rows, rows[i].slug, v);
    }
  }

  /** An update of a slug whose current row is not the latest repeats the next version number. */
  lemma StaleUpdateRepeats(t: Table, slug: string, patch: Patch)
    requires Inv(t) && !CurrentIsLatest(t.rows, slug) && Currents(t.rows, slug) != {}
    ensures var i := The(Currents(t.rows, slug));
            |Versions(Apply(t, Op.Update(slug, patch)).1.rows, slug, t.rows[i].version + 1)| > 1
  {
    var i := The(Currents(t.rows, slug));
    var c, j :| && IsCurrent(t.rows, c, slug) && j in t.rows && OfSlug(t.rows[j], slug)
                && t.rows[j].version > t.rows[c].version;
    assert c == i;
    VersionsBelow(t.rows, j, t.rows[i].version + 1);
    var k :| k in Versions(t.rows, slug, t.rows[i].version + 1);
    TwoIn(Versions(Apply(t, Op.Update(slug, patch)).1.rows, slug, t.rows[i].version + 1), k, t.next);
  }

  lemma RepeatIsNotUnique(rows: map<nat, Row>, slug: string, version: nat)
    requires |Versions(rows, slug, version)| > 1
    ensures !UniqueVersions(rows, slug)
  {
    var s := Versions(rows, slug, version);
    var a := The(s);
    assert |s - {a}| >= 1;
    var b := The(s - {a});
    assert SameVersion(rows[a], rows[b], slug);
  }

  lemma LatestUpdateStaysUnique(t: Table, slug: string, patch: Patch)
    requires Inv(t) && CurrentIsLatest(t.rows, slug) && Currents(t.rows, slug) != {} && UniqueVersions(t.rows, slug)
    ensures UniqueVersions(Apply(t, Op.Update(slug, patch)).1.rows, slug)
  {
    var i := The(Currents(t.rows, slug));
    var r := Apply(t, Op.Update(slug, patch)).1.rows;
    assert IsCurrent(t.rows, i, slug);
    forall a, b | a in r && b in r && SameVersion(r[a], r[b], slug) ensures a == b {
      if a != t.next && b != t.next { assert SameVersion(t.rows[a], t.rows[b], slug); }
    }
  }

  /** An update keeps version numbers unique exactly when the current row is the latest one. */
  lemma UpdateStaysUniqueIff(ops: seq<Op>, slug: string, patch: Patch)
    requires Currents(Run(ops).rows, slug) != {} && UniqueVersions(Run(ops).rows, slug)
    ensures var t := Run(ops);
            UniqueVersions(Apply(t, Op.Update(slug, patch)).1.rows, slug) <==> CurrentIsLatest(t.rows, slug)
  {
    RunInv(ops);
    var t := Run(ops);
    if CurrentIsLatest(t.rows, slug) {
      LatestUpdateStaysUnique(t, slug, patch);
    } else {
      StaleUpdateRepeats(t, slug, patch);
      RepeatIsNotUnique(Apply(t, Op.Update(slug, patch)).1.rows, slug, t.rows[The(Currents(t.rows, slug))].version + 1);
    }
  }

  /** A create repeats version 1 exactly when the slug already has a row. */
  lemma CreateStaysUniqueIff(ops: seq<Op>, slug: string, content: Content)
    requires Currents(Run(ops).rows, slug) == {} && UniqueVersions(Run(ops).rows, slug)
    ensures var t := Run(ops);
            UniqueVersions(Apply(t, Op.Create(slug, content)).1.rows, slug) <==>
              forall i :: i in t.rows ==> !OfSlug(t.rows[i], slug)
  {
    RunInv(ops);
    var t := Run(ops);
    var t' := Apply(t, Op.Create(slug, content)).1;
    if i :| i in t.rows && OfSlug(t.rows[i], slug) {
      VersionsBelow(t.rows, i, 1);
      var k :| k in Versions(t.rows, slug, 1);
      assert SameVersion(t'.rows[k], t'.rows[t.next], slug) && k != t.next;
    } else {
      forall a, b | a in t'.rows && b in t'.rows && SameVersion(t'.rows[a], t'.rows[b], slug) ensures a == b {}
    }
  }

  /** A repeated version number can never be rolled back to again, whatever is done later. */
  lemma RepeatedVersionIsUnreachable(ops: seq<Op>, later: seq<Op>, slug: string, version: nat)
    requires |Versions(Run(ops).rows, slug, version)| > 1
    ensures Apply(Run(ops + later), Op.Rollback(slug, version)) == (MultipleRows, Run(ops + later))
  {
    NoRowIsLost(ops, later);
    var a, b := Versions(Run(ops).rows, slug, version), Versions(Run(ops + later).rows, slug, version);
    assert a <= b;
    assert |b| == |a| + |b - a| by { assert b == a + (b - a); }
  }

  lemma {:induction false} RunLast(ops: seq<Op>, op: Op)
    ensures Run(ops + [op]) == Apply(Run(ops), op).1
  {
    assert (ops + [op])[..|ops|] == ops;
  }

  /**
   * Rolling back to an earlier version and then updating therefore makes the next version number
   * unreachable for good.
   */
  lemma {:induction false} RollbackThenUpdateBlocksAVersion(ops: seq<Op>, slug: string, version: nat, patch: Patch,
                                                            later: seq<Op>)
    requires |Versions(Run(ops).rows, slug, version)| == 1 && Versions(Run(ops).rows, slug, version + 1) != {}
    ensures var after := ops + [Op.Rollback(slug, version), Op.Update(slug, patch)];
            Apply(Run(after + later), Op.Rollback(slug, version + 1)).0 == MultipleRows
  {
    var mid, after := ops + [Op.Rollback(slug, version)], ops + [Op.Rollback(slug, version), Op.Update(slug, patch)];
    RunInv(mid);
    RollbackLeavesStale(ops, slug, version);
    StaleUpdateRepeats(Run(mid), slug, patch);
    RunLast(mid, Op.Update(slug, patch));
    assert after == mid + [Op.Update(slug, patch)];
    RepeatedVersionIsUnreachable(after, later, slug, version + 1);
  }

  /** After rolling back below an existing version the current row is not the latest. */
  lemma RollbackLeavesStale(ops: seq<Op>, slug: string, version: nat)
    requires |Versions(Run(ops).rows, slug, version)| == 1 && Versions(Run(ops).rows, slug, version + 1) != {}
    ensures var rows := Run(ops + [Op.Rollback(slug, version)]).rows;
            Currents(rows, slug) != {} && rows[The(Currents(rows, slug))].version == version &&
            !CurrentIsLatest(rows, slug)
  {
    var mid := ops + [Op.Rollback(slug, version)];
    assert mid[..|ops|] == ops;
    var t, t1 := Run(ops), Run(mid);
    RunInv(ops);
    CurrentAfter(ops, Op.Rollback(slug, version));
    ApplyKeeps(t, Op.Rollback(slug, version));
    var target, newer := The(Versions(t.rows, slug, version)), The(Versions(t.rows, slug, version + 1));
    Singleton(Versions(t.rows, slug, version), target);
    assert Currents(t1.rows, slug) == {target} && The(Currents(t1.rows, slug)) == target;
    assert IsCurrent(t1.rows, target, slug) && t1.rows[newer].version > t1.rows[target].version;
  }

  lemma TwoIn(s: set<nat>, i: nat, j: nat)
    requires i in s && j in s && i != j
    ensures |s| > 1
  {
    assert s == {i, j} + (s - {i, j});
    assert |s| == 2 + |s - {i, j}|;
  }
}
