/** What a ship, an insert and a failure do. */
module AuditEffects {
  import opened AuditShip

  /** Row `id` is in the table and older than `days` days. */
  predicate TooOld(s: State, days: int, id: nat) {
    id in s.table && s.table[id].ts < s.now - days * 86_400_000
  }

  /** `lines` are the `limit` too old rows with the smallest ids, or all of them, as they stand in the table. */
  ghost predicate OldestOf(s: State, days: int, limit: nat, lines: seq<Line>) {
    && |lines| <= limit
    && (forall i :: 0 <= i < |lines| ==> TooOld(s, days, lines[i].id) && lines[i].row == s.table[lines[i].id])
    && (forall i, j :: 0 <= i < j < |lines| ==> lines[i].id < lines[j].id)
    && (forall id :: TooOld(s, days, id) ==>
          (exists i :: 0 <= i < |lines| && lines[i].id == id)
          || (|lines| == limit && forall i :: 0 <= i < |lines| ==> lines[i].id < id))
  }

  /** The rows with these ids left the table, and no others. */
  ghost predicate Removed(before: map<nat, Row>, after: map<nat, Row>, lines: seq<Line>) {
    && (forall id :: id in after <==> id in before && forall i :: 0 <= i < |lines| ==> lines[i].id != id)
    && forall id :: id in after ==> after[id] == before[id]
  }

  /** The object store gained `lines` under `key`. */
  ghost predicate Gained(before: map<ObjectKey, seq<Line>>, after: map<ObjectKey, seq<Line>>, key: ObjectKey,
                         lines: seq<Line>) {
    && key !in before && key in after && after[key] == lines
    && forall k :: k != key ==> (k in after <==> k in before) && (k in before ==> after[k] == before[k])
  }

  /** From `s` to `s'` the oldest rows moved from the table into one new object. */
  ghost predicate Moved(s: State, s': State, uuid: nat, days: int, limit: nat, lines: seq<Line>) {
    && OldestOf(s, days, limit, lines) && Removed(s.table, s'.table, lines)
    && if lines == [] then s'.objects == s.objects
       else
         Gained(s.objects, s'.objects,
                ObjectKey(s.now - days * 86_400_000, uuid, lines[0].id, lines[|lines| - 1].id), lines)
  }

  lemma {:induction false} BatchIsOldest(s: State, days: int, limit: nat)
    requires Inv(s)
    ensures OldestOf(s, days, limit, Select(s.table, s.now - days * DAY_MS, limit, 0, s.bound))
  {
    var (cutoff, lines) := (s.now - days * DAY_MS, Select(s.table, s.now - days * DAY_MS, limit, 0, s.bound));
    SelectFits(s.table, cutoff, limit, 0, s.bound);
    forall id | TooOld(s, days, id)
      ensures (exists i :: 0 <= i < |lines| && lines[i].id == id)
              || (|lines| == limit && forall i :: 0 <= i < |lines| ==> lines[i].id < id)
    {
      SelectIsOldestBatch(s.table, cutoff, limit, 0, s.bound, id);
    }
  }

  lemma {:induction false} IdsRemoved(table: map<nat, Row>, lines: seq<Line>)
    ensures Removed(table, table - Ids(lines), lines)
  {
  }

  lemma {:induction false} ObjectGained(s: State, key: ObjectKey, lines: seq<Line>)
    requires Inv(s) && key.uuid !in s.uuids
    ensures Gained(s.objects, s.objects[key := lines], key, lines)
  {
  }

  lemma {:induction false} ShipMoves(s: State, sid: nat, uuid: nat, days: int, limit: nat, lines: seq<Line>)
    requires Inv(s) && sid !in s.shippers && uuid !in s.uuids
    requires lines == Select(s.table, s.now - days * DAY_MS, limit, 0, s.bound)
    ensures Moved(s, Apply(Apply(Apply(s, Begin(sid, days, limit)), PutOk(sid, uuid)), Delete(sid)),
                  uuid, days, limit, lines)
  {
    BatchIsOldest(s, days, limit);
    UndisturbedRun(s, sid, uuid, days, limit);
    IdsRemoved(s.table, lines);
    if lines != [] { ObjectGained(s, KeyOf(s.now - days * DAY_MS, uuid, lines), lines); }
  }

  /**
   * A shipper that runs undisturbed after any run moves the oldest rows past the retention, and only those, into
   * one new object named after its cutoff, its draw and its first and last row.
   */
  lemma {:induction false} ShipMovesTheOldest(now: int, steps: seq<Step>, sid: nat, uuid: nat, days: int, limit: nat)
    returns (lines: seq<Line>)
    requires sid !in Run(now, steps).shippers && uuid !in Run(now, steps).uuids
    ensures var s := Run(now, steps);
            Moved(s, Apply(Apply(Apply(s, Begin(sid, days, limit)), PutOk(sid, uuid)), Delete(sid)),
                  uuid, days, limit, lines)
  {
    var s := Run(now, steps);
    lines := Select(s.table, s.now - days * DAY_MS, limit, 0, s.bound);
    RunInv(now, steps);
    ShipMoves(s, sid, uuid, days, limit, lines);
  }

  /** A failed upload ends the shipper: the object may be there, but the table keeps every row. */
  lemma {:induction false} FailedUploadDeletesNothing(s: State, sid: nat, uuid: nat, stored: bool)
    requires At(s, sid, Selected) && s.shippers[sid].lines != [] && uuid !in s.uuids
    requires forall key :: key in s.objects ==> key.uuid in s.uuids
    ensures var (sh, s') := (s.shippers[sid], Apply(s, PutFails(sid, uuid, stored)));
            && s'.table == s.table && At(s', sid, Stopped) && Apply(s', Delete(sid)).table == s.table
            && var key := ObjectKey(sh.cutoff, uuid, sh.lines[0].id, sh.lines[|sh.lines| - 1].id);
               if stored then Gained(s.objects, s'.objects, key, sh.lines) else s'.objects == s.objects
  {
  }

  /** A new row is in the table as written; an id is used once. */
  lemma {:induction false} InsertAdds(s: State, id: nat, row: Row)
    ensures var s' := Apply(s, Insert(id, row));
            if id in s.inserted then s' == s
            else s'.table == s.table[id := row] && s'.inserted == s.inserted[id := row] && s'.objects == s.objects
  {
  }

  /** Anonymising a row changes who did it and nothing else. */
  lemma {:induction false} AnonymiseChangesTheActor(s: State, id: nat, actor: string)
    ensures var s' := Apply(s, Anonymise(id, actor));
            && s'.objects == s.objects && s'.table.Keys == s.table.Keys && s'.inserted == s.inserted
            && forall k :: k in s.table ==>
                 && s'.table[k].actor == (if k == id then actor else s.table[k].actor)
                 && s'.table[k].ts == s.table[k].ts && s'.table[k].facts == s.table[k].facts
  {
  }

  /** A shipper that dies does nothing more. */
  lemma {:induction false} CrashedShipperIsOver(s: State, sid: nat, uuid: nat, stored: bool)
    requires sid in s.shippers
    ensures var s' := Apply(s, Crash(sid));
            && s'.table == s.table && s'.objects == s.objects
            && Apply(s', PutOk(sid, uuid)) == s' && Apply(s', PutFails(sid, uuid, stored)) == s'
            && Apply(s', Delete(sid)) == s'
  {
  }
}
