/** What a tick sends and stamps. */
module CronMessages {
  import opened CronTick
  import opened Dictionary
  import opened Options
  import opened Sequences
  import opened Sorting

  /** `m` is the message of `job` to `user`, field by field. */
  predicate Carries(m: Message, job: Job, user: string, now: int) {
    && m.jobId == job.id && m.scope == job.scope && m.slug == job.slug && m.userId == user
    && m.prompt == job.prompt && m.webhook == job.webhook && m.scheduledFor == now
  }

  /** The messages of one job, in the order in which they were sent. */
  function MessagesOf(sent: seq<Message>, id: nat): (r: seq<Message>) {
    if sent == [] then []
    else MessagesOf(sent[..|sent| - 1], id) + if sent[|sent| - 1].jobId == id then [sent[|sent| - 1]] else []
  }

  /** The job is enabled and due, and if it is a user's there is a user to send to. */
  predicate Sends(c: Calendar, job: Job, now: int) {
    var next := c.next(job.expr, job.lastFired, now);
    job.enabled && (job.scope == User ==> job.userId.Some?) && next.At? && next.time <= now
  }

  /** A user's job goes to that user, an official one to every active user in turn. */
  ghost predicate SentFor(c: Calendar, job: Job, users: seq<string>, now: int, sent: seq<Message>) {
    if !Sends(c, job, now) then sent == []
    else if job.scope == User then |sent| == 1 && Carries(sent[0], job, job.userId.value, now)
    else |sent| == |users| && forall k :: 0 <= k < |users| ==> Carries(sent[k], job, users[k], now)
  }

  // ---------------------------------------------------------------- one row

  lemma {:induction false} OfAppend(a: seq<Message>, b: seq<Message>, id: nat)
    ensures MessagesOf(a + b, id) == MessagesOf(a, id) + MessagesOf(b, id)
  {
    if b == [] {
      AppendNil(a);
      AppendNil(MessagesOf(a, id));
    } else {
      var init, last := b[..|b| - 1], b[|b| - 1];
      AppendLast(b);
      Assoc(a, init, [last]);
      InitLast(a + init, last);
      OfAppend(a, init, id);
      Assoc(MessagesOf(a, id), MessagesOf(init, id), if last.jobId == id then [last] else []);
    }
  }

  lemma {:induction false} AllOf(sent: seq<Message>, id: nat)
    requires forall i :: 0 <= i < |sent| ==> sent[i].jobId == id
    ensures MessagesOf(sent, id) == sent
  {
    if sent != [] {
      AllOf(sent[..|sent| - 1], id);
      AppendLast(sent);
    }
  }

  lemma {:induction false} NoneOf(sent: seq<Message>, id: nat)
    requires forall i :: 0 <= i < |sent| ==> sent[i].jobId != id
    ensures MessagesOf(sent, id) == []
  {
    if sent != [] { NoneOf(sent[..|sent| - 1], id); }
  }

  lemma {:induction false} Expanded(job: Job, users: seq<string>, now: int)
    requires job.scope == Official
    ensures |Expand(job, users, now)| == |users|
    ensures forall k :: 0 <= k < |users| ==> Carries(Expand(job, users, now)[k], job, users[k], now)
  {
    if users != [] { Expanded(job, users[1..], now); }
  }

  function RowSent(c: Calendar, job: Job, users: seq<string>, now: int): (r: seq<Message>) {
    if Fires(c, job, now) then Messages(job, users, now) else []
  }

  lemma {:induction false} RowSends(c: Calendar, job: Job, users: seq<string>, now: int)
    ensures SentFor(c, job, users, now, RowSent(c, job, users, now))
    ensures forall i :: 0 <= i < |RowSent(c, job, users, now)| ==> RowSent(c, job, users, now)[i].jobId == job.id
  {
    if job.scope == Official { Expanded(job, users, now); }
  }

  // ---------------------------------------------------------------- the rows of a tick

  lemma {:induction false} OtherRowsSend(c: Calendar, rows: seq<Job>, users: seq<string>, now: int, id: nat)
    requires forall k :: 0 <= k < |rows| ==> rows[k].id != id
    ensures MessagesOf(Batch(c, rows, users, now), id) == []
  {
    if rows != [] {
      var n := |rows| - 1;
      OtherRowsSend(c, rows[..n], users, now, id);
      RowSends(c, rows[n], users, now);
      NoneOf(RowSent(c, rows[n], users, now), id);
      OfAppend(Batch(c, rows[..n], users, now), RowSent(c, rows[n], users, now), id);
    }
  }

  lemma {:induction false} BatchOf(c: Calendar, rows: seq<Job>, users: seq<string>, now: int, k: nat)
    requires DistinctIds(rows) && k < |rows|
    ensures MessagesOf(Batch(c, rows, users, now), rows[k].id) == RowSent(c, rows[k], users, now)
  {
    var n := |rows| - 1;
    var (before, last) := (Batch(c, rows[..n], users, now), RowSent(c, rows[n], users, now));
    RowSends(c, rows[n], users, now);
    OfAppend(before, last, rows[k].id);
    if k == n {
      OtherRowsSend(c, rows[..n], users, now, rows[n].id);
      AllOf(last, rows[n].id);
    } else {
      BatchOf(c, rows[..n], users, now, k);
      NoneOf(last, rows[k].id);
      AppendNil(MessagesOf(before, rows[k].id));
    }
  }

  lemma {:induction false} CountOnce(rows: seq<Job>, job: Job)
    requires DistinctIds(rows)
    ensures multiset(rows)[job] <= 1
  {
    if rows != [] {
      var n := |rows| - 1;
      CountOnce(rows[..n], job);
      AppendLast(rows);
      CountAppend(rows[..n], rows[n], job);
      if rows[n] == job {
        assert forall k :: 0 <= k < n ==> rows[..n][k] != job;
        assert job !in rows[..n];
      }
    }
  }

  lemma {:induction false} EnabledDistinct(jobs: seq<Job>)
    requires DistinctIds(jobs)
    ensures DistinctIds(Enabled(jobs))
  {
    if jobs != [] {
      var rest := Enabled(jobs[1..]);
      EnabledDistinct(jobs[1..]);
      forall k | 0 <= k < |rest| ensures rest[k].id != jobs[0].id {
        EnabledMembers(jobs[1..], rest[k]);
        var j :| 0 <= j < |jobs[1..]| && jobs[1..][j] == rest[k];
        assert jobs[j + 1] == rest[k];
      }
    }
  }

  lemma {:induction false} TwiceCounts(rows: seq<Job>, i: nat, j: nat)
    requires i < j < |rows| && rows[i] == rows[j]
    ensures multiset(rows)[rows[i]] >= 2
  {
    var (a, b) := (rows[..j], rows[j..]);
    assert rows == a + b;
    assert rows[i] in multiset(a) && rows[i] in multiset(b) by { assert a[i] == rows[i] && b[0] == rows[j]; }
  }

  lemma {:induction false} ListedDistinct(jobs: seq<Job>)
    requires DistinctIds(jobs)
    ensures DistinctIds(ListEnabled(jobs))
  {
    var (enabled, rows) := (Enabled(jobs), ListEnabled(jobs));
    ScopeSlugPreorder();
    SortSpec(enabled, ScopeSlugLeq);
    EnabledDistinct(jobs);
    forall i, j | 0 <= i < j < |rows| ensures rows[i].id != rows[j].id {
      if rows[i].id == rows[j].id {
        ListedOnce(jobs, rows[i], rows[j]);
        CountOnce(enabled, rows[i]);
        TwiceCounts(rows, i, j);
      }
    }
  }

  lemma {:induction false} ListedOnce(jobs: seq<Job>, a: Job, b: Job)
    requires DistinctIds(jobs) && a in ListEnabled(jobs) && b in ListEnabled(jobs) && a.id == b.id
    ensures a == b
  {
    ListedIsEnabled(jobs, a);
    ListedIsEnabled(jobs, b);
    var i :| 0 <= i < |jobs| && jobs[i] == a;
    var j :| 0 <= j < |jobs| && jobs[j] == b;
  }

  // ---------------------------------------------------------------- the tick

  /** Each job's messages are the ones it should send; no job, no message. */
  lemma {:induction false} TickSends(c: Calendar, jobs: seq<Job>, users: seq<string>, now: int)
    requires DistinctIds(jobs)
    ensures var sent := Batch(c, ListEnabled(jobs), users, now);
            && (forall i :: 0 <= i < |jobs| ==> SentFor(c, jobs[i], users, now, MessagesOf(sent, jobs[i].id)))
            && forall id :: (forall i :: 0 <= i < |jobs| ==> jobs[i].id != id) ==> MessagesOf(sent, id) == []
  {
    var (rows, sent) := (ListEnabled(jobs), Batch(c, ListEnabled(jobs), users, now));
    ListedDistinct(jobs);
    forall i | 0 <= i < |jobs| ensures SentFor(c, jobs[i], users, now, MessagesOf(sent, jobs[i].id)) {
      JobSends(c, jobs, users, now, i);
    }
    forall id: nat | forall i :: 0 <= i < |jobs| ==> jobs[i].id != id ensures MessagesOf(sent, id) == [] {
      forall k | 0 <= k < |rows| ensures rows[k].id != id { ListedIsEnabled(jobs, rows[k]); }
      OtherRowsSend(c, rows, users, now, id);
    }
  }

  lemma {:induction false} JobSends(c: Calendar, jobs: seq<Job>, users: seq<string>, now: int, i: nat)
    requires DistinctIds(jobs) && i < |jobs|
    ensures SentFor(c, jobs[i], users, now, MessagesOf(Batch(c, ListEnabled(jobs), users, now), jobs[i].id))
  {
    var rows := ListEnabled(jobs);
    ListedDistinct(jobs);
    ListedIsEnabled(jobs, jobs[i]);
    if jobs[i] in rows {
      var k :| 0 <= k < |rows| && rows[k] == jobs[i];
      BatchOf(c, rows, users, now, k);
      RowSends(c, jobs[i], users, now);
    } else {
      forall k | 0 <= k < |rows| ensures rows[k].id != jobs[i].id {
        ListedIsEnabled(jobs, rows[k]);
        var j :| 0 <= j < |jobs| && jobs[j] == rows[k];
      }
      OtherRowsSend(c, rows, users, now, jobs[i].id);
    }
  }

  /** A job that sends is stamped with the tick's time and loses its strikes; nothing else in the table changes. */
  lemma {:induction false} TickStamps(c: Calendar, jobs: seq<Job>, now: int, i: nat)
    requires DistinctIds(jobs) && i < |jobs|
    ensures var after := Stamp(jobs, Fired(c, ListEnabled(jobs), now), now);
            && |after| == |jobs|
            && (!Sends(c, jobs[i], now) ==> after[i] == jobs[i])
            && (Sends(c, jobs[i], now) ==>
                  && after[i].lastFired == Some(now) && after[i].strikes == 0
                  && after[i] == jobs[i].(lastFired := after[i].lastFired, strikes := after[i].strikes))
  {
    TickIsPerJob(c, jobs, now);
  }

  /** Official jobs are sent before user jobs, and jobs of one scope by slug. */
  lemma {:induction false} RowsInOrder(jobs: seq<Job>, i: nat, j: nat)
    requires i < j < |ListEnabled(jobs)|
    ensures var (a, b) := (ListEnabled(jobs)[i], ListEnabled(jobs)[j]);
            && (a.scope == User ==> b.scope == User)
            && (a.scope == b.scope ==> a.slug == b.slug || Precedes(a.slug, b.slug))
  {
    ScopeSlugPreorder();
    SortSpec(Enabled(jobs), ScopeSlugLeq);
    LeqIsDictionaryOrder(ListEnabled(jobs)[i].slug, ListEnabled(jobs)[j].slug);
  }
}
