/**
 The job tables of internal/store/jobs.go. `Tables` is the content of async_jobs and
 async_job_items; each function below is the effect of one write transaction, and the class
 `JobStore` performs the same transactions by updating its tables in place.
 */
module Jobs {
  import opened Common

  type JobId = string
  type ItemId = string

  datatype Status = Pending | Running | Done | Failed

  datatype Job = Job(
    kind: string, createdBy: string, status: Status,
    total: nat, doneCount: nat, failedCount: nat)

  datatype Item = Item(
    job: JobId, url: string, status: Status,
    feed: string, error: string, updatedAt: int)

  datatype Tables = Tables(jobs: map<JobId, Job>, items: map<ItemId, Item>)

  const MINUTE := 60

  predicate Live(s: Status) {
    s.Pending? || s.Running?
  }

  function Items(t: Tables, j: JobId): set<ItemId> {
    set i | i in t.items && t.items[i].job == j
  }

  /** Ids of the items of job `j` with status `s`. */
  function ItemsIn(t: Tables, j: JobId, s: Status): set<ItemId> {
    set i | i in t.items && t.items[i].job == j && t.items[i].status == s
  }

  /** Ids of the items of job `j` that are pending or running. */
  function LiveItems(t: Tables, j: JobId): set<ItemId> {
    set i | i in t.items && t.items[i].job == j && Live(t.items[i].status)
  }

  // ---------- transactions ----------

  /** The item table after the first `n` inserts of a new job. */
  function Inserted(items: map<ItemId, Item>, j: JobId, ids: seq<ItemId>, urls: seq<string>, now: int, n: nat)
    : map<ItemId, Item>
    requires n <= |ids| == |urls|
  {
    if n == 0 then items
    else Inserted(items, j, ids, urls, now, n - 1)[ids[n - 1] := Item(j, urls[n - 1], Pending, "", "", now)]
  }

  function Create(t: Tables, j: JobId, kind: string, creator: string,
                  ids: seq<ItemId>, urls: seq<string>, now: int): Tables
    requires |ids| == |urls|
  {
    Tables(t.jobs[j := Job(kind, creator, Pending, |urls|, 0, 0)], Inserted(t.items, j, ids, urls, now, |ids|))
  }

  function SetStatus(t: Tables, j: JobId, s: Status): Tables {
    if j in t.jobs then t.(jobs := t.jobs[j := t.jobs[j].(status := s)]) else t
  }

  /** `SELECT ... WHERE job_id=? AND status='pending' LIMIT ?`: any rows of the job, as many as the limit allows. */
  ghost predicate Claimable(t: Tables, j: JobId, limit: nat, batch: seq<ItemId>) {
    && Distinct(batch)
    && (forall i :: i in batch ==> i in ItemsIn(t, j, Pending))
    && |batch| == Min(limit, |ItemsIn(t, j, Pending)|)
  }

  function Claim(t: Tables, batch: set<ItemId>, now: int): Tables {
    t.(items := map i | i in t.items ::
      if i in batch then t.items[i].(status := Running, updatedAt := now) else t.items[i])
  }

  function MarkDone(t: Tables, i: ItemId, feed: string, now: int): Tables {
    if i !in t.items then t else
    var j := t.items[i].job;
    Tables(
      if j in t.jobs then t.jobs[j := t.jobs[j].(doneCount := t.jobs[j].doneCount + 1)] else t.jobs,
      t.items[i := t.items[i].(status := Done, feed := feed, updatedAt := now)])
  }

  function MarkFailed(t: Tables, i: ItemId, error: string, now: int): Tables {
    if i !in t.items then t else
    var j := t.items[i].job;
    Tables(
      if j in t.jobs then t.jobs[j := t.jobs[j].(failedCount := t.jobs[j].failedCount + 1)] else t.jobs,
      t.items[i := t.items[i].(status := Failed, error := error, updatedAt := now)])
  }

  /** An age below one minute is replaced by fifteen minutes. */
  function StaleAge(age: int): (a: int)
    ensures MINUTE <= a
    ensures age >= 60 ==> a == age
    ensures age < 60 ==> a == 900
  {
    if age < MINUTE then 15 * MINUTE else age
  }

  /** Ids of the running items of any job that a reclaim takes. */
  function Stale(t: Tables, age: int, now: int): set<ItemId> {
    set i | i in t.items && t.items[i].status == Running && t.items[i].updatedAt < now - StaleAge(age)
  }

  function Reclaim(t: Tables, age: int, now: int): Tables {
    t.(items := map i | i in t.items ::
      if t.items[i].status == Running && t.items[i].updatedAt < now - StaleAge(age)
      then t.items[i].(status := Pending, updatedAt := now) else t.items[i])
  }

  function Remaining(t: Tables, j: JobId): nat {
    |LiveItems(t, j)|
  }

  // ---------- what the transactions write, column by column ----------

  /** A new job row, and one pending item row for each url. */
  ghost predicate Created(t: Tables, t': Tables, j: JobId, kind: string, creator: string,
                          ids: seq<ItemId>, urls: seq<string>, now: int)
    requires |ids| == |urls|
  {
    && t'.jobs == t.jobs[j := Job(kind, creator, Pending, |urls|, 0, 0)]
    && t'.items.Keys == t.items.Keys + SetOf(ids)
    && (forall i :: i in t.items && i !in ids ==> t'.items[i] == t.items[i])
    && (forall k :: 0 <= k < |ids| ==> t'.items[ids[k]] == Item(j, urls[k], Pending, "", "", now))
  }

  /** One job row has a new status, everything else is as before. */
  ghost predicate StatusSet(t: Tables, t': Tables, j: JobId, s: Status) {
    && t'.items == t.items && t'.jobs.Keys == t.jobs.Keys
    && (forall k :: k in t.jobs && k != j ==> t'.jobs[k] == t.jobs[k])
    && (j in t.jobs ==>
          && t'.jobs[j].status == s
          && t'.jobs[j].kind == t.jobs[j].kind && t'.jobs[j].createdBy == t.jobs[j].createdBy
          && t'.jobs[j].total == t.jobs[j].total
          && t'.jobs[j].doneCount == t.jobs[j].doneCount && t'.jobs[j].failedCount == t.jobs[j].failedCount)
  }

  /** The rows of `batch` are running as of `now`, every other row and column is as before. */
  ghost predicate Claimed(t: Tables, t': Tables, batch: set<ItemId>, now: int) {
    && t'.jobs == t.jobs && t'.items.Keys == t.items.Keys
    && forall i :: i in t.items ==>
         if i in batch then
           && t'.items[i].status == Running && t'.items[i].updatedAt == now
           && t'.items[i].job == t.items[i].job && t'.items[i].url == t.items[i].url
           && t'.items[i].feed == t.items[i].feed && t'.items[i].error == t.items[i].error
         else t'.items[i] == t.items[i]
  }

  /** Item `i` has status `s` with this feed and error, and its job counts one more item of that status. */
  ghost predicate Marked(t: Tables, t': Tables, i: ItemId, s: Status, feed: string, error: string, now: int)
    requires i in t.items
  {
    var j := t.items[i].job;
    && t'.items == t.items[i := Item(j, t.items[i].url, s, feed, error, now)]
    && t'.jobs.Keys == t.jobs.Keys && (forall k :: k in t.jobs && k != j ==> t'.jobs[k] == t.jobs[k])
    && (j in t.jobs ==>
          t'.jobs[j] == Job(t.jobs[j].kind, t.jobs[j].createdBy, t.jobs[j].status, t.jobs[j].total,
                            t.jobs[j].doneCount + (if s == Done then 1 else 0),
                            t.jobs[j].failedCount + (if s == Failed then 1 else 0)))
  }

  /** Exactly the running items not touched for `limit` seconds are pending again, as of `now`. */
  ghost predicate Reclaimed(t: Tables, t': Tables, limit: int, now: int) {
    && t'.jobs == t.jobs && t'.items.Keys == t.items.Keys
    && forall i :: i in t.items ==>
         if t.items[i].status == Running && now - t.items[i].updatedAt > limit then
           && t'.items[i].status == Pending && t'.items[i].updatedAt == now
           && t'.items[i].job == t.items[i].job && t'.items[i].url == t.items[i].url
           && t'.items[i].feed == t.items[i].feed && t'.items[i].error == t.items[i].error
         else t'.items[i] == t.items[i]
  }

  lemma CreateWrites(t: Tables, j: JobId, kind: string, creator: string, ids: seq<ItemId>, urls: seq<string>, now: int)
    requires |ids| == |urls| && Distinct(ids)
    ensures Created(t, Create(t, j, kind, creator, ids, urls, now), j, kind, creator, ids, urls, now)
  {
    InsertedRows(t.items, j, ids, urls, now, |ids|);
    assert ids[..|ids|] == ids;
  }

  lemma SetStatusWrites(t: Tables, j: JobId, s: Status)
    ensures StatusSet(t, SetStatus(t, j, s), j, s)
  {
  }

  lemma ClaimWrites(t: Tables, batch: set<ItemId>, now: int)
    ensures Claimed(t, Claim(t, batch, now), batch, now)
  {
  }

  lemma MarkWrites(t: Tables, i: ItemId, outcome: Result<string, string>, now: int)
    requires i in t.items
    ensures match outcome
            case Ok(feed) => Marked(t, Mark(t, i, outcome, now), i, Done, feed, t.items[i].error, now)
            case Err(error) => Marked(t, Mark(t, i, outcome, now), i, Failed, t.items[i].feed, error, now)
  {
  }

  lemma ReclaimWrites(t: Tables, age: int, now: int)
    ensures Reclaimed(t, Reclaim(t, age, now), if age >= 60 then age else 900, now)
  {
  }

  // ---------- the store ----------

  class JobStore {
    var jobs: map<JobId, Job>
    var items: map<ItemId, Item>

    constructor ()
      ensures State() == Tables(map[], map[])
    {
      jobs, items := map[], map[];
    }

    function State(): Tables
      reads this
    {
      Tables(jobs, items)
    }

    /** `ids` are the generated item ids; `commits` says whether the transaction commits. */
    method CreateJob(id: JobId, kind: string, creator: string, ids: seq<ItemId>, urls: seq<string>,
                     now: int, commits: bool) returns (ok: bool)
      requires |ids| == |urls|
      modifies this
      ensures ok == commits
      ensures State() == if ok then Create(old(State()), id, kind, creator, ids, urls, now) else old(State())
      ensures ok && Distinct(ids) ==> Created(old(State()), State(), id, kind, creator, ids, urls, now)
    {
      if !commits { return false; }
      if Distinct(ids) { CreateWrites(State(), id, kind, creator, ids, urls, now); }
      jobs := jobs[id := Job(kind, creator, Pending, |urls|, 0, 0)];
      for k := 0 to |urls|
        modifies `items
        invariant items == Inserted(old(items), id, ids, urls, now, k)
      {
        items := items[ids[k] := Item(id, urls[k], Pending, "", "", now)];
      }
      return true;
    }

    method SetJobStatus(id: JobId, s: Status, commits: bool) returns (ok: bool)
      modifies this
      ensures ok == commits
      ensures State() == if ok then SetStatus(old(State()), id, s) else old(State())
      ensures ok ==> StatusSet(old(State()), State(), id, s)
    {
      if commits && id in jobs {
        jobs := jobs[id := jobs[id].(status := s)];
      }
      return commits;
    }

    /** A failed claim changes nothing, but still hands back the items it had claimed before it failed. */
    method ClaimPendingItems(id: JobId, limit: nat, now: int, commits: bool)
      returns (ok: bool, out: seq<ItemId>)
      modifies this
      ensures ok == commits
      ensures !ok ==> State() == old(State())
      ensures !ok ==> Distinct(out) && |out| <= limit
      ensures !ok ==> forall i :: i in out ==> i in ItemsIn(old(State()), id, Pending)
      ensures ok ==> Claimable(old(State()), id, limit, out)
      ensures ok ==> State() == Claim(old(State()), SetOf(out), now)
      ensures ok ==> Claimed(old(State()), State(), SetOf(out), now)
    {
      var candidates := SelectPending(id, limit);
      if !commits {
        var reached :| 0 <= reached <= |candidates|;
        return false, candidates[..reached];
      }
      out := [];
      ghost var before := State();
      for k := 0 to |candidates|
        modifies `items
        invariant out == candidates[..k]
        invariant State() == Claim(before, SetOf(candidates[..k]), now)
      {
        var i := candidates[k];
        assert i !in candidates[..k] && i in ItemsIn(before, id, Pending);
        assert candidates[..k + 1] == candidates[..k] + [i];
        if i in items && items[i].status == Pending {
          items := items[i := items[i].(status := Running, updatedAt := now)];
          out := out + [i];
        }
      }
      assert candidates[..|candidates|] == candidates;
      ClaimWrites(before, SetOf(out), now);
      ok := true;
    }

    /** The SELECT of the claim: the database may return any pending rows of the job, up to the limit. */
    method SelectPending(id: JobId, limit: nat) returns (out: seq<ItemId>)
      ensures Claimable(State(), id, limit, out)
    {
      out := [];
      var rest := ItemsIn(State(), id, Pending);
      ghost var all := rest;
      while rest != {} && |out| < limit
        invariant |out| <= limit
        invariant Distinct(out)
        invariant forall i :: i in out ==> i in all && i !in rest
        invariant rest <= all && |out| + |rest| == |all|
      {
        var i :| i in rest;
        out := out + [i];
        rest := rest - {i};
      }
    }

    method MarkItemDone(id: ItemId, feed: string, now: int, commits: bool) returns (ok: bool)
      modifies this
      ensures ok == (commits && id in old(items))
      ensures State() == if ok then MarkDone(old(State()), id, feed, now) else old(State())
      ensures ok ==> Marked(old(State()), State(), id, Done, feed, old(items)[id].error, now)
    {
      if !commits || id !in items { return false; }
      var j := items[id].job;
      items := items[id := items[id].(status := Done, feed := feed, updatedAt := now)];
      if j in jobs {
        jobs := jobs[j := jobs[j].(doneCount := jobs[j].doneCount + 1)];
      }
      return true;
    }

    method MarkItemFailed(id: ItemId, error: string, now: int, commits: bool) returns (ok: bool)
      modifies this
      ensures ok == (commits && id in old(items))
      ensures State() == if ok then MarkFailed(old(State()), id, error, now) else old(State())
      ensures ok ==> Marked(old(State()), State(), id, Failed, old(items)[id].feed, error, now)
    {
      if !commits || id !in items { return false; }
      var j := items[id].job;
      items := items[id := items[id].(status := Failed, error := error, updatedAt := now)];
      if j in jobs {
        jobs := jobs[j := jobs[j].(failedCount := jobs[j].failedCount + 1)];
      }
      return true;
    }

    /** Returns 0 when the query fails, as callers that drop the error see it. */
    method JobPendingRemaining(id: JobId, answers: bool) returns (ok: bool, n: nat)
      ensures ok == answers
      ensures n == if ok then Remaining(State(), id) else 0
      ensures ok ==> n == |set i | i in items && items[i].job == id && items[i].status in {Pending, Running}|
    {
      assert LiveItems(State(), id) ==
             set i | i in items && items[i].job == id && items[i].status in {Pending, Running};
      ok := answers;
      n := if answers then |LiveItems(State(), id)| else 0;
    }

    method ReclaimStaleJobItems(age: int, now: int, commits: bool) returns (ok: bool, n: nat)
      modifies this
      ensures ok == commits
      ensures State() == if ok then Reclaim(old(State()), age, now) else old(State())
      ensures ok ==> Reclaimed(old(State()), State(), if age >= 60 then age else 900, now)
      ensures ok ==> n == |set i | i in items && items[i].status != old(items)[i].status|
    {
      ReclaimWrites(State(), age, now);
      n := |Stale(State(), age, now)|;
      if commits {
        var cutoff := now - StaleAge(age);
        items := map i | i in items ::
          if items[i].status == Running && items[i].updatedAt < cutoff
          then items[i].(status := Pending, updatedAt := now) else items[i];
        assert Stale(old(State()), age, now) == set i | i in items && items[i].status != old(items)[i].status;
      }
      return commits, n;
    }
  }

  // ---------- what the transactions do to the counts ----------

  /** Exact counters for one job: the columns of its row equal the row counts of the item table. */
  ghost predicate Counted(t: Tables, j: JobId)
    requires j in t.jobs
  {
    && t.jobs[j].total == |Items(t, j)|
    && t.jobs[j].doneCount == |ItemsIn(t, j, Done)|
    && t.jobs[j].failedCount == |ItemsIn(t, j, Failed)|
  }

  ghost predicate AllCounted(t: Tables) {
    && (forall j :: j in t.jobs ==> Counted(t, j))
    && (forall i :: i in t.items ==> t.items[i].job in t.jobs)
  }

  /** With exact counters, a job's total splits into done, failed and what is still pending or running. */
  lemma TotalSplits(t: Tables, j: JobId)
    requires j in t.jobs && Counted(t, j)
    ensures t.jobs[j].doneCount + t.jobs[j].failedCount + Remaining(t, j) == t.jobs[j].total
  {
    var d, f, l := ItemsIn(t, j, Done), ItemsIn(t, j, Failed), LiveItems(t, j);
    forall i | i in Items(t, j) ensures i in d + f + l {
      assert t.items[i].status.Done? || t.items[i].status.Failed? || Live(t.items[i].status);
    }
    assert Items(t, j) == d + f + l;
    assert |d + f| == |d| + |f|;
  }

  /** A job whose rows are all alike in two tables keeps its counts. */
  lemma SameItems(t: Tables, t': Tables, j: JobId)
    requires forall i :: i in t.items && t.items[i].job == j ==> i in t'.items && t'.items[i] == t.items[i]
    requires forall i :: i in t'.items && t'.items[i].job == j ==> i in t.items && t.items[i] == t'.items[i]
    ensures Items(t', j) == Items(t, j) && LiveItems(t', j) == LiveItems(t, j)
    ensures forall s :: ItemsIn(t', j, s) == ItemsIn(t, j, s)
  {
    forall s ensures ItemsIn(t', j, s) == ItemsIn(t, j, s) {
      forall i ensures i in ItemsIn(t', j, s) <==> i in ItemsIn(t, j, s) {}
    }
    forall i ensures i in LiveItems(t', j) <==> i in LiveItems(t, j) {}
  }

  lemma {:induction false} InsertedRows(items: map<ItemId, Item>, j: JobId, ids: seq<ItemId>, urls: seq<string>,
                                        now: int, n: nat)
    requires n <= |ids| == |urls| && Distinct(ids)
    ensures var r := Inserted(items, j, ids, urls, now, n);
            && r.Keys == items.Keys + SetOf(ids[..n])
            && (forall i :: i in items && i !in ids[..n] ==> r[i] == items[i])
            && (forall k :: 0 <= k < n ==> r[ids[k]] == Item(j, urls[k], Pending, "", "", now))
  {
    if n > 0 {
      InsertedRows(items, j, ids, urls, now, n - 1);
      assert ids[..n] == ids[..n - 1] + [ids[n - 1]];
    }
  }

  /** `t'` is `t` plus one new job whose pending rows are exactly `ids`. */
  ghost predicate NewJob(t: Tables, t': Tables, j: JobId, ids: seq<ItemId>) {
    && j !in t.jobs && t'.jobs.Keys == t.jobs.Keys + {j} && (forall k :: k in t.jobs ==> t'.jobs[k] == t.jobs[k])
    && t'.jobs[j].total == |ids| && t'.jobs[j].doneCount == t'.jobs[j].failedCount == 0
    && t'.jobs[j].status == Pending
    && t'.items.Keys == t.items.Keys + SetOf(ids)
    && (forall i :: i in t.items ==> i !in ids && t'.items[i] == t.items[i])
    && (forall n :: 0 <= n < |ids| ==> t'.items[ids[n]].job == j && t'.items[ids[n]].status == Pending)
  }

  lemma CreateIsNewJob(t: Tables, j: JobId, kind: string, creator: string, ids: seq<ItemId>, urls: seq<string>,
                       now: int)
    requires j !in t.jobs && |ids| == |urls| && Distinct(ids) && forall i :: i in ids ==> i !in t.items
    ensures NewJob(t, Create(t, j, kind, creator, ids, urls, now), j, ids)
  {
    InsertedRows(t.items, j, ids, urls, now, |ids|);
    assert ids[..|ids|] == ids;
  }

  /** A new job starts exactly counted and disturbs no other job's counts. */
  lemma NewJobCounts(t: Tables, t': Tables, j: JobId, ids: seq<ItemId>)
    requires AllCounted(t) && Distinct(ids) && NewJob(t, t', j, ids)
    ensures AllCounted(t')
  {
    forall k | k in t'.jobs ensures Counted(t', k) {
      if k == j {
        CreatedJob(t, t', j, ids);
      } else {
        OtherJobs(t, t', j, ids, k);
      }
    }
  }

  lemma OtherJobs(t: Tables, t': Tables, j: JobId, ids: seq<ItemId>, k: JobId)
    requires NewJob(t, t', j, ids) && k != j && (forall i :: i in t.items ==> t.items[i].job != j)
    ensures LiveItems(t', k) == LiveItems(t, k)
    ensures k in t.jobs && Counted(t, k) ==> Counted(t', k)
  {
    SameItems(t, t', k);
  }

  lemma CreatedSets(t: Tables, t': Tables, j: JobId, ids: seq<ItemId>)
    requires NewJob(t, t', j, ids) && (forall i :: i in t.items ==> t.items[i].job != j)
    ensures Items(t', j) == SetOf(ids)
    ensures ItemsIn(t', j, Pending) == SetOf(ids)
    ensures ItemsIn(t', j, Done) == {}
    ensures ItemsIn(t', j, Failed) == {}
  {
    forall i | i in t'.items && t'.items[i].job == j ensures i in ids && t'.items[i].status == Pending {}
  }

  lemma CreatedJob(t: Tables, t': Tables, j: JobId, ids: seq<ItemId>)
    requires Distinct(ids) && NewJob(t, t', j, ids) && (forall i :: i in t.items ==> t.items[i].job != j)
    ensures Counted(t', j)
  {
    DistinctCard(ids);
    CreatedSets(t, t', j, ids);
  }

  /** Statuses move between pending and running only. */
  ghost predicate Shuffled(t: Tables, t': Tables) {
    && t'.jobs == t.jobs && t'.items.Keys == t.items.Keys
    && forall i :: i in t.items ==>
        && t'.items[i].job == t.items[i].job
        && (t'.items[i].status == t.items[i].status || (Live(t.items[i].status) && Live(t'.items[i].status)))
  }

  lemma ShuffledJob(t: Tables, t': Tables, j: JobId)
    requires Shuffled(t, t')
    ensures Items(t', j) == Items(t, j) && LiveItems(t', j) == LiveItems(t, j)
    ensures ItemsIn(t', j, Done) == ItemsIn(t, j, Done) && ItemsIn(t', j, Failed) == ItemsIn(t, j, Failed)
  {
    forall i ensures i in LiveItems(t', j) <==> i in LiveItems(t, j) {}
    forall i ensures i in ItemsIn(t', j, Done) <==> i in ItemsIn(t, j, Done) {}
    forall i ensures i in ItemsIn(t', j, Failed) <==> i in ItemsIn(t, j, Failed) {}
  }

  /** Claiming and reclaiming touch no counter and keep every job's set of live items. */
  lemma ShuffleCounts(t: Tables, t': Tables)
    requires AllCounted(t) && Shuffled(t, t')
    ensures AllCounted(t')
    ensures forall j :: LiveItems(t', j) == LiveItems(t, j)
  {
    forall j ensures LiveItems(t', j) == LiveItems(t, j) && (j in t.jobs ==> Counted(t', j)) {
      ShuffledJob(t, t', j);
    }
  }

  function Mark(t: Tables, i: ItemId, outcome: Result<string, string>, now: int): Tables {
    match outcome
    case Ok(feed) => MarkDone(t, i, feed, now)
    case Err(error) => MarkFailed(t, i, error, now)
  }

  lemma MarkOwnJob(t: Tables, i: ItemId, outcome: Result<string, string>, now: int)
    requires i in t.items && Live(t.items[i].status)
    ensures var t', j := Mark(t, i, outcome, now), t.items[i].job;
            && Items(t', j) == Items(t, j) && LiveItems(t', j) == LiveItems(t, j) - {i}
            && ItemsIn(t', j, Done) == (if outcome.Ok? then ItemsIn(t, j, Done) + {i} else ItemsIn(t, j, Done))
            && ItemsIn(t', j, Failed) == (if outcome.Ok? then ItemsIn(t, j, Failed) else ItemsIn(t, j, Failed) + {i})
            && i !in ItemsIn(t, j, Done) && i !in ItemsIn(t, j, Failed) && i in LiveItems(t, j)
  {
    var t', j := Mark(t, i, outcome, now), t.items[i].job;
    forall k ensures k in LiveItems(t', j) <==> k in LiveItems(t, j) - {i} {}
    forall k ensures k in ItemsIn(t', j, Done) <==>
                     k in if outcome.Ok? then ItemsIn(t, j, Done) + {i} else ItemsIn(t, j, Done) {}
    forall k ensures k in ItemsIn(t', j, Failed) <==>
                     k in if outcome.Ok? then ItemsIn(t, j, Failed) else ItemsIn(t, j, Failed) + {i} {}
  }

  lemma MarkOwnCounted(t: Tables, i: ItemId, outcome: Result<string, string>, now: int, j: JobId)
    requires i in t.items && Live(t.items[i].status) && j == t.items[i].job && j in t.jobs && Counted(t, j)
    ensures Counted(Mark(t, i, outcome, now), j)
  {
    MarkOwnJob(t, i, outcome, now);
    assert |ItemsIn(t, j, Done) + {i}| == |ItemsIn(t, j, Done)| + 1;
    assert |ItemsIn(t, j, Failed) + {i}| == |ItemsIn(t, j, Failed)| + 1;
  }

  lemma MarkOtherJob(t: Tables, i: ItemId, outcome: Result<string, string>, now: int, k: JobId)
    requires i in t.items && t.items[i].job != k
    ensures var t' := Mark(t, i, outcome, now);
            LiveItems(t', k) == LiveItems(t, k) && (k in t.jobs && Counted(t, k) ==> k in t'.jobs && Counted(t', k))
  {
    SameItems(t, Mark(t, i, outcome, now), k);
  }

  lemma MarkJob(t: Tables, i: ItemId, outcome: Result<string, string>, now: int, k: JobId)
    requires AllCounted(t) && i in t.items && Live(t.items[i].status)
    ensures var t' := Mark(t, i, outcome, now);
            LiveItems(t', k) == LiveItems(t, k) - {i} && (k in t.jobs ==> k in t'.jobs && Counted(t', k))
  {
    if k == t.items[i].job {
      MarkOwnJob(t, i, outcome, now);
      MarkOwnCounted(t, i, outcome, now, k);
    } else {
      MarkOtherJob(t, i, outcome, now, k);
      assert i !in LiveItems(t, k);
    }
  }

  /** Marking a live item moves exactly one item of its job from live to the counted status. */
  lemma MarkCounts(t: Tables, i: ItemId, outcome: Result<string, string>, now: int)
    requires AllCounted(t) && i in t.items && Live(t.items[i].status)
    ensures var t' := Mark(t, i, outcome, now);
            && AllCounted(t')
            && (forall j :: LiveItems(t', j) == LiveItems(t, j) - {i})
            && Remaining(t', t.items[i].job) == Remaining(t, t.items[i].job) - 1
  {
    var t' := Mark(t, i, outcome, now);
    MarkRows(t, t', i, outcome, now);
    forall k ensures LiveItems(t', k) == LiveItems(t, k) - {i} && (k in t.jobs ==> Counted(t', k)) {
      MarkJob(t, i, outcome, now, k);
    }
    OneLess(LiveItems(t, t.items[i].job), i);
  }

  lemma MarkRows(t: Tables, t': Tables, i: ItemId, outcome: Result<string, string>, now: int)
    requires i in t.items && t' == Mark(t, i, outcome, now) && t.items[i].job in t.jobs
    ensures t'.jobs.Keys == t.jobs.Keys && t'.items.Keys == t.items.Keys
    ensures forall k :: k in t.items ==> t'.items[k].job == t.items[k].job
  {
  }

  lemma OneLess<T>(s: set<T>, x: T)
    requires x in s
    ensures |s - {x}| == |s| - 1
  {
  }

  /**
   Marks are not guarded by the item's status, so exact counters rest on the protocol never
   marking a terminal item: one such mark breaks them.
   */
  lemma UnguardedMarkDrifts(t: Tables, i: ItemId, outcome: Result<string, string>, now: int)
    requires AllCounted(t) && i in t.items
    ensures Counted(Mark(t, i, outcome, now), t.items[i].job) <==> Live(t.items[i].status)
  {
    if Live(t.items[i].status) {
      MarkJob(t, i, outcome, now, t.items[i].job);
    } else {
      TerminalMarkDrifts(t, i, outcome, now, t.items[i].job);
    }
  }

  lemma TerminalMarkDrifts(t: Tables, i: ItemId, outcome: Result<string, string>, now: int, j: JobId)
    requires i in t.items && t.items[i].job == j && j in t.jobs && Counted(t, j)
    requires !Live(t.items[i].status)
    ensures !Counted(Mark(t, i, outcome, now), j)
  {
    var t' := Mark(t, i, outcome, now);
    var target := if outcome.Ok? then Done else Failed;
    if t.items[i].status == target {
      forall k ensures k in ItemsIn(t', j, target) <==> k in ItemsIn(t, j, target) {}
      assert ItemsIn(t', j, target) == ItemsIn(t, j, target);
    } else {
      var other := t.items[i].status;
      forall k ensures k in ItemsIn(t', j, other) <==> k in ItemsIn(t, j, other) - {i} {}
      assert ItemsIn(t', j, other) == ItemsIn(t, j, other) - {i};
    }
  }
}
