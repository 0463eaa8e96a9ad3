/**
 runJob as written (internal/api/features.go): the loop of one runner over the store, every call of
 which may fail, here without interference from other runners. It is a run of the protocol.
 */
module RunJob {
  import opened Common
  import opened Jobs
  import opened JobProtocol

  /** What the outside decides about one call: whether it succeeds, and how the refresh before a mark ends. */
  datatype Fate = Fate(ok: bool, refresh: Result<string, string>)

  lemma TakeEffects(t: Tables, j: JobId, batch: seq<ItemId>, now: int)
    requires Claimable(t, j, BATCH, batch)
    ensures var t' := Claim(t, SetOf(batch), now);
            && ItemsIn(t', j, Pending) == ItemsIn(t, j, Pending) - SetOf(batch)
            && ItemsIn(t', j, Running) == ItemsIn(t, j, Running) + SetOf(batch)
    ensures batch != [] ==> |ItemsIn(Claim(t, SetOf(batch), now), j, Pending)| < |ItemsIn(t, j, Pending)|
    ensures batch == [] ==> ItemsIn(t, j, Pending) == {}
  {
    var t' := Claim(t, SetOf(batch), now);
    forall i | i in batch ensures i in ItemsIn(t, j, Pending) {}
    assert ItemsIn(t', j, Pending) == ItemsIn(t, j, Pending) - SetOf(batch);
    if batch != [] {
      assert batch[0] in ItemsIn(t, j, Pending);
      SubsetCard(ItemsIn(t', j, Pending), ItemsIn(t, j, Pending));
    }
  }

  lemma MarkEffects(t: Tables, i: ItemId, outcome: Result<string, string>, now: int)
    requires i in t.items && t.items[i].status == Running
    ensures var t', j := Mark(t, i, outcome, now), t.items[i].job;
            && ItemsIn(t', j, Pending) == ItemsIn(t, j, Pending)
            && ItemsIn(t', j, Running) == ItemsIn(t, j, Running) - {i}
  {
    var t', j := Mark(t, i, outcome, now), t.items[i].job;
    forall k ensures k in ItemsIn(t', j, Pending) <==> k in ItemsIn(t, j, Pending) {}
    forall k ensures k in ItemsIn(t', j, Running) <==> k in ItemsIn(t, j, Running) - {i} {}
  }

  /** The tables of `w` are those of the store, its clock reads `now`, and the runner of `job` stands at `pc`. */
  ghost predicate In(store: JobStore, w: World, job: JobId, pc: Pc, now: int)
    reads store
  {
    w.t == store.State() && w.now == now && At(w, job, pc)
  }

  // ---------- single steps, as the store sees them ----------

  lemma StepMark(w: World, job: JobId, item: ItemId, rest: seq<ItemId>, outcome: Result<string, string>, ok: bool)
    requires At(w, job, Working([item] + rest))
    ensures var w' := Step(w, MarkNext(job, outcome, ok));
            && w'.t == (if ok then Mark(w.t, item, outcome, w.now) else w.t) && w'.now == w.now
            && At(w', job, if rest == [] then Claiming else Working(rest))
  {
    assert ([item] + rest)[1..] == rest;
  }

  lemma StepTake(w: World, job: JobId, batch: seq<ItemId>, ok: bool)
    requires At(w, job, Claiming) && if ok then Claimable(w.t, job, BATCH, batch) else batch == []
    ensures var w' := Step(w, TakeBatch(job, batch, ok));
            && w'.t == (if ok then Claim(w.t, SetOf(batch), w.now) else w.t) && w'.now == w.now
            && At(w', job, if batch == [] then Counting else Working(batch))
  {
    assert Claim(w.t, {}, w.now).items == w.t.items;
    assert SetOf<ItemId>([]) == {};
  }

  lemma StepStart(w: World, job: JobId, ok1: bool, ok2: bool)
    requires At(w, job, Reclaiming)
    ensures var t := if ok1 then Reclaim(w.t, 15 * MINUTE, w.now) else w.t;
            var w' := ExecFrom(w, [ReclaimStale(job, ok1), Begin(job, ok2)]);
            && w'.t == (if ok2 then SetStatus(t, job, Running) else t) && w'.now == w.now
            && At(w', job, Claiming)
  {
    ExecSnoc(w, [], ReclaimStale(job, ok1));
    ExecSnoc(w, [ReclaimStale(job, ok1)], Begin(job, ok2));
    assert [] + [ReclaimStale(job, ok1)] == [ReclaimStale(job, ok1)];
    assert [ReclaimStale(job, ok1)] + [Begin(job, ok2)] == [ReclaimStale(job, ok1), Begin(job, ok2)];
  }

  lemma StepEnd(w: World, job: JobId, ok1: bool, ok2: bool)
    requires At(w, job, Counting)
    ensures var complete := !ok1 || Remaining(w.t, job) == 0;
            var w' := ExecFrom(w, if complete then [Count(job, ok1), Complete(job, ok2)] else [Count(job, ok1)]);
            && w'.t == (if complete && ok2 then SetStatus(w.t, job, Done) else w.t) && w'.now == w.now
            && At(w', job, Stopped)
  {
    ExecSnoc(w, [], Count(job, ok1));
    ExecSnoc(w, [Count(job, ok1)], Complete(job, ok2));
    assert [] + [Count(job, ok1)] == [Count(job, ok1)];
    assert [Count(job, ok1)] + [Complete(job, ok2)] == [Count(job, ok1), Complete(job, ok2)];
  }

  // ---------- the runner ----------

  /** One mark, of the first item of the batch. */
  method MarkOne(store: JobStore, job: JobId, item: ItemId, fate: Fate, now: int, ghost w: World,
                 ghost rest: seq<ItemId>)
    requires In(store, w, job, Working([item] + rest), now)
    requires item in ItemsIn(w.t, job, Running)
    modifies store
    ensures In(store, Step(w, MarkNext(job, fate.refresh, fate.ok)), job,
               if rest == [] then Claiming else Working(rest), now)
    ensures ItemsIn(store.State(), job, Pending) == ItemsIn(w.t, job, Pending)
    ensures ItemsIn(store.State(), job, Running) == ItemsIn(w.t, job, Running) - (if fate.ok then {item} else {})
  {
    StepMark(w, job, item, rest, fate.refresh, fate.ok);
    MarkEffects(w.t, item, fate.refresh, now);
    match fate.refresh {
      case Err(error) => var _ := store.MarkItemFailed(item, error, now, fate.ok);
      case Ok(feed) => var _ := store.MarkItemDone(item, feed, now, fate.ok);
    }
  }

  lemma BatchPieces(batch: seq<ItemId>, k: nat)
    requires k < |batch| && Distinct(batch)
    ensures batch[k..] == [batch[k]] + batch[k + 1..]
    ensures SetOf(batch[k + 1..]) == SetOf(batch[k..]) - {batch[k]} && batch[k] in SetOf(batch[k..])
    ensures SetOf(batch[..k + 1]) == SetOf(batch[..k]) + {batch[k]}
  {
    assert batch[k..] == [batch[k]] + batch[k + 1..];
    assert batch[..k + 1] == batch[..k] + [batch[k]];
  }

  method MarkAll(store: JobStore, job: JobId, batch: seq<ItemId>, fate: nat -> Fate, from: nat, now: int,
                 ghost w: World)
    returns (ghost evs: seq<Event>)
    requires batch != [] && Distinct(batch) && In(store, w, job, Working(batch), now)
    requires SetOf(batch) <= ItemsIn(w.t, job, Running)
    modifies store
    ensures In(store, ExecFrom(w, evs), job, Claiming, now)
    ensures ItemsIn(store.State(), job, Pending) == ItemsIn(w.t, job, Pending)
    ensures (forall n :: fate(n).ok) ==>
              ItemsIn(store.State(), job, Running) == ItemsIn(w.t, job, Running) - SetOf(batch)
  {
    evs := [];
    ghost var running := ItemsIn(w.t, job, Running);
    assert batch[0..] == batch && batch[..0] == [];
    for k := 0 to |batch|
      invariant In(store, ExecFrom(w, evs), job, if k == |batch| then Claiming else Working(batch[k..]), now)
      invariant ItemsIn(store.State(), job, Pending) == ItemsIn(w.t, job, Pending)
      invariant SetOf(batch[k..]) <= ItemsIn(store.State(), job, Running)
      invariant (forall n :: fate(n).ok) ==> ItemsIn(store.State(), job, Running) == running - SetOf(batch[..k])
    {
      BatchPieces(batch, k);
      MarkOne(store, job, batch[k], fate(from + k), now, ExecFrom(w, evs), batch[k + 1..]);
      ExecSnoc(w, evs, MarkNext(job, fate(from + k).refresh, fate(from + k).ok));
      evs := evs + [MarkNext(job, fate(from + k).refresh, fate(from + k).ok)];
    }
    assert batch[..|batch|] == batch;
  }

  /** The claim loop; `fate(0)` and `fate(1)` were spent before it. Returns the number of calls made so far. */
  method ClaimLoop(store: JobStore, job: JobId, fate: nat -> Fate, now: int, ghost w0: World)
    returns (calls: nat, ghost evs: seq<Event>)
    requires In(store, w0, job, Claiming, now) && ItemsIn(store.State(), job, Running) == {}
    modifies store
    ensures In(store, ExecFrom(w0, evs), job, Counting, now)
    ensures (forall n :: fate(n).ok) ==> LiveItems(store.State(), job) == {}
  {
    calls, evs := 2, [];
    while true
      invariant In(store, ExecFrom(w0, evs), job, Claiming, now)
      invariant (forall n :: fate(n).ok) ==> ItemsIn(store.State(), job, Running) == {}
      decreases |ItemsIn(store.State(), job, Pending)|
    {
      ghost var w := ExecFrom(w0, evs);
      var ok, items := store.ClaimPendingItems(job, BATCH, now, fate(calls).ok);
      calls := calls + 1;
      ghost var taken := if ok then items else [];
      StepTake(w, job, taken, ok);
      ExecSnoc(w0, evs, TakeBatch(job, taken, ok));
      evs := evs + [TakeBatch(job, taken, ok)];
      if !ok { break; }
      TakeEffects(w.t, job, items, now);
      if |items| == 0 {
        NothingLive(store.State(), job);
        break;
      }
      ghost var more := MarkAll(store, job, items, fate, calls, now, ExecFrom(w0, evs));
      ExecSplit(w0, evs, more);
      evs := evs + more;
      calls := calls + |items|;
    }
  }

  lemma NothingLive(t: Tables, j: JobId)
    requires ItemsIn(t, j, Pending) == {}
    ensures ItemsIn(t, j, Running) == {} ==> LiveItems(t, j) == {}
  {
    forall i | i in LiveItems(t, j) ensures i in ItemsIn(t, j, Pending) || i in ItemsIn(t, j, Running) {}
  }

  lemma NothingRunningAtStart(w: World, job: JobId, now: int, ok1: bool, ok2: bool)
    requires Inv(w) && At(w, job, Reclaiming)
    ensures var t := if ok1 then Reclaim(w.t, 15 * MINUTE, now) else w.t;
            ItemsIn(if ok2 then SetStatus(t, job, Running) else t, job, Running) == {}
  {
    assert RunnerOk(w.t, job, w.runners[job]);
  }

  lemma FinishedCounts(start: World, evs: seq<Event>, job: JobId)
    requires Inv(start) && job in ExecFrom(start, evs).runners
    ensures var t := ExecFrom(start, evs).t;
            job in t.jobs && t.jobs[job].doneCount + t.jobs[job].failedCount + Remaining(t, job) == t.jobs[job].total
  {
    RunKeeps(start, evs);
    TotalSplits(ExecFrom(start, evs).t, job);
  }

  /**
   The runner, from its spawn to its end. It always ends, its steps are a run of the protocol, and if
   every store call succeeds the job is done with every item counted as done or failed.
   */
  method RunJob(store: JobStore, job: JobId, fate: nat -> Fate, now: int, ghost start: World)
    returns (ghost evs: seq<Event>)
    requires Inv(start) && In(store, start, job, Reclaiming, now)
    modifies store
    ensures In(store, ExecFrom(start, evs), job, Stopped, now)
    ensures (forall n :: fate(n).ok) ==>
              && job in store.jobs && store.jobs[job].status == Done && Remaining(store.State(), job) == 0
              && store.jobs[job].doneCount + store.jobs[job].failedCount == store.jobs[job].total
  {
    NothingRunningAtStart(start, job, now, fate(0).ok, fate(1).ok);
    StepStart(start, job, fate(0).ok, fate(1).ok);
    ghost var first := [ReclaimStale(job, fate(0).ok), Begin(job, fate(1).ok)];
    var _, _ := store.ReclaimStaleJobItems(15 * MINUTE, now, fate(0).ok);
    var _ := store.SetJobStatus(job, Running, fate(1).ok);

    var calls;
    ghost var loop;
    calls, loop := ClaimLoop(store, job, fate, now, ExecFrom(start, first));
    ExecSplit(start, first, loop);
    evs := first + loop;
    FinishedCounts(start, evs, job);

    evs := CountAndComplete(store, job, fate(calls).ok, fate(calls + 1).ok, now, start, evs);
    FinishedCounts(start, evs, job);
  }

  /** The end of runJob: the error of the count query is dropped, and then reads as zero remaining. */
  method CountAndComplete(store: JobStore, job: JobId, answers: bool, commits: bool, now: int,
                          ghost start: World, ghost before: seq<Event>)
    returns (ghost evs: seq<Event>)
    requires In(store, ExecFrom(start, before), job, Counting, now)
    modifies store
    ensures In(store, ExecFrom(start, evs), job, Stopped, now)
    ensures var complete := !answers || Remaining(old(store.State()), job) == 0;
            store.State() == if complete && commits then SetStatus(old(store.State()), job, Done)
                             else old(store.State())
  {
    StepEnd(ExecFrom(start, before), job, answers, commits);
    var _, remaining := store.JobPendingRemaining(job, answers);
    ghost var last := [Count(job, answers)];
    if remaining == 0 {
      var _ := store.SetJobStatus(job, Done, commits);
      last := [Count(job, answers), Complete(job, commits)];
    }
    ExecSplit(start, before, last);
    evs := before + last;
  }
}
