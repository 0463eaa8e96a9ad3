/**
 Every interleaving of the job runners of internal/api/features.go. Each accepted submission spawns
 one goroutine `runJob` for its job; a step of the protocol is one store transaction of one runner,
 and each step may fail. A runner starts with a reclaim that resets stale running items of any job.
 A disabled event leaves the world as it is, so every event sequence is a run.
 */
module JobProtocol {
  import opened Common
  import opened Jobs

  const BATCH := 8

  /** Where a runner stands in runJob; `Working` holds the claimed items it has not marked yet. */
  datatype Pc =
    | Reclaiming | Starting | Claiming
    | Working(batch: seq<ItemId>)
    | Counting | Completing | Stopped

  /**
   `claims` and `lost` count non-empty claims and failed marks; `blind` says the final count query failed;
   `since` is the time of the last non-empty claim.
   */
  datatype Runner = Runner(pc: Pc, claims: nat, lost: nat, blind: bool, since: int)

  /** `log` lists the items of the marks that committed, in order. */
  datatype World = World(t: Tables, runners: map<JobId, Runner>, log: seq<ItemId>, now: int)

  datatype Event =
    | Submit(job: JobId, kind: string, creator: string, ids: seq<ItemId>, urls: seq<string>)
    | ReclaimStale(job: JobId, ok: bool)
    | Begin(job: JobId, ok: bool)
    | TakeBatch(job: JobId, batch: seq<ItemId>, ok: bool)
    | MarkNext(job: JobId, outcome: Result<string, string>, ok: bool)
    | Count(job: JobId, ok: bool)
    | Complete(job: JobId, ok: bool)
    | Elapse(d: nat)
    | Crash

  const INIT: World := World(Tables(map[], map[]), map[], [], 0)

  ghost predicate At(w: World, j: JobId, pc: Pc) {
    j in w.runners && w.runners[j].pc == pc
  }

  /** Generated ids are fresh; a successful claim returns what the select may return. */
  ghost predicate Enabled(w: World, e: Event) {
    match e
    case Submit(j, _, _, ids, urls) =>
      j !in w.t.jobs && |ids| == |urls| && Distinct(ids) && forall i :: i in ids ==> i !in w.t.items
    case ReclaimStale(j, _) => At(w, j, Reclaiming)
    case Begin(j, _) => At(w, j, Starting)
    case TakeBatch(j, batch, ok) =>
      At(w, j, Claiming) && if ok then Claimable(w.t, j, BATCH, batch) else batch == []
    case MarkNext(j, _, _) => j in w.runners && w.runners[j].pc.Working? && w.runners[j].pc.batch != []
    case Count(j, _) => At(w, j, Counting)
    case Complete(j, _) => At(w, j, Completing)
    case Elapse(_) => true
    case Crash => true
  }

  ghost function Goto(w: World, j: JobId, t: Tables, pc: Pc): World
    requires j in w.runners
  {
    w.(t := t, runners := w.runners[j := w.runners[j].(pc := pc)])
  }

  ghost function StartBatch(w: World, j: JobId, t: Tables, batch: seq<ItemId>): World
    requires j in w.runners
  {
    var r := w.runners[j];
    w.(t := t, runners := w.runners[j := r.(pc := Working(batch), claims := r.claims + 1, since := w.now)])
  }

  ghost function Next(w: World, e: Event): World
    requires Enabled(w, e)
  {
    match e
    case Submit(j, kind, creator, ids, urls) =>
      w.(t := Create(w.t, j, kind, creator, ids, urls, w.now),
         runners := w.runners[j := Runner(Reclaiming, 0, 0, false, w.now)])
    case ReclaimStale(j, ok) =>
      Goto(w, j, if ok then Reclaim(w.t, 15 * MINUTE, w.now) else w.t, Starting)
    case Begin(j, ok) =>
      Goto(w, j, if ok then SetStatus(w.t, j, Running) else w.t, Claiming)
    case TakeBatch(j, batch, ok) =>
      if batch == [] then Goto(w, j, w.t, Counting)
      else StartBatch(w, j, Claim(w.t, SetOf(batch), w.now), batch)
    case MarkNext(j, outcome, ok) =>
      var r := w.runners[j];
      var r' := r.(pc := if |r.pc.batch| == 1 then Claiming else Working(r.pc.batch[1..]),
                   lost := if ok then r.lost else r.lost + 1);
      w.(t := if ok then Mark(w.t, r.pc.batch[0], outcome, w.now) else w.t,
         log := if ok then w.log + [r.pc.batch[0]] else w.log,
         runners := w.runners[j := r'])
    case Count(j, ok) =>
      var remaining := if ok then Remaining(w.t, j) else 0;
      w.(runners := w.runners[j := w.runners[j].(pc := if remaining == 0 then Completing else Stopped, blind := !ok)])
    case Complete(j, ok) =>
      Goto(w, j, if ok then SetStatus(w.t, j, Done) else w.t, Stopped)
    case Elapse(d) => w.(now := w.now + d)
    case Crash => w.(runners := map j | j in w.runners :: w.runners[j].(pc := Stopped))
  }

  ghost function Step(w: World, e: Event): World {
    if Enabled(w, e) then Next(w, e) else w
  }

  ghost function ExecFrom(w: World, evs: seq<Event>): World {
    if evs == [] then w else Step(ExecFrom(w, evs[..|evs| - 1]), evs[|evs| - 1])
  }

  ghost function Exec(evs: seq<Event>): World {
    ExecFrom(INIT, evs)
  }

  lemma {:induction false} ExecSplit(w: World, a: seq<Event>, b: seq<Event>)
    ensures ExecFrom(w, a + b) == ExecFrom(ExecFrom(w, a), b)
  {
    if b == [] {
      assert a + b == a;
    } else {
      assert (a + b)[..|a + b| - 1] == a + b[..|b| - 1];
      ExecSplit(w, a, b[..|b| - 1]);
    }
  }

  lemma ExecSnoc(w: World, evs: seq<Event>, e: Event)
    ensures ExecFrom(w, evs + [e]) == Step(ExecFrom(w, evs), e)
  {
    assert (evs + [e])[..|evs + [e]| - 1] == evs;
  }

  // ---------- the invariant ----------

  ghost predicate BatchOk(t: Tables, j: JobId, batch: seq<ItemId>) {
    && batch != [] && Distinct(batch)
    && forall i :: i in batch ==> i in t.items && t.items[i].job == j && Live(t.items[i].status)
  }

  ghost predicate RunnerOk(t: Tables, j: JobId, r: Runner)
    requires j in t.jobs
  {
    && (r.pc.Working? ==> BatchOk(t, j, r.pc.batch))
    && (r.pc.Reclaiming? || r.pc.Starting? ==>
          r.claims == 0 && forall i :: i in t.items && t.items[i].job == j ==> t.items[i].status == Pending)
    && r.claims <= t.jobs[j].doneCount + t.jobs[j].failedCount + r.lost
                     + (if r.pc.Working? || r.pc.Stopped? then 1 else 0)
    && (t.jobs[j].status == Done ==> r.pc.Stopped?)
    && (t.jobs[j].status == Done || r.pc.Completing? ==> r.blind || Remaining(t, j) == 0)
  }

  ghost predicate LogOk(t: Tables, log: seq<ItemId>) {
    Distinct(log) && forall i :: i in log <==> i in t.items && !Live(t.items[i].status)
  }

  ghost predicate Inv(w: World) {
    && AllCounted(w.t)
    && LogOk(w.t, w.log)
    && w.runners.Keys == w.t.jobs.Keys
    && forall j :: j in w.runners ==> RunnerOk(w.t, j, w.runners[j])
  }

  lemma SubmitKeeps(w: World, e: Event)
    requires Inv(w) && Enabled(w, e) && e.Submit?
    ensures Inv(Next(w, e))
  {
    var w', j := Next(w, e), e.job;
    CreateIsNewJob(w.t, j, e.kind, e.creator, e.ids, e.urls, w.now);
    NewJobCounts(w.t, w'.t, j, e.ids);
    NewJobLog(w.t, w'.t, j, e.ids, w.log);
    forall k | k in w'.runners ensures RunnerOk(w'.t, k, w'.runners[k]) {
      if k == j {
        NewRunner(w.t, w'.t, j, e.ids, w'.runners[j]);
      } else {
        OtherRunner(w.t, w'.t, j, e.ids, k, w.runners[k]);
      }
    }
  }

  lemma NewJobLog(t: Tables, t': Tables, j: JobId, ids: seq<ItemId>, log: seq<ItemId>)
    requires NewJob(t, t', j, ids) && LogOk(t, log)
    ensures LogOk(t', log)
  {
  }

  lemma NewRunner(t: Tables, t': Tables, j: JobId, ids: seq<ItemId>, r: Runner)
    requires NewJob(t, t', j, ids) && forall i :: i in t.items ==> t.items[i].job != j
    requires r.pc == Reclaiming && r.claims == r.lost == 0
    ensures RunnerOk(t', j, r)
  {
    CreatedSets(t, t', j, ids);
    forall i | i in t'.items && t'.items[i].job == j ensures t'.items[i].status == Pending {
      assert i in Items(t', j);
    }
  }

  lemma OtherRunner(t: Tables, t': Tables, j: JobId, ids: seq<ItemId>, k: JobId, r: Runner)
    requires NewJob(t, t', j, ids) && k != j && k in t.jobs && RunnerOk(t, k, r)
    requires forall i :: i in t.items ==> t.items[i].job != j
    ensures RunnerOk(t', k, r)
  {
    OtherJobs(t, t', j, ids, k);
  }

  /** Shuffling live statuses keeps every runner's obligations, provided untouched jobs keep their pending rows. */
  lemma ShuffleKeeps(w: World, t': Tables)
    requires Inv(w) && Shuffled(w.t, t')
    requires forall i :: i in w.t.items && w.t.items[i].status == Pending && t'.items[i].status != Pending ==>
               w.runners[w.t.items[i].job].pc == Claiming
    ensures Inv(w.(t := t'))
  {
    ShuffleCounts(w.t, t');
    forall k | k in w.runners ensures RunnerOk(t', k, w.runners[k]) {
      assert RunnerOk(w.t, k, w.runners[k]);
    }
  }

  lemma ReclaimShuffles(t: Tables, now: int)
    ensures Shuffled(t, Reclaim(t, 15 * MINUTE, now))
    ensures forall i :: i in t.items && t.items[i].status == Pending ==>
              Reclaim(t, 15 * MINUTE, now).items[i].status == Pending
    ensures forall i :: i in t.items && !Live(t.items[i].status) ==> Reclaim(t, 15 * MINUTE, now).items[i] == t.items[i]
  {
  }

  lemma ReclaimKeeps(w: World, e: Event)
    requires Inv(w) && Enabled(w, e) && e.ReclaimStale?
    ensures Inv(Next(w, e))
  {
    var t' := if e.ok then Reclaim(w.t, 15 * MINUTE, w.now) else w.t;
    ReclaimShuffles(w.t, w.now);
    ShuffleKeeps(w, t');
    StartsNext(w, e.job, t');
  }

  lemma StartsNext(w: World, j: JobId, t': Tables)
    requires Inv(w.(t := t')) && At(w, j, Reclaiming)
    ensures Inv(Goto(w, j, t', Starting))
  {
    forall k | k in w.runners && k != j ensures RunnerOk(t', k, w.runners[k]) {}
    assert RunnerOk(t', j, w.runners[j]);
  }

  lemma StatusCounts(t: Tables, j: JobId, s: Status)
    requires AllCounted(t)
    ensures AllCounted(SetStatus(t, j, s))
    ensures forall k :: LiveItems(SetStatus(t, j, s), k) == LiveItems(t, k)
  {
    var t' := SetStatus(t, j, s);
    forall k ensures LiveItems(t', k) == LiveItems(t, k) && (k in t.jobs ==> Counted(t', k)) {
      SameItems(t, t', k);
    }
  }

  lemma StatusKeeps(w: World, e: Event)
    requires Inv(w) && Enabled(w, e) && (e.Begin? || e.Complete?)
    ensures Inv(Next(w, e))
  {
    var w', s := Next(w, e), if e.Begin? then Running else Done;
    StatusCounts(w.t, e.job, s);
    forall k | k in w'.runners ensures RunnerOk(w'.t, k, w'.runners[k]) {
      assert RunnerOk(w.t, k, w.runners[k]);
      if k != e.job && e.ok {
        StatusOfOther(w.t, SetStatus(w.t, e.job, s), e.job, s, k, w.runners[k]);
      }
    }
  }

  lemma StatusOfOther(t: Tables, t': Tables, j: JobId, s: Status, k: JobId, r: Runner)
    requires k in t.jobs && k != j && RunnerOk(t, k, r)
    requires t' == SetStatus(t, j, s) && LiveItems(t', k) == LiveItems(t, k)
    ensures RunnerOk(t', k, r)
  {
  }

  lemma TakeNothingKeeps(w: World, e: Event)
    requires Inv(w) && Enabled(w, e) && e.TakeBatch? && e.batch == []
    ensures Inv(Next(w, e))
  {
    var w' := Next(w, e);
    forall k | k in w'.runners ensures RunnerOk(w'.t, k, w'.runners[k]) {
      assert RunnerOk(w.t, k, w.runners[k]);
    }
  }

  lemma TakeBatchKeeps(w: World, e: Event)
    requires Inv(w) && Enabled(w, e) && e.TakeBatch? && e.batch != []
    ensures Inv(Next(w, e))
  {
    ClaimedRows(w.t, e.job, e.batch, w.now);
    ClaimKeeps(w, e.job, Claim(w.t, SetOf(e.batch), w.now), e.batch);
  }

  /** From `t` to `t'`, the pending items `batch` of job `j` became its running batch and nothing else left pending. */
  ghost predicate ClaimFits(t: Tables, t': Tables, j: JobId, batch: seq<ItemId>) {
    && Shuffled(t, t') && BatchOk(t', j, batch)
    && forall i :: i in t.items && t.items[i].status == Pending && t'.items[i].status != Pending ==> t.items[i].job == j
  }

  lemma ClaimedRows(t: Tables, j: JobId, batch: seq<ItemId>, now: int)
    requires Claimable(t, j, BATCH, batch) && batch != []
    ensures ClaimFits(t, Claim(t, SetOf(batch), now), j, batch)
  {
    forall i | i in batch ensures i in t.items && t.items[i].job == j && t.items[i].status == Pending {
      assert i in ItemsIn(t, j, Pending);
    }
  }

  lemma ClaimKeeps(w: World, j: JobId, t': Tables, batch: seq<ItemId>)
    requires Inv(w) && At(w, j, Claiming) && ClaimFits(w.t, t', j, batch)
    ensures Inv(StartBatch(w, j, t', batch))
  {
    ShuffleKeeps(w, t');
    BatchStarts(w, j, t', batch);
  }

  /** A runner at the head of its loop may start on a batch of its own live items. */
  lemma BatchStarts(w: World, j: JobId, t': Tables, batch: seq<ItemId>)
    requires Inv(w.(t := t')) && At(w, j, Claiming) && BatchOk(t', j, batch)
    ensures Inv(StartBatch(w, j, t', batch))
  {
    forall k | k in w.runners && k != j ensures RunnerOk(t', k, w.runners[k]) {}
    assert RunnerOk(t', j, w.runners[j]);
  }

  lemma MarkKeeps(w: World, e: Event)
    requires Inv(w) && Enabled(w, e) && e.MarkNext?
    ensures Inv(Next(w, e))
  {
    var w', r := Next(w, e), w.runners[e.job];
    var i := r.pc.batch[0];
    assert RunnerOk(w.t, e.job, r);
    if e.ok {
      MarkCounts(w.t, i, e.outcome, w.now);
      MarkLogs(w.t, w.log, i, e.outcome, w.now);
    }
    forall k | k in w'.runners ensures RunnerOk(w'.t, k, w'.runners[k]) {
      assert RunnerOk(w.t, k, w.runners[k]);
      if k == e.job {
        MarkOwnRunner(w, w', e);
      } else if e.ok {
        MarkOtherRunner(w.t, i, e.outcome, w.now, k, w.runners[k]);
      }
    }
  }

  lemma MarkLogs(t: Tables, log: seq<ItemId>, i: ItemId, outcome: Result<string, string>, now: int)
    requires LogOk(t, log) && i in t.items && Live(t.items[i].status)
    ensures LogOk(Mark(t, i, outcome, now), log + [i])
  {
    var t' := Mark(t, i, outcome, now);
    assert i !in log;
    forall k ensures k in log + [i] <==> k in t'.items && !Live(t'.items[k].status) {
      assert k in log + [i] <==> k in log || k == i;
    }
  }

  lemma MarkOwnRunner(w: World, w': World, e: Event)
    requires Inv(w) && Enabled(w, e) && e.MarkNext? && w' == Next(w, e)
    ensures e.job in w'.t.jobs && RunnerOk(w'.t, e.job, w'.runners[e.job])
  {
    var r := w.runners[e.job];
    assert RunnerOk(w.t, e.job, r);
    BatchHead(w.t, e.job, r.pc.batch);
    MarkedRunner(w.t, w'.t, e.job, r, w'.runners[e.job]);
  }

  lemma BatchHead(t: Tables, j: JobId, batch: seq<ItemId>)
    requires BatchOk(t, j, batch)
    ensures batch[0] in t.items && t.items[batch[0]].job == j
    ensures |batch| > 1 ==> BatchOk(t, j, batch[1..])
    ensures batch[0] !in batch[1..]
  {
    forall i | i in batch[1..] ensures i in batch && i != batch[0] {}
  }

  /**
   A mark of the head of the batch `r` works on either adds one to the counters of its job or is one more
   lost mark.
   */
  lemma MarkedRunner(t: Tables, t': Tables, j: JobId, r: Runner, r': Runner)
    requires j in t.jobs && j in t'.jobs && RunnerOk(t, j, r) && r.pc.Working?
    requires r.pc.batch[0] !in r.pc.batch[1..] && (|r.pc.batch| > 1 ==> BatchOk(t, j, r.pc.batch[1..]))
    requires t'.jobs[j].status == t.jobs[j].status
    requires t'.jobs[j].doneCount + t'.jobs[j].failedCount + r'.lost ==
               t.jobs[j].doneCount + t.jobs[j].failedCount + r.lost + 1
    requires forall i :: i in t.items && i != r.pc.batch[0] ==> i in t'.items && t'.items[i] == t.items[i]
    requires r'.pc == if |r.pc.batch| == 1 then Claiming else Working(r.pc.batch[1..])
    requires r'.claims == r.claims
    ensures RunnerOk(t', j, r')
  {
    var rest := r.pc.batch[1..];
    assert rest != [] ==> BatchOk(t', j, rest);
  }

  lemma MarkOtherRunner(t: Tables, i: ItemId, outcome: Result<string, string>, now: int, k: JobId, r: Runner)
    requires k in t.jobs && RunnerOk(t, k, r) && i in t.items && t.items[i].job != k
    ensures var t' := Mark(t, i, outcome, now);
            k in t'.jobs && RunnerOk(t', k, r)
  {
    SameItems(t, Mark(t, i, outcome, now), k);
  }

  lemma CountKeeps(w: World, e: Event)
    requires Inv(w) && Enabled(w, e) && (e.Count? || e.Elapse? || e.Crash?)
    ensures Inv(Next(w, e))
  {
    var w' := Next(w, e);
    forall k | k in w'.runners ensures RunnerOk(w'.t, k, w'.runners[k]) {
      assert RunnerOk(w.t, k, w.runners[k]);
    }
  }

  lemma StepKeeps(w: World, e: Event)
    requires Inv(w)
    ensures Inv(Step(w, e))
  {
    if Enabled(w, e) {
      match e
      case Submit(_, _, _, _, _) => SubmitKeeps(w, e);
      case ReclaimStale(_, _) => ReclaimKeeps(w, e);
      case Begin(_, _) => StatusKeeps(w, e);
      case TakeBatch(_, batch, _) => if batch == [] { TakeNothingKeeps(w, e); } else { TakeBatchKeeps(w, e); }
      case MarkNext(_, _, _) => MarkKeeps(w, e);
      case Complete(_, _) => StatusKeeps(w, e);
      case Count(_, _) => CountKeeps(w, e);
      case Elapse(_) => CountKeeps(w, e);
      case Crash => CountKeeps(w, e);
    }
  }

  lemma {:induction false} RunKeeps(w: World, evs: seq<Event>)
    requires Inv(w)
    ensures Inv(ExecFrom(w, evs))
  {
    if evs != [] {
      RunKeeps(w, evs[..|evs| - 1]);
      StepKeeps(ExecFrom(w, evs[..|evs| - 1]), evs[|evs| - 1]);
    }
  }

  lemma ReachableInv(evs: seq<Event>)
    ensures Inv(Exec(evs))
  {
    RunKeeps(INIT, evs);
  }

  // ---------- what every run guarantees ----------

  /** In every run the counters are exact, so done, failed and unfinished items add up to the total. */
  lemma CountersExact(evs: seq<Event>, j: JobId)
    requires j in Exec(evs).t.jobs
    ensures var t := Exec(evs).t;
            && t.jobs[j].total == |Items(t, j)|
            && t.jobs[j].doneCount == |ItemsIn(t, j, Done)|
            && t.jobs[j].failedCount == |ItemsIn(t, j, Failed)|
            && t.jobs[j].doneCount + t.jobs[j].failedCount + Remaining(t, j) == t.jobs[j].total
  {
    ReachableInv(evs);
    TotalSplits(Exec(evs).t, j);
  }

  lemma TerminalStatus(s: Status)
    ensures !Live(s) <==> s in {Done, Failed}
  {
  }

  /** No item is ever counted twice: committed marks name distinct items, and exactly the terminal ones. */
  lemma NoItemCountedTwice(evs: seq<Event>)
    ensures var w := Exec(evs);
            && Distinct(w.log)
            && forall i :: i in w.log <==> i in w.t.items && w.t.items[i].status in {Done, Failed}
  {
    ReachableInv(evs);
    var w := Exec(evs);
    forall i ensures i in w.log <==> i in w.t.items && w.t.items[i].status in {Done, Failed} {
      if i in w.t.items { TerminalStatus(w.t.items[i].status); }
    }
  }

  /** Every item still belongs to its job and url, and every job is of its kind and creator. */
  ghost predicate SameRows(t: Tables, t': Tables) {
    && (forall i :: i in t.items ==>
          i in t'.items && t'.items[i].job == t.items[i].job && t'.items[i].url == t.items[i].url)
    && (forall j :: j in t.jobs ==>
          j in t'.jobs && t'.jobs[j].kind == t.jobs[j].kind && t'.jobs[j].createdBy == t.jobs[j].createdBy)
  }

  /** Terminal items stay as they are, a job's live items only shrink, and its total never changes. */
  ghost predicate Progresses(t: Tables, t': Tables) {
    && SameRows(t, t')
    && (forall i :: i in t.items && !Live(t.items[i].status) ==> i in t'.items && t'.items[i] == t.items[i])
    && (forall j :: j in t.jobs ==>
          j in t'.jobs && t'.jobs[j].total == t.jobs[j].total && LiveItems(t', j) <= LiveItems(t, j))
  }

  lemma SubmitProgresses(w: World, e: Event)
    requires Inv(w) && Enabled(w, e) && e.Submit?
    ensures Progresses(w.t, Next(w, e).t)
  {
    CreateIsNewJob(w.t, e.job, e.kind, e.creator, e.ids, e.urls, w.now);
    forall k | k in w.t.jobs ensures LiveItems(Next(w, e).t, k) == LiveItems(w.t, k) {
      OtherJobs(w.t, Next(w, e).t, e.job, e.ids, k);
    }
  }

  lemma ShuffleProgresses(t: Tables, t': Tables)
    requires AllCounted(t) && Shuffled(t, t')
    requires forall i :: i in t.items && !Live(t.items[i].status) ==> t'.items[i] == t.items[i]
    requires forall i :: i in t.items ==> t'.items[i].url == t.items[i].url
    ensures Progresses(t, t')
  {
    ShuffleCounts(t, t');
  }

  lemma MarkProgresses(t: Tables, i: ItemId, outcome: Result<string, string>, now: int)
    requires AllCounted(t) && i in t.items && Live(t.items[i].status)
    ensures Progresses(t, Mark(t, i, outcome, now))
  {
    MarkCounts(t, i, outcome, now);
    MarkWrites(t, i, outcome, now);
    MarkSameRows(t, Mark(t, i, outcome, now), i, outcome, now);
  }

  lemma MarkSameRows(t: Tables, t': Tables, i: ItemId, outcome: Result<string, string>, now: int)
    requires i in t.items && t' == Mark(t, i, outcome, now)
    ensures SameRows(t, t') && forall k :: k in t.items && k != i ==> t'.items[k] == t.items[k]
    ensures forall j :: j in t.jobs ==> t'.jobs[j].total == t.jobs[j].total
  {
  }

  lemma MarkNextProgresses(w: World, e: Event)
    requires Inv(w) && Enabled(w, e) && e.MarkNext? && e.ok
    ensures Progresses(w.t, Next(w, e).t)
  {
    assert RunnerOk(w.t, e.job, w.runners[e.job]);
    MarkProgresses(w.t, w.runners[e.job].pc.batch[0], e.outcome, w.now);
  }

  lemma ReclaimProgresses(t: Tables, now: int)
    requires AllCounted(t)
    ensures Progresses(t, Reclaim(t, 15 * MINUTE, now))
  {
    ReclaimShuffles(t, now);
    ShuffleProgresses(t, Reclaim(t, 15 * MINUTE, now));
  }

  lemma StatusProgresses(t: Tables, j: JobId, s: Status)
    requires AllCounted(t)
    ensures Progresses(t, SetStatus(t, j, s))
  {
    StatusCounts(t, j, s);
  }

  lemma StepProgresses(w: World, e: Event)
    requires Inv(w)
    ensures Progresses(w.t, Step(w, e).t)
  {
    if Enabled(w, e) {
      match e
      case Submit(_, _, _, _, _) => SubmitProgresses(w, e);
      case TakeBatch(j, batch, _) => if batch != [] { TakeProgresses(w, e); }
      case MarkNext(_, _, ok) => if ok { MarkNextProgresses(w, e); }
      case ReclaimStale(_, ok) => if ok { ReclaimProgresses(w.t, w.now); }
      case Begin(j, _) => StatusProgresses(w.t, j, Running);
      case Complete(j, _) => StatusProgresses(w.t, j, Done);
      case Count(_, _) =>
      case Elapse(_) =>
      case Crash =>
    }
  }

  lemma TakeProgresses(w: World, e: Event)
    requires Inv(w) && Enabled(w, e) && e.TakeBatch? && e.batch != []
    ensures Progresses(w.t, Next(w, e).t)
  {
    ClaimedRows(w.t, e.job, e.batch, w.now);
    forall i | i in e.batch ensures w.t.items[i].status == Pending {
      assert i in ItemsIn(w.t, e.job, Pending);
    }
    ShuffleProgresses(w.t, Claim(w.t, SetOf(e.batch), w.now));
  }

  lemma {:induction false} RunProgresses(w: World, evs: seq<Event>)
    requires Inv(w)
    ensures Progresses(w.t, ExecFrom(w, evs).t)
  {
    if evs != [] {
      var front := evs[..|evs| - 1];
      RunProgresses(w, front);
      RunKeeps(w, front);
      StepProgresses(ExecFrom(w, front), evs[|evs| - 1]);
      ProgressComposes(w.t, ExecFrom(w, front).t, ExecFrom(w, evs).t);
    }
  }

  lemma ProgressComposes(a: Tables, b: Tables, c: Tables)
    requires Progresses(a, b) && Progresses(b, c)
    ensures Progresses(a, c)
  {
  }

  /** A done or failed item never changes again, whatever happens later. */
  lemma TerminalForever(evs: seq<Event>, more: seq<Event>, i: ItemId)
    requires i in Exec(evs).t.items && !Live(Exec(evs).t.items[i].status)
    ensures i in Exec(evs + more).t.items && Exec(evs + more).t.items[i] == Exec(evs).t.items[i]
  {
    ExecSplit(INIT, evs, more);
    ReachableInv(evs);
    RunProgresses(Exec(evs), more);
  }

  /** A job marked done by a runner whose count query answered is finished, and stays so in every continuation. */
  lemma DoneMeansFinished(evs: seq<Event>, more: seq<Event>, j: JobId)
    requires j in Exec(evs).t.jobs && Exec(evs).t.jobs[j].status == Done
    requires j in Exec(evs).runners && !Exec(evs).runners[j].blind
    ensures var t := Exec(evs + more).t;
            && j in t.jobs && Remaining(t, j) == 0
            && t.jobs[j].doneCount + t.jobs[j].failedCount == t.jobs[j].total == Exec(evs).t.jobs[j].total
  {
    ReachableInv(evs);
    assert RunnerOk(Exec(evs).t, j, Exec(evs).runners[j]);
    ExecSplit(INIT, evs, more);
    RunProgresses(Exec(evs), more);
    SubsetCard(LiveItems(Exec(evs + more).t, j), LiveItems(Exec(evs).t, j));
    CountersExact(evs + more, j);
  }

  /**
   runJob drops the error of its count query, and a failed query reads as zero remaining items. The
   runner's verdict agrees with the item table exactly when the query answered or nothing was left.
   */
  lemma VerdictRightIff(evs: seq<Event>, j: JobId, answers: bool)
    requires At(Exec(evs), j, Counting)
    ensures var before, after := Exec(evs).t, Exec(evs + [Count(j, answers)] + [Complete(j, true)]).t;
            && j in after.jobs
            && (after.jobs[j].status == Done <==> !answers || Remaining(before, j) == 0)
            && ((after.jobs[j].status == Done <==> Remaining(after, j) == 0) <==> answers || Remaining(before, j) == 0)
  {
    ReachableInv(evs);
    ExecSnoc(INIT, evs, Count(j, answers));
    ExecSnoc(INIT, evs + [Count(j, answers)], Complete(j, true));
    var w, w1 := Exec(evs), Exec(evs + [Count(j, answers)]);
    var w2 := Exec(evs + [Count(j, answers)] + [Complete(j, true)]);
    OpenWhileCounting(w, j);
    CountVerdict(w, w1, j, answers);
    if At(w1, j, Completing) {
      CompleteVerdict(w1, w2, j);
    } else {
      NoCompletion(w1, w2, j);
    }
  }

  lemma OpenWhileCounting(w: World, j: JobId)
    requires Inv(w) && At(w, j, Counting)
    ensures AllCounted(w.t) && j in w.t.jobs && w.t.jobs[j].status != Done
  {
    assert RunnerOk(w.t, j, w.runners[j]);
  }

  lemma NoCompletion(w1: World, w2: World, j: JobId)
    requires !At(w1, j, Completing) && w2 == Step(w1, Complete(j, true))
    ensures w2 == w1
  {
  }

  lemma CountVerdict(w: World, w1: World, j: JobId, answers: bool)
    requires At(w, j, Counting) && w1 == Step(w, Count(j, answers))
    ensures w1.t == w.t && (At(w1, j, Completing) <==> !answers || Remaining(w.t, j) == 0)
  {
    assert Enabled(w, Count(j, answers));
  }

  lemma CompleteVerdict(w1: World, w2: World, j: JobId)
    requires AllCounted(w1.t) && j in w1.t.jobs && At(w1, j, Completing) && w2 == Step(w1, Complete(j, true))
    ensures j in w2.t.jobs && w2.t.jobs[j].status == Done && Remaining(w2.t, j) == Remaining(w1.t, j)
  {
    StatusCounts(w1.t, j, Done);
  }

  /** One submitted url; the first claim fails, so the loop ends with the item still pending. */
  ghost function FailedClaimRun(): seq<Event> {
    [Submit("job", "bulk_discover", "", ["item"], ["url"])]
    + [ReclaimStale("job", false)] + [Begin("job", false)] + [TakeBatch("job", [], false)]
  }

  lemma FailedClaimLeavesItem()
    ensures var w := Exec(FailedClaimRun()); At(w, "job", Counting) && "item" in LiveItems(w.t, "job")
  {
    var e1 := Submit("job", "bulk_discover", "", ["item"], ["url"]);
    ExecSnoc(INIT, [], e1);
    ExecSnoc(INIT, [e1], ReclaimStale("job", false));
    ExecSnoc(INIT, [e1] + [ReclaimStale("job", false)], Begin("job", false));
    ExecSnoc(INIT, [e1] + [ReclaimStale("job", false)] + [Begin("job", false)], TakeBatch("job", [], false));
    CreateIsNewJob(INIT.t, "job", "bulk_discover", "", ["item"], ["url"], 0);
    assert [e1] == [] + [e1];
    var t := Exec([e1]).t;
    assert ["item"][0] == "item";
    assert t.items["item"].status == Pending && t.items["item"].job == "job";
    assert Exec(FailedClaimRun()).t == t;
  }

  /** A run in which a job is marked done while its only item is still pending. */
  lemma BlindCompletionHappens()
    ensures exists evs :: var t := Exec(evs).t;
              "job" in t.jobs && t.jobs["job"].status == Done && Remaining(t, "job") > 0
  {
    FailedClaimLeavesItem();
    BlindVerdict(FailedClaimRun(), "job");
  }

  /** Wherever items are left at the count, a failed count query ends in a job wrongly marked done. */
  lemma BlindVerdict(evs: seq<Event>, j: JobId)
    requires At(Exec(evs), j, Counting) && LiveItems(Exec(evs).t, j) != {}
    ensures var t := Exec(evs + [Count(j, false)] + [Complete(j, true)]).t;
            j in t.jobs && t.jobs[j].status == Done && Remaining(t, j) > 0
  {
    VerdictRightIff(evs, j, false);
  }

  /**
   The runner's loop is bounded in every run: it never takes more non-empty batches than the job has
   items plus marks that failed to commit, plus the batch it is working on.
   */
  lemma ClaimsBounded(evs: seq<Event>, j: JobId)
    requires j in Exec(evs).runners
    ensures var w := Exec(evs);
            && j in w.t.jobs
            && w.runners[j].claims <= w.t.jobs[j].total + w.runners[j].lost + 1
            && (At(w, j, Claiming) ==> w.runners[j].claims <= w.t.jobs[j].total + w.runners[j].lost)
  {
    ReachableInv(evs);
    var w := Exec(evs);
    assert RunnerOk(w.t, j, w.runners[j]);
    CountersExact(evs, j);
  }

  /** A runner is blind exactly if its count query failed. */
  lemma BlindIff(evs: seq<Event>, j: JobId, answers: bool)
    requires At(Exec(evs), j, Counting)
    ensures var w := Exec(evs + [Count(j, answers)]); j in w.runners && (w.runners[j].blind <==> !answers)
  {
    ExecSnoc(INIT, evs, Count(j, answers));
  }

  /** A job whose runner begins is running. */
  lemma BegunJobRuns(evs: seq<Event>, j: JobId)
    requires At(Exec(evs), j, Starting)
    ensures var t := Exec(evs + [Begin(j, true)]).t; j in t.jobs && t.jobs[j].status == Running
  {
    ReachableInv(evs);
    ExecSnoc(INIT, evs, Begin(j, true));
  }

  ghost predicate SmallBatches(w: World) {
    forall j :: j in w.runners && w.runners[j].pc.Working? ==> |w.runners[j].pc.batch| <= 8
  }

  /** In every run no runner holds more than eight items. */
  lemma {:induction false} AtMostEight(evs: seq<Event>)
    ensures SmallBatches(Exec(evs))
  {
    if evs != [] {
      AtMostEight(evs[..|evs| - 1]);
      StepStaysSmall(Exec(evs[..|evs| - 1]), evs[|evs| - 1]);
    }
  }

  lemma StepStaysSmall(w: World, e: Event)
    requires SmallBatches(w)
    ensures SmallBatches(Step(w, e))
  {
  }

  /** After a reclaim no item of any job has been running for more than fifteen minutes. */
  lemma NothingStaleAfterReclaim(evs: seq<Event>, k: JobId)
    requires At(Exec(evs), k, Reclaiming)
    ensures var w := Exec(evs + [ReclaimStale(k, true)]);
            forall i :: i in w.t.items && w.t.items[i].status == Running ==> w.now - w.t.items[i].updatedAt <= 900
  {
    ExecSnoc(INIT, evs, ReclaimStale(k, true));
    ReclaimWrites(Exec(evs).t, 15 * MINUTE, Exec(evs).now);
  }

  /** The number of non-empty claims of a runner in a run. */
  ghost function Claims(evs: seq<Event>, j: JobId): nat {
    if evs == [] then 0
    else
      var front, e := evs[..|evs| - 1], evs[|evs| - 1];
      Claims(front, j) + if Enabled(Exec(front), e) && e.TakeBatch? && e.job == j && e.batch != [] then 1 else 0
  }

  /** The number of marks of a runner in a run that did not commit. */
  ghost function LostMarks(evs: seq<Event>, j: JobId): nat {
    if evs == [] then 0
    else
      var front, e := evs[..|evs| - 1], evs[|evs| - 1];
      LostMarks(front, j) + if Enabled(Exec(front), e) && e.MarkNext? && e.job == j && !e.ok then 1 else 0
  }

  /** What a runner is said to have claimed and lost is what it did claim and lose. */
  lemma {:induction false} RunnersCount(evs: seq<Event>, j: JobId)
    ensures var w := Exec(evs);
            if j in w.runners then w.runners[j].claims == Claims(evs, j) && w.runners[j].lost == LostMarks(evs, j)
            else Claims(evs, j) == LostMarks(evs, j) == 0
  {
    if evs != [] {
      var front, e := evs[..|evs| - 1], evs[|evs| - 1];
      RunnersCount(front, j);
      ReachableInv(front);
      StepCounts(Exec(front), e, j);
    }
  }

  lemma StepCounts(w: World, e: Event, j: JobId)
    requires w.runners.Keys == w.t.jobs.Keys
    ensures j in w.runners ==> j in Step(w, e).runners
    ensures var taken := Enabled(w, e) && e.TakeBatch? && e.job == j && e.batch != [];
            var lost := Enabled(w, e) && e.MarkNext? && e.job == j && !e.ok;
            if j in w.runners then
              && Step(w, e).runners[j].claims == w.runners[j].claims + (if taken then 1 else 0)
              && Step(w, e).runners[j].lost == w.runners[j].lost + (if lost then 1 else 0)
            else
              && !taken && !lost
              && (j in Step(w, e).runners ==> Step(w, e).runners[j].claims == Step(w, e).runners[j].lost == 0)
  {
  }

  /** The time that elapses in a run. */
  ghost function Elapsed(evs: seq<Event>): nat {
    if evs == [] then 0
    else Elapsed(evs[..|evs| - 1]) + if evs[|evs| - 1].Elapse? then evs[|evs| - 1].d else 0
  }

  /** The clock of a run shows the time that has elapsed. */
  lemma {:induction false} ClockRuns(evs: seq<Event>)
    ensures Exec(evs).now == Elapsed(evs)
  {
    if evs != [] { ClockRuns(evs[..|evs| - 1]); }
  }

  // ---------- how long a claim holds ----------

  /** `i`, claimed at `since`, is still running since then, or the claim is more than fifteen minutes old. */
  ghost predicate ItemAged(t: Tables, i: ItemId, since: int, now: int) {
    && i in t.items && since <= now
    && ((t.items[i].status == Running && t.items[i].updatedAt == since) || since < now - 15 * MINUTE)
  }

  ghost predicate InBatch(w: World, j: JobId, i: ItemId) {
    j in w.runners && w.runners[j].pc.Working? && i in w.runners[j].pc.batch
  }

  ghost predicate Aged(w: World) {
    forall j, i :: InBatch(w, j, i) ==> ItemAged(w.t, i, w.runners[j].since, w.now)
  }

  /** The item was in the same batch before, and nobody but a reclaim of a stale item touched it. */
  ghost predicate Carried(w: World, w': World, j: JobId, i: ItemId) {
    && InBatch(w, j, i) && InBatch(w', j, i) && w'.runners[j].since == w.runners[j].since && w.now <= w'.now
    && i in w.t.items && i in w'.t.items
    && (w'.t.items[i] == w.t.items[i] || w.t.items[i].updatedAt < w.now - 15 * MINUTE)
  }

  lemma CarriedAged(w: World, w': World, j: JobId, i: ItemId)
    requires Carried(w, w', j, i) && Aged(w)
    ensures ItemAged(w'.t, i, w'.runners[j].since, w'.now)
  {
    assert ItemAged(w.t, i, w.runners[j].since, w.now);
  }

  lemma OwnItem(w: World, j: JobId, i: ItemId)
    requires Inv(w) && InBatch(w, j, i)
    ensures i in w.t.items && w.t.items[i].job == j && j in w.t.jobs
  {
    assert RunnerOk(w.t, j, w.runners[j]);
  }

  lemma SubmitCarries(w: World, w': World, e: Event, j: JobId, i: ItemId)
    requires Inv(w) && Enabled(w, e) && e.Submit? && w' == Next(w, e) && InBatch(w', j, i)
    ensures Carried(w, w', j, i)
  {
    OwnItem(w, j, i);
    CreateIsNewJob(w.t, e.job, e.kind, e.creator, e.ids, e.urls, w.now);
  }

  lemma TakeCarries(w: World, w': World, e: Event, j: JobId, i: ItemId)
    requires Inv(w) && Enabled(w, e) && e.TakeBatch? && w' == Next(w, e) && InBatch(w', j, i) && j != e.job
    ensures Carried(w, w', j, i)
  {
    OwnItem(w, j, i);
    assert i !in ItemsIn(w.t, e.job, Pending);
  }

  lemma MarkCarries(w: World, w': World, e: Event, j: JobId, i: ItemId)
    requires Inv(w) && Enabled(w, e) && e.MarkNext? && w' == Next(w, e) && InBatch(w', j, i)
    ensures Carried(w, w', j, i)
  {
    var r := w.runners[e.job];
    assert RunnerOk(w.t, e.job, r);
    BatchHead(w.t, e.job, r.pc.batch);
    assert j == e.job ==> i in r.pc.batch[1..];
    OwnItem(w, j, i);
    MarkTouchesHead(w.t, r.pc.batch[0], e.outcome, w.now, i);
  }

  lemma MarkTouchesHead(t: Tables, head: ItemId, outcome: Result<string, string>, now: int, i: ItemId)
    requires i in t.items && i != head
    ensures i in Mark(t, head, outcome, now).items && Mark(t, head, outcome, now).items[i] == t.items[i]
  {
  }

  lemma ReclaimCarries(w: World, w': World, e: Event, j: JobId, i: ItemId)
    requires Inv(w) && Enabled(w, e) && e.ReclaimStale? && w' == Next(w, e) && InBatch(w', j, i)
    ensures Carried(w, w', j, i)
  {
    OwnItem(w, j, i);
  }

  lemma QuietCarries(w: World, w': World, j: JobId, i: ItemId)
    requires Inv(w) && InBatch(w, j, i) && w'.t.items == w.t.items && w.now <= w'.now
    requires j in w'.runners && w'.runners[j] == w.runners[j]
    ensures Carried(w, w', j, i)
  {
    OwnItem(w, j, i);
  }

  lemma StepAges(w: World, e: Event, j: JobId, i: ItemId)
    requires Inv(w) && Aged(w) && Enabled(w, e) && InBatch(Next(w, e), j, i)
    ensures var w' := Next(w, e); ItemAged(w'.t, i, w'.runners[j].since, w'.now)
  {
    var w' := Next(w, e);
    if e.TakeBatch? && e.job == j {
      assert i in ItemsIn(w.t, j, Pending);
    } else {
      if e.Submit? { SubmitCarries(w, w', e, j, i); }
      else if e.TakeBatch? { TakeCarries(w, w', e, j, i); }
      else if e.MarkNext? { MarkCarries(w, w', e, j, i); }
      else if e.ReclaimStale? { ReclaimCarries(w, w', e, j, i); }
      else { QuietCarries(w, w', j, i); }
      CarriedAged(w, w', j, i);
    }
  }

  lemma {:induction false} ReachableAged(evs: seq<Event>)
    ensures Aged(Exec(evs))
  {
    if evs != [] {
      var front, e := evs[..|evs| - 1], evs[|evs| - 1];
      ReachableAged(front);
      ReachableInv(front);
      var w := Exec(front);
      if Enabled(w, e) {
        var w' := Next(w, e);
        forall j, i | InBatch(w', j, i) ensures ItemAged(w'.t, i, w'.runners[j].since, w'.now) {
          StepAges(w, e, j, i);
        }
      }
    }
  }

  /**
   Whatever other runners do, an item that a runner claimed at most fifteen minutes ago and has not marked
   yet is running, and carries the time of the claim.
   */
  lemma FreshClaimsSurviveReclaim(evs: seq<Event>, j: JobId, i: ItemId)
    requires InBatch(Exec(evs), j, i) && Exec(evs).now - Exec(evs).runners[j].since <= 900
    ensures var w := Exec(evs);
            i in w.t.items && w.t.items[i].status == Running && w.t.items[i].updatedAt == w.runners[j].since
  {
    ReachableAged(evs);
    assert ItemAged(Exec(evs).t, i, Exec(evs).runners[j].since, Exec(evs).now);
  }
}
