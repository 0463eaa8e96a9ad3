/**
 Politeness of the HTTP client (internal/httpx/client.go) towards one host: a semaphore of `perHost`
 slots, and a minimum gap enforced through a shared `last` stamp that is read under a lock, slept on
 without it, and then written under the lock without a second look. A dispatch is the moment a call
 stamps `last`, just before it sends its request.
 */
module PoliteClient {
  import opened Common

  type CallId = nat

  datatype Config = Config(perHost: int, minGap: int)

  const MILLISECOND := 1_000_000

  /** The defaults NewWithOptions puts in place of unusable options. */
  function Normalise(perHost: int, minGap: int): (c: Config)
    ensures Sane(c)
    ensures perHost >= 1 ==> c.perHost == perHost
    ensures minGap >= 0 ==> c.minGap == minGap
    ensures perHost < 1 ==> c.perHost == 2
    ensures minGap < 0 ==> c.minGap == 200 * MILLISECOND
  {
    Config(if perHost < 1 then 2 else perHost, if minGap < 0 then 200 * MILLISECOND else minGap)
  }

  predicate Sane(c: Config) {
    c.perHost >= 1 && c.minGap >= 0
  }

  /** How long a call must still sleep when it reads `last` at time `now`; not positive means it may go at once. */
  function GapWait(last: Option<int>, minGap: int, now: int): (wait: int)
    ensures last.None? ==> wait <= 0
    ensures last.Some? && wait > 0 ==> now + wait == last.value + minGap
    ensures last.Some? && wait <= 0 ==> now >= last.value + minGap
  {
    if last.None? then 0 else minGap - (now - last.value)
  }

  /** The per-host state shared by all calls: occupied slots and the `last` stamp. */
  class HostGate {
    const config: Config
    var held: nat
    var last: Option<int>

    constructor (c: Config)
      ensures config == c && held == 0 && last == None
    {
      config, held, last := c, 0, None;
    }

    method TryAcquire() returns (ok: bool)
      modifies this`held
      ensures ok == (old(held) < config.perHost)
      ensures held == if ok then old(held) + 1 else old(held)
    {
      ok := held < config.perHost;
      if ok { held := held + 1; }
    }

    method Release()
      requires held > 0
      modifies this`held
      ensures held == old(held) - 1
    {
      held := held - 1;
    }

    /** The critical section of the gap check: stamps at once (at `stampTime`) or says how long to sleep. */
    method CheckGap(now: int, stampTime: int) returns (wait: int)
      modifies this`last
      ensures wait == GapWait(old(last), config.minGap, now)
      ensures last == if wait > 0 then old(last) else Some(stampTime)
    {
      wait := 0;
      if last.Some? {
        wait := config.minGap - (now - last.value);
      }
      if wait <= 0 { last := Some(stampTime); }
    }

    /** After the sleep the stamp is written without looking at `last` again. */
    method Stamp(now: int)
      modifies this`last
      ensures last == Some(now)
    {
      last := Some(now);
    }
  }

  /** How a pass through getOnce may be cut short before it sends anything. */
  datatype Stop = Never | AtLimiter | InGap

  /** No response, a 429 with a pause, which may be cut short, or any other response. */
  datatype Answer = NoResponse | TooManyRequests(pause: nat, cut: bool) | Response

  /** What one pass through getOnce meets: delays, an early stop, and the answer. */
  datatype Turn = Turn(limiter: nat, lag: nat, late: nat, stop: Stop, response: nat, answer: Answer)

  /** With a slot in hand at time `now`, the request is sent. */
  predicate Goes(last: Option<int>, minGap: int, now: int, turn: Turn) {
    turn.stop == Never || (turn.stop == InGap && GapWait(last, minGap, now + turn.limiter) <= 0)
  }

  /** The request goes out at `time`: at once, or when the gap behind `last` is slept out. */
  predicate SentAt(last: Option<int>, minGap: int, now: int, turn: Turn, time: int) {
    if last.None? || now + turn.limiter >= last.value + minGap then time == now + turn.limiter + turn.lag
    else time == last.value + minGap + turn.late
  }

  /**
   getOnce from end to end, undisturbed by other calls: waits for a slot it cannot get until it is
   cancelled, keeps the gap, and answers 429 by calling itself once while its slot is still taken.
   `sent` are the times of its requests.
   */
  method GetOnce(gate: HostGate, now: int, allowRetry: bool, first: Turn, second: Turn)
    returns (sent: seq<int>, end: int, ok: bool)
    requires Sane(gate.config)
    modifies gate
    ensures gate.held == old(gate.held)
    ensures gate.last == if sent == [] then old(gate.last) else Some(sent[|sent| - 1])
    ensures sent != [] <==> old(gate.held) < gate.config.perHost && Goes(old(gate.last), gate.config.minGap, now, first)
    ensures sent != [] ==> SentAt(old(gate.last), gate.config.minGap, now, first, sent[0])
    ensures sent != [] && old(gate.last).Some? ==> sent[0] >= old(gate.last).value + gate.config.minGap
    ensures |sent| <= 2
    ensures |sent| == 2 ==> first.answer.TooManyRequests? && sent[1] >= sent[0] + first.response + first.answer.pause
    ensures |sent| == 2 ==> sent[1] >= sent[0] + gate.config.minGap
    ensures |sent| == 2 ==>
              SentAt(Some(sent[0]), gate.config.minGap, sent[0] + first.response + first.answer.pause, second, sent[1])
    ensures |sent| == 1 && !(allowRetry && first.answer.TooManyRequests?) ==> end == sent[0] + first.response
    ensures |sent| == 2 ==> end == sent[1] + second.response
    ensures |sent| == 2 ==> allowRetry && !first.answer.cut && old(gate.held) + 1 < gate.config.perHost
    ensures sent != [] && allowRetry && first.answer.TooManyRequests? && !first.answer.cut && second.stop == Never ==>
              (|sent| == 2 <==> old(gate.held) + 1 < gate.config.perHost)
    ensures |sent| == 0 ==> !ok
    ensures |sent| == 1 ==> (ok <==> first.answer.Response? || (first.answer.TooManyRequests? && !allowRetry))
    ensures |sent| == 2 ==> (ok <==> !second.answer.NoResponse?)
    decreases allowRetry
  {
    sent, end, ok := [], now, false;
    var granted := gate.TryAcquire();
    if !granted { return; }
    var t := now + first.limiter;
    if first.stop != AtLimiter {
      var wait := gate.CheckGap(t, t + first.lag);
      if wait <= 0 || first.stop != InGap {
        if wait > 0 {
          t := t + wait + first.late;
          gate.Stamp(t);
        } else {
          t := t + first.lag;
        }
        sent, end := [t], t + first.response;
        ok := !first.answer.NoResponse?;
        if allowRetry && first.answer.TooManyRequests? {
          ok := false;
          if !first.answer.cut {
            var more;
            more, end, ok := GetOnce(gate, end + first.answer.pause, false, second, second);
            sent := sent + more;
          }
        }
      }
    }
    gate.Release();
  }

  // ---------- all interleavings of the calls to one host ----------

  datatype Pc =
    | Queued                 // waiting for a slot
    | Holding                // has a slot; waiting for the rate limiter or the lock
    | Sleeping(until: int)   // read `last` and sleeps out the gap
    | InFlight               // stamped and sent
    | Pausing                // answered 429; sleeps before the retry, slot still held
    | Backoff(child: CallId) // retrying once, slot still held
    | Finished

  /**
   `joined`: dispatches before this call got its slot. `sent`: its own position among the dispatches.
   `resume`: when the pause after a 429 is over.
   */
  datatype Call = Call(pc: Pc, parent: Option<CallId>, joined: nat, sent: Option<nat>, resume: int)

  datatype Dispatch = Dispatch(id: CallId, time: int)

  datatype World = World(held: int, last: Option<int>, calls: map<CallId, Call>, log: seq<Dispatch>, now: int)

  datatype Event =
    | Arrive(id: CallId)
    | Acquire(id: CallId)
    | Check(id: CallId, lag: nat)  // `lag`: time spent between reading the clock and stamping
    | Wake(id: CallId)
    | TooMany(id: CallId, pause: nat)
    | Retry(id: CallId, child: CallId)
    | Finish(id: CallId)           // response, error, cancellation, or return of the retry
    | Elapse(d: nat)

  const INIT: World := World(0, None, map[], [], 0)

  predicate HoldsSlot(c: Call) {
    c.pc.Holding? || c.pc.Sleeping? || c.pc.InFlight? || c.pc.Pausing? || c.pc.Backoff?
  }

  ghost function Holders(w: World): set<CallId> {
    set id | id in w.calls && HoldsSlot(w.calls[id])
  }

  ghost predicate Enabled(c: Config, w: World, e: Event) {
    match e
    case Arrive(id) => id !in w.calls
    case Acquire(id) => id in w.calls && w.calls[id].pc.Queued? && w.held < c.perHost
    case Check(id, _) => id in w.calls && w.calls[id].pc.Holding?
    case Wake(id) => id in w.calls && w.calls[id].pc.Sleeping? && w.calls[id].pc.until <= w.now
    case TooMany(id, _) => id in w.calls && w.calls[id].pc.InFlight? && w.calls[id].parent.None?
    case Retry(id, child) =>
      id in w.calls && w.calls[id].pc.Pausing? && w.calls[id].resume <= w.now && child !in w.calls
    case Finish(id) =>
      && id in w.calls && !w.calls[id].pc.Finished?
      && (w.calls[id].pc.Backoff? ==>
            w.calls[id].pc.child in w.calls && w.calls[w.calls[id].pc.child].pc.Finished?)
    case Elapse(_) => true
  }

  ghost function Send(w: World, id: CallId, time: int): World
    requires id in w.calls
  {
    World(w.held, Some(time), w.calls[id := w.calls[id].(pc := InFlight, sent := Some(|w.log|))],
          w.log + [Dispatch(id, time)], time)
  }

  ghost function Next(c: Config, w: World, e: Event): World
    requires Enabled(c, w, e)
  {
    match e
    case Arrive(id) => w.(calls := w.calls[id := Call(Queued, None, 0, None, 0)])
    case Acquire(id) =>
      w.(held := w.held + 1, calls := w.calls[id := w.calls[id].(pc := Holding, joined := |w.log|)])
    case Check(id, lag) =>
      var wait := GapWait(w.last, c.minGap, w.now);
      if wait > 0 then w.(calls := w.calls[id := w.calls[id].(pc := Sleeping(w.now + wait))])
      else Send(w, id, w.now + lag)
    case Wake(id) => Send(w, id, w.now)
    case TooMany(id, pause) => w.(calls := w.calls[id := w.calls[id].(pc := Pausing, resume := w.now + pause)])
    case Retry(id, child) =>
      w.(calls := w.calls[id := w.calls[id].(pc := Backoff(child))][child := Call(Queued, Some(id), 0, None, 0)])
    case Finish(id) =>
      w.(held := if HoldsSlot(w.calls[id]) then w.held - 1 else w.held,
         calls := w.calls[id := w.calls[id].(pc := Finished)])
    case Elapse(d) => w.(now := w.now + d)
  }

  ghost function Step(c: Config, w: World, e: Event): World {
    if Enabled(c, w, e) then Next(c, w, e) else w
  }

  ghost function Exec(c: Config, evs: seq<Event>): World {
    if evs == [] then INIT else Step(c, Exec(c, evs[..|evs| - 1]), evs[|evs| - 1])
  }

  lemma ExecSnoc(c: Config, evs: seq<Event>, e: Event)
    ensures Exec(c, evs + [e]) == Step(c, Exec(c, evs), e)
  {
    assert (evs + [e])[..|evs + [e]| - 1] == evs;
  }

  // ---------- the invariant ----------

  /** Calls that took their slot no later than dispatch `i` and are dispatched at `i` or later, or not yet. */
  ghost function Early(w: World, i: nat): set<CallId> {
    set id | id in w.calls && IsEarly(w.calls[id], i)
  }

  ghost predicate IsEarly(c: Call, i: nat) {
    c.joined <= i && if c.sent.Some? then c.sent.value >= i else c.pc.Holding? || c.pc.Sleeping?
  }

  /** The call a live retry belongs to is waiting for it, slot in hand. */
  ghost predicate ParentsOk(w: World) {
    && (forall id :: id in w.calls && w.calls[id].parent.Some? && !w.calls[id].pc.Finished? ==>
          w.calls[id].parent.value in w.calls && w.calls[w.calls[id].parent.value].pc == Backoff(id))
  }

  ghost predicate LogOk(w: World) {
    && w.last == (if w.log == [] then None else Some(w.log[|w.log| - 1].time))
    && (forall i :: 0 <= i < |w.log| ==> w.log[i].time <= w.now)
    && (forall i, j :: 0 <= i <= j < |w.log| ==> w.log[i].time <= w.log[j].time)
    && (forall i :: 0 <= i < |w.log| ==> w.log[i].id in w.calls && w.calls[w.log[i].id].sent == Some(i))
  }

  /** A call waits out the gap behind every dispatch made before it took its slot. */
  ghost predicate CallOk(c: Config, log: seq<Dispatch>, id: CallId, call: Call) {
    && call.joined <= |log|
    && (call.pc.Queued? || call.pc.Holding? || call.pc.Sleeping? ==> call.sent.None?)
    && (call.pc.InFlight? || call.pc.Pausing? || call.pc.Backoff? ==> call.sent.Some?)
    && (call.pc.Sleeping? ==> forall i :: 0 <= i < call.joined ==> log[i].time + c.minGap <= call.pc.until)
    && (call.sent.Some? ==>
          && call.joined <= call.sent.value < |log| && log[call.sent.value].id == id
          && forall i :: 0 <= i < call.joined ==> log[i].time + c.minGap <= log[call.sent.value].time)
  }

  ghost predicate Inv(c: Config, w: World) {
    && w.held == |Holders(w)| <= c.perHost
    && LogOk(w)
    && (forall id :: id in w.calls ==> CallOk(c, w.log, id, w.calls[id]))
    && (forall i :: 0 <= i < |w.log| ==> |Early(w, i)| <= c.perHost)
  }

  lemma SendKeeps(c: Config, w: World, id: CallId, time: int)
    requires Sane(c) && Inv(c, w) && CanSend(c, w, id, time)
    ensures Inv(c, Send(w, id, time))
  {
    var w' := Send(w, id, time);
    SendHolders(w, id, time);
    SendLogOk(c, w, id, time);
    forall k | k in w'.calls ensures CallOk(c, w'.log, k, w'.calls[k]) {
      SendCallOk(c, w, id, time, k);
    }
    forall i | 0 <= i < |w'.log| ensures |Early(w', i)| <= c.perHost {
      SendEarly(c, w, id, time, i);
    }
  }

  ghost predicate CanSend(c: Config, w: World, id: CallId, time: int) {
    && id in w.calls && time >= w.now && (w.calls[id].pc.Holding? || w.calls[id].pc.Sleeping?)
    && w.calls[id].joined <= |w.log| && forall i :: 0 <= i < w.calls[id].joined ==> w.log[i].time + c.minGap <= time
  }

  lemma SendHolders(w: World, id: CallId, time: int)
    requires id in w.calls && HoldsSlot(w.calls[id])
    ensures Holders(Send(w, id, time)) == Holders(w)
  {
  }

  lemma SendLogOk(c: Config, w: World, id: CallId, time: int)
    requires Inv(c, w) && CanSend(c, w, id, time)
    ensures LogOk(Send(w, id, time))
  {
    assert CallOk(c, w.log, id, w.calls[id]);
  }

  lemma SendCallOk(c: Config, w: World, id: CallId, time: int, k: CallId)
    requires Inv(c, w) && CanSend(c, w, id, time) && k in w.calls
    ensures var w' := Send(w, id, time); CallOk(c, w'.log, k, w'.calls[k])
  {
    assert CallOk(c, w.log, k, w.calls[k]);
  }

  lemma SendEarly(c: Config, w: World, id: CallId, time: int, i: nat)
    requires Inv(c, w) && CanSend(c, w, id, time) && i <= |w.log|
    ensures |Early(Send(w, id, time), i)| <= c.perHost
  {
    var w' := Send(w, id, time);
    if i < |w.log| {
      SubsetCard(Early(w', i), Early(w, i));
    } else {
      forall k | k in Early(w', i) ensures k in Holders(w) {
        assert CallOk(c, w.log, k, w.calls[k]);
      }
      SubsetCard(Early(w', i), Holders(w));
    }
  }

  /** Replacing or adding call `id` without a dispatch: its slot must be accounted for and it may not become early. */
  ghost predicate Updates(c: Config, w: World, w': World, id: CallId) {
    && id in w'.calls && w'.calls == w.calls[id := w'.calls[id]]
    && w'.log == w.log && w'.last == w.last && w'.now == w.now
    && CallOk(c, w.log, id, w'.calls[id])
    && (if id in w.calls then w'.calls[id].sent == w.calls[id].sent else w'.calls[id].sent.None?)
    && (forall i :: 0 <= i < |w.log| && IsEarly(w'.calls[id], i) ==> id in w.calls && IsEarly(w.calls[id], i))
    && w'.held <= c.perHost
    && w'.held == |Holders(w) - {id}| + if HoldsSlot(w'.calls[id]) then 1 else 0
  }

  lemma UpdateKeeps(c: Config, w: World, w': World, id: CallId)
    requires Inv(c, w) && Updates(c, w, w', id)
    ensures Inv(c, w')
  {
    assert w'.held == |Holders(w')| by {
      UpdatedHolderCount(w, id, w'.calls[id]);
      assert Holders(w') == Holders(w.(calls := w.calls[id := w'.calls[id]]));
    }
    forall k | k in w'.calls ensures CallOk(c, w'.log, k, w'.calls[k]) {
      if k != id { assert CallOk(c, w.log, k, w.calls[k]); }
    }
    forall i | 0 <= i < |w'.log| ensures |Early(w', i)| <= c.perHost {
      assert |Early(w, i)| <= c.perHost;
      UpdatedEarly(w, w', id, i);
    }
  }

  lemma UpdatedHolders(w: World, id: CallId, call: Call)
    ensures Holders(w.(calls := w.calls[id := call])) == (Holders(w) - {id}) + if HoldsSlot(call) then {id} else {}
  {
  }

  lemma UpdatedHolderCount(w: World, id: CallId, call: Call)
    ensures |Holders(w.(calls := w.calls[id := call]))| == |Holders(w) - {id}| + if HoldsSlot(call) then 1 else 0
  {
    var rest := Holders(w) - {id};
    UpdatedHolders(w, id, call);
    assert |rest + {id}| == |rest| + 1 && rest + {} == rest;
  }

  lemma UpdatedEarly(w: World, w': World, id: CallId, i: nat)
    requires id in w'.calls && w'.calls == w.calls[id := w'.calls[id]]
    requires IsEarly(w'.calls[id], i) ==> id in w.calls && IsEarly(w.calls[id], i)
    ensures |Early(w', i)| <= |Early(w, i)|
  {
    SubsetCard(Early(w', i), Early(w, i));
  }

  lemma HolderCount(w: World, id: CallId)
    ensures |Holders(w) - {id}| == |Holders(w)| - if id in w.calls && HoldsSlot(w.calls[id]) then 1 else 0
  {
  }

  lemma SleepKeeps(c: Config, w: World, e: Event)
    requires Sane(c) && Inv(c, w) && Enabled(c, w, e) && e.Check? && GapWait(w.last, c.minGap, w.now) > 0
    ensures Inv(c, Next(c, w, e))
  {
    assert CallOk(c, w.log, e.id, w.calls[e.id]);
    HolderCount(w, e.id);
    UpdateKeeps(c, w, Next(c, w, e), e.id);
  }

  lemma DispatchKeeps(c: Config, w: World, w': World, id: CallId, time: int)
    requires Sane(c) && Inv(c, w) && CanSend(c, w, id, time) && w' == Send(w, id, time)
    ensures Inv(c, w')
  {
    SendKeeps(c, w, id, time);
  }

  lemma GapStepKeeps(c: Config, w: World, e: Event)
    requires Sane(c) && Inv(c, w) && Enabled(c, w, e) && (e.Check? || e.Wake?)
    ensures Inv(c, Next(c, w, e))
  {
    if e.Check? && GapWait(w.last, c.minGap, w.now) > 0 {
      SleepKeeps(c, w, e);
    } else {
      assert CallOk(c, w.log, e.id, w.calls[e.id]);
      DispatchKeeps(c, w, Next(c, w, e), e.id, if e.Wake? then w.now else w.now + e.lag);
    }
  }

  lemma TooManyKeeps(c: Config, w: World, e: Event)
    requires Inv(c, w) && Enabled(c, w, e) && e.TooMany?
    ensures Inv(c, Next(c, w, e))
  {
    assert CallOk(c, w.log, e.id, w.calls[e.id]);
    HolderCount(w, e.id);
    UpdateKeeps(c, w, Next(c, w, e), e.id);
  }

  lemma RetryKeeps(c: Config, w: World, e: Event)
    requires Inv(c, w) && Enabled(c, w, e) && e.Retry?
    ensures Inv(c, Next(c, w, e))
  {
    var w1 := w.(calls := w.calls[e.id := w.calls[e.id].(pc := Backoff(e.child))]);
    ParkKeeps(c, w, w1, e.id, e.child);
    HolderCount(w1, e.child);
    UpdateKeeps(c, w1, Next(c, w, e), e.child);
  }

  /** A call whose pause is over waits for its retry, slot in hand. */
  lemma ParkKeeps(c: Config, w: World, w1: World, id: CallId, child: CallId)
    requires Inv(c, w) && id in w.calls && w.calls[id].pc.Pausing?
    requires w1 == w.(calls := w.calls[id := w.calls[id].(pc := Backoff(child))])
    ensures Inv(c, w1)
  {
    assert CallOk(c, w.log, id, w.calls[id]);
    HolderCount(w, id);
    UpdateKeeps(c, w, w1, id);
  }

  lemma ArriveKeeps(c: Config, w: World, e: Event)
    requires Inv(c, w) && Enabled(c, w, e) && e.Arrive?
    ensures Inv(c, Next(c, w, e))
  {
    HolderCount(w, e.id);
    UpdateKeeps(c, w, Next(c, w, e), e.id);
  }

  lemma AcquireKeeps(c: Config, w: World, e: Event)
    requires Inv(c, w) && Enabled(c, w, e) && e.Acquire?
    ensures Inv(c, Next(c, w, e))
  {
    assert CallOk(c, w.log, e.id, w.calls[e.id]);
    HolderCount(w, e.id);
    UpdateKeeps(c, w, Next(c, w, e), e.id);
  }

  lemma FinishKeeps(c: Config, w: World, e: Event)
    requires Inv(c, w) && Enabled(c, w, e) && e.Finish?
    ensures Inv(c, Next(c, w, e))
  {
    assert CallOk(c, w.log, e.id, w.calls[e.id]);
    HolderCount(w, e.id);
    UpdateKeeps(c, w, Next(c, w, e), e.id);
  }

  lemma StepKeeps(c: Config, w: World, e: Event)
    requires Sane(c) && Inv(c, w)
    ensures Inv(c, Step(c, w, e))
  {
    if Enabled(c, w, e) {
      match e
      case Arrive(_) => ArriveKeeps(c, w, e);
      case Acquire(_) => AcquireKeeps(c, w, e);
      case Finish(_) => FinishKeeps(c, w, e);
      case Check(_, _) => GapStepKeeps(c, w, e);
      case Wake(_) => GapStepKeeps(c, w, e);
      case TooMany(_, _) => TooManyKeeps(c, w, e);
      case Retry(_, _) => RetryKeeps(c, w, e);
      case Elapse(d) => ElapseKeeps(c, w, d);
    }
  }

  lemma ElapseKeeps(c: Config, w: World, d: nat)
    requires Inv(c, w)
    ensures Inv(c, w.(now := w.now + d))
  {
    var w' := w.(now := w.now + d);
    assert Holders(w') == Holders(w);
    forall i | 0 <= i < |w.log| ensures |Early(w', i)| <= c.perHost {
      assert Early(w', i) == Early(w, i);
    }
  }

  lemma {:induction false} ReachableInv(c: Config, evs: seq<Event>)
    requires Sane(c)
    ensures Inv(c, Exec(c, evs))
  {
    if evs == [] {
      assert Holders(INIT) == {};
    } else {
      ReachableInv(c, evs[..|evs| - 1]);
      StepKeeps(c, Exec(c, evs[..|evs| - 1]), evs[|evs| - 1]);
    }
  }

  // ---------- what every run guarantees ----------

  lemma TwoSenders(w: World, i: nat, j: nat)
    requires LogOk(w) && i < j < |w.log|
    ensures w.log[i].id != w.log[j].id
  {
    assert w.calls[w.log[i].id].sent == Some(i) && w.calls[w.log[j].id].sent == Some(j);
  }

  /** The callers of `n` consecutive dispatches, which are all different. */
  lemma Callers(w: World, i: nat, n: nat) returns (ids: seq<CallId>)
    requires LogOk(w) && i + n <= |w.log|
    ensures |ids| == n && |SetOf(ids)| == n
    ensures forall m :: 0 <= m < n ==> ids[m] == w.log[i + m].id
  {
    ids := seq(n, m requires 0 <= m < n => w.log[i + m].id);
    forall m, k | 0 <= m < k < n ensures ids[m] != ids[k] {
      TwoSenders(w, i + m, i + k);
    }
    DistinctCard(ids);
  }

  /** More different ids than `s` has: one of them is not in `s`. */
  lemma OneOutside(ids: seq<CallId>, s: set<CallId>) returns (n: nat)
    requires |SetOf(ids)| > |s|
    ensures n < |ids| && ids[n] !in s
  {
    if SetOf(ids) <= s {
      SubsetCard(SetOf(ids), s);
    }
    var id :| id in SetOf(ids) && id !in s;
    n :| 0 <= n < |ids| && ids[n] == id;
  }

  /** Among `perHost` dispatches after dispatch `i`, one belongs to a call that got its slot after `i`. */
  lemma LateComer(c: Config, w: World, i: nat) returns (j: nat)
    requires Sane(c) && Inv(c, w) && i + c.perHost < |w.log|
    ensures i < j <= i + c.perHost && w.calls[w.log[j].id].joined > i
  {
    var ids := Callers(w, i, c.perHost + 1);
    var n := OneOutside(ids, Early(w, i));
    j := i + n;
    assert w.calls[ids[n]].sent == Some(j);
    assert CallOk(c, w.log, ids[n], w.calls[ids[n]]);
  }

  /** Any `perHost + 1` consecutive dispatches span at least the minimum gap. */
  lemma GapAcrossSlots(c: Config, evs: seq<Event>, i: nat)
    requires Sane(c) && i + c.perHost < |Exec(c, evs).log|
    ensures var log := Exec(c, evs).log; log[i + c.perHost].time - log[i].time >= c.minGap
  {
    ReachableInv(c, evs);
    var w := Exec(c, evs);
    var j := LateComer(c, w, i);
    assert CallOk(c, w.log, w.log[j].id, w.calls[w.log[j].id]);
  }

  ghost function InWindow(log: seq<Dispatch>, from: int, len: int): set<nat> {
    set k: nat | k < |log| && from <= log[k].time < from + len
  }

  /** No window of time up to the minimum gap long contains more than `perHost` dispatches. */
  lemma WindowHoldsAtMostPerHost(c: Config, evs: seq<Event>, from: int, len: int)
    requires Sane(c) && len <= c.minGap
    ensures |InWindow(Exec(c, evs).log, from, len)| <= c.perHost
  {
    ReachableInv(c, evs);
    var log := Exec(c, evs).log;
    var s := InWindow(log, from, len);
    if s != {} {
      var lo := Least(s);
      var near := seq(c.perHost, n => lo + n);
      forall k | k in s ensures k in SetOf(near) {
        if k >= lo + c.perHost {
          GapAcrossSlots(c, evs, lo);
          assert false;
        }
        assert near[k - lo] == k;
      }
      DistinctCard(near);
      SubsetCard(s, SetOf(near));
    }
  }

  lemma {:induction false} Least(s: set<nat>) returns (lo: nat)
    requires s != {}
    ensures lo in s && forall k :: k in s ==> lo <= k
    decreases |s|
  {
    lo :| lo in s;
    if s != {lo} {
      var rest := s - {lo};
      assert forall k :: k in s ==> k == lo || k in rest;
      var m := Least(rest);
      if m < lo { lo := m; }
    }
  }

  // ---------- the adjacent gap, and the retry ----------

  lemma {:induction false} ReachableParents(c: Config, evs: seq<Event>)
    ensures ParentsOk(Exec(c, evs))
  {
    if evs != [] {
      ReachableParents(c, evs[..|evs| - 1]);
      ParentsKept(c, Exec(c, evs[..|evs| - 1]), evs[|evs| - 1]);
    }
  }

  lemma ParentsKept(c: Config, w: World, e: Event)
    requires ParentsOk(w)
    ensures ParentsOk(Step(c, w, e))
  {
  }

  /** Extends a run by one event. */
  lemma Follow(c: Config, past: seq<Event>, e: Event) returns (run: seq<Event>, w: World)
    ensures w == Exec(c, run) == Step(c, Exec(c, past), e)
  {
    ExecSnoc(c, past, e);
    run, w := past + [e], Step(c, Exec(c, past), e);
  }

  /** A first request is sent at time 0. */
  lemma FirstSent(c: Config) returns (run: seq<Event>, w: World)
    requires Sane(c)
    ensures w == Exec(c, run) && w.held == 1 && w.last == Some(0) && w.now == 0 && w.log == [Dispatch(0, 0)]
    ensures w.calls.Keys == {0} && w.calls[0].pc == InFlight && w.calls[0].parent == None
  {
    run, w := Follow(c, [], Arrive(0));
    run, w := Follow(c, run, Acquire(0));
    run, w := Follow(c, run, Check(0, 0));
  }

  /** Another call arrives, takes a slot and reads the stamp of time 0 at time 0. */
  lemma GoesToSleep(c: Config, past: seq<Event>, id: CallId) returns (run: seq<Event>)
    requires Sane(c) && c.minGap > 0 && id !in Exec(c, past).calls
    requires var w := Exec(c, past); w.held < c.perHost && w.last == Some(0) && w.now == 0
    ensures var v, w := Exec(c, past), Exec(c, run);
            && w.held == v.held + 1 && w.last == Some(0) && w.now == 0 && w.log == v.log
            && id in w.calls && w.calls[id].pc == Sleeping(c.minGap)
            && (forall k :: k != id ==> (k in w.calls <==> k in v.calls))
            && (forall k :: k in v.calls ==> w.calls[k] == v.calls[k])
  {
    var w;
    run, w := Follow(c, past, Arrive(id));
    run, w := Follow(c, run, Acquire(id));
    run, w := Follow(c, run, Check(id, 0));
  }

  /** With two slots, two calls read the same stamp, sleep out the same gap and are sent together. */
  lemma TwoSentTogether(c: Config) returns (run: seq<Event>)
    requires Sane(c) && c.perHost >= 2 && c.minGap > 0
    ensures var log := Exec(c, run).log; |log| == 3 && log[2].time == log[1].time
  {
    var w;
    run, w := FirstSent(c);
    run, w := Follow(c, run, Finish(0));
    run := GoesToSleep(c, run, 1);
    run := GoesToSleep(c, run, 2);
    run, w := Follow(c, run, Elapse(c.minGap));
    run, w := Follow(c, run, Wake(1));
    run, w := Follow(c, run, Wake(2));
  }

  ghost predicate AdjacentGap(c: Config) {
    forall evs, i :: 0 <= i && i + 1 < |Exec(c, evs).log| ==>
      Exec(c, evs).log[i + 1].time - Exec(c, evs).log[i].time >= c.minGap
  }

  /** The gap separates every two consecutive dispatches exactly when there is one slot per host, or no gap. */
  lemma AdjacentGapIff(c: Config)
    requires Sane(c)
    ensures AdjacentGap(c) <==> c.perHost == 1 || c.minGap == 0
  {
    if c.perHost == 1 || c.minGap == 0 {
      forall evs, i | 0 <= i && i + 1 < |Exec(c, evs).log|
        ensures Exec(c, evs).log[i + 1].time - Exec(c, evs).log[i].time >= c.minGap
      {
        if c.perHost == 1 {
          GapAcrossSlots(c, evs, i);
        } else {
          ReachableInv(c, evs);
        }
      }
    } else {
      var run := TwoSentTogether(c);
      assert 0 <= 1 && 1 + 1 < |Exec(c, run).log|;
    }
  }

  /** `id` is the retry of another call and has been sent. */
  ghost predicate RetrySent(w: World, id: CallId) {
    id in w.calls && w.calls[id].parent.Some? && w.calls[id].sent.Some?
  }

  ghost predicate RetryPossible(c: Config) {
    exists evs, id :: RetrySent(Exec(c, evs), id)
  }

  lemma {:induction false} RetryStarves(c: Config, evs: seq<Event>, id: CallId)
    requires Sane(c) && c.perHost == 1
    ensures !RetrySent(Exec(c, evs), id)
  {
    if evs != [] {
      var past := evs[..|evs| - 1];
      RetryStarves(c, past, id);
      ReachableInv(c, past);
      ReachableParents(c, past);
      RetryStaysUnsent(c, Exec(c, past), evs[|evs| - 1], id);
    }
  }

  /** To be sent, a retry would need a slot beside the one its own call still holds. */
  lemma RetryStaysUnsent(c: Config, w: World, e: Event, id: CallId)
    requires c.perHost == 1 && Inv(c, w) && ParentsOk(w) && !RetrySent(w, id)
    ensures !RetrySent(Step(c, w, e), id)
  {
    if Enabled(c, w, e) && (e.Check? || e.Wake?) && e.id == id && w.calls[id].parent.Some? {
      var p := w.calls[id].parent.value;
      assert w.calls[p].pc == Backoff(id);
      assert {id, p} <= Holders(w);
      SubsetCard({id, p}, Holders(w));
    }
  }

  lemma RetryCanBeSent(c: Config) returns (run: seq<Event>)
    requires Sane(c) && c.perHost >= 2
    ensures RetrySent(Exec(c, run), 1)
  {
    var w;
    run, w := FirstSent(c);
    run, w := Follow(c, run, TooMany(0, 0));
    run, w := Follow(c, run, Retry(0, 1));
    run, w := Follow(c, run, Acquire(1));
    run, w := Follow(c, run, Elapse(c.minGap));
    run, w := Follow(c, run, Check(1, 0));
  }

  /**
   A call answered 429 keeps its slot while its retry asks for another one. The retry can ever be sent
   exactly when the host has at least two slots.
   */
  lemma RetryNeedsSecondSlot(c: Config)
    requires Sane(c)
    ensures RetryPossible(c) <==> c.perHost >= 2
  {
    if c.perHost >= 2 {
      var run := RetryCanBeSent(c);
      var id: CallId := 1;
      assert RetrySent(Exec(c, run), id);
    } else {
      forall evs, id ensures !RetrySent(Exec(c, evs), id) {
        RetryStarves(c, evs, id);
      }
    }
  }

  // ---------- what single steps do ----------

  /** The check sends at once if the gap has passed, and else sleeps exactly until it has. */
  lemma CheckOutcome(c: Config, w: World, id: CallId, lag: nat)
    requires id in w.calls && w.calls[id].pc == Holding
    ensures var w' := Step(c, w, Check(id, lag));
            && id in w'.calls
            && if w.last.None? || w.now >= w.last.value + c.minGap then
                 && w'.log == w.log + [Dispatch(id, w.now + lag)] && w'.last == Some(w.now + lag)
                 && w'.calls[id].pc == InFlight
               else
                 w'.log == w.log && w'.last == w.last && w'.calls[id].pc == Sleeping(w.last.value + c.minGap)
  {
    assert Enabled(c, w, Check(id, lag));
  }

  /** A call that has slept sends, whatever was dispatched meanwhile. */
  lemma WakeOutcome(c: Config, w: World, id: CallId)
    requires id in w.calls && w.calls[id].pc.Sleeping? && w.calls[id].pc.until <= w.now
    ensures var w' := Step(c, w, Wake(id));
            && w'.log == w.log + [Dispatch(id, w.now)] && w'.last == Some(w.now)
            && id in w'.calls && w'.calls[id].pc == InFlight
  {
    assert Enabled(c, w, Wake(id));
  }

  /** The clock moves by the time that elapses and the lags of the checks that send. */
  lemma ElapseOutcome(c: Config, w: World, d: nat)
    ensures Step(c, w, Elapse(d)) == World(w.held, w.last, w.calls, w.log, w.now + d)
  {
    assert Enabled(c, w, Elapse(d));
  }

  // ---------- the pause before a retry ----------

  predicate Answered(call: Call) {
    call.pc.Pausing? || call.pc.Backoff? || call.pc.Finished?
  }

  /** Only calls that are past their answer have a retry. */
  ghost predicate RetriesFollowAnswers(w: World) {
    forall id :: id in w.calls && w.calls[id].parent.Some? ==>
      w.calls[id].parent.value in w.calls && Answered(w.calls[w.calls[id].parent.value])
  }

  lemma {:induction false} ReachableAnswers(c: Config, evs: seq<Event>)
    ensures RetriesFollowAnswers(Exec(c, evs))
  {
    if evs != [] {
      ReachableAnswers(c, evs[..|evs| - 1]);
      AnswersKept(c, Exec(c, evs[..|evs| - 1]), evs[|evs| - 1]);
    }
  }

  lemma AnswersKept(c: Config, w: World, e: Event)
    requires RetriesFollowAnswers(w)
    ensures RetriesFollowAnswers(Step(c, w, e))
  {
  }

  /** Call `id` pauses, or has paused, until `resume`, and a retry of it exists and is sent only from then on. */
  ghost predicate Waits(w: World, id: CallId, resume: int) {
    && id in w.calls && Answered(w.calls[id]) && w.calls[id].resume == resume
    && forall k :: k in w.calls && w.calls[k].parent == Some(id) ==> w.now >= resume && SentFrom(w, k, resume)
  }

  ghost predicate SentFrom(w: World, k: CallId, resume: int)
    requires k in w.calls
  {
    w.calls[k].sent.Some? ==> w.calls[k].sent.value < |w.log| && w.log[w.calls[k].sent.value].time >= resume
  }

  lemma WaitsKept(c: Config, w: World, e: Event, id: CallId, resume: int)
    requires Waits(w, id, resume)
    ensures Waits(Step(c, w, e), id, resume)
  {
    var w' := Step(c, w, e);
    forall k | k in w'.calls && w'.calls[k].parent == Some(id) ensures w'.now >= resume && SentFrom(w', k, resume) {
      if k in w.calls { assert SentFrom(w, k, resume); }
    }
  }

  lemma {:induction false} StillWaits(c: Config, past: seq<Event>, more: seq<Event>, id: CallId, resume: int)
    requires Waits(Exec(c, past), id, resume)
    ensures Waits(Exec(c, past + more), id, resume)
  {
    if more == [] {
      assert past + more == past;
    } else {
      var front, e := more[..|more| - 1], more[|more| - 1];
      StillWaits(c, past, front, id, resume);
      assert past + more == past + front + [e];
      ExecSnoc(c, past + front, e);
      WaitsKept(c, Exec(c, past + front), e, id, resume);
    }
  }

  /** In every run, the retry of a call is dispatched no earlier than the pause after the answer to the call. */
  lemma RetryAfterPause(c: Config, evs: seq<Event>, id: CallId, pause: nat, more: seq<Event>, retry: CallId)
    requires Enabled(c, Exec(c, evs), TooMany(id, pause))
    requires RetrySent(Exec(c, evs + [TooMany(id, pause)] + more), retry)
    requires Exec(c, evs + [TooMany(id, pause)] + more).calls[retry].parent == Some(id)
    ensures var w := Exec(c, evs + [TooMany(id, pause)] + more);
            && w.calls[retry].sent.value < |w.log|
            && w.log[w.calls[retry].sent.value].time >= Exec(c, evs).now + pause
  {
    var v, w := Exec(c, evs), Exec(c, evs + [TooMany(id, pause)] + more);
    ReachableAnswers(c, evs);
    ExecSnoc(c, evs, TooMany(id, pause));
    StillWaits(c, evs + [TooMany(id, pause)], more, id, v.now + pause);
    assert SentFrom(w, retry, v.now + pause);
  }
}
