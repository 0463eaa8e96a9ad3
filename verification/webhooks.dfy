/** The circuit breaker of webhook deliveries (internal/store/webhooks.go). */
module Webhooks {
  import opened Common

  datatype Webhook = Webhook(active: bool, failCount: nat, lastStatus: int)

  const TRIP := 20

  const CREATED: Webhook := Webhook(true, 0, 0)

  predicate Delivered(status: int) {
    200 <= status < 300
  }

  function Deliver(w: Webhook, status: int): Webhook {
    if Delivered(status) then w.(lastStatus := status, failCount := 0)
    else Webhook(if w.failCount + 1 >= TRIP then false else w.active, w.failCount + 1, status)
  }

  function Recorded(hooks: map<string, Webhook>, id: string, status: int): map<string, Webhook> {
    if id in hooks then hooks[id := Deliver(hooks[id], status)] else hooks
  }

  class WebhookStore {
    var hooks: map<string, Webhook>
    var deliveries: seq<(string, int)>

    constructor ()
      ensures hooks == map[] && deliveries == []
    {
      hooks, deliveries := map[], [];
    }

    method CreateWebhook(id: string, commits: bool)
      modifies this`hooks
      ensures hooks == if commits then old(hooks)[id := Webhook(true, 0, 0)] else old(hooks)
    {
      if commits {
        hooks := hooks[id := Webhook(true, 0, 0)];
      }
    }

    /** Every delivery is logged, also one for a webhook deleted meanwhile. */
    method RecordWebhookDelivery(id: string, status: int, commits: bool)
      modifies this
      ensures !commits ==> hooks == old(hooks) && deliveries == old(deliveries)
      ensures commits ==> deliveries == old(deliveries) + [(id, status)] && hooks == Recorded(old(hooks), id, status)
    {
      if !commits { return; }
      deliveries := deliveries + [(id, status)];
      if id in hooks {
        var w := hooks[id];
        if 200 <= status < 300 {
          hooks := hooks[id := w.(lastStatus := status, failCount := 0)];
        } else {
          var n := w.failCount + 1;
          hooks := hooks[id := Webhook(w.active && n < TRIP, n, status)];
        }
      }
    }
  }

  /** The state of a webhook after a history of delivery statuses. */
  function After(h: seq<int>): Webhook {
    if h == [] then CREATED else Deliver(After(h[..|h| - 1]), h[|h| - 1])
  }

  /** All `n` deliveries ending just before position `end` failed. */
  ghost predicate FailedRun(h: seq<int>, end: nat, n: nat) {
    n <= end <= |h| && forall k :: end - n <= k < end ==> !Delivered(h[k])
  }

  /** The failure count is the length of the longest run of failures at the end of the history. */
  lemma {:induction false} FailCountIsTrailingRun(h: seq<int>)
    ensures FailedRun(h, |h|, After(h).failCount)
    ensures forall n: nat :: FailedRun(h, |h|, n) ==> n <= After(h).failCount
  {
    if h != [] {
      var front := h[..|h| - 1];
      FailCountIsTrailingRun(front);
      forall n: nat | FailedRun(h, |h|, n) ensures n <= After(h).failCount {
        if n > 0 {
          assert !Delivered(h[|h| - 1]);
          assert FailedRun(front, |front|, n - 1);
        }
      }
    }
  }

  ghost predicate Tripped(h: seq<int>) {
    exists end: nat :: FailedRun(h, end, TRIP)
  }

  /** The last status is that of the last delivery. */
  lemma LastStatus(h: seq<int>, status: int)
    ensures After(h + [status]).lastStatus == status
  {
    assert (h + [status])[..|h|] == h;
  }

  /** The last twenty statuses before position `end` are outside 200 to 299. */
  ghost predicate TwentyFailures(h: seq<int>, end: nat) {
    20 <= end <= |h| && forall k :: end - 20 <= k < end ==> h[k] < 200 || h[k] >= 300
  }

  /** In numbers: a webhook is active exactly when no twenty statuses in a row are outside 200 to 299. */
  lemma ActiveInNumbers(h: seq<int>)
    ensures !After(h).active <==> exists end: nat :: TwentyFailures(h, end)
  {
    ActiveIffNeverTripped(h);
    if Tripped(h) {
      var end: nat :| FailedRun(h, end, TRIP);
      assert TwentyFailures(h, end);
    }
    forall end: nat | TwentyFailures(h, end) ensures Tripped(h) {
      assert FailedRun(h, end, TRIP);
    }
  }

  /** A webhook is active exactly when its history holds no twenty consecutive failures. */
  lemma {:induction false} ActiveIffNeverTripped(h: seq<int>)
    ensures After(h).active <==> !Tripped(h)
  {
    if h == [] {
      assert forall end: nat :: !FailedRun(h, end, TRIP);
    } else {
      var front := h[..|h| - 1];
      ActiveIffNeverTripped(front);
      FailCountIsTrailingRun(h);
      if Tripped(front) {
        var end: nat :| FailedRun(front, end, TRIP);
        assert FailedRun(h, end, TRIP);
      }
      if After(h).failCount >= TRIP {
        assert FailedRun(h, |h|, TRIP);
      }
      forall end: nat | FailedRun(h, end, TRIP) && end < |h| ensures Tripped(front) {
        assert FailedRun(front, end, TRIP);
      }
    }
  }

  /** No later delivery revives a webhook. */
  lemma {:induction false} DeactivationIsPermanent(h: seq<int>, more: seq<int>)
    requires !After(h).active
    ensures !After(h + more).active
  {
    if more == [] {
      assert h + more == h;
    } else {
      assert (h + more)[..|h + more| - 1] == h + more[..|more| - 1];
      DeactivationIsPermanent(h, more[..|more| - 1]);
    }
  }

  // ---------- runs of the store ----------

  datatype Call = Create(id: string, commits: bool) | Record(id: string, status: int, commits: bool)

  /** The webhooks after a sequence of calls for any of them. */
  function Replay(hooks: map<string, Webhook>, calls: seq<Call>): map<string, Webhook> {
    if calls == [] then hooks
    else
      var before, c := Replay(hooks, calls[..|calls| - 1]), calls[|calls| - 1];
      if !c.commits then before
      else if c.Create? then before[c.id := CREATED]
      else Recorded(before, c.id, c.status)
  }

  /** The recorded delivery statuses of one webhook. */
  function Own(calls: seq<Call>, id: string): seq<int> {
    if calls == [] then []
    else
      var before, c := Own(calls[..|calls| - 1], id), calls[|calls| - 1];
      if c.Record? && c.commits && c.id == id then before + [c.status] else before
  }

  /** Generated ids are fresh: no call creates `id` again. */
  ghost predicate NotRecreated(calls: seq<Call>, id: string) {
    forall k :: 0 <= k < |calls| && calls[k].Create? ==> calls[k].id != id
  }

  /** Whatever happens to other webhooks, the row of a webhook is the fold of its own recorded deliveries. */
  lemma {:induction false} RowReflectsOwnDeliveries(hooks: map<string, Webhook>, calls: seq<Call>, id: string,
                                                    h: seq<int>)
    requires id in hooks && hooks[id] == After(h) && NotRecreated(calls, id)
    ensures id in Replay(hooks, calls) && Replay(hooks, calls)[id] == After(h + Own(calls, id))
  {
    if calls == [] {
      assert h + [] == h;
    } else {
      var front, c := calls[..|calls| - 1], calls[|calls| - 1];
      RowReflectsOwnDeliveries(hooks, front, id, h);
      if c.Record? && c.commits && c.id == id {
        var past := h + Own(front, id);
        assert h + Own(calls, id) == past + [c.status] && (past + [c.status])[..|past|] == past;
      }
    }
  }

  /**
   Over every run of the store: a webhook is active exactly when its own deliveries hold no twenty failures
   in a row.
   */
  lemma StoreBreaker(hooks: map<string, Webhook>, calls: seq<Call>, id: string)
    requires id in hooks && hooks[id] == CREATED && NotRecreated(calls, id)
    ensures id in Replay(hooks, calls)
    ensures Replay(hooks, calls)[id].active <==> !Tripped(Own(calls, id))
    ensures FailedRun(Own(calls, id), |Own(calls, id)|, Replay(hooks, calls)[id].failCount)
  {
    RowReflectsOwnDeliveries(hooks, calls, id, []);
    assert [] + Own(calls, id) == Own(calls, id);
    ActiveIffNeverTripped(Own(calls, id));
    FailCountIsTrailingRun(Own(calls, id));
  }
}
