/**
 Fetch statistics of a feed (RecordFetch, internal/store/feeds.go) and its health score
 (internal/store/health.go).
 */
module FeedStats {
  import opened Common

  /** The columns RecordFetch updates in the catalog row of a feed. */
  datatype Feed = Feed(fetchCount: nat, failCount: nat, avgLatency: real)

  /** The row of feed_stats, created by the first fetch. */
  datatype Streaks = Streaks(ok: nat, fail: nat)

  datatype Fetch = Fetch(latency: int, ok: bool)

  const FRESH_FEED: Feed := Feed(0, 0, 0.0)

  function UpdateFeed(f: Feed, e: Fetch): Feed {
    Feed(f.fetchCount + 1,
         f.failCount + if e.ok then 0 else 1,
         if f.fetchCount == 0 then e.latency as real
         else (f.avgLatency * f.fetchCount as real + e.latency as real) / (f.fetchCount + 1) as real)
  }

  function UpdateStreaks(s: Option<Streaks>, e: Fetch): Streaks {
    match s
    case None => if e.ok then Streaks(1, 0) else Streaks(0, 1)
    case Some(r) => if e.ok then Streaks(r.ok + 1, 0) else Streaks(0, r.fail + 1)
  }

  datatype Tables = Tables(feeds: map<string, Feed>, streaks: map<string, Streaks>)

  function StreakOf(t: Tables, feed: string): Option<Streaks> {
    if feed in t.streaks then Some(t.streaks[feed]) else None
  }

  /** The catalog row is updated if it exists; the streak row is created or updated in any case. */
  function Recorded(t: Tables, feed: string, e: Fetch): Tables {
    Tables(if feed in t.feeds then t.feeds[feed := UpdateFeed(t.feeds[feed], e)] else t.feeds,
           t.streaks[feed := UpdateStreaks(StreakOf(t, feed), e)])
  }

  class StatsStore {
    var feeds: map<string, Feed>
    var streaks: map<string, Streaks>

    constructor ()
      ensures State() == Tables(map[], map[])
    {
      feeds, streaks := map[], map[];
    }

    function State(): Tables
      reads this
    {
      Tables(feeds, streaks)
    }

    method RecordFetch(feed: string, e: Fetch, commits: bool)
      modifies this
      ensures State() == if commits then Recorded(old(State()), feed, e) else old(State())
    {
      if !commits { return; }
      if feed in feeds {
        var f := feeds[feed];
        var avg := if f.fetchCount == 0 then e.latency as real
                   else (f.avgLatency * f.fetchCount as real + e.latency as real) / (f.fetchCount + 1) as real;
        var updated := Feed(f.fetchCount + 1, if e.ok then f.failCount else f.failCount + 1, avg);
        assert updated == UpdateFeed(f, e);
        feeds := feeds[feed := updated];
      }
      if feed in streaks {
        var s := streaks[feed];
        streaks := streaks[feed := Streaks(if e.ok then s.ok + 1 else 0, if e.ok then 0 else s.fail + 1)];
      } else {
        streaks := streaks[feed := Streaks(if e.ok then 1 else 0, if e.ok then 0 else 1)];
      }
    }
  }

  // ---------- what the columns mean: properties of the whole history ----------

  function FeedAfter(h: seq<Fetch>): Feed {
    if h == [] then FRESH_FEED else UpdateFeed(FeedAfter(h[..|h| - 1]), h[|h| - 1])
  }

  function StreaksAfter(h: seq<Fetch>): Option<Streaks> {
    if h == [] then None else Some(UpdateStreaks(StreaksAfter(h[..|h| - 1]), h[|h| - 1]))
  }

  function LatencySum(h: seq<Fetch>): int {
    if h == [] then 0 else LatencySum(h[..|h| - 1]) + h[|h| - 1].latency
  }

  ghost function Failures(h: seq<Fetch>): set<nat> {
    set k: nat | k < |h| && !h[k].ok
  }

  /** `n` is the length of the longest run of outcomes `ok` at the end of `h`. */
  ghost predicate TrailingRun(h: seq<Fetch>, ok: bool, n: nat) {
    && n <= |h|
    && (forall k :: |h| - n <= k < |h| ==> h[k].ok == ok)
    && (n < |h| ==> h[|h| - n - 1].ok != ok)
  }

  /** The average taken times the number of fetches. */
  function TotalLatency(f: Feed): real {
    f.avgLatency * f.fetchCount as real
  }

  /** The catalog row is the exact summary of the history: its length, its failures, and its latency sum. */
  lemma FeedSummarises(h: seq<Fetch>)
    ensures FeedAfter(h).fetchCount == |h|
    ensures FeedAfter(h).failCount == |Failures(h)|
    ensures TotalLatency(FeedAfter(h)) == LatencySum(h) as real
  {
    CountsExact(h);
    AverageExact(h);
  }

  lemma {:induction false} CountsExact(h: seq<Fetch>)
    ensures FeedAfter(h).fetchCount == |h| && FeedAfter(h).failCount == |Failures(h)|
  {
    if h != [] {
      var front := h[..|h| - 1];
      CountsExact(front);
      assert Failures(h) == Failures(front) + if h[|h| - 1].ok then {} else {|h| - 1};
    }
  }

  lemma {:induction false} AverageExact(h: seq<Fetch>)
    ensures TotalLatency(FeedAfter(h)) == LatencySum(h) as real
  {
    if h != [] {
      var front := h[..|h| - 1];
      AverageExact(front);
      TotalGrows(FeedAfter(front), h[|h| - 1]);
    }
  }

  lemma TotalGrows(f: Feed, e: Fetch)
    ensures TotalLatency(UpdateFeed(f, e)) == TotalLatency(f) + e.latency as real
  {
    Quotient(f.avgLatency * f.fetchCount as real + e.latency as real, (f.fetchCount + 1) as real);
  }

  lemma Quotient(x: real, y: real)
    requires y != 0.0
    ensures x / y * y == x
  {
  }

  /** Both streaks are the trailing runs of the history, and after any fetch exactly one of them is positive. */
  lemma {:induction false} StreaksAreTrailingRuns(h: seq<Fetch>)
    requires h != []
    ensures StreaksAfter(h).Some?
    ensures var s := StreaksAfter(h).value;
            && TrailingRun(h, true, s.ok) && TrailingRun(h, false, s.fail)
            && (s.ok > 0 <==> s.fail == 0)
  {
    var front := h[..|h| - 1];
    if front != [] {
      StreaksAreTrailingRuns(front);
    }
  }

  lemma TrailingRunUnique(h: seq<Fetch>, ok: bool, m: nat, n: nat)
    requires TrailingRun(h, ok, m) && TrailingRun(h, ok, n)
    ensures m == n
  {
  }

  // ---------- runs of the store ----------

  datatype Call = Call(feed: string, fetch: Fetch, commits: bool)

  /** The tables after a sequence of calls for any feeds. */
  function Replay(t: Tables, calls: seq<Call>): Tables {
    if calls == [] then t
    else
      var before, c := Replay(t, calls[..|calls| - 1]), calls[|calls| - 1];
      if c.commits then Recorded(before, c.feed, c.fetch) else before
  }

  /** The fetches of one feed that were recorded. */
  function Own(calls: seq<Call>, feed: string): seq<Fetch> {
    if calls == [] then []
    else
      var before, c := Own(calls[..|calls| - 1], feed), calls[|calls| - 1];
      if c.commits && c.feed == feed then before + [c.fetch] else before
  }

  /** The rows of `feed` are those of the history `h`. */
  ghost predicate Reflects(t: Tables, feed: string, h: seq<Fetch>) {
    (feed in t.feeds ==> t.feeds[feed] == FeedAfter(h)) && StreakOf(t, feed) == StreaksAfter(h)
  }

  /** Whatever is recorded for other feeds, the rows of a feed are the fold of its own recorded fetches. */
  lemma {:induction false} RowsReflectOwnFetches(t: Tables, calls: seq<Call>, feed: string, h: seq<Fetch>)
    requires Reflects(t, feed, h)
    ensures Replay(t, calls).feeds.Keys == t.feeds.Keys
    ensures Reflects(Replay(t, calls), feed, h + Own(calls, feed))
  {
    if calls == [] {
      assert h + [] == h;
    } else {
      var front, c := calls[..|calls| - 1], calls[|calls| - 1];
      RowsReflectOwnFetches(t, front, feed, h);
      if c.commits {
        RecordedReflects(Replay(t, front), c, feed, h + Own(front, feed));
        assert c.feed == feed ==> h + Own(calls, feed) == h + Own(front, feed) + [c.fetch];
      }
    }
  }

  lemma RecordedReflects(t: Tables, c: Call, feed: string, h: seq<Fetch>)
    requires Reflects(t, feed, h)
    ensures Reflects(Recorded(t, c.feed, c.fetch), feed, if c.feed == feed then h + [c.fetch] else h)
  {
    assert (h + [c.fetch])[..|h|] == h;
  }

  /** Over every run of the store: the catalog row of a feed that was fresh summarises exactly its own fetches. */
  lemma StoreSummarises(t: Tables, calls: seq<Call>, feed: string)
    requires feed in t.feeds && t.feeds[feed] == FRESH_FEED && feed !in t.streaks
    ensures feed in Replay(t, calls).feeds
    ensures var f, h := Replay(t, calls).feeds[feed], Own(calls, feed);
            f.fetchCount == |h| && f.failCount == |Failures(h)| && TotalLatency(f) == LatencySum(h) as real
    ensures var h := Own(calls, feed);
            h != [] ==>
              && feed in Replay(t, calls).streaks
              && var s := Replay(t, calls).streaks[feed]; TrailingRun(h, true, s.ok) && TrailingRun(h, false, s.fail)
  {
    var h := Own(calls, feed);
    RowsReflectOwnFetches(t, calls, feed, []);
    assert [] + h == h;
    FeedSummarises(h);
    if h != [] {
      StreaksAreTrailingRuns(h);
    }
  }

  // ---------- the health score ----------

  datatype Health = Health(failStreak: nat, latencyP99: real, formatDrift: bool, withinSlo: bool, lastStatus: int)

  /** math.Round of a non-negative number. */
  function Round(x: real): real {
    (x + 0.5).Floor as real
  }

  /** The points subtracted for everything but the fail streak. */
  function Penalties(h: Health): real {
    (if h.latencyP99 > 5000.0 then 15.0 else if h.latencyP99 > 2000.0 then 8.0 else 0.0)
    + (if h.formatDrift then 10.0 else 0.0)
    + (if h.withinSlo then 0.0 else 20.0)
    + (if h.lastStatus >= 400 then 15.0 else 0.0)
  }

  /**
   100 points, less 8 for each failure in the streak, 15 or 8 for a slow 99th percentile, 10 for a changed
   format, 20 for a missed objective and 15 for an error status, but never less than zero.
   */
  method ComputeHealthScore(h: Health) returns (score: real)
    ensures score == Score(h)
    ensures var points := 100.0 - 8.0 * h.failStreak as real
                          - (if h.latencyP99 > 5000.0 then 15.0 else if h.latencyP99 > 2000.0 then 8.0 else 0.0)
                          - (if h.formatDrift then 10.0 else 0.0) - (if h.withinSlo then 0.0 else 20.0)
                          - (if h.lastStatus >= 400 then 15.0 else 0.0);
            score == if points < 0.0 then 0.0 else points
  {
    score := 100.0;
    score := score - h.failStreak as real * 8.0;
    if h.latencyP99 > 5000.0 {
      score := score - 15.0;
    } else if h.latencyP99 > 2000.0 {
      score := score - 8.0;
    }
    if h.formatDrift { score := score - 10.0; }
    if !h.withinSlo { score := score - 20.0; }
    if h.lastStatus >= 400 { score := score - 15.0; }
    if score < 0.0 { score := 0.0; }
    if score > 100.0 { score := 100.0; }
    score := Round(score * 10.0) / 10.0;
    ScoreWhole(h);
  }

  /** 100 minus all penalties, but never negative; the rounding to tenths has nothing to do. */
  function Score(h: Health): (s: real)
    ensures 0.0 <= s <= 100.0
  {
    var raw := 100.0 - h.failStreak as real * 8.0 - Penalties(h);
    if raw < 0.0 then 0.0 else raw
  }

  lemma ScoreWhole(h: Health)
    ensures Round(Score(h) * 10.0) / 10.0 == Score(h)
  {
    var whole := 100 - h.failStreak * 8
      - (if h.latencyP99 > 5000.0 then 15 else if h.latencyP99 > 2000.0 then 8 else 0)
      - (if h.formatDrift then 10 else 0) - (if h.withinSlo then 0 else 20) - (if h.lastStatus >= 400 then 15 else 0);
    var n := if whole < 0 then 0 else whole;
    assert Score(h) == n as real;
    assert Score(h) * 10.0 == (n * 10) as real;
    assert ((n * 10) as real + 0.5).Floor == n * 10;
  }

  /** Every single fault costs its own points, as long as any are left. */
  lemma FaultsCost(h: Health)
    requires Score(h) >= 20.0
    ensures Score(h.(failStreak := h.failStreak + 1)) == Score(h) - 8.0
    ensures !h.formatDrift ==> Score(h.(formatDrift := true)) == Score(h) - 10.0
    ensures h.withinSlo ==> Score(h.(withinSlo := false)) == Score(h) - 20.0
    ensures h.lastStatus < 400 ==> forall s :: Score(h.(lastStatus := s)) == Score(h) - if s >= 400 then 15.0 else 0.0
    ensures h.latencyP99 <= 2000.0 ==> forall l: real ::
              Score(h.(latencyP99 := l)) == Score(h) - if l > 5000.0 then 15.0 else if l > 2000.0 then 8.0 else 0.0
  {
  }

  /** The score of a feed without faults. */
  lemma PerfectScore(h: Health)
    ensures Score(h) == 100.0 <==>
              h.failStreak == 0 && h.latencyP99 <= 2000.0 && !h.formatDrift && h.withinSlo && h.lastStatus < 400
  {
  }

  /**
   A fail streak alone decides the score exactly from thirteen on: then, and only then, every such feed
   scores zero.
   */
  lemma ThirteenFailuresIff(streak: nat)
    ensures (forall h: Health :: h.failStreak == streak ==> Score(h) == 0.0) <==> streak >= 13
  {
    if streak < 13 {
      var h := Health(streak, 0.0, false, true, 200);
      assert Score(h) > 0.0;
    }
  }

  /** A feed whose last thirteen fetches failed scores zero, whatever else is known about it. */
  lemma FailingFeedScoresZero(h: seq<Fetch>, health: Health)
    requires |h| >= 13 && forall k :: |h| - 13 <= k < |h| ==> !h[k].ok
    requires StreaksAfter(h).Some? && health.failStreak == StreaksAfter(h).value.fail
    ensures Score(health) == 0.0
  {
    StreaksAreTrailingRuns(h);
    ThirteenFailuresIff(health.failStreak);
  }
}
