/** Expiry and the two storage budgets of internal/store/purge.go. */
module Purge {
  import opened Common
  import opened RankedRows

  datatype FullText = FullText(accessed: Option<int>, bytes: int)
  datatype Stamped = Stamped(feed: string, fetched: Option<int>)

  datatype Rows = Rows(entries: map<string, Stamped>, fulltext: map<string, FullText>)

  const EMPTY: Rows := Rows(map[], map[])
  const HOUR := 3600

  predicate AccessedFirst(a: FullText, b: FullText) {
    NoLater(a.accessed, b.accessed)
  }

  predicate FetchedFirst(a: Stamped, b: Stamped) {
    NoLater(a.fetched, b.fetched)
  }

  /** A null stamp never compares as expired. */
  predicate Expired(stamp: Option<int>, now: int, ttlHours: int) {
    stamp.Some? && stamp.value < now - ttlHours * HOUR
  }

  function Batch(batch: int): (b: nat)
    ensures b >= 100
    ensures batch >= 100 ==> b == batch
    ensures batch < 100 ==> b == 1000
  {
    if batch < 100 then 1000 else batch
  }

  /** SUM(byte_size) */
  ghost function Bytes(rows: map<string, FullText>): int
    decreases |rows|
  {
    if rows == map[] then 0
    else
      var k :| k in rows;
      rows[k].bytes + Bytes(rows - {k})
  }

  lemma {:induction false} BytesWithout(rows: map<string, FullText>, k: string)
    requires k in rows
    ensures Bytes(rows) == rows[k].bytes + Bytes(rows - {k})
    decreases |rows|
  {
    var m :| m in rows && Bytes(rows) == rows[m].bytes + Bytes(rows - {m});
    if m != k {
      BytesWithout(rows - {m}, k);
      BytesWithout(rows - {k}, m);
      assert rows - {m} - {k} == rows - {k} - {m};
    }
  }

  method SumBytes(rows: map<string, FullText>) returns (sum: int)
    ensures sum == Bytes(rows)
  {
    sum := 0;
    var rest := rows;
    while rest != map[]
      invariant sum + Bytes(rest) == Bytes(rows)
      decreases |rest|
    {
      var k :| k in rest;
      BytesWithout(rest, k);
      sum := sum + rest[k].bytes;
      rest := rest - {k};
    }
  }

  /** `evicted` is a least recently used part of `rows`: nothing that stays was used before anything that goes. */
  ghost predicate LruPart<V(!new)>(rows: map<string, V>, before: (V, V) -> bool, evicted: set<string>) {
    && evicted <= rows.Keys
    && forall e, s :: e in evicted && s in rows && s !in evicted ==> before(rows[e], rows[s])
  }

  /** `rows` is what an eviction of the least recently used rows `evicted` left of `all`. */
  ghost predicate Evicted<V(!new)>(all: map<string, V>, rows: map<string, V>, before: (V, V) -> bool,
                                    evicted: set<string>)
  {
    LruPart(all, before, evicted) && rows == all - evicted
  }

  /** Evicting a batch of oldest rows from what is left after an LRU eviction is an LRU eviction. */
  lemma LruExtends<V(!new)>(rows: map<string, V>, before: (V, V) -> bool, evicted: set<string>, n: nat,
                              batch: set<string>)
    requires LruPart(rows, before, evicted) && FirstRows(rows - evicted, before, n, batch)
    ensures LruPart(rows, before, evicted + batch) && rows - evicted - batch == rows - (evicted + batch)
  {
    assert rows - evicted - batch == rows - (evicted + batch);
  }

  lemma RowCount<V>(rows: map<string, V>, gone: set<string>)
    requires gone <= rows.Keys
    ensures |rows - gone| == |rows| - |gone|
  {
    assert (rows - gone).Keys == rows.Keys - gone;
    assert |rows - gone| == |(rows - gone).Keys| && |rows| == |rows.Keys|;
  }

  lemma Preorders()
    ensures Preorder(AccessedFirst) && Preorder(FetchedFirst)
  {
  }

  /** `rows` is `all` without some rows, none of which was used after a row that stays. */
  ghost predicate OldestGone<V(!new)>(all: map<string, V>, rows: map<string, V>, before: (V, V) -> bool) {
    && (forall k :: k in rows ==> k in all && rows[k] == all[k])
    && (forall g, k :: g in all && g !in rows && k in rows ==> before(all[g], rows[k]))
  }

  /** In both tables only oldest rows are gone. */
  ghost predicate Shrunk(r: Rows, r': Rows) {
    OldestGone(r.entries, r'.entries, FetchedFirst) && OldestGone(r.fulltext, r'.fulltext, AccessedFirst)
  }

  lemma OldestGoneTransitive<V(!new)>(a: map<string, V>, b: map<string, V>, c: map<string, V>, before: (V, V) -> bool)
    requires OldestGone(a, b, before) && OldestGone(b, c, before)
    ensures OldestGone(a, c, before)
  {
  }

  lemma ShrunkTransitive(a: Rows, b: Rows, c: Rows)
    requires Shrunk(a, b) && Shrunk(b, c)
    ensures Shrunk(a, c)
  {
    OldestGoneTransitive(a.entries, b.entries, c.entries, FetchedFirst);
    OldestGoneTransitive(a.fulltext, b.fulltext, c.fulltext, AccessedFirst);
  }

  // ---------- what expiry leaves ----------

  function FreshEntries(rows: map<string, Stamped>, now: int, hours: int): map<string, Stamped> {
    map k | k in rows && !Expired(rows[k].fetched, now, hours) :: rows[k]
  }

  function FreshTexts(rows: map<string, FullText>, now: int, hours: int): map<string, FullText> {
    map k | k in rows && !Expired(rows[k].accessed, now, hours) :: rows[k]
  }

  function FreshIcons(rows: map<string, Option<int>>, now: int, hours: int): map<string, Option<int>> {
    map k | k in rows && !Expired(rows[k], now, hours) :: rows[k]
  }

  /** When the purge runs, and how many hours each kind of row may live. */
  datatype Ages = Ages(now: int, entry: int, text: int, icon: int)

  function FreshRows(r: Rows, a: Ages): Rows {
    Rows(FreshEntries(r.entries, a.now, a.entry), FreshTexts(r.fulltext, a.now, a.text))
  }

  /** A row is older than its time to live of so many hours; a row without a stamp never is. */
  predicate TooOld(stamp: Option<int>, now: int, hours: int) {
    stamp.Some? && now - stamp.value > hours * 3600
  }

  /** `r'` and `icons'` are `r` and `icons` without exactly the rows that are too old. */
  ghost predicate OnlyOldGone(r: Rows, icons: map<string, Option<int>>, r': Rows, icons': map<string, Option<int>>,
                              a: Ages)
  {
    && (forall k :: k in r'.entries <==> k in r.entries && !TooOld(r.entries[k].fetched, a.now, a.entry))
    && (forall k :: k in r'.fulltext <==> k in r.fulltext && !TooOld(r.fulltext[k].accessed, a.now, a.text))
    && (forall k :: k in icons' <==> k in icons && !TooOld(icons[k], a.now, a.icon))
    && (forall k :: k in r'.entries ==> r'.entries[k] == r.entries[k])
    && (forall k :: k in r'.fulltext ==> r'.fulltext[k] == r.fulltext[k])
    && (forall k :: k in icons' ==> icons'[k] == icons[k])
  }

  lemma FreshMeans(r: Rows, icons: map<string, Option<int>>, a: Ages)
    ensures OnlyOldGone(r, icons, FreshRows(r, a), FreshIcons(icons, a.now, a.icon), a)
  {
  }

  /** No full text that stays was used before one that went; a row without a stamp counts as used longest ago. */
  ghost predicate OldestTextsGone(all: map<string, FullText>, rows: map<string, FullText>) {
    forall g, k :: g in all && g !in rows && k in rows && k in all ==>
      match all[g].accessed
      case None => true
      case Some(gone) => rows[k].accessed.Some? && gone <= rows[k].accessed.value
  }

  ghost predicate OldestEntriesGone(all: map<string, Stamped>, rows: map<string, Stamped>) {
    forall g, k :: g in all && g !in rows && k in rows && k in all ==>
      match all[g].fetched
      case None => true
      case Some(gone) => rows[k].fetched.Some? && gone <= rows[k].fetched.value
  }

  lemma ShrunkMeans(r: Rows, r': Rows)
    requires Shrunk(r, r')
    ensures OldestTextsGone(r.fulltext, r'.fulltext) && OldestEntriesGone(r.entries, r'.entries)
  {
  }

  // ---------- the full-text budget ----------

  ghost predicate NoNegative(rows: map<string, FullText>) {
    forall k :: k in rows ==> rows[k].bytes >= 0
  }

  /** Fewer rows of no negative size have no more bytes. */
  lemma {:induction false} FewerBytes(rows: map<string, FullText>, fewer: map<string, FullText>)
    requires forall k :: k in fewer ==> k in rows && rows[k] == fewer[k]
    ensures NoNegative(rows) ==> Bytes(fewer) <= Bytes(rows)
    decreases |rows|
  {
    if rows == map[] {
      assert fewer == map[];
    } else {
      var k :| k in rows;
      BytesWithout(rows, k);
      if k in fewer {
        BytesWithout(fewer, k);
        FewerBytes(rows - {k}, fewer - {k});
      } else {
        FewerBytes(rows - {k}, fewer);
      }
    }
  }

  lemma AllKept<V>(rows: map<string, V>, fewer: map<string, V>)
    requires forall k :: k in fewer ==> k in rows && fewer[k] == rows[k]
    ensures |fewer| <= |rows| && (|fewer| == |rows| ==> fewer == rows)
  {
    SubsetCard(fewer.Keys, rows.Keys);
    assert |fewer| == |fewer.Keys| && |rows| == |rows.Keys|;
  }

  /** `last`, at most a batch of the evicted rows, was still needed: with it kept, the budget is exceeded. */
  ghost predicate OneBatchTooMany(rows: map<string, FullText>, budget: int, batch: nat, evicted: set<string>,
                                  last: set<string>)
  {
    last <= evicted && 0 < |last| <= batch && Bytes(rows - (evicted - last)) > budget
  }

  lemma EvictedMore(rows: map<string, FullText>, budget: int, batch: nat, evicted: set<string>, gone: set<string>)
    requires LruPart(rows, AccessedFirst, evicted) && FirstRows(rows - evicted, AccessedFirst, batch, gone)
    requires gone != {} && Bytes(rows - evicted) > budget
    ensures LruPart(rows, AccessedFirst, evicted + gone) && rows - evicted - gone == rows - (evicted + gone)
    ensures |evicted + gone| == |evicted| + |gone|
    ensures OneBatchTooMany(rows, budget, batch, evicted + gone, gone)
  {
    LruExtends(rows, AccessedFirst, evicted, batch, gone);
    assert evicted + gone - gone == evicted;
    assert evicted !! gone;
  }

  /**
   Where the budget loop stands when it has evicted `evicted`, `last` in its latest batch, from `all`:
   what is gone is a least recently used part, and the loop went on only while the budget was exceeded.
   */
  ghost predicate Evicting(all: map<string, FullText>, rows: map<string, FullText>, budget: int, batch: nat,
                           forced: bool, evicted: set<string>, last: set<string>)
  {
    && Evicted(all, rows, AccessedFirst, evicted)
    && (if forced then Bytes(all) > budget else evicted == {})
    && (evicted != {} ==> OneBatchTooMany(all, budget, batch, evicted, last))
  }

  lemma EvictingStarts(all: map<string, FullText>, budget: int, batch: nat)
    ensures Evicting(all, all, budget, batch, false, {}, {})
  {
    assert all - {} == all;
  }

  /** A further batch, taken because the budget is exceeded. */
  lemma EvictingGoesOn(all: map<string, FullText>, rows: map<string, FullText>, rows': map<string, FullText>,
                       budget: int, batch: nat, forced: bool, evicted: set<string>, last: set<string>,
                       gone: set<string>)
    requires Evicting(all, rows, budget, batch, forced, evicted, last) && Bytes(rows) > budget
    requires FirstRows(rows, AccessedFirst, batch, gone) && rows' == rows - gone && gone != {}
    ensures Evicting(all, rows', budget, batch, true, evicted + gone, gone)
    ensures |evicted + gone| == |evicted| + |gone|
  {
    assert !forced ==> all - {} == all;
    EvictedMore(all, budget, batch, evicted, gone);
  }

  lemma EvictingNothing(all: map<string, FullText>, rows: map<string, FullText>, budget: int, batch: nat,
                        forced: bool, evicted: set<string>, last: set<string>)
    requires Evicting(all, rows, budget, batch, forced, evicted, last) && Bytes(rows) > budget
    ensures Evicting(all, rows - {}, budget, batch, true, evicted, last)
  {
    assert rows - {} == rows;
    assert !forced ==> all - {} == all;
  }

  lemma EvictingShrinks(all: map<string, FullText>, rows: map<string, FullText>, budget: int, batch: nat,
                        forced: bool, evicted: set<string>, last: set<string>)
    requires Evicting(all, rows, budget, batch, forced, evicted, last)
    ensures |evicted| == |all| - |rows| && OldestGone(all, rows, AccessedFirst)
  {
    RowCount(all, evicted);
  }

  lemma EvictingMeans(all: map<string, FullText>, rows: map<string, FullText>, budget: int, batch: nat,
                      forced: bool, evicted: set<string>, last: set<string>)
    requires Evicting(all, rows, budget, batch, forced, evicted, last)
    ensures OldestTextsGone(all, rows)
  {
  }

  // ---------- the rounds of the total-size loop ----------

  /** How many batches it takes to empty a table of `n` rows. */
  function Rounds(n: nat, batch: nat): nat
    requires batch > 0
  {
    if n == 0 then 0 else 1 + Rounds(n - Min(batch, n), batch)
  }

  lemma {:induction false} RoundsIsCeiling(n: nat, batch: nat)
    requires batch > 0
    ensures Rounds(n, batch) == (n + batch - 1) / batch
  {
    if n > batch {
      RoundsIsCeiling(n - batch, batch);
      OneMoreBatch(n - 1, batch);
    } else if n > 0 {
      assert Rounds(0, batch) == 0;
      OneMoreBatch(n - 1, batch);
    }
  }

  lemma OneMoreBatch(x: nat, batch: nat)
    requires batch > 0
    ensures (x + batch) / batch == x / batch + 1
    ensures x < batch ==> x / batch == 0
  {
    var q, r := x / batch, x % batch;
    assert x + batch == (q + 1) * batch + r;
    Quotient(x + batch, batch, q + 1, r);
    if x < batch { Quotient(x, batch, 0, x); }
  }

  lemma Quotient(x: nat, d: nat, q: nat, r: nat)
    requires r < d && x == q * d + r
    ensures x / d == q
  {
    var q' := x / d;
    assert x == q' * d + x % d;
    if q' != q {
      var k := if q' > q then q' - q else q - q';
      assert k * d == if q' > q then q' * d - q * d else q * d - q' * d;
      AtLeastOne(k, d);
    }
  }

  lemma AtLeastOne(k: nat, d: nat)
    requires k > 0
    ensures k * d >= d
  {
  }

  /** One transaction of the total-size loop, with any choice among equally old rows. */
  ghost predicate Round(r: Rows, r': Rows, batch: nat) {
    if r.fulltext != map[] && batch > 0 then
      && r'.entries == r.entries
      && exists gone :: FirstRows(r.fulltext, AccessedFirst, batch, gone) && r'.fulltext == r.fulltext - gone
    else
      && r'.fulltext == r.fulltext
      && exists gone :: FirstRows(r.entries, FetchedFirst, batch, gone) && r'.entries == r.entries - gone
  }

  ghost function Count(r: Rows): nat {
    |r.entries| + |r.fulltext|
  }

  // ---------- the purge ----------

  datatype Counters = Counters(entries: nat, fulltext: nat, favicons: nat, forced: bool)

  /**
   The fate of the first transaction: which of its three deletes succeed, which statements of the budget
   loop (the first sum, then each round with the sum before it), and whether it commits.
   */
  datatype FirstFate = FirstFate(deletes: nat -> bool, rounds: nat -> bool, commits: bool)

  /** The fate of a round of the total-size loop; a delete may fail, or the commit after the deletes. */
  datatype RoundFate = Commits | DeleteFails | CommitFails

  /** The first `n` rounds commit. */
  ghost predicate Committed(fate: nat -> RoundFate, n: nat) {
    forall i: nat :: i < n ==> fate(i).Commits?
  }

  lemma CommittedOn(fate: nat -> RoundFate, n: nat)
    requires Committed(fate, n) && fate(n).Commits?
    ensures Committed(fate, n + 1)
  {
  }

  /** From `before` to `c` the counters grew by the rows that went. */
  ghost predicate Exact(before: Counters, c: Counters, r: Rows, r': Rows) {
    && c.fulltext - before.fulltext == |r.fulltext| - |r'.fulltext|
    && c.entries - before.entries == |r.entries| - |r'.entries|
  }

  /** The number of rows a round of the total-size loop deletes. */
  ghost function Due(r: Rows, batch: nat): nat {
    if r.fulltext != map[] then Min(batch, |r.fulltext|) else Min(batch, |r.entries|)
  }

  /** `r'` is `r` without a batch of oldest full texts or, when there are none, of oldest entries. */
  ghost predicate BatchLess(r: Rows, r': Rows, batch: nat) {
    && |r'.fulltext| == |r.fulltext| - Min(batch, |r.fulltext|)
    && |r'.entries| == |r.entries| - (if r.fulltext != map[] then 0 else Min(batch, |r.entries|))
    && Shrunk(r, r')
  }

  /** Before the last of the rounds, with the rows `prev`, the file was too big. */
  ghost predicate Needed(limit: int, batch: nat, size: (nat, Rows) -> int, rounds: nat, last: nat,
                         prev: Rows, r: Rows)
  {
    rounds > 0 ==> rounds == last + 1 && size(last, prev) > limit && BatchLess(prev, r, batch)
  }

  lemma NeededOn(limit: int, batch: nat, size: (nat, Rows) -> int, rounds: nat, r: Rows, r': Rows)
    requires size(rounds, r) > limit && BatchLess(r, r', batch)
    ensures Needed(limit, batch, size, rounds + 1, rounds, r, r')
  {
  }

  /** A committed round that deletes a batch of full texts or, when there are none, of entries. */
  ghost predicate Stepped(r: Rows, r': Rows, batch: nat, c: Counters, c': Counters) {
    && BatchLess(r, r', batch) && Exact(c, c', r, r') && c'.forced && c'.favicons == c.favicons
  }

  /** Where the total-size loop stands after `rounds` rounds from `r0`. */
  ghost predicate Going(r0: Rows, r: Rows, before: Counters, c: Counters, rounds: nat, batch: nat)
    requires batch > 0
  {
    && Exact(before, c, r0, r) && Shrunk(r0, r) && c.favicons == before.favicons
    && (c.forced <==> before.forced || rounds > 0)
    && |r.fulltext| <= |r0.fulltext| && |r.entries| <= |r0.entries|
    && (|r.entries| < |r0.entries| ==> r.fulltext == map[])
    && Paced(r0, r, rounds, batch)
  }

  /** Each round so far emptied a table by a batch, but for one round that found both tables empty. */
  ghost predicate Paced(r0: Rows, r: Rows, rounds: nat, batch: nat)
    requires batch > 0
  {
    rounds + Rounds(|r.fulltext|, batch) + Rounds(|r.entries|, batch)
      <= Rounds(|r0.fulltext|, batch) + Rounds(|r0.entries|, batch) + if r == EMPTY then 1 else 0
  }

  lemma PacedOn(r0: Rows, r: Rows, r': Rows, rounds: nat, batch: nat)
    requires batch > 0 && Paced(r0, r, rounds, batch)
    requires |r'.fulltext| == |r.fulltext| - Min(batch, |r.fulltext|)
    requires |r'.entries| == |r.entries| - (if r.fulltext != map[] then 0 else Min(batch, |r.entries|))
    requires r == EMPTY ==> rounds == 0 && r0 == EMPTY
    ensures Paced(r0, r', rounds + 1, batch)
  {
    OneRoundLess(|r.fulltext|, batch);
    OneRoundLess(|r.entries|, batch);
  }

  lemma GoingStarts(r0: Rows, before: Counters, batch: nat)
    requires batch > 0
    ensures Going(r0, r0, before, before, 0, batch)
  {
  }

  lemma GoingOn(r0: Rows, r: Rows, r': Rows, before: Counters, c: Counters, c': Counters, rounds: nat, batch: nat)
    requires batch > 0 && Going(r0, r, before, c, rounds, batch) && Stepped(r, r', batch, c, c')
    requires r == EMPTY ==> rounds == 0 && r0 == EMPTY
    ensures Going(r0, r', before, c', rounds + 1, batch)
    ensures r != EMPTY ==> Count(r') < Count(r)
    ensures r == EMPTY ==> r' == EMPTY
  {
    ShrunkTransitive(r0, r, r');
    PacedOn(r0, r, r', rounds, batch);
  }

  lemma OneRoundLess(n: nat, batch: nat)
    requires batch > 0
    ensures n > 0 ==> Rounds(n - Min(batch, n), batch) == Rounds(n, batch) - 1
  {
  }

  /** The counters after a failed round of which only the commit failed, if they were `counted`. */
  ghost predicate Failed(r: Rows, batch: nat, c: Counters, c': Counters, counted: bool) {
    && c'.forced && c'.favicons == c.favicons
    && c'.fulltext == c.fulltext + (if counted then Min(batch, |r.fulltext|) else 0)
    && c'.entries == c.entries + (if counted && r.fulltext == map[] then Min(batch, |r.entries|) else 0)
  }

  /** A failed round: the tables are back, the counters are too high by what was due if only the commit failed. */
  lemma LostRound(r0: Rows, r: Rows, before: Counters, c: Counters, c': Counters, rounds: nat, batch: nat,
                  counted: bool)
    requires batch > 0 && Going(r0, r, before, c, rounds, batch)
    requires Failed(r, batch, c, c', counted)
    ensures Exact(before, c', r0, r) <==> !counted || r == EMPTY
    ensures c'.entries + c'.fulltext - before.entries - before.fulltext ==
              Count(r0) - Count(r) + if counted then Due(r, batch) else 0
    ensures rounds <= Rounds(|r0.fulltext|, batch) + Rounds(|r0.entries|, batch) + 1
  {
  }

  lemma GoingEnds(r0: Rows, r: Rows, before: Counters, c: Counters, rounds: nat, batch: nat)
    requires batch > 0 && Going(r0, r, before, c, rounds, batch)
    ensures rounds <= Rounds(|r0.fulltext|, batch) + Rounds(|r0.entries|, batch) + 1
  {
  }

  /** What the statements of the first transaction before its failure had deleted: nothing. */
  ghost predicate NothingDeleted(r: Rows, icons: map<string, Option<int>>, a: Ages, budget: int,
                                 deletes: nat -> bool, rounds: nat -> bool)
  {
    deletes(0) ==>
      && FreshRows(r, a).entries == r.entries
      && (deletes(1) ==>
            && FreshRows(r, a).fulltext == r.fulltext
            && (deletes(2) ==>
                  && FreshIcons(icons, a.now, a.icon) == icons
                  && (rounds(0) && rounds(1) ==> Bytes(r.fulltext) <= budget || r.fulltext == map[])))
  }

  /** The counters after the three deletes, as far as they went. */
  ghost predicate DeletesCounted(c: Counters, r: Rows, icons: map<string, Option<int>>, a: Ages, deletes: nat -> bool) {
    && c.entries == (if deletes(0) then |r.entries| - |FreshRows(r, a).entries| else 0)
    && c.fulltext == (if deletes(0) && deletes(1) then |r.fulltext| - |FreshRows(r, a).fulltext| else 0)
    && c.favicons == (if deletes(0) && deletes(1) && deletes(2)
                      then |icons| - |FreshIcons(icons, a.now, a.icon)| else 0)
  }

  /** When the budget loop deletes something. */
  ghost predicate LoopDeletes(f: map<string, FullText>, budget: int, rounds: nat -> bool) {
    rounds(0) && rounds(1) && Bytes(f) > budget && f != map[]
  }

  lemma NoneDeletedIff(r: Rows, icons: map<string, Option<int>>, a: Ages, budget: int, deletes: nat -> bool,
                       rounds: nat -> bool, c: Counters, deleted: nat)
    requires DeletesCounted(c, r, icons, a, deletes)
    requires deleted > 0 <==>
               deletes(0) && deletes(1) && deletes(2) && LoopDeletes(FreshRows(r, a).fulltext, budget, rounds)
    ensures c.entries == c.fulltext + deleted == c.favicons == 0 <==>
              NothingDeleted(r, icons, a, budget, deletes, rounds)
  {
    AllKept(r.entries, FreshRows(r, a).entries);
    AllKept(r.fulltext, FreshRows(r, a).fulltext);
    AllKept(icons, FreshIcons(icons, a.now, a.icon));
  }

  /**
   What the first transaction made of `r` and `icons`: expired rows went, then a least recently used part
   of the full texts as far as the budget needed it, and the counters say how many.
   */
  ghost predicate Fitted(r: Rows, icons: map<string, Option<int>>, r': Rows, icons': map<string, Option<int>>, a: Ages,
                         budget: int, batch: nat, c: Counters, evicted: set<string>, last: set<string>)
  {
    && r'.entries == FreshRows(r, a).entries && icons' == FreshIcons(icons, a.now, a.icon)
    && Evicting(FreshRows(r, a).fulltext, r'.fulltext, budget, batch, c.forced, evicted, last)
    && (Bytes(r'.fulltext) <= budget || (budget < 0 && r'.fulltext == map[]))
    && (c.forced <==> Bytes(FreshRows(r, a).fulltext) > budget)
    && c.entries == |r.entries| - |r'.entries| && c.fulltext == |r.fulltext| - |r'.fulltext|
    && c.favicons == |icons| - |icons'|
  }

  lemma FittedCounts(r: Rows, icons: map<string, Option<int>>, r': Rows, icons': map<string, Option<int>>, a: Ages,
                     budget: int, batch: nat, c: Counters, deleted: nat, forced: bool, evicted: set<string>,
                     last: set<string>)
    requires r'.entries == FreshRows(r, a).entries && icons' == FreshIcons(icons, a.now, a.icon)
    requires Evicting(FreshRows(r, a).fulltext, r'.fulltext, budget, batch, forced, evicted, last)
               && deleted == |evicted|
    requires Bytes(r'.fulltext) <= budget || (budget < 0 && r'.fulltext == map[])
    requires forced <==> Bytes(FreshRows(r, a).fulltext) > budget
    requires DeletesCounted(c, r, icons, a, _ => true)
    ensures Fitted(r, icons, r', icons', a, budget, batch, c.(fulltext := c.fulltext + deleted, forced := forced),
                   evicted, last)
  {
    EvictingShrinks(FreshRows(r, a).fulltext, r'.fulltext, budget, batch, forced, evicted, last);
  }

  /**
   What both budgets made of the unexpired rows `r0`: only oldest rows went, full texts before entries. The
   full-text budget took `evicted`, without whose last batch it would have been exceeded, and the total-size
   loop ended within one round a batch.
   */
  ghost predicate Purged(r0: Rows, r: Rows, budget: int, batch: nat, rounds: nat, evicted: set<string>,
                         last: set<string>)
    requires batch > 0
  {
    && Shrunk(r0, r)
    && LruPart(r0.fulltext, AccessedFirst, evicted) && OldestGone(r0.fulltext - evicted, r.fulltext, AccessedFirst)
    && (evicted != {} ==> OneBatchTooMany(r0.fulltext, budget, batch, evicted, last))
    && (r.fulltext != map[] ==> r.entries == r0.entries)
    && rounds <= Rounds(|r0.fulltext|, batch) + Rounds(|r0.entries|, batch) + 1
  }

  lemma {:induction false} RoundsMonotone(m: nat, n: nat, batch: nat)
    requires batch > 0 && m <= n
    ensures Rounds(m, batch) <= Rounds(n, batch)
  {
    if m > 0 {
      RoundsMonotone(m - Min(batch, m), n - Min(batch, n), batch);
    }
  }

  const NO_COUNTS: Counters := Counters(0, 0, 0, false)

  lemma ExactAdds(c1: Counters, c: Counters, r0: Rows, r1: Rows, r: Rows)
    requires Exact(NO_COUNTS, c1, r0, r1)
    ensures Exact(NO_COUNTS, c, r0, r) <==> Exact(c1, c, r1, r)
  {
  }

  /** `r0` after expiry, `r1` after the full-text budget, `r` after the total-size loop. */
  lemma PurgedBoth(r0: Rows, r1: Rows, r: Rows, budget: int, batch: nat, forced: bool, rounds: nat,
                   evicted: set<string>, last: set<string>)
    requires batch > 0 && r1.entries == r0.entries
    requires Evicting(r0.fulltext, r1.fulltext, budget, batch, forced, evicted, last)
    requires Shrunk(r1, r) && (|r.entries| < |r1.entries| ==> r.fulltext == map[])
    requires rounds <= Rounds(|r1.fulltext|, batch) + Rounds(|r1.entries|, batch) + 1
    ensures Purged(r0, r, budget, batch, rounds, evicted, last)
  {
    EvictingShrinks(r0.fulltext, r1.fulltext, budget, batch, forced, evicted, last);
    OldestGoneTransitive(r0.fulltext, r1.fulltext, r.fulltext, AccessedFirst);
    AllKept(r1.entries, r.entries);
    RoundsMonotone(|r1.fulltext|, |r0.fulltext|, batch);
  }

  ghost predicate NoneTooOld(r: Rows, a: Ages) {
    && (forall k :: k in r.entries ==> !TooOld(r.entries[k].fetched, a.now, a.entry))
    && (forall k :: k in r.fulltext ==> !TooOld(r.fulltext[k].accessed, a.now, a.text))
  }

  /**
   Of the rows that are not too old, those used longest ago went first: no text that stays was used before
   one that went, no entry that stays was fetched before one that went, and no entry went while a text stays.
   */
  ghost predicate UnexpiredLast(r: Rows, r': Rows, a: Ages) {
    && (forall g, k :: g in r.fulltext && g !in r'.fulltext && k in r'.fulltext ==>
          || TooOld(r.fulltext[g].accessed, a.now, a.text) || r.fulltext[g].accessed.None?
          || (r'.fulltext[k].accessed.Some? && r.fulltext[g].accessed.value <= r'.fulltext[k].accessed.value))
    && (forall g, k :: g in r.entries && g !in r'.entries && k in r'.entries ==>
          || TooOld(r.entries[g].fetched, a.now, a.entry) || r.entries[g].fetched.None?
          || (r'.entries[k].fetched.Some? && r.entries[g].fetched.value <= r'.entries[k].fetched.value))
    && (forall g :: g in r.entries && g !in r'.entries ==>
          TooOld(r.entries[g].fetched, a.now, a.entry) || r'.fulltext == map[])
  }

  lemma PurgedMeans(r: Rows, icons: map<string, Option<int>>, r': Rows, a: Ages, budget: int, batch: nat, rounds: nat,
                    evicted: set<string>, last: set<string>)
    requires batch > 0 && Purged(FreshRows(r, a), r', budget, batch, rounds, evicted, last)
    ensures NoneTooOld(r', a) && UnexpiredLast(r, r', a)
  {
    FreshMeans(r, icons, a);
    ShrunkMeans(FreshRows(r, a), r');
  }

  /** What a begun purge made of `r` and `icons`. */
  ghost predicate Outcome(r: Rows, icons: map<string, Option<int>>, r': Rows, icons': map<string, Option<int>>, a: Ages,
                          budget: int, batch: nat, c: Counters, rounds: nat, evicted: set<string>, last: set<string>)
    requires batch > 0
  {
    && (forall k :: k in icons' <==> k in icons && !TooOld(icons[k], a.now, a.icon))
    && (forall k :: k in icons' ==> icons'[k] == icons[k])
    && c.favicons == |icons| - |icons'|
    && NoneTooOld(r', a) && UnexpiredLast(r, r', a)
    && Purged(FreshRows(r, a), r', budget, batch, rounds, evicted, last)
    && (budget >= 0 && NoNegative(r.fulltext) ==> Bytes(r'.fulltext) <= budget)
  }

  lemma OutcomeHolds(r0: Rows, icons: map<string, Option<int>>, r: Rows, r': Rows, icons': map<string, Option<int>>,
                     a: Ages, budget: int, batch: nat, c1: Counters, c: Counters, rounds: nat, evicted: set<string>,
                     last: set<string>)
    requires batch > 0 && Fitted(r0, icons, r, icons', a, budget, batch, c1, evicted, last)
    requires Shrunk(r, r') && (|r'.entries| < |r.entries| ==> r'.fulltext == map[]) && c.favicons == c1.favicons
    requires rounds <= Rounds(|r.fulltext|, batch) + Rounds(|r.entries|, batch) + 1
    ensures Outcome(r0, icons, r', icons', a, budget, batch, c, rounds, evicted, last)
  {
    FreshMeans(r0, icons, a);
    FewerBytes(r.fulltext, r'.fulltext);
    assert NoNegative(r0.fulltext) ==> NoNegative(r.fulltext);
    PurgedBoth(FreshRows(r0, a), r, r', budget, batch, c1.forced, rounds, evicted, last);
    PurgedMeans(r0, icons, r', a, budget, batch, rounds, evicted, last);
  }

  class PurgeStore {
    var entries: map<string, Stamped>
    var fulltext: map<string, FullText>
    var favicons: map<string, Option<int>>

    constructor ()
    {
      entries, fulltext, favicons := map[], map[], map[];
    }

    ghost function State(): Rows
      reads this
    {
      Rows(entries, fulltext)
    }

    method DeleteOldestFulltext(batch: nat) returns (n: nat, ghost gone: set<string>)
      modifies this`fulltext
      ensures FirstRows(old(fulltext), AccessedFirst, batch, gone)
      ensures fulltext == old(fulltext) - gone && n == |gone| == |old(fulltext)| - |fulltext|
    {
      Preorders();
      var victims := SelectFirst(fulltext, AccessedFirst, batch);
      RowCount(fulltext, victims);
      n, gone := |victims|, victims;
      fulltext := fulltext - victims;
    }

    method DeleteOldestEntries(batch: nat) returns (n: nat, ghost gone: set<string>)
      modifies this`entries
      ensures FirstRows(old(entries), FetchedFirst, batch, gone)
      ensures entries == old(entries) - gone && n == |gone| == |old(entries)| - |entries|
    {
      Preorders();
      var victims := SelectFirst(entries, FetchedFirst, batch);
      RowCount(entries, victims);
      n, gone := |victims|, victims;
      entries := entries - victims;
    }

    method ExpireEntries(now: int, hours: int) returns (n: nat)
      modifies this`entries
      ensures entries == FreshEntries(old(entries), now, hours)
      ensures n == |old(entries)| - |entries|
    {
      var gone := set k | k in entries && Expired(entries[k].fetched, now, hours);
      RowCount(entries, gone);
      entries := entries - gone;
      n := |gone|;
    }

    method ExpireFulltext(now: int, hours: int) returns (n: nat)
      modifies this`fulltext
      ensures fulltext == FreshTexts(old(fulltext), now, hours)
      ensures n == |old(fulltext)| - |fulltext|
    {
      var gone := set k | k in fulltext && Expired(fulltext[k].accessed, now, hours);
      RowCount(fulltext, gone);
      fulltext := fulltext - gone;
      n := |gone|;
    }

    method ExpireFavicons(now: int, hours: int) returns (n: nat)
      modifies this`favicons
      ensures favicons == FreshIcons(old(favicons), now, hours)
      ensures n == |old(favicons)| - |favicons|
    {
      var gone := set k | k in favicons && Expired(favicons[k], now, hours);
      RowCount(favicons, gone);
      favicons := favicons - gone;
      n := |gone|;
    }

    /** The three TTL deletes; a failed one ends the transaction, and the caller rolls it back. */
    method DeleteExpired(a: Ages, deletes: nat -> bool) returns (ok: bool, c: Counters)
      modifies this
      ensures ok <==> deletes(0) && deletes(1) && deletes(2)
      ensures ok ==> State() == FreshRows(old(State()), a) && favicons == FreshIcons(old(favicons), a.now, a.icon)
      ensures ok ==> OnlyOldGone(old(State()), old(favicons), State(), favicons, a)
      ensures DeletesCounted(c, old(State()), old(favicons), a, deletes) && !c.forced
    {
      FreshMeans(State(), favicons, a);
      c := Counters(0, 0, 0, false);
      var fine := deletes(0);
      if !fine { return false, c; }
      var e := ExpireEntries(a.now, a.entry);
      c := c.(entries := e);
      fine := deletes(1);
      if !fine { return false, c; }
      var f := ExpireFulltext(a.now, a.text);
      c := c.(fulltext := f);
      fine := deletes(2);
      if !fine { return false, c; }
      var v := ExpireFavicons(a.now, a.icon);
      return true, c.(favicons := v);
    }

    /** One round of the budget loop; `all` is the table before the loop. */
    method EvictBatch(budget: int, batch: nat, ghost all: map<string, FullText>, ghost forced: bool,
                      ghost evicted: set<string>, ghost last: set<string>)
      returns (n: nat, ghost evicted': set<string>, ghost last': set<string>)
      requires batch > 0 && Bytes(fulltext) > budget
      requires Evicting(all, fulltext, budget, batch, forced, evicted, last)
      modifies this`fulltext
      ensures Evicting(all, fulltext, budget, batch, true, evicted', last')
      ensures |evicted'| == |evicted| + n && |fulltext| == |old(fulltext)| - n
      ensures n == 0 <==> old(fulltext) == map[]
    {
      ghost var gone;
      n, gone := DeleteOldestFulltext(batch);
      if n > 0 {
        EvictingGoesOn(all, old(fulltext), fulltext, budget, batch, forced, evicted, last, gone);
        evicted', last' := evicted + gone, gone;
      } else {
        EvictingNothing(all, old(fulltext), budget, batch, forced, evicted, last);
        evicted', last' := evicted, last;
      }
    }

    /**
     The full-text budget. What is evicted is a least recently used part, the remainder fits a
     non-negative budget, and without the last batch it would not have fitted. `works(0)` is the fate of
     the first sum and `works(r + 1)` that of round `r`; after a failure the caller rolls back.
     */
    method EnforceFulltextBudget(budget: int, batch: nat, works: nat -> bool)
      returns (ok: bool, deleted: nat, forced: bool, ghost evicted: set<string>, ghost last: set<string>)
      requires batch > 0
      modifies this`fulltext
      ensures Evicting(old(fulltext), fulltext, budget, batch, forced, evicted, last) && deleted == |evicted|
      ensures OldestTextsGone(old(fulltext), fulltext)
      ensures ok ==> Bytes(fulltext) <= budget || (budget < 0 && fulltext == map[])
      ensures ok ==> (forced <==> Bytes(old(fulltext)) > budget)
      ensures deleted > 0 <==> LoopDeletes(old(fulltext), budget, works)
      ensures (forall n :: works(n)) ==> ok
    {
      ok, deleted, forced, evicted, last := true, 0, false, {}, {};
      ghost var all := fulltext;
      EvictingStarts(all, budget, batch);
      if !works(0) { return false, 0, false, {}, {}; }
      var bytes := SumBytes(fulltext);
      var round := 0;
      while bytes > budget
        invariant bytes == Bytes(fulltext) && deleted == |evicted|
        invariant Evicting(all, fulltext, budget, batch, forced, evicted, last)
        invariant round == 0 ==> deleted == 0 && !forced && fulltext == all
        invariant round > 0 ==> deleted > 0 && forced && works(1) && all != map[]
        decreases |fulltext|
      {
        var fine := works(round + 1);
        if !fine {
          EvictingMeans(all, fulltext, budget, batch, forced, evicted, last);
          return false, deleted, forced, evicted, last;
        }
        var n;
        n, evicted, last := EvictBatch(budget, batch, all, forced, evicted, last);
        deleted, forced := deleted + n, true;
        if n == 0 { break; }
        bytes := SumBytes(fulltext);
        round := round + 1;
      }
      EvictingMeans(all, fulltext, budget, batch, forced, evicted, last);
    }

    /** One transaction of the total-size loop: a batch of full texts or, when there are none, of entries. */
    method TotalRound(batch: nat) returns (texts: nat, items: nat)
      modifies this`fulltext, this`entries
      ensures Round(old(State()), State(), batch) && Shrunk(old(State()), State())
      ensures texts == |old(fulltext)| - |fulltext| && items == |old(entries)| - |entries|
      ensures |fulltext| == |old(fulltext)| - Min(batch, |old(fulltext)|)
      ensures |entries| ==
                |old(entries)| - if batch > 0 && old(fulltext) != map[] then 0 else Min(batch, |old(entries)|)
    {
      items := 0;
      ghost var gone;
      texts, gone := DeleteOldestFulltext(batch);
      if texts == 0 {
        assert old(fulltext) - {} == old(fulltext);
        items, gone := DeleteOldestEntries(batch);
      }
    }

    /** A round with its fate. The counters are raised before the commit, and stay raised if it fails. */
    method TryRound(batch: nat, c: Counters, fate: RoundFate) returns (c': Counters)
      requires batch > 0
      modifies this`fulltext, this`entries
      ensures fate.Commits? ==> Stepped(old(State()), State(), batch, c, c')
      ensures !fate.Commits? ==> State() == old(State()) && Failed(State(), batch, c, c', fate.CommitFails?)
    {
      c' := c.(forced := true);
      if fate.DeleteFails? { return; }
      var savedEntries, savedTexts := entries, fulltext;
      var texts, items := TotalRound(batch);
      c' := c'.(fulltext := c.fulltext + texts, entries := c.entries + items);
      if fate.CommitFails? {
        entries, fulltext := savedEntries, savedTexts;
      }
    }

    /** One committed round of the loop, after `rounds` from `r0`. */
    method CountedRound(limit: int, batch: nat, size: (nat, Rows) -> int, before: Counters, rounds: nat, c: Counters,
                        ghost r0: Rows)
      returns (c': Counters)
      requires batch > 0 && Going(r0, State(), before, c, rounds, batch) && size(rounds, State()) > limit
      requires State() == EMPTY ==> rounds == 0 && r0 == EMPTY
      modifies this`fulltext, this`entries
      ensures Going(r0, State(), before, c', rounds + 1, batch)
      ensures Needed(limit, batch, size, rounds + 1, rounds, old(State()), State())
      ensures old(State()) != EMPTY ==> Count(State()) < Count(old(State()))
      ensures old(State()) == EMPTY ==> State() == EMPTY
    {
      ghost var r := State();
      c' := TryRound(batch, c, Commits);
      GoingOn(r0, r, State(), before, c, c', rounds, batch);
      NeededOn(limit, batch, size, rounds, r, State());
    }

    /** The loop as far as its rounds commit. */
    method CommittedRounds(limit: int, batch: nat, size: (nat, Rows) -> int, before: Counters, fate: nat -> RoundFate)
      returns (c: Counters, after: int, rounds: nat, over: bool, ghost lastRound: nat, ghost prev: Rows)
      requires batch > 0 && forall n: nat :: n > 0 ==> size(n, EMPTY) <= limit
      modifies this`fulltext, this`entries
      ensures Committed(fate, rounds) && after == size(rounds, State())
      ensures Needed(limit, batch, size, rounds, lastRound, prev, State())
      ensures Going(old(State()), State(), before, c, rounds, batch)
      ensures over ==> after <= limit || c.entries + c.fulltext == 0
      ensures !over ==> after > limit && !fate(rounds).Commits?
    {
      c, rounds, over := before, 0, false;
      ghost var r0, r := State(), State();
      lastRound, prev := 0, r;
      after := size(0, Rows(entries, fulltext));
      GoingStarts(r0, before, batch);
      var f := fate(0);
      while after > limit && f.Commits?
        invariant r == State() && after == size(rounds, r) && f == fate(rounds)
        invariant Needed(limit, batch, size, rounds, lastRound, prev, r)
        invariant Committed(fate, rounds)
        invariant Going(r0, r, before, c, rounds, batch)
        invariant r == EMPTY ==> after <= limit || (rounds == 0 && r0 == EMPTY)
        decreases Count(r), if rounds == 0 then 1 else 0
      {
        c := CountedRound(limit, batch, size, before, rounds, c, r0);
        CommittedOn(fate, rounds);
        lastRound, prev, r, rounds := rounds, r, State(), rounds + 1;
        after := size(rounds, Rows(entries, fulltext));
        f := fate(rounds);
        if c.entries + c.fulltext == 0 { return c, after, rounds, true, lastRound, prev; }
      }
      over := after <= limit;
    }

    /** The loop itself; `c0` are the counters before a failed round. */
    method TotalLoop(limit: int, batch: nat, size: (nat, Rows) -> int, before: Counters, fate: nat -> RoundFate)
      returns (ok: bool, c: Counters, after: int, rounds: nat, ghost c0: Counters,
               ghost lastRound: nat, ghost prev: Rows)
      requires batch > 0 && forall n: nat :: n > 0 ==> size(n, EMPTY) <= limit
      modifies this`fulltext, this`entries
      ensures Committed(fate, rounds) && after == size(rounds, State())
      ensures Needed(limit, batch, size, rounds, lastRound, prev, State())
      ensures Going(old(State()), State(), before, c0, rounds, batch)
      ensures ok ==> c == c0 && (after <= limit || c.entries + c.fulltext == 0)
      ensures !ok ==> after > limit && !fate(rounds).Commits?
      ensures !ok ==> Failed(State(), batch, c0, c, fate(rounds).CommitFails?)
    {
      c, after, rounds, ok, lastRound, prev := CommittedRounds(limit, batch, size, before, fate);
      c0 := c;
      if !ok {
        var f := fate(rounds);
        c := TryRound(batch, c, f);
      }
    }

    /**
     The total-size loop. `size(n, rows)` is the file size measured after `n` rounds and `fate(n)` the fate
     of the next one. Every round is made because the file is too big, as it was with the rows `prev` before
     the last one. If empty tables fit the limit once a round has been made, the loop ends within one round
     for each batch of full texts and of entries, plus one for a file that was too big with nothing in it;
     only oldest rows go, and entries only after all full texts. The counters are raised inside the
     transactions: they are exact after a run without a failure, and after a failure unless a commit failed
     while there was something to delete.
     */
    method EnforceTotal(limit: int, batch: nat, size: (nat, Rows) -> int, before: Counters, fate: nat -> RoundFate)
      returns (ok: bool, c: Counters, after: int, rounds: nat, ghost lastRound: nat, ghost prev: Rows)
      requires batch > 0 && forall n: nat :: n > 0 ==> size(n, EMPTY) <= limit
      modifies this`fulltext, this`entries
      ensures Committed(fate, rounds) && (!ok ==> !fate(rounds).Commits?)
      ensures rounds <= Rounds(|old(fulltext)|, batch) + Rounds(|old(entries)|, batch) + 1
      ensures Needed(limit, batch, size, rounds, lastRound, prev, State())
      ensures after == size(rounds, State())
      ensures if ok then after <= limit || c.entries + c.fulltext == 0 else after > limit
      ensures |entries| < |old(entries)| ==> fulltext == map[]
      ensures Shrunk(old(State()), State()) && c.favicons == before.favicons
      ensures c.forced <==> before.forced || rounds > 0 || !ok
      ensures ok ==> Exact(before, c, old(State()), State())
      ensures !ok ==> (Exact(before, c, old(State()), State()) <==> fate(rounds).DeleteFails? || State() == EMPTY)
      ensures !ok ==> c.entries + c.fulltext - before.entries - before.fulltext ==
                        Count(old(State())) - Count(State())
                        + if fate(rounds).CommitFails? then Due(State(), batch) else 0
    {
      ghost var r0, c0 := State(), before;
      ok, c, after, rounds, c0, lastRound, prev := TotalLoop(limit, batch, size, before, fate);
      GoingEnds(r0, State(), before, c0, rounds, batch);
      if !ok {
        LostRound(r0, State(), before, c0, c, rounds, batch, fate(rounds).CommitFails?);
      }
    }

    /** The budget loop after the deletes, which made the tables of `r` and `icons` and counted `c0`. */
    method FitTexts(budget: int, a: Ages, batch: nat, deletes: nat -> bool, rounds: nat -> bool, c0: Counters,
                    ghost r: Rows, ghost icons: map<string, Option<int>>)
      returns (ok: bool, c: Counters, ghost evicted: set<string>, ghost last: set<string>)
      requires batch > 0 && deletes(0) && deletes(1) && deletes(2) && DeletesCounted(c0, r, icons, a, deletes)
      requires State() == FreshRows(r, a) && favicons == FreshIcons(icons, a.now, a.icon)
      modifies this`fulltext
      ensures (forall n :: rounds(n)) ==> ok
      ensures ok ==> Fitted(r, icons, State(), favicons, a, budget, batch, c, evicted, last)
      ensures c.entries == c.fulltext == c.favicons == 0 <==> NothingDeleted(r, icons, a, budget, deletes, rounds)
    {
      var deleted, forced;
      ok, deleted, forced, evicted, last := EnforceFulltextBudget(budget, batch, rounds);
      c := c0.(fulltext := c0.fulltext + deleted, forced := forced);
      NoneDeletedIff(r, icons, a, budget, deletes, rounds, c0, deleted);
      if ok {
        FittedCounts(r, icons, State(), favicons, a, budget, batch, c0, deleted, forced, evicted, last);
      }
    }

    /** The statements of the first transaction, up to the first that fails. */
    method FirstStatements(budget: int, a: Ages, batch: nat, deletes: nat -> bool, rounds: nat -> bool)
      returns (ok: bool, c: Counters, ghost evicted: set<string>, ghost last: set<string>)
      requires batch > 0
      modifies this
      ensures (forall n :: deletes(n)) && (forall n :: rounds(n)) ==> ok
      ensures ok ==> Fitted(old(State()), old(favicons), State(), favicons, a, budget, batch, c, evicted, last)
      ensures c.entries == c.fulltext == c.favicons == 0 <==>
                NothingDeleted(old(State()), old(favicons), a, budget, deletes, rounds)
    {
      ghost var r, icons := State(), favicons;
      evicted, last := {}, {};
      ok, c := DeleteExpired(a, deletes);
      if ok {
        ok, c, evicted, last := FitTexts(budget, a, batch, deletes, rounds, c, r, icons);
      } else {
        NoneDeletedIff(r, icons, a, budget, deletes, rounds, c, 0);
      }
    }

    /** The first transaction: expiry, then the full-text budget. A failure rolls back the tables, not the counters. */
    method ExpireAndFit(budget: int, a: Ages, batch: nat, fate: FirstFate)
      returns (ok: bool, c: Counters, ghost evicted: set<string>, ghost last: set<string>)
      requires batch > 0
      modifies this
      ensures (forall n :: fate.deletes(n)) && (forall n :: fate.rounds(n)) && fate.commits ==> ok
      ensures ok ==> Fitted(old(State()), old(favicons), State(), favicons, a, budget, batch, c, evicted, last)
      ensures !ok ==> State() == old(State()) && favicons == old(favicons)
      ensures c.entries == c.fulltext == c.favicons == 0 <==>
                NothingDeleted(old(State()), old(favicons), a, budget, fate.deletes, fate.rounds)
    {
      var savedEntries, savedTexts, savedIcons := entries, fulltext, favicons;
      ok, c, evicted, last := FirstStatements(budget, a, batch, fate.deletes, fate.rounds);
      if !ok || !fate.commits {
        ok := false;
        entries, fulltext, favicons := savedEntries, savedTexts, savedIcons;
      }
    }

    /**
     The whole purge: `first` is the fate of its first transaction, which ends the purge if it fails, and
     `fate` those of the rounds of the total-size loop. Of the unexpired rows only oldest ones go, an entry
     only when no full text is left; the full texts fit their budget whenever no size is negative, and the
     file its limit unless nothing was deleted. The counters are exact if nothing failed; after a failure
     they are too high exactly when the failed transaction had deleted something before it was rolled back.
     */
    method PurgeAll(limit: int, budget: int, a: Ages, batch: int, first: FirstFate, fate: nat -> RoundFate,
                    size: (nat, Rows) -> int)
      returns (ok: bool, c: Counters, bytesAfter: int, ghost begun: bool, ghost rounds: nat,
               ghost lastRound: nat, ghost prev: Rows, ghost evicted: set<string>, ghost last: set<string>)
      requires forall n: nat :: n > 0 ==> size(n, EMPTY) <= limit
      modifies this
      ensures (forall n :: first.deletes(n)) && (forall n :: first.rounds(n)) && first.commits ==> begun
      ensures !begun ==> !ok && State() == old(State()) && favicons == old(favicons)
      ensures !begun ==> (c.entries == c.fulltext == c.favicons == 0 <==>
                            NothingDeleted(State(), favicons, a, budget, first.deletes, first.rounds))
      ensures begun ==> Committed(fate, rounds) && (!ok ==> !fate(rounds).Commits?)
      ensures begun ==>
                Outcome(old(State()), old(favicons), State(), favicons, a, budget, Batch(batch), c, rounds, evicted,
                        last)
      ensures begun ==> (c.forced <==> Bytes(FreshRows(old(State()), a).fulltext) > budget || rounds > 0 || !ok)
      ensures begun ==>
                (Exact(NO_COUNTS, c, old(State()), State()) <==> ok || fate(rounds).DeleteFails? || State() == EMPTY)
      ensures begun ==> Needed(limit, Batch(batch), size, rounds, lastRound, prev, State())
      ensures ok ==> bytesAfter == size(rounds, State()) && (bytesAfter <= limit || c.entries + c.fulltext == 0)
    {
      ghost var r0, icons := State(), favicons;
      var started;
      started, c, evicted, last := ExpireAndFit(budget, a, Batch(batch), first);
      ok, bytesAfter, begun, rounds, lastRound, prev := false, 0, started, 0, 0, State();
      if !started { return; }
      ghost var r, c1 := State(), c;
      var after, n;
      ok, c, after, n, lastRound, prev := EnforceTotal(limit, Batch(batch), size, c, fate);
      rounds := n;
      if ok { bytesAfter := after; }
      ExactAdds(c1, c, r0, r, State());
      OutcomeHolds(r0, icons, r, State(), favicons, a, budget, Batch(batch), c1, c, rounds, evicted, last);
    }
  }

  // ---------- when the total-size loop ends ----------

  /**
   `rs` are the table contents after 0, 1, 2, ... rounds of a loop still going on, where `deleted` rows
   were already counted before it: every round found the file too big, and none but the first found
   the cumulative counters at zero.
   */
  ghost predicate Execution(rs: seq<Rows>, batch: nat, size: Rows -> int, limit: int, deleted: nat) {
    && |rs| > 0
    && forall i :: 0 <= i < |rs| - 1 ==>
         && Round(rs[i], rs[i + 1], batch)
         && size(rs[i]) > limit
         && (i > 0 ==> deleted + Count(rs[0]) - Count(rs[i]) > 0)
  }

  lemma RoundExists(r: Rows, batch: nat) returns (r': Rows)
    requires batch > 0
    ensures Round(r, r', batch) && (r != EMPTY ==> Count(r') < Count(r)) && Count(r') <= Count(r)
  {
    Preorders();
    if r.fulltext != map[] {
      var gone := FirstRowsExist(r.fulltext, AccessedFirst, batch);
      RowCount(r.fulltext, gone);
      r' := r.(fulltext := r.fulltext - gone);
    } else {
      var gone := FirstRowsExist(r.entries, FetchedFirst, batch);
      RowCount(r.entries, gone);
      r' := r.(entries := r.entries - gone);
    }
  }

  lemma RoundShrinks(r: Rows, r': Rows, batch: nat)
    requires batch > 0 && Round(r, r', batch)
    ensures Count(r') <= Count(r) && (r != EMPTY ==> Count(r') < Count(r))
  {
    if r.fulltext != map[] {
      var gone :| FirstRows(r.fulltext, AccessedFirst, batch, gone) && r'.fulltext == r.fulltext - gone;
      RowCount(r.fulltext, gone);
    } else {
      var gone :| FirstRows(r.entries, FetchedFirst, batch, gone) && r'.entries == r.entries - gone;
      RowCount(r.entries, gone);
    }
  }

  /** If empty tables fit, a going loop has made no more rounds than there were rows. */
  lemma {:induction false} EndsInTime(rs: seq<Rows>, batch: nat, size: Rows -> int, limit: int, deleted: nat)
    requires batch > 0 && Execution(rs, batch, size, limit, deleted) && size(EMPTY) <= limit
    ensures |rs| - 1 <= Count(rs[0]) - Count(rs[|rs| - 1])
  {
    if |rs| > 1 {
      var front := rs[..|rs| - 1];
      forall i | 0 <= i < |front| - 1 ensures Round(front[i], front[i + 1], batch) {
        assert Round(rs[i], rs[i + 1], batch);
      }
      EndsInTime(front, batch, size, limit, deleted);
      assert Round(rs[|rs| - 2], rs[|rs| - 2 + 1], batch);
      RoundShrinks(rs[|rs| - 2], rs[|rs| - 1], batch);
    }
  }

  /** If empty tables do not fit, the loop can go on for any number of rounds. */
  lemma {:induction false} GoesOn(r: Rows, n: nat, batch: nat, size: Rows -> int, limit: int, deleted: nat)
    returns (rs: seq<Rows>)
    requires batch > 0 && (forall q :: size(EMPTY) <= size(q)) && size(EMPTY) > limit
    requires deleted > 0 || r != EMPTY
    ensures |rs| == n + 1 && rs[0] == r && Execution(rs, batch, size, limit, deleted)
    ensures n > 0 ==> deleted + Count(r) - Count(rs[n]) > 0
  {
    if n == 0 {
      rs := [r];
    } else {
      var front := GoesOn(r, n - 1, batch, size, limit, deleted);
      var next := RoundExists(front[n - 1], batch);
      OneMoreRound(front, next, batch, size, limit, deleted);
      rs := front + [next];
    }
  }

  lemma OneMoreRound(rs: seq<Rows>, next: Rows, batch: nat, size: Rows -> int, limit: int, deleted: nat)
    requires Execution(rs, batch, size, limit, deleted) && Round(rs[|rs| - 1], next, batch)
               && size(rs[|rs| - 1]) > limit
    requires |rs| > 1 ==> deleted + Count(rs[0]) - Count(rs[|rs| - 1]) > 0
    ensures Execution(rs + [next], batch, size, limit, deleted)
  {
    var more := rs + [next];
    forall i | 0 <= i < |more| - 1
      ensures Round(more[i], more[i + 1], batch) && size(more[i]) > limit
      ensures i > 0 ==> deleted + Count(more[0]) - Count(more[i]) > 0
    {
      if i < |rs| - 1 {
        assert Round(rs[i], rs[i + 1], batch);
      }
    }
  }

  ghost predicate Ends(r: Rows, batch: nat, size: Rows -> int, limit: int, deleted: nat) {
    exists bound: nat :: Within(r, batch, size, limit, deleted, bound)
  }

  ghost predicate Within(r: Rows, batch: nat, size: Rows -> int, limit: int, deleted: nat, bound: nat) {
    forall rs :: Execution(rs, batch, size, limit, deleted) && rs[0] == r ==> |rs| <= bound
  }

  /** With nothing to delete and nothing deleted before, the loop gives up after its first round. */
  lemma NothingToDelete(rs: seq<Rows>, batch: nat, size: Rows -> int, limit: int)
    requires batch > 0 && Execution(rs, batch, size, limit, 0) && rs[0] == EMPTY
    ensures |rs| <= 2
  {
    assert |rs| > 2 ==> Count(rs[1]) >= 0;
  }

  /**
   For a file that is smallest when both tables are empty, the loop is sure to end exactly when the file of
   the empty tables fits the limit, or when there is no row to delete and none was deleted before.
   */
  lemma EndsIff(r: Rows, batch: nat, size: Rows -> int, limit: int, deleted: nat)
    requires batch > 0 && forall q :: size(EMPTY) <= size(q)
    ensures Ends(r, batch, size, limit, deleted) <==> size(EMPTY) <= limit || (deleted == 0 && r == EMPTY)
  {
    if size(EMPTY) <= limit {
      forall rs | Execution(rs, batch, size, limit, deleted) && rs[0] == r ensures |rs| <= Count(r) + 1 {
        EndsInTime(rs, batch, size, limit, deleted);
      }
      assert Within(r, batch, size, limit, deleted, Count(r) + 1);
    } else if deleted == 0 && r == EMPTY {
      forall rs | Execution(rs, batch, size, limit, deleted) && rs[0] == r ensures |rs| <= 2 {
        NothingToDelete(rs, batch, size, limit);
      }
      assert Within(r, batch, size, limit, deleted, 2);
    } else {
      forall bound: nat ensures !Within(r, batch, size, limit, deleted, bound) {
        var rs := GoesOn(r, bound, batch, size, limit, deleted);
      }
    }
  }
}
