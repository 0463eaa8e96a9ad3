/** Entry retention per feed: ReplaceEntries of internal/store/feeds.go, and what it means for entry_count. */
module Entries {
  import opened Common
  import opened RankedRows

  /** Entry ids hash the feed together with the guid, or with the url when there is no guid. */
  datatype EntryId = Hashed(feed: string, key: string)

  datatype Entry = Entry(feed: string, title: string, published: Option<int>, image: Option<string>,
                         fetched: Option<int>)

  /** An entry as the parser hands it over. */
  datatype Item = Item(guid: string, url: string, title: string, published: Option<int>, image: Option<string>)

  type Table = map<EntryId, Entry>

  function IdOf(feed: string, e: Item): EntryId {
    Hashed(feed, if e.guid == "" then e.url else e.guid)
  }

  /** Two items are the same entry exactly if they are of one feed and share the guid, or the url for want of one. */
  lemma SameIdIff(f: string, a: Item, g: string, b: Item)
    ensures IdOf(f, a) == IdOf(g, b) <==>
              && f == g
              && (a.guid != "" && b.guid != "" ==> a.guid == b.guid)
              && (a.guid == "" && b.guid == "" ==> a.url == b.url)
              && (a.guid != "" && b.guid == "" ==> a.guid == b.url)
              && (a.guid == "" && b.guid != "" ==> a.url == b.guid)
  {
  }

  function Coalesce<T>(a: Option<T>, b: Option<T>): Option<T> {
    if a.Some? then a else b
  }

  /** INSERT ... ON CONFLICT (id) DO UPDATE: a missing publication time or image does not erase a known one. */
  function Upsert(rows: Table, feed: string, e: Item, now: int): Table {
    var id := IdOf(feed, e);
    if id in rows then
      rows[id := rows[id].(title := e.title, published := Coalesce(e.published, rows[id].published),
                           image := Coalesce(e.image, rows[id].image), fetched := Some(now))]
    else
      rows[id := Entry(feed, e.title, e.published, e.image, Some(now))]
  }

  function UpsertAll(rows: Table, feed: string, items: seq<Item>, now: int): Table {
    if items == [] then rows
    else Upsert(UpsertAll(rows, feed, items[..|items| - 1], now), feed, items[|items| - 1], now)
  }

  /** ORDER BY published_at DESC NULLS LAST, fetched_at DESC */
  predicate NewestFirst(a: Entry, b: Entry) {
    if a.published == b.published then NoLater(b.fetched, a.fetched) else NoLater(b.published, a.published)
  }

  function RowsOf(rows: Table, feed: string): Table {
    map id | id in rows && rows[id].feed == feed :: rows[id]
  }

  /** Every row sits under an id of its own feed. */
  ghost predicate Filed(rows: Table) {
    forall id :: id in rows ==> rows[id].feed == id.feed
  }

  // ---------- what the upserts leave behind ----------

  /** The last item with this id. */
  function LastWith(feed: string, items: seq<Item>, id: EntryId): Option<Item> {
    if items == [] then None
    else if IdOf(feed, items[|items| - 1]) == id then Some(items[|items| - 1])
    else LastWith(feed, items[..|items| - 1], id)
  }

  /** The last known value of a column among the items with this id. */
  function LastKnown<T>(feed: string, items: seq<Item>, id: EntryId, column: Item -> Option<T>): Option<T> {
    if items == [] then None
    else
      var e := items[|items| - 1];
      if IdOf(feed, e) == id && column(e).Some? then column(e) else LastKnown(feed, items[..|items| - 1], id, column)
  }

  function Published(e: Item): Option<int> {
    e.published
  }

  function Image(e: Item): Option<string> {
    e.image
  }

  /** Row by row: rows only come, the latest title wins, and rows without an item are untouched. */
  lemma {:induction false} UpsertedRow(rows: Table, feed: string, items: seq<Item>, now: int, id: EntryId)
    requires Filed(rows)
    ensures var r := UpsertAll(rows, feed, items, now);
            && Filed(r)
            && (id in r <==> id in rows || LastWith(feed, items, id).Some?)
            && (LastWith(feed, items, id).None? && id in rows ==> r[id] == rows[id])
            && (LastWith(feed, items, id).Some? ==>
                  r[id].feed == feed && r[id].title == LastWith(feed, items, id).value.title
                  && r[id].fetched == Some(now))
  {
    if items != [] {
      UpsertedRow(rows, feed, items[..|items| - 1], now, id);
    }
  }

  /** A known publication time or image survives until an item brings a newer one. */
  lemma {:induction false} UpsertedColumns(rows: Table, feed: string, items: seq<Item>, now: int, id: EntryId)
    requires Filed(rows) && id in UpsertAll(rows, feed, items, now)
    ensures var row := UpsertAll(rows, feed, items, now)[id];
            && row.published == Coalesce(LastKnown(feed, items, id, Published),
                                        if id in rows then rows[id].published else None)
            && row.image == Coalesce(LastKnown(feed, items, id, Image), if id in rows then rows[id].image else None)
  {
    if items != [] {
      var front := items[..|items| - 1];
      if id in UpsertAll(rows, feed, front, now) {
        UpsertedColumns(rows, feed, front, now, id);
      } else {
        UpsertedRow(rows, feed, front, now, id);
        NotWith(feed, front, id, Published);
        NotWith(feed, front, id, Image);
      }
    }
  }

  lemma {:induction false} NotWith<T>(feed: string, items: seq<Item>, id: EntryId, column: Item -> Option<T>)
    ensures LastWith(feed, items, id).None? ==> LastKnown(feed, items, id, column).None?
  {
    if items != [] {
      NotWith(feed, items[..|items| - 1], id, column);
    }
  }

  lemma {:induction false} OtherFeedsUntouched(rows: Table, feed: string, items: seq<Item>, now: int)
    ensures var r := UpsertAll(rows, feed, items, now);
            forall id: EntryId :: id.feed != feed ==> (id in r <==> id in rows) && (id in rows ==> r[id] == rows[id])
  {
    if items != [] {
      OtherFeedsUntouched(rows, feed, items[..|items| - 1], now);
    }
  }

  // ---------- the store ----------

  class EntryStore {
    var entries: Table
    var counts: map<string, int>  // entry_count of the feeds in the catalog

    constructor ()
      ensures entries == map[] && counts == map[]
    {
      entries, counts := map[], map[];
    }

    /** A feed enters the catalog with entry_count 0; a known feed keeps its count. */
    method RegisterFeed(feed: string)
      modifies this`counts
      ensures counts == Registered(old(counts), feed)
    {
      if feed !in counts {
        counts := counts[feed := 0];
      }
    }

    /**
     ReplaceEntries. Of the old rows with the items upserted, the feed keeps the newest `maxPerFeed`
     (all of them if the limit is not positive), its count is exact, and other feeds keep their rows.
     */
    method ReplaceEntries(feed: string, items: seq<Item>, maxPerFeed: int, now: int, commits: bool)
      returns (ghost kept: set<EntryId>)
      requires Filed(entries)
      modifies this
      ensures !commits ==> entries == old(entries) && counts == old(counts)
      ensures commits ==> Replaced(old(entries), entries, feed, items, maxPerFeed, now, kept)
      ensures commits ==> Retained(old(entries), UpsertAll(old(entries), feed, items, now), entries, feed, maxPerFeed)
      ensures commits ==>
                counts == if feed in old(counts) then old(counts)[feed := |IdsOf(entries, feed)|] else old(counts)
    {
      kept := {};
      if !commits { return; }
      for k := 0 to |items|
        modifies `entries
        invariant entries == UpsertAll(old(entries), feed, items[..k], now)
      {
        assert items[..k + 1][..k] == items[..k];
        entries := Upsert(entries, feed, items[k], now);
      }
      assert items[..|items|] == items;
      var mine := RowsOf(entries, feed);
      kept := mine.Keys;
      if maxPerFeed > 0 {
        NewestFirstPreorder();
        var top := SelectFirst(mine, NewestFirst, maxPerFeed);
        entries := map id | id in entries && (entries[id].feed != feed || id in top) :: entries[id];
        kept := top;
      }
      ReplacedMeans(old(entries), entries, feed, items, maxPerFeed, now, kept);
      if feed in counts {
        RowsCount(entries, feed);
        counts := counts[feed := |RowsOf(entries, feed)|];
      }
    }
  }

  lemma NewestFirstPreorder()
    ensures Preorder(NewestFirst)
  {
  }

  function Registered(counts: map<string, int>, feed: string): map<string, int> {
    if feed in counts then counts else counts[feed := 0]
  }

  /** `after` is `before` with the items upserted, cut down to the rows `kept` of this feed. */
  ghost predicate Replaced(before: Table, after: Table, feed: string, items: seq<Item>, maxPerFeed: int, now: int,
                           kept: set<EntryId>)
  {
    var all := UpsertAll(before, feed, items, now);
    && (if maxPerFeed > 0 then FirstRows(RowsOf(all, feed), NewestFirst, maxPerFeed, kept)
        else kept == RowsOf(all, feed).Keys)
    && after == map id | id in all && (all[id].feed != feed || id in kept) :: all[id]
  }

  /** Ids of the entries of a feed. */
  function IdsOf(rows: Table, feed: string): set<EntryId> {
    set id | id in rows && rows[id].feed == feed
  }

  lemma RowsCount(rows: Table, feed: string)
    ensures RowsOf(rows, feed).Keys == IdsOf(rows, feed) && |RowsOf(rows, feed)| == |IdsOf(rows, feed)|
  {
    assert |RowsOf(rows, feed)| == |RowsOf(rows, feed).Keys|;
  }

  /** `a` was published after `b`, or at the same time and fetched no earlier; an unknown time counts as earliest. */
  predicate NoOlder(a: Entry, b: Entry) {
    if a.published != b.published then
      a.published.Some? && (b.published.None? || a.published.value > b.published.value)
    else
      b.fetched.None? || (a.fetched.Some? && a.fetched.value >= b.fetched.value)
  }

  /** Rows of other feeds stay as they were in `before`; of this feed the newest of `all` stay, up to the limit. */
  ghost predicate Retained(before: Table, all: Table, after: Table, feed: string, maxPerFeed: int) {
    && (forall id :: id in after ==> id in all && after[id] == all[id])
    && (forall id :: id in before && before[id].feed != feed ==> id in after && after[id] == before[id])
    && (forall id :: id in after && after[id].feed != feed ==> id in before)
    && (maxPerFeed <= 0 ==> after == all)
    && (maxPerFeed > 0 ==> |IdsOf(after, feed)| == Min(maxPerFeed, |IdsOf(all, feed)|))
    && forall a, b :: a in IdsOf(after, feed) && b in IdsOf(all, feed) && b !in after ==> NoOlder(after[a], all[b])
  }

  /** The cut keeps the newest rows of the feed and the rows of other feeds. */
  lemma ReplacedMeans(before: Table, after: Table, feed: string, items: seq<Item>, maxPerFeed: int, now: int,
                      kept: set<EntryId>)
    requires Filed(before) && Replaced(before, after, feed, items, maxPerFeed, now, kept)
    ensures Filed(after) && IdsOf(after, feed) == kept
    ensures Retained(before, UpsertAll(before, feed, items, now), after, feed, maxPerFeed)
    ensures forall other :: other != feed ==> RowsOf(after, other) == RowsOf(before, other)
  {
    var all := UpsertAll(before, feed, items, now);
    forall id | id in all ensures all[id].feed == id.feed {
      UpsertedRow(before, feed, items, now, id);
    }
    OtherFeedsUntouched(before, feed, items, now);
    CutRetains(before, all, after, feed, maxPerFeed, kept);
    forall other | other != feed ensures RowsOf(after, other) == RowsOf(before, other) {
      CutKeepsOthers(before, all, after, feed, kept, other);
    }
  }

  lemma CutRetains(before: Table, all: Table, after: Table, feed: string, maxPerFeed: int, kept: set<EntryId>)
    requires Filed(before) && Filed(all)
    requires forall id: EntryId ::
               id.feed != feed ==> (id in all <==> id in before) && (id in before ==> all[id] == before[id])
    requires if maxPerFeed > 0 then FirstRows(RowsOf(all, feed), NewestFirst, maxPerFeed, kept)
             else kept == RowsOf(all, feed).Keys
    requires after == map id | id in all && (all[id].feed != feed || id in kept) :: all[id]
    ensures Filed(after) && IdsOf(after, feed) == kept && Retained(before, all, after, feed, maxPerFeed)
  {
    RowsCount(all, feed);
    assert IdsOf(after, feed) == kept;
    forall a, b | a in kept && b in IdsOf(all, feed) && b !in after ensures NoOlder(after[a], all[b]) {
      assert b in RowsOf(all, feed) && NewestFirst(all[a], all[b]);
    }
  }

  lemma CutKeepsOthers(before: Table, all: Table, after: Table, feed: string, kept: set<EntryId>, other: string)
    requires Filed(before) && Filed(all) && other != feed
    requires forall id: EntryId ::
               id.feed != feed ==> (id in all <==> id in before) && (id in before ==> all[id] == before[id])
    requires after == map id | id in all && (all[id].feed != feed || id in kept) :: all[id]
    ensures RowsOf(after, other) == RowsOf(before, other)
  {
  }

  // ---------- entry_count over whole runs ----------

  datatype World = World(entries: Table, counts: map<string, int>)

  datatype Event =
    | Register(feed: string)
    | Replace(feed: string, items: seq<Item>, maxPerFeed: int, now: int, kept: set<EntryId>, after: Table)
    | Purge(gone: set<EntryId>)

  const INIT: World := World(map[], map[])

  /** A refresh looks the feed up first, so entries are replaced only for feeds in the catalog. */
  ghost predicate Enabled(w: World, e: Event) {
    match e
    case Replace(feed, items, maxPerFeed, now, kept, after) =>
      feed in w.counts && Replaced(w.entries, after, feed, items, maxPerFeed, now, kept)
    case _ => true
  }

  ghost function Step(w: World, e: Event): World {
    if !Enabled(w, e) then w else
    match e
    case Register(feed) => w.(counts := Registered(w.counts, feed))
    case Replace(feed, _, _, _, _, after) => World(after, w.counts[feed := |RowsOf(after, feed)|])
    case Purge(gone) => w.(entries := w.entries - gone)
  }

  ghost function Exec(evs: seq<Event>): World {
    if evs == [] then INIT else Step(Exec(evs[..|evs| - 1]), evs[|evs| - 1])
  }

  /** entry_count is never below the number of rows; purging may leave it above. */
  ghost predicate Covered(w: World) {
    forall feed :: feed in w.counts ==> w.counts[feed] >= |RowsOf(w.entries, feed)|
  }

  ghost predicate NoOrphans(w: World) {
    forall id :: id in w.entries ==> w.entries[id].feed in w.counts
  }

  lemma NoRowsOf(w: World, feed: string)
    ensures RowsOf(w.entries, feed) == map[] <==> forall id :: id in w.entries ==> w.entries[id].feed != feed
  {
    if RowsOf(w.entries, feed) == map[] {
      forall id | id in w.entries ensures w.entries[id].feed != feed {
        assert id !in RowsOf(w.entries, feed);
      }
    }
  }

  /** Registering a feed starts its count at zero, which is right exactly when it is known already or has no rows. */
  lemma RegisterCoversIff(w: World, feed: string)
    requires Covered(w)
    ensures Covered(Step(w, Register(feed))) <==> feed in w.counts || RowsOf(w.entries, feed) == map[]
  {
    var w' := Step(w, Register(feed));
    if feed !in w.counts {
      assert feed in w'.counts && w'.counts[feed] == 0;
      assert |RowsOf(w.entries, feed)| == 0 <==> RowsOf(w.entries, feed) == map[];
    }
  }

  lemma PurgeCovers(w: World, gone: set<EntryId>)
    requires Covered(w)
    ensures Covered(Step(w, Purge(gone)))
  {
    var w' := Step(w, Purge(gone));
    forall feed | feed in w'.counts ensures w'.counts[feed] >= |RowsOf(w'.entries, feed)| {
      assert RowsOf(w'.entries, feed).Keys <= RowsOf(w.entries, feed).Keys;
      SubsetCard(RowsOf(w'.entries, feed).Keys, RowsOf(w.entries, feed).Keys);
      assert |RowsOf(w'.entries, feed)| == |RowsOf(w'.entries, feed).Keys|;
      assert |RowsOf(w.entries, feed)| == |RowsOf(w.entries, feed).Keys|;
    }
  }

  lemma {:induction false} CountsCoverRows(evs: seq<Event>)
    ensures Covered(Exec(evs)) && NoOrphans(Exec(evs)) && Filed(Exec(evs).entries)
  {
    if evs != [] {
      CountsCoverRows(evs[..|evs| - 1]);
      var w, e := Exec(evs[..|evs| - 1]), evs[|evs| - 1];
      if Enabled(w, e) {
        match e
        case Register(feed) =>
          NoRowsOf(w, feed);
          RegisterCoversIff(w, feed);
        case Replace(feed, items, maxPerFeed, now, kept, after) =>
          ReplacedMeans(w.entries, after, feed, items, maxPerFeed, now, kept);
          ReplaceCovers(w, e);
        case Purge(gone) => PurgeCovers(w, gone);
      }
    }
  }

  lemma ReplaceCovers(w: World, e: Event)
    requires Covered(w) && NoOrphans(w) && Filed(w.entries) && e.Replace? && Enabled(w, e)
    ensures Covered(Step(w, e)) && NoOrphans(Step(w, e))
  {
    ReplacedMeans(w.entries, e.after, e.feed, e.items, e.maxPerFeed, e.now, e.kept);
    forall id | id in e.after ensures e.after[id].feed in w.counts {
      if e.after[id].feed != e.feed {
        assert id in RowsOf(e.after, e.after[id].feed);
      }
    }
  }
}
