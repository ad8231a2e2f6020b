/** What readers are served (internal/feed, internal/web/web.go) and why answering from
    last_changed alone is safe: over any history of writes, two moments of a feed with
    the same last_changed publish the same output. */
module ReaderOutput {
  import opened Wrappers
  import opened Store

  // ---------------------------------------------------------------- the published view

  /** Unix seconds of 0001-01-01 (Go's zero time) and of the last second of year 9999. */
  const ZERO_TIME := -62135596800
  const END_OF_9999 := 253402300799

  /** The first usable date among candidates, as atomDate picks it; stored 0 is no date. */
  function AtomDate(candidates: seq<int>): int {
    if candidates == [] then 0
    else if candidates[0] != 0 && ZERO_TIME < candidates[0] <= END_OF_9999 then candidates[0]
    else AtomDate(candidates[1..])
  }

  /** Everything Render and RenderAtom read of one story. */
  datatype Entry = Entry(
    guid: Guid, title: string, url: string, html: string, image: string, contentFull: string,
    published: int, atomPublished: int, atomUpdated: int)

  /** Everything Render and RenderAtom read of a feed besides its ID and reader token. The
      order of entries is a function of the map: published descending, then key. */
  datatype View = View(title: string, url: string, ttl: nat, changed: int, entries: map<Key, Entry>)

  function FeedChanged(row: Row): int { if row.lastChanged != 0 then row.lastChanged else row.lastSuccess }

  function Rendered(it: Item, feedChanged: int): Entry {
    var published := AtomDate([it.published, it.firstSeen, it.lastSeen, feedChanged]);
    var updated := AtomDate([it.lastChanged, it.lastSeen, it.firstSeen, it.published, feedChanged]);
    Entry(it.guid, it.title, it.url, it.html, it.image, it.contentFull, it.published, published,
          Max(published, updated))
  }

  function Published(s: FeedState): View {
    View(s.row.title, s.row.url, s.row.interval / 60, FeedChanged(s.row),
         map k | k in s.items :: Rendered(s.items[k], FeedChanged(s.row)))
  }

  datatype Response = Pending | NotModified | Full(lastModified: int, view: View)

  /** The handler's answer to a request without If-None-Match. */
  function Answer(s: FeedState, ifModifiedSince: Option<int>): Response {
    if s.row.lastSuccess == 0 then Pending
    else
      var modified := FeedChanged(s.row);
      if ifModifiedSince.Some? && modified <= ifModifiedSince.value then NotModified
      else Full(modified, Published(s))
  }

  // ---------------------------------------------------------------- the exact change flag

  /** The published fields of one stored story. */
  datatype Story = Story(guid: Guid, title: string, url: string, html: string, image: string, contentFull: string,
                         published: int)

  function StoryOf(it: Item): Story {
    Story(it.guid, it.title, it.url, it.html, it.image, it.contentFull, it.published)
  }

  function Stories(items: map<Key, Item>): map<Key, Story> {
    map k | k in items :: StoryOf(items[k])
  }

  /** When a story's output last changed; a row older than schema 5 uses last_seen. */
  function Effective(it: Item): int { if it.lastChanged == 0 then it.lastSeen else it.lastChanged }

  /** No story claims a change later than its feed's. */
  ghost predicate Dated(s: FeedState, now: int) {
    && 0 <= s.row.lastChanged
    && (s.row.lastSuccess != 0 ==> 0 < s.row.lastChanged)
    && s.row.lastNew <= now
    && forall k :: k in s.items ==> ItemDated(s.row, s.items[k], now)
  }

  predicate ItemDated(row: Row, it: Item, now: int) {
    && 0 < it.firstSeen <= it.lastSeen && it.firstSeen <= Effective(it) <= row.lastChanged
    && it.firstSeen <= row.lastNew && it.firstSeen <= now
  }

  /** Retention had room for everything stored, or it drops some story not first stored
      this very second. False only when MAX_ITEMS was lowered and every story now over the
      limit was first stored within the current second. */
  ghost predicate Tellable(s: FeedState, limit: nat, now: int) {
    || |s.items| <= limit
    || exists k :: k in s.items && k !in Newest(s.items, s.items.Keys, limit) && s.items[k].firstSeen != now
  }

  ghost predicate Distinct(incoming: seq<Incoming>) {
    forall i, j :: 0 <= i < j < |incoming| ==> incoming[i].key != incoming[j].key
  }

  /** The result of merging, before retention, seen from one story. */
  lemma MergedStory(s: FeedState, incoming: seq<Incoming>, now: int, key: Key)
    requires Distinct(incoming) && 0 < now && Dated(s, now)
    ensures var changedAt := ChangedAt(s.row, now);
      var merged := Merged(s.row.id, s.items, incoming, now, changedAt);
      && merged.Keys == s.items.Keys + Keys(incoming)
      && (key in merged && key !in s.items ==>
            key in Touched(merged, incoming, changedAt) && merged[key].firstSeen == now)
      && (key in s.items ==>
            && merged[key].guid == s.items[key].guid
            && merged[key].published == s.items[key].published
            && merged[key].firstSeen == s.items[key].firstSeen
            && (key in Touched(merged, incoming, changedAt) <==> StoryOf(merged[key]) != StoryOf(s.items[key]))
            && (key !in Touched(merged, incoming, changedAt) ==> Effective(merged[key]) == Effective(s.items[key]))
            && (s.items[key].contentFull != "" ==> merged[key].contentFull != ""))
      && (key in merged ==> ItemDated(s.row.(lastChanged := changedAt, lastNew := now), merged[key], now))
      && (key in merged && key !in Touched(merged, incoming, changedAt) ==> ItemDated(s.row, merged[key], now))
  {
    var changedAt := ChangedAt(s.row, now);
    MergedAt(s.row.id, s.items, incoming, now, changedAt, key);
    if key in Keys(incoming) {
      var it :| it in incoming && it.key == key;
      assert Merged(s.row.id, s.items, incoming, now, changedAt)[key]
          == Upsert(s.row.id, Lookup(s.items, key), it, now, changedAt);
    }
  }

  /** When retention drops a story the feed had, though there was room for all of those,
      it keeps a story the feed did not have. */
  lemma RoomImpliesNewStory(s: FeedState, merged: map<Key, Item>, limit: nat, dropped: Key)
    requires s.items.Keys <= merged.Keys && |s.items| <= limit
    requires dropped in s.items && dropped !in Newest(merged, merged.Keys, limit)
    ensures exists k :: k in Newest(merged, merged.Keys, limit) && k !in s.items
  {
    var kept := Newest(merged, merged.Keys, limit);
    NewestSize(merged, merged.Keys, limit);
    SubsetSize(kept, merged.Keys - {dropped});
    assert |s.items.Keys| == |s.items|;
    if kept <= s.items.Keys {
      SubsetSize(kept, s.items.Keys - {dropped});
      assert false;
    }
  }

  /** A story already over the limit stays over it: merging moves no published date. */
  lemma StaysOverLimit(items: map<Key, Item>, merged: map<Key, Item>, limit: nat, key: Key)
    requires items.Keys <= merged.Keys && forall k :: k in items ==> merged[k].published == items[k].published
    requires key in items && key !in Newest(items, items.Keys, limit)
    ensures key !in Newest(merged, merged.Keys, limit)
  {
    SubsetSize(set k | k in items.Keys && Before(items, k, key), set k | k in merged.Keys && Before(merged, k, key));
  }

  /** What the merge and retention establish about one stored or merged story. */
  ghost predicate MergeFacts(items: map<Key, Item>, merged: map<Key, Item>, touched: set<Key>, now: int, k: Key) {
    && (k in items ==> k in merged)
    && (k in merged && k !in items ==> k in touched && merged[k].firstSeen == now)
    && (k in merged && k in items ==> (k in touched <==> StoryOf(merged[k]) != StoryOf(items[k])))
  }

  lemma CountsAsChangeIsDifference(items: map<Key, Item>, merged: map<Key, Item>, touched: set<Key>, kept: set<Key>,
                                   now: int)
    requires kept <= merged.Keys && touched <= merged.Keys
    requires forall k :: MergeFacts(items, merged, touched, now, k)
    requires || items.Keys <= kept
             || (exists j :: j in kept && j !in items)
             || (exists j :: j in items && j in merged && j !in kept && merged[j].firstSeen != now)
    ensures CountsAsChange(merged, touched, kept, now) <==> Stories(Restrict(merged, kept)) != Stories(items)
  {
    var before, after := Stories(items), Stories(Restrict(merged, kept));
    assert after.Keys == kept && before.Keys == items.Keys;
    if CountsAsChange(merged, touched, kept, now) {
      var k :| k in merged && if k in kept then k in touched else !(k in touched && merged[k].firstSeen == now);
      assert MergeFacts(items, merged, touched, now, k);
      if k in kept && k in items {
        assert after[k] == StoryOf(merged[k]) && before[k] == StoryOf(items[k]);
      } else {
        assert k in after.Keys <==> k !in before.Keys;
      }
    } else {
      forall k | k in kept ensures k in items && after[k] == before[k] {
        assert MergeFacts(items, merged, touched, now, k);
      }
      assert after == before;
    }
  }

  /** The rows a refresh merges into, the stories it touched and those it keeps. */
  ghost function MergedBy(s: FeedState, incoming: seq<Incoming>, now: int): map<Key, Item> {
    Merged(s.row.id, s.items, incoming, now, ChangedAt(s.row, now))
  }

  ghost predicate ReportsChange(s: FeedState, incoming: seq<Incoming>, limit: nat, now: int) {
    var merged := MergedBy(s, incoming, now);
    CountsAsChange(merged, Touched(merged, incoming, ChangedAt(s.row, now)), Newest(merged, merged.Keys, limit), now)
  }

  /** A refresh reports a change of output exactly when the stored stories differ. */
  lemma ChangedFlagIsExact(s: FeedState, incoming: seq<Incoming>, limit: nat, now: int)
    requires Distinct(incoming) && 0 < now && Dated(s, now) && Tellable(s, limit, now)
    ensures ReportsChange(s, incoming, limit, now)
            <==> Stories(Succeeded(s, incoming, limit, now).items) != Stories(s.items)
  {
    var merged := MergedBy(s, incoming, now);
    var touched := Touched(merged, incoming, ChangedAt(s.row, now));
    var kept := Newest(merged, merged.Keys, limit);
    forall k
      ensures MergeFacts(s.items, merged, touched, now, k)
      ensures k in s.items ==>
        merged[k].published == s.items[k].published && merged[k].firstSeen == s.items[k].firstSeen
    {
      MergedStory(s, incoming, now, k);
    }
    if |s.items| <= limit {
      if k :| k in s.items && k !in kept { RoomImpliesNewStory(s, merged, limit, k); }
    } else {
      var k :| k in s.items && k !in Newest(s.items, s.items.Keys, limit) && s.items[k].firstSeen != now;
      StaysOverLimit(s.items, merged, limit, k);
    }
    CountsAsChangeIsDifference(s.items, merged, touched, kept, now);
  }

  // ---------------------------------------------------------------- where the flag fails

  lemma PrependIncoming(it: Incoming, rest: seq<Incoming>)
    requires Distinct(rest) && it.key !in Keys(rest)
    ensures Keys([it] + rest) == {it.key} + Keys(rest)
    ensures Distinct([it] + rest)
  {
    var all := [it] + rest;
    assert all[0] == it && all[1..] == rest;
    forall k ensures k in Keys(all) <==> k in {it.key} + Keys(rest) {
      if k in Keys(rest) {
        var j :| j in rest && j.key == k;
        assert j in all;
      }
      if k == it.key { assert it in all; }
    }
    forall i, j | 0 <= i < j < |all| ensures all[i].key != all[j].key {
      assert all[j] == rest[j - 1] && rest[j - 1].key in Keys(rest);
      if i > 0 { assert all[i] == rest[i - 1]; }
    }
  }

  ghost function Retitle(key: Key, title: string): Incoming { Incoming(key, title + "!", "", "", "", "", None) }

  /** A listing of stories whose titles the source just changed. */
  ghost function Retitled(items: map<Key, Item>, keys: set<Key>): seq<Incoming>
    requires keys <= items.Keys
    decreases |keys|
  {
    if keys == {} then []
    else
      var k :| k in keys;
      [Retitle(k, items[k].title)] + Retitled(items, keys - {k})
  }

  lemma {:induction false} RetitledKeys(items: map<Key, Item>, keys: set<Key>)
    requires keys <= items.Keys
    ensures Keys(Retitled(items, keys)) == keys && Distinct(Retitled(items, keys))
    ensures forall it :: it in Retitled(items, keys) ==> it.key in items && it.title == items[it.key].title + "!"
    decreases |keys|
  {
    if keys != {} {
      var incoming := Retitled(items, keys);
      var k := incoming[0].key;
      assert k in keys && incoming == [Retitle(k, items[k].title)] + Retitled(items, keys - {k});
      RetitledKeys(items, keys - {k});
      PrependIncoming(incoming[0], Retitled(items, keys - {k}));
    }
  }

  /** Merging retitled stories touches exactly those, and moves no published date. */
  lemma RetitledMerge(s: FeedState, over: set<Key>, now: int, k: Key)
    requires 0 < now && Dated(s, now) && over <= s.items.Keys && k in s.items
    ensures var merged := MergedBy(s, Retitled(s.items, over), now);
      && merged.Keys == s.items.Keys
      && merged[k].published == s.items[k].published && merged[k].firstSeen == s.items[k].firstSeen
      && (k in over <==> k in Touched(merged, Retitled(s.items, over), ChangedAt(s.row, now)))
  {
    var incoming := Retitled(s.items, over);
    RetitledKeys(s.items, over);
    MergedStory(s, incoming, now, k);
    MergedAt(s.row.id, s.items, incoming, now, ChangedAt(s.row, now), k);
    if k in over {
      var it :| it in incoming && it.key == k;
    }
  }

  lemma SameOrder(items: map<Key, Item>, merged: map<Key, Item>, limit: nat)
    requires items.Keys == merged.Keys && forall k :: k in items ==> merged[k].published == items[k].published
    ensures Newest(merged, merged.Keys, limit) == Newest(items, items.Keys, limit)
  {
    forall k | k in items ensures Rank(merged, merged.Keys, k) == Rank(items, items.Keys, k) {
      assert (set j | j in merged.Keys && Before(merged, j, k)) == (set j | j in items.Keys && Before(items, j, k));
    }
  }

  /** Retitling every story over the limit, all first stored this second, looks like
      inserting and removing them again. */
  lemma RetitledUnreported(s: FeedState, limit: nat, now: int)
    requires 0 < now && Dated(s, now)
    requires forall k :: k in s.items && k !in Newest(s.items, s.items.Keys, limit) ==> s.items[k].firstSeen == now
    ensures var incoming := Retitled(s.items, s.items.Keys - Newest(s.items, s.items.Keys, limit));
      && !ReportsChange(s, incoming, limit, now)
      && Succeeded(s, incoming, limit, now).items.Keys == Newest(s.items, s.items.Keys, limit)
  {
    var kept := Newest(s.items, s.items.Keys, limit);
    var incoming := Retitled(s.items, s.items.Keys - kept);
    var merged := MergedBy(s, incoming, now);
    RetitledMerges(s, s.items.Keys - kept, now);
    SameOrder(s.items, merged, limit);
    InsertedAndRemoved(merged, Touched(merged, incoming, ChangedAt(s.row, now)), kept, now);
  }

  lemma RetitledMerges(s: FeedState, over: set<Key>, now: int)
    requires 0 < now && Dated(s, now) && over <= s.items.Keys
    ensures var merged := MergedBy(s, Retitled(s.items, over), now);
      && merged.Keys == s.items.Keys
      && (forall k | k in s.items ::
          merged[k].published == s.items[k].published && merged[k].firstSeen == s.items[k].firstSeen)
      && forall k | k in s.items :: k in over <==> k in Touched(merged, Retitled(s.items, over), ChangedAt(s.row, now))
  {
    var incoming := Retitled(s.items, over);
    var merged := MergedBy(s, incoming, now);
    RetitledKeys(s.items, over);
    MergedStory(s, incoming, now, "");
    forall k | k in s.items
      ensures merged[k].published == s.items[k].published && merged[k].firstSeen == s.items[k].firstSeen
      ensures k in over <==> k in Touched(merged, incoming, ChangedAt(s.row, now))
    {
      RetitledMerge(s, over, now, k);
    }
  }

  lemma InsertedAndRemoved(merged: map<Key, Item>, touched: set<Key>, kept: set<Key>, now: int)
    requires kept <= merged.Keys && touched <= merged.Keys
    requires forall k | k in merged :: (k in touched <==> k !in kept) && (k in touched ==> merged[k].firstSeen == now)
    ensures !CountsAsChange(merged, touched, kept, now)
  {
  }

  /** The condition is exact: whenever it fails, some refresh removes published stories
      and reports no change. */
  lemma TellableIsNecessary(s: FeedState, limit: nat, now: int) returns (incoming: seq<Incoming>)
    requires 0 < now && Dated(s, now) && !Tellable(s, limit, now)
    ensures Distinct(incoming)
    ensures !ReportsChange(s, incoming, limit, now)
    ensures Stories(Succeeded(s, incoming, limit, now).items) != Stories(s.items)
  {
    var kept := Newest(s.items, s.items.Keys, limit);
    incoming := Retitled(s.items, s.items.Keys - kept);
    RetitledKeys(s.items, s.items.Keys - kept);
    RetitledUnreported(s, limit, now);
    NewestSize(s.items, s.items.Keys, limit);
    assert |kept| < |s.items| == |s.items.Keys|;
    assert Stories(Succeeded(s, incoming, limit, now).items).Keys == kept;
    assert Stories(s.items).Keys == s.items.Keys;
  }
}
