/** One feed's row and stored stories (internal/store), as the database keeps them.
    Each transaction is one atomic step with an explicit clock reading in whole
    seconds. Class StoredFeed performs the steps in place, statement by statement; the
    functions beside it say declaratively what each step does. */
module Store {
  import opened Wrappers

  type Key = string

  /** The story's stable identifier: the SHA-256 of feed ID and key, taken as injective. */
  datatype Guid = Guid(feed: string, key: Key)

  datatype Item = Item(
    guid: Guid, title: string, url: string, html: string, image: string, contentFull: string,
    published: int, firstSeen: int, lastSeen: int, lastChanged: int)

  /** A story as a refresh found it. A date the page does not give is None. */
  datatype Incoming = Incoming(
    key: Key, title: string, url: string, html: string, image: string, contentFull: string,
    published: Option<int>)

  datatype FullContent = FullContent(selector: string, attr: string)

  /** The part of a recipe that decides which stored article bodies an edit keeps. */
  datatype Recipe = Recipe(kind: string, full: Option<FullContent>, remove: seq<string>)

  /** The feeds row. A recipe the database holds but nobody can decode is None. */
  datatype Row = Row(
    id: string, version: int, failures: nat, lastSuccess: int, lastChanged: int, lastNew: int,
    title: string, url: string, interval: nat, enabled: bool, recipe: Option<Recipe>)

  datatype Run = Run(status: int, count: nat, failed: bool)

  datatype FeedState = FeedState(row: Row, items: map<Key, Item>, runs: seq<Run>)

  const MAX_RUNS := 50
  const MAX_HISTORY := 10000

  // ---------------------------------------------------------------- retention order

  /** The database's order of keys: bytes, first difference decides. */
  predicate KeyLess(a: Key, b: Key) {
    if b == "" then false
    else if a == "" then true
    else a[0] < b[0] || (a[0] == b[0] && KeyLess(a[1..], b[1..]))
  }

  /** ORDER BY published DESC, key. */
  predicate Before(items: map<Key, Item>, a: Key, b: Key)
    requires a in items && b in items
  {
    items[a].published > items[b].published
    || (items[a].published == items[b].published && KeyLess(a, b))
  }

  /** How many of the stories in `among` the order puts before `key`. */
  function Rank(items: map<Key, Item>, among: set<Key>, key: Key): nat
    requires among <= items.Keys && key in items
  {
    |set k | k in among && Before(items, k, key)|
  }

  /** The first `limit` stories of `among`: those with fewer than `limit` before them. */
  function Newest(items: map<Key, Item>, among: set<Key>, limit: nat): set<Key>
    requires among <= items.Keys
  {
    set k | k in among && Rank(items, among, k) < limit
  }

  lemma {:induction false} KeyLessTotal(a: Key, b: Key)
    ensures KeyLess(a, b) || a == b || KeyLess(b, a)
    ensures !(KeyLess(a, b) && KeyLess(b, a))
    ensures !KeyLess(a, a)
    decreases |a|
  {
    if a != "" {
      KeyLessTotal(a[1..], a[1..]);
      if b != "" {
        KeyLessTotal(a[1..], b[1..]);
        assert a == [a[0]] + a[1..] && b == [b[0]] + b[1..];
      }
    }
  }

  lemma {:induction false} KeyLessTransitive(a: Key, b: Key, c: Key)
    requires KeyLess(a, b) && KeyLess(b, c)
    ensures KeyLess(a, c)
    decreases |a|
  {
    if a != "" && a[0] == b[0] == c[0] {
      KeyLessTransitive(a[1..], b[1..], c[1..]);
    }
  }

  lemma BeforeTransitive(items: map<Key, Item>, a: Key, b: Key, c: Key)
    requires a in items && b in items && c in items
    requires Before(items, a, b) && Before(items, b, c)
    ensures Before(items, a, c)
  {
    if KeyLess(a, b) && KeyLess(b, c) { KeyLessTransitive(a, b, c); }
  }

  /** Every non-empty set of stories has a last one. */
  lemma {:induction false} LastExists(items: map<Key, Item>, among: set<Key>) returns (last: Key)
    requires among <= items.Keys && among != {}
    ensures last in among && forall k | k in among && k != last :: Before(items, k, last)
    decreases |among|
  {
    var pick :| pick in among;
    last := pick;
    if among != {pick} {
      var rest := LastExists(items, among - {pick});
      KeyLessTotal(pick, rest);
      if Before(items, pick, rest) {
        last := rest;
      } else {
        forall k | k in among && k != pick ensures Before(items, k, pick) {
          if k != rest { BeforeTransitive(items, k, rest, pick); }
        }
      }
    }
  }

  /** Retention keeps exactly as many stories as there are, up to the limit. */
  lemma {:induction false} NewestSize(items: map<Key, Item>, among: set<Key>, limit: nat)
    requires among <= items.Keys
    ensures |Newest(items, among, limit)| == Min(limit, |among|)
    decreases |among|
  {
    if among == {} {
      assert Newest(items, among, limit) == {};
    } else {
      var last := LastExists(items, among);
      var rest := among - {last};
      NewestSize(items, rest, limit);
      KeyLessTotal(last, last);
      assert (set k | k in among && Before(items, k, last)) == rest;
      forall k | k in rest ensures Rank(items, among, k) == Rank(items, rest, k) {
        KeyLessTotal(k, last);
        assert (set j | j in among && Before(items, j, k)) == (set j | j in rest && Before(items, j, k));
      }
      assert |among| == |rest| + 1;
      if |rest| < limit {
        assert Newest(items, among, limit) == Newest(items, rest, limit) + {last};
      } else {
        assert Newest(items, among, limit) == Newest(items, rest, limit);
      }
    }
  }

  // ---------------------------------------------------------------- merging a refresh

  /** A refresh ready to be saved: the row's version and failures as the refresh read
      them, and what it found. */
  datatype Refresh = Refresh(version: int, failures: nat, failed: bool, status: int, items: seq<Incoming>)

  datatype Outcome = Stored | Stale

  predicate Differs(o: Item, it: Incoming) {
    || o.title != it.title || o.url != it.url || o.html != it.html || o.image != it.image
    || (it.contentFull != "" && it.contentFull != o.contentFull)
  }

  /** INSERT ... ON CONFLICT DO UPDATE for one story. */
  function Upsert(feed: string, prior: Option<Item>, it: Incoming, now: int, changedAt: int): Item {
    match prior
    case None =>
      Item(Guid(feed, it.key), it.title, it.url, it.html, it.image, it.contentFull,
           if it.published.Some? then it.published.value else now, now, now, changedAt)
    case Some(o) =>
      o.(title := it.title, url := it.url, html := it.html, image := it.image,
         contentFull := if it.contentFull == "" then o.contentFull else it.contentFull,
         lastSeen := now,
         lastChanged := if Differs(o, it) then changedAt
                        else if o.lastChanged == 0 then o.lastSeen else o.lastChanged)
  }

  function Lookup(items: map<Key, Item>, key: Key): Option<Item> {
    if key in items then Some(items[key]) else None
  }

  function Keys(incoming: seq<Incoming>): set<Key> {
    set it | it in incoming :: it.key
  }

  /** The rows after every incoming story has been merged, in order. */
  function Merged(feed: string, items: map<Key, Item>, incoming: seq<Incoming>, now: int,
                  changedAt: int): map<Key, Item> {
    if incoming == [] then items
    else
      var n := |incoming| - 1;
      var before := Merged(feed, items, incoming[..n], now, changedAt);
      var it := incoming[n];
      before[it.key := Upsert(feed, Lookup(before, it.key), it, now, changedAt)]
  }

  /** The time a change of output takes: now, but always past the previous one. */
  function ChangedAt(row: Row, now: int): int { Max(now, row.lastChanged + 1) }

  /** Stories this merge inserted or changed. */
  ghost function Touched(merged: map<Key, Item>, incoming: seq<Incoming>, changedAt: int): set<Key> {
    set k | k in Keys(incoming) && k in merged && merged[k].lastChanged == changedAt
  }

  /** Whether a merge counts as a change of output: retention kept a touched story, or
      removed one that the merge did not seem to have inserted. */
  ghost predicate CountsAsChange(merged: map<Key, Item>, touched: set<Key>, kept: set<Key>, now: int)
    requires kept <= merged.Keys && touched <= merged.Keys
  {
    || (exists k :: k in kept && k in touched)
    || (exists k :: k in merged.Keys - kept && !(k in touched && merged[k].firstSeen == now))
  }

  ghost predicate KeepsNew(merged: map<Key, Item>, touched: set<Key>, kept: set<Key>, now: int)
    requires kept <= merged.Keys && touched <= merged.Keys
  {
    exists k :: k in kept && k in touched && merged[k].firstSeen == now
  }

  function Restrict(items: map<Key, Item>, keys: set<Key>): map<Key, Item> {
    map k | k in items && k in keys :: items[k]
  }

  function Recorded(runs: seq<Run>, run: Run): (r: seq<Run>) {
    var all := runs + [run];
    all[Max(0, |all| - MAX_RUNS)..]
  }

  /** What a stored success leaves behind. */
  ghost function Succeeded(s: FeedState, incoming: seq<Incoming>, limit: nat, now: int): FeedState {
    var changedAt := ChangedAt(s.row, now);
    var merged := Merged(s.row.id, s.items, incoming, now, changedAt);
    var touched := Touched(merged, incoming, changedAt);
    var kept := Newest(merged, merged.Keys, limit);
    var changed := CountsAsChange(merged, touched, kept, now) || s.row.lastChanged == 0;
    s.(items := Restrict(merged, kept),
       row := s.row.(lastSuccess := now, failures := 0,
                     lastChanged := if changed then changedAt else s.row.lastChanged,
                     lastNew := if KeepsNew(merged, touched, kept, now) then now else s.row.lastNew))
  }

  /** CompleteWithDiagnostics as one transaction. */
  ghost function Completed(s: FeedState, run: Refresh, limit: nat, now: int): FeedState {
    if run.version != s.row.version then s
    else
      var after := if run.failed then s.(row := s.row.(failures := run.failures + 1))
                   else Succeeded(s, run.items, limit, now);
      after.(runs := Recorded(s.runs, Run(run.status, |run.items|, run.failed)))
  }

  // ---------------------------------------------------------------- edits

  /** The modification time after an edit that changes output. */
  function Bump(lastChanged: int, now: int): int {
    if lastChanged >= now then lastChanged + 1 else now
  }

  datatype BodyClear = KeepBodies | ClearListedBodies | ClearAllBodies

  /** Which stored article bodies an edit of the recipe discards. */
  function ArticleBodiesChanged(stored: Option<Recipe>, edited: Recipe): BodyClear {
    match stored
    case None => ClearAllBodies
    case Some(was) =>
      if was.full.None? || edited.full.None? then
        if was.full.None? != edited.full.None? then ClearAllBodies else KeepBodies
      else if was.full.value != edited.full.value then ClearAllBodies
      else if edited.full.value.attr == ""
              && (was.remove != edited.remove || (edited.remove != [] && was.kind != edited.kind))
      then ClearListedBodies
      else KeepBodies
  }

  /** The story count of the newest successful run that read the page, if one is kept. */
  function LatestPageRun(runs: seq<Run>): Option<nat> {
    if runs == [] then None
    else
      var last := runs[|runs| - 1];
      if last.status != 304 && !last.failed then Some(last.count)
      else LatestPageRun(runs[..|runs| - 1])
  }

  /** Stories whose body an edit discards: those with one and, when only listed stories
      lose theirs, with the newest last_seen of all. */
  ghost function ClearTargets(s: FeedState, listedOnly: bool): set<Key> {
    if listedOnly && LatestPageRun(s.runs) == Some(0) then {}
    else
      set k | k in s.items && s.items[k].contentFull != ""
              && (listedOnly ==> forall j :: j in s.items ==> s.items[j].lastSeen <= s.items[k].lastSeen)
  }

  ghost function Cleared(s: FeedState, listedOnly: bool, now: int): FeedState {
    var targets := ClearTargets(s, listedOnly);
    var changedAt := Bump(s.row.lastChanged, now);
    if targets == {} then s
    else
      s.(items := map k | k in s.items ::
           if k in targets then s.items[k].(contentFull := "", lastChanged := changedAt) else s.items[k],
         row := s.row.(lastChanged := changedAt))
  }

  /** Removing stored stories the rules reject. */
  ghost function Pruned(s: FeedState, matches: Item -> bool, now: int): FeedState {
    var removed := set k | k in s.items && !matches(s.items[k]);
    if removed == {} then s
    else s.(items := s.items - removed, row := s.row.(lastChanged := Bump(s.row.lastChanged, now)))
  }

  /** An editor save. `history` is the matcher when saved stories must satisfy the rules
      too, and None when pruning was not asked for or there are no rules. */
  datatype Edit = Edit(
    title: string, url: string, interval: nat, recipe: Recipe, enabled: bool, keepEnabled: bool,
    history: Option<Item -> bool>)

  /** The UPDATE of the feeds row. */
  function EditedRow(row: Row, e: Edit, now: int): Row {
    var shown := row.title != e.title || row.url != e.url || row.interval / 60 != e.interval / 60;
    row.(lastChanged := if shown then Bump(row.lastChanged, now) else row.lastChanged,
         title := e.title, url := e.url, interval := e.interval, recipe := Some(e.recipe),
         enabled := if e.keepEnabled then row.enabled else e.enabled,
         failures := 0, version := row.version + 1)
  }

  /** The row and bodies after an editor save, before history is pruned. */
  ghost function EditedBodies(s: FeedState, e: Edit, now: int): FeedState {
    var clear := ArticleBodiesChanged(s.row.recipe, e.recipe);
    var saved := s.(row := EditedRow(s.row, e, now));
    if clear == KeepBodies then saved else Cleared(saved, clear == ClearListedBodies, now)
  }

  /** SaveWithOptions on a stored feed; a history too long to prune rolls everything back. */
  ghost function Edited(s: FeedState, e: Edit, now: int): FeedState {
    if e.history.None? then EditedBodies(s, e, now)
    else if |s.items| > MAX_HISTORY then s
    else Pruned(EditedBodies(s, e, now), e.history.value, now)
  }

  /** SaveFilter, for one feed that uses the edited library filter. */
  ghost function FilterEdited(s: FeedState, history: Option<Item -> bool>, now: int): FeedState {
    if history.Some? && |s.items| > MAX_HISTORY then s
    else
      var bumped := s.(row := s.row.(version := s.row.version + 1));
      if history.None? then bumped else Pruned(bumped, history.value, now)
  }

  // ---------------------------------------------------------------- facts about one merge

  /** A merge decides each story on its own: the order of distinct stories is irrelevant,
      and stories the refresh did not list keep their row. */
  lemma {:induction false} MergedAt(feed: string, items: map<Key, Item>, incoming: seq<Incoming>, now: int,
                                    changedAt: int, key: Key)
    requires forall i, j :: 0 <= i < j < |incoming| ==> incoming[i].key != incoming[j].key
    ensures var merged := Merged(feed, items, incoming, now, changedAt);
      && merged.Keys == items.Keys + Keys(incoming)
      && (key in items && key !in Keys(incoming) ==> merged[key] == items[key])
      && forall it :: it in incoming && it.key == key ==>
          merged[key] == Upsert(feed, Lookup(items, key), it, now, changedAt)
    decreases |incoming|
  {
    if incoming != [] {
      var n := |incoming| - 1;
      var front, last := incoming[..n], incoming[n];
      assert incoming == front + [last];
      MergedAt(feed, items, front, now, changedAt, key);
      MergedAt(feed, items, front, now, changedAt, last.key);
      assert Keys(incoming) == Keys(front) + {last.key};
      assert last.key !in Keys(front);
    }
  }
}
