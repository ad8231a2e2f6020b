/** What each write leaves in the database, field by field, in the terms of whoever asked
    for it: what a refresh found, what an editor typed and which stories the rules keep. */
module WriteEffects {
  import opened Wrappers
  import opened Store
  import opened ReaderOutput
  import opened History

  // ---------------------------------------------------------------- the order of keys

  predicate FirstDifference(a: Key, b: Key, n: nat) {
    n <= |a| && n < |b| && a[..n] == b[..n] && (n == |a| || a[n] < b[n])
  }

  /** Keys are ordered by their first difference; a prefix comes first. */
  lemma {:induction false} KeyLessMeans(a: Key, b: Key)
    ensures KeyLess(a, b) <==> exists n: nat :: FirstDifference(a, b, n)
    decreases |a|
  {
    if b == "" {
    } else if a == "" {
      assert FirstDifference(a, b, 0);
    } else {
      KeyLessMeans(a[1..], b[1..]);
      if KeyLess(a, b) {
        if a[0] < b[0] {
          assert FirstDifference(a, b, 0);
        } else {
          var n: nat :| FirstDifference(a[1..], b[1..], n);
          assert a[..n + 1] == [a[0]] + a[1..][..n] && b[..n + 1] == [b[0]] + b[1..][..n];
          assert FirstDifference(a, b, n + 1);
        }
      }
      if n: nat :| FirstDifference(a, b, n) {
        if n > 0 {
          assert a[0] == a[..n][0] == b[..n][0] == b[0];
          assert a[1..][..n - 1] == a[..n][1..] && b[1..][..n - 1] == b[..n][1..];
          assert FirstDifference(a[1..], b[1..], n - 1);
        }
      }
    }
  }

  // ---------------------------------------------------------------- a stored refresh

  /** Retention drops no story with a later date than one it keeps; among equal dates the
      first keys stay. */
  lemma LaterDatesAreKept(s: FeedState, incoming: seq<Incoming>, limit: nat, now: int, kept: Key, dropped: Key)
    requires Dated(s, now) && Distinct(incoming) && 0 < now
    requires kept in Succeeded(s, incoming, limit, now).items
    requires dropped in MergedBy(s, incoming, now) && dropped !in Succeeded(s, incoming, limit, now).items
    ensures var merged := MergedBy(s, incoming, now);
      && kept in merged && merged[kept].published >= merged[dropped].published
      && (merged[kept].published == merged[dropped].published ==> KeyLess(kept, dropped))
  {
    var merged := MergedBy(s, incoming, now);
    assert Succeeded(s, incoming, limit, now).items.Keys == Newest(merged, merged.Keys, limit);
    KeptBeforeDropped(merged, limit, kept, dropped);
  }

  /** A listed story that is kept holds what the refresh found. A new one takes the date
      found, or now if there is none, and is first seen now; one stored before keeps date,
      identity and first sight, and its body when the refresh found none. */
  lemma StoredAsFound(s: FeedState, incoming: seq<Incoming>, limit: nat, now: int, i: nat)
    requires Dated(s, now) && Distinct(incoming) && 0 < now && i < |incoming|
    requires incoming[i].key in Succeeded(s, incoming, limit, now).items
    ensures var it, row := incoming[i], Succeeded(s, incoming, limit, now).items[incoming[i].key];
      && row.title == it.title && row.url == it.url && row.html == it.html && row.image == it.image
      && row.lastSeen == now
      && (it.key !in s.items ==>
            && row.contentFull == it.contentFull
            && row.published == (match it.published case None => now case Some(date) => date)
            && row.firstSeen == now && row.guid == Guid(s.row.id, it.key))
      && (it.key in s.items ==>
            var was := s.items[it.key];
            && row.contentFull == (if it.contentFull != "" then it.contentFull else was.contentFull)
            && row.published == was.published && row.firstSeen == was.firstSeen && row.guid == was.guid)
  {
    assert incoming[i] in incoming;
    MergedAt(s.row.id, s.items, incoming, now, ChangedAt(s.row, now), incoming[i].key);
  }

  /** A story the refresh did not list keeps its row while it is kept at all. */
  lemma UnlistedStays(s: FeedState, incoming: seq<Incoming>, limit: nat, now: int, k: Key)
    requires Distinct(incoming) && k !in Keys(incoming) && k in Succeeded(s, incoming, limit, now).items
    ensures k in s.items && Succeeded(s, incoming, limit, now).items[k] == s.items[k]
  {
    MergedAt(s.row.id, s.items, incoming, now, ChangedAt(s.row, now), k);
  }

  lemma NewIsTouched(s: FeedState, incoming: seq<Incoming>, now: int, k: Key)
    requires Distinct(incoming) && k in MergedBy(s, incoming, now) && k !in s.items
    ensures k in Touched(MergedBy(s, incoming, now), incoming, ChangedAt(s.row, now))
    ensures MergedBy(s, incoming, now)[k].firstSeen == now
  {
    MergedAt(s.row.id, s.items, incoming, now, ChangedAt(s.row, now), k);
  }

  /** The time of the last new story moves to now exactly when the refresh leaves a story
      that was not stored before. */
  lemma LastNewMeans(s: FeedState, incoming: seq<Incoming>, limit: nat, now: int)
    requires Dated(s, now) && Distinct(incoming) && 0 < now
    ensures var after := Succeeded(s, incoming, limit, now);
      after.row.lastNew == if exists k :: k in after.items && k !in s.items then now else s.row.lastNew
  {
    var merged := MergedBy(s, incoming, now);
    var touched := Touched(merged, incoming, ChangedAt(s.row, now));
    var kept := Newest(merged, merged.Keys, limit);
    var after := Succeeded(s, incoming, limit, now);
    assert after.items == Restrict(merged, kept);
    if k :| k in after.items && k !in s.items {
      NewIsTouched(s, incoming, now, k);
      assert KeepsNew(merged, touched, kept, now);
    } else if KeepsNew(merged, touched, kept, now) {
      var k :| k in kept && k in touched && merged[k].firstSeen == now;
      assert k in after.items;
      MergedAt(s.row.id, s.items, incoming, now, ChangedAt(s.row, now), k);
      assert ItemDated(s.row, s.items[k], now);
    }
  }

  /** The last fifty runs are kept, the newest at the end. */
  lemma RecordedMeans(runs: seq<Run>, run: Run)
    requires |runs| <= 50
    ensures var after := Recorded(runs, run);
      && |after| == Min(50, |runs| + 1) && after[|after| - 1] == run
      && after[..|after| - 1] == runs[|runs| + 1 - |after|..]
  {
    assert (runs + [run])[..|runs|] == runs;
  }

  /** What a refresh does to the feed's row and to its runs; a stale one does nothing at all,
      and a failed one counts from the failures it read and leaves the stories alone. */
  lemma CompletedRow(s: FeedState, run: Refresh, limit: nat, now: int)
    ensures var after := Completed(s, run, limit, now);
      && (run.version != s.row.version ==> after == s)
      && (run.version == s.row.version ==>
            && after.runs == Recorded(s.runs, Run(run.status, |run.items|, run.failed))
            && (run.failed ==> after.items == s.items && after.row == s.row.(failures := run.failures + 1))
            && (!run.failed ==>
                  && after.row == s.row.(failures := 0, lastSuccess := now,
                                         lastChanged := after.row.lastChanged, lastNew := after.row.lastNew)
                  && after.row.lastChanged in {s.row.lastChanged, Max(now, s.row.lastChanged + 1)}))
  {
  }

  // ---------------------------------------------------------------- edits

  /** What is left of the stories when the rules are applied to those already stored. */
  ghost predicate OnlyMatching(before: map<Key, Item>, after: map<Key, Item>, matches: Item -> bool) {
    forall k :: && (k in after <==> k in before && matches(before[k]))
                && (k in after ==> after[k] == before[k])
  }

  lemma PrunedMeans(s: FeedState, matches: Item -> bool, now: int)
    ensures var after := Pruned(s, matches, now);
      OnlyMatching(s.items, after.items, matches) && after.runs == s.runs
      && after.row == s.row.(lastChanged := after.row.lastChanged)
  {
    var removed := set k | k in s.items && !matches(s.items[k]);
    forall k | k in s.items ensures k in removed <==> !matches(s.items[k]) {}
  }

  /** Applied to a library filter's edit: exactly the stories the rules accept stay, as they
      were; and the feed's next refresh starts from a new version. */
  lemma FilterEditKeepsMatching(s: FeedState, history: Option<Item -> bool>, now: int)
    ensures var after := FilterEdited(s, history, now);
      && (history.None? ==> after == s.(row := s.row.(version := s.row.version + 1)))
      && (history.Some? && |s.items| > 10000 ==> after == s)
      && (history.Some? && |s.items| <= 10000 ==>
            OnlyMatching(s.items, after.items, history.value) && after.row.version == s.row.version + 1)
  {
    if history.Some? { PrunedMeans(s.(row := s.row.(version := s.row.version + 1)), history.value, now); }
  }

  lemma EditedBodiesRow(s: FeedState, e: Edit, now: int)
    ensures var after := EditedBodies(s, e, now);
      after.row == EditedRow(s.row, e, now).(lastChanged := after.row.lastChanged) && after.runs == s.runs
  {
  }

  lemma HistoryAside(s: FeedState, e: Edit, now: int)
    ensures EditedBodies(s, e, now) == Edited(s, e.(history := None), now)
  {
    assert EditedRow(s.row, e, now) == EditedRow(s.row, e.(history := None), now);
  }

  /** Applied to an editor save: exactly the stories the rules accept stay, as the save left
      their bodies. A save with too long a history changes nothing. */
  lemma SaveKeepsMatching(s: FeedState, e: Edit, now: int)
    ensures var after := Edited(s, e, now);
      && (e.history.Some? && |s.items| > 10000 ==> after == s)
      && (e.history.Some? && |s.items| <= 10000 ==>
            OnlyMatching(Edited(s, e.(history := None), now).items, after.items, e.history.value))
  {
    HistoryAside(s, e, now);
    if e.history.Some? { PrunedMeans(EditedBodies(s, e, now), e.history.value, now); }
  }

  /** And the feed is what the editor saved, with a new version and no failures. */
  lemma SaveStoresTheEdit(s: FeedState, e: Edit, now: int)
    requires e.history.None? || |s.items| <= 10000
    ensures var row := Edited(s, e, now).row;
      && row.title == e.title && row.url == e.url && row.interval == e.interval && row.recipe == Some(e.recipe)
      && row.enabled == (if e.keepEnabled then s.row.enabled else e.enabled)
      && row.failures == 0 && row.version == s.row.version + 1
      && row.id == s.row.id && row.lastSuccess == s.row.lastSuccess && row.lastNew == s.row.lastNew
    ensures Edited(s, e, now).runs == s.runs
  {
    EditedBodiesRow(s, e, now);
    if e.history.Some? { PrunedMeans(EditedBodies(s, e, now), e.history.value, now); }
  }

  /** What decides the text of an article body: where it is on the page and, when it is
      taken as markup, what is removed from it and how those selectors are read. */
  datatype BodyRule =
    | NoBody
    | Attribute(full: FullContent)
    | Markup(full: FullContent, remove: seq<string>, kind: string)

  function BodyRuleOf(r: Recipe): BodyRule {
    match r.full
    case None => NoBody
    case Some(full) =>
      if full.attr != "" then Attribute(full) else Markup(full, r.remove, if r.remove == [] then "" else r.kind)
  }

  /** An edit keeps the stored bodies exactly when they would be taken the same way, and
      discards all of them exactly when another part of the page is asked for. */
  lemma BodiesFollowTheRule(stored: Option<Recipe>, edited: Recipe)
    ensures var clear := ArticleBodiesChanged(stored, edited);
      && (clear == KeepBodies <==> stored.Some? && BodyRuleOf(stored.value) == BodyRuleOf(edited))
      && (clear == ClearAllBodies <==> stored.None? || stored.value.full != edited.full)
  {
  }

  /** The count that says whether the newest page read listed any story. */
  lemma {:induction false} LatestPageRunMeans(runs: seq<Run>, i: nat)
    requires i < |runs| && runs[i].status != 304 && !runs[i].failed
    requires forall j | i < j < |runs| :: runs[j].status == 304 || runs[j].failed
    ensures LatestPageRun(runs) == Some(runs[i].count)
    decreases |runs|
  {
    if i < |runs| - 1 { LatestPageRunMeans(runs[..|runs| - 1], i); }
  }

  lemma {:induction false} NoPageRun(runs: seq<Run>)
    requires forall j | 0 <= j < |runs| :: runs[j].status == 304 || runs[j].failed
    ensures LatestPageRun(runs).None?
    decreases |runs|
  {
    if runs != [] { NoPageRun(runs[..|runs| - 1]); }
  }

  /** Whether the newest page read listed this story, as far as the database knows. */
  ghost predicate ListedLast(s: FeedState, k: Key)
    requires k in s.items
  {
    LatestPageRun(s.runs) != Some(0) && forall j :: j in s.items ==> s.items[j].lastSeen <= s.items[k].lastSeen
  }

  lemma ClearedMeans(s: FeedState, listedOnly: bool, now: int, k: Key)
    requires k in s.items
    ensures var after := Cleared(s, listedOnly, now);
      && after.items.Keys == s.items.Keys
      && after.items[k].contentFull == (if listedOnly ==> ListedLast(s, k) then "" else s.items[k].contentFull)
      && after.items[k].(contentFull := s.items[k].contentFull, lastChanged := s.items[k].lastChanged) == s.items[k]
      && (after.items[k].contentFull == s.items[k].contentFull ==> after.items[k] == s.items[k])
      && (after.items[k].contentFull != s.items[k].contentFull ==> after.items[k].lastChanged == after.row.lastChanged)
  {
    assert k in ClearTargets(s, listedOnly) <==>
        s.items[k].contentFull != "" && (listedOnly ==> ListedLast(s, k));
  }

  /** Which stories an editor save without pruning takes the body of: none when bodies would
      be taken the same way, all when another part of the page is asked for, and otherwise
      those seen last, unless the newest page read listed none. Nothing else of a story
      changes but its change time. */
  lemma SaveClearsBodies(s: FeedState, e: Edit, now: int, k: Key)
    requires e.history.None? && k in s.items
    ensures var after := Edited(s, e, now);
      var same := s.row.recipe.Some? && BodyRuleOf(s.row.recipe.value) == BodyRuleOf(e.recipe);
      var asked := s.row.recipe.None? || s.row.recipe.value.full != e.recipe.full;
      && after.items.Keys == s.items.Keys
      && after.items[k].contentFull == (if asked || (!same && ListedLast(s, k)) then "" else s.items[k].contentFull)
      && after.items[k].(contentFull := s.items[k].contentFull, lastChanged := s.items[k].lastChanged) == s.items[k]
      && (after.items[k].contentFull == s.items[k].contentFull ==> after.items[k] == s.items[k])
      && (after.items[k].contentFull != s.items[k].contentFull ==> after.items[k].lastChanged == after.row.lastChanged)
  {
    BodiesFollowTheRule(s.row.recipe, e.recipe);
    var saved := s.(row := EditedRow(s.row, e, now));
    assert ListedLast(saved, k) == ListedLast(s, k);
    ClearedMeans(saved, ArticleBodiesChanged(s.row.recipe, e.recipe) == ClearListedBodies, now, k);
  }

  lemma ClearedTime(s: FeedState, listedOnly: bool, now: int)
    ensures Cleared(s, listedOnly, now).row.lastChanged in {s.row.lastChanged, Max(now, s.row.lastChanged + 1)}
  {
  }

  lemma PrunedTime(s: FeedState, matches: Item -> bool, now: int)
    ensures Pruned(s, matches, now).row.lastChanged in {s.row.lastChanged, Max(now, s.row.lastChanged + 1)}
  {
  }

  /** When a write moves the change time, it moves it past the one before and not before now:
      to the first such second, or for a save with several parts one or two later. */
  lemma ChangeTimeIsNext(s: FeedState, op: Op, limit: nat, now: int)
    ensures var was, next := s.row.lastChanged, Apply(s, op, limit, now).row.lastChanged;
      next == was || Max(now, was + 1) <= next <= Max(now, was + 1) + (if op.Save? then 2 else 0)
  {
    match op
    case Finish(run) => CompletedRow(s, run, limit, now);
    case Save(e) =>
      var saved := s.(row := EditedRow(s.row, e, now));
      ClearedTime(saved, ArticleBodiesChanged(s.row.recipe, e.recipe) == ClearListedBodies, now);
      if e.history.Some? { PrunedTime(EditedBodies(s, e, now), e.history.value, now); }
    case SaveFilter(history) =>
      if history.Some? { PrunedTime(s.(row := s.row.(version := s.row.version + 1)), history.value, now); }
    case SetEnabled(_) =>
  }

  // ---------------------------------------------------------------- what readers are shown

  /** Feeds show all of a story's fields, and the feed's title, address and interval in
      minutes. */
  lemma ViewShowsStories(s: FeedState, k: Key)
    requires k in s.items
    ensures var view := Published(s);
      && view.title == s.row.title && view.url == s.row.url && view.ttl == s.row.interval / 60
      && view.entries.Keys == s.items.Keys
      && var it, entry := s.items[k], view.entries[k];
         && entry.guid == it.guid && entry.title == it.title && entry.url == it.url && entry.html == it.html
         && entry.image == it.image && entry.contentFull == it.contentFull && entry.published == it.published
  {
  }

  /** The handler's answers in a history: a date before the one a reader was given gets the
      feed, and any later one gets 304 for as long as no write changes the output. */
  lemma AnyLaterDateIsNotModified(states: seq<FeedState>, moments: seq<Moment>, limit: nat, i: nat, j: nat, since: int)
    requires IsHistory(states, moments, limit) && i <= j < |states|
    requires moments != [] && Good(states[0], limit, moments[0].now)
    requires states[i].row.lastSuccess != 0
    ensures var first := Answer(states[i], None);
      && first.Full? && var given := first.lastModified;
      && (since < given ==> Answer(states[j], Some(since)).Full?)
      && (given <= since && Quiet(states, i, j) ==> Answer(states[j], Some(since)) == NotModified)
    ensures states[j].row.lastSuccess == 0 <==> Answer(states[j], Some(since)).Pending?
  {
    HistoryIsHonest(states, moments, limit, i, i);
    HistoryIsHonest(states, moments, limit, i, j);
    HistoryIsHonest(states, moments, limit, j, j);
  }

  /** A row from before change times were kept goes by its last success. */
  lemma OldRowsGoBySuccess(s: FeedState, since: int)
    requires s.row.lastSuccess != 0 && s.row.lastChanged == 0
    ensures Answer(s, None) == Full(s.row.lastSuccess, Published(s))
    ensures Answer(s, Some(since)) == if s.row.lastSuccess <= since then NotModified else Answer(s, None)
  {
  }
}
