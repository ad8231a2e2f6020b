/** The store's transactions on one feed, in place: each statement updates the row, the
    stories or the run history as internal/store/store.go and save.go do. Every method
    is tied to the function of module Store that says what the transaction means. */
module StoredFeeds {
  import opened Wrappers
  import opened Store

  function KeySet(keys: seq<Key>): set<Key> { set k | k in keys }

  /** One turn of the merge loop: a row once touched keeps this merge's change time. */
  lemma MergeStep(feed: string, items: map<Key, Item>, incoming: seq<Incoming>, i: nat, now: int, changedAt: int)
    requires i < |incoming| && 0 < changedAt
    ensures var before, it := Merged(feed, items, incoming[..i], now, changedAt), incoming[i];
      var row := Upsert(feed, Lookup(before, it.key), it, now, changedAt);
      var after := Merged(feed, items, incoming[..i + 1], now, changedAt);
      && after == before[it.key := row]
      && Keys(incoming[..i + 1]) == Keys(incoming[..i]) + {it.key}
      && Touched(after, incoming[..i + 1], changedAt)
         == Touched(before, incoming[..i], changedAt) + if row.lastChanged == changedAt then {it.key} else {}
  {
    assert incoming[..i + 1] == incoming[..i] + [incoming[i]] && incoming[..i + 1][..i] == incoming[..i];
  }

  class StoredFeed {
    var row: Row
    var items: map<Key, Item>
    var runs: seq<Run>

    ghost function State(): FeedState reads this { FeedState(row, items, runs) }

    constructor (row: Row, items: map<Key, Item>, runs: seq<Run>)
      ensures State() == FeedState(row, items, runs)
    {
      this.row, this.items, this.runs := row, items, runs;
    }

    /** The merge loop: upserts each story and notes the keys whose row carries this
        merge's change time, with whether the row looks inserted by it. */
    method MergeStories(incoming: seq<Incoming>, now: int, changedAt: int) returns (touched: map<Key, bool>)
      requires 0 < changedAt
      modifies this`items
      ensures items == Merged(row.id, old(items), incoming, now, changedAt)
      ensures touched.Keys == Touched(items, incoming, changedAt)
      ensures forall k :: k in touched ==> k in items && touched[k] == (items[k].firstSeen == now)
    {
      touched := map[];
      for i := 0 to |incoming|
        invariant items == Merged(row.id, old(items), incoming[..i], now, changedAt)
        invariant Keys(incoming[..i]) <= items.Keys
        invariant touched.Keys == Touched(items, incoming[..i], changedAt)
        invariant forall k :: k in touched ==> touched[k] == (items[k].firstSeen == now)
      {
        var it := incoming[i];
        MergeStep(row.id, old(items), incoming, i, now, changedAt);
        var merged := Upsert(row.id, Lookup(items, it.key), it, now, changedAt);
        items := items[it.key := merged];
        if merged.lastChanged == changedAt {
          touched := touched[it.key := merged.firstSeen == now];
        }
      }
      assert incoming[..|incoming|] == incoming;
    }

    /** Reads back the keys retention deleted: `changed` when one of them had been
        published, `left` the touched stories that are still stored. */
    method ReadPruned(pruned: set<Key>, touched: map<Key, bool>) returns (changed: bool, left: map<Key, bool>)
      ensures changed <==> exists k :: k in pruned && !(k in touched && touched[k])
      ensures left == touched - pruned
    {
      var unread := pruned;
      changed, left := false, touched;
      while unread != {}
        invariant unread <= pruned && left == touched - (pruned - unread)
        invariant changed <==> exists k :: k in pruned - unread && !(k in touched && touched[k])
        decreases unread
      {
        var key :| key in unread;
        var inserted := key in left && left[key];
        assert inserted <==> key in touched && touched[key];
        if !inserted { changed := true; }
        left := left - {key};
        assert pruned - (unread - {key}) == (pruned - unread) + {key};
        unread := unread - {key};
      }
    }

    /** Retention: deletes every story that is not among the newest `limit`, and reports
        whether the output changed and whether a new story was kept. */
    method Retain(touched: map<Key, bool>, limit: nat, now: int) returns (changed: bool, gained: bool)
      requires touched.Keys <= items.Keys
      requires forall k :: k in touched ==> touched[k] == (items[k].firstSeen == now)
      modifies this`items
      ensures items == Restrict(old(items), Newest(old(items), old(items).Keys, limit))
      ensures var kept := Newest(old(items), old(items).Keys, limit);
        && changed == CountsAsChange(old(items), touched.Keys, kept, now)
        && gained == KeepsNew(old(items), touched.Keys, kept, now)
    {
      var kept := Newest(items, items.Keys, limit);
      var left;
      changed, left := ReadPruned(items.Keys - kept, touched);
      assert forall k :: k in left <==> k in touched && k in kept;
      changed := changed || left.Keys != {};
      gained := exists k :: k in left && left[k];
      items := Restrict(items, kept);
    }

    /** CompleteWithDiagnostics. */
    method Complete(run: Refresh, limit: nat, now: int) returns (outcome: Outcome)
      requires 0 < now
      modifies this
      ensures outcome == if run.version == old(row.version) then Stored else Stale
      ensures State() == Completed(old(State()), run, limit, now)
    {
      if row.version != run.version { return Stale; }
      if run.failed {
        row := row.(failures := run.failures + 1);
      } else {
        var changedAt, lastChanged, lastNew := ChangedAt(row, now), row.lastChanged, row.lastNew;
        var touched := MergeStories(run.items, now, changedAt);
        var changed, gained := Retain(touched, limit, now);
        if gained { lastNew := now; }
        if changed || lastChanged == 0 { lastChanged := changedAt; }
        row := row.(lastSuccess := now, lastChanged := lastChanged, lastNew := lastNew, failures := 0);
      }
      runs := Recorded(runs, Run(run.status, |run.items|, run.failed));
      outcome := Stored;
    }

    /** clearArticleBodies: discards stored article bodies, or only those of listed stories. */
    method ClearArticleBodies(listedOnly: bool, now: int)
      modifies this`items, this`row
      ensures State() == Cleared(old(State()), listedOnly, now)
    {
      if listedOnly {
        var count := LatestPageRun(runs);
        if count == Some(0) { return; }
      }
      var changedAt := Bump(row.lastChanged, now);
      var rows := set k | k in items && items[k].contentFull != ""
                          && (listedOnly ==> forall j :: j in items ==> items[j].lastSeen <= items[k].lastSeen);
      if rows == {} { return; }
      items := map k | k in items ::
        if k in rows then items[k].(contentFull := "", lastChanged := changedAt) else items[k];
      row := row.(lastChanged := changedAt);
    }

    /** pruneFilteredHistory and the markChanged after it: reads every stored story, then
        deletes those the rules reject in batches of 250. */
    method PruneFilteredHistory(matches: Item -> bool, now: int)
      modifies this`items, this`row
      ensures State() == Pruned(old(State()), matches, now)
    {
      var unread, removed := items.Keys, [];
      while unread != {}
        invariant unread <= items.Keys
        invariant forall k :: k in removed <==> k in items.Keys - unread && !matches(items[k])
        decreases unread
      {
        var key :| key in unread;
        if !matches(items[key]) { removed := removed + [key]; }
        unread := unread - {key};
      }
      var i := 0;
      while i < |removed|
        invariant 0 <= i <= |removed|
        invariant items == old(items) - KeySet(removed[..i]) && row == old(row)
      {
        var n := Min(|removed| - i, 250);
        assert removed[..i + n] == removed[..i] + removed[i..i + n];
        items := items - KeySet(removed[i..i + n]);
        i := i + n;
      }
      assert removed[..|removed|] == removed;
      assert KeySet(removed) == set k | k in old(items) && !matches(old(items)[k]);
      if |removed| > 0 {
        assert removed[0] in KeySet(removed);
        row := row.(lastChanged := Bump(row.lastChanged, now));
      }
    }

    /** SaveWithOptions on an existing feed; false means the transaction rolled back. */
    method Save(e: Edit, now: int) returns (saved: bool)
      modifies this
      ensures saved == !(e.history.Some? && |old(items)| > MAX_HISTORY)
      ensures State() == Edited(old(State()), e, now)
    {
      var cleared := ArticleBodiesChanged(row.recipe, e.recipe);
      if e.history.Some? && |items| > MAX_HISTORY { return false; }
      row := EditedRow(row, e, now);
      if cleared != KeepBodies { ClearArticleBodies(cleared == ClearListedBodies, now); }
      if e.history.Some? { PruneFilteredHistory(e.history.value, now); }
      saved := true;
    }

    /** SaveFilter's part for one linked feed. */
    method ApplyFilterEdit(history: Option<Item -> bool>, now: int) returns (saved: bool)
      modifies this
      ensures saved == !(history.Some? && |old(items)| > MAX_HISTORY)
      ensures State() == FilterEdited(old(State()), history, now)
    {
      if history.Some? && |items| > MAX_HISTORY { return false; }
      row := row.(version := row.version + 1);
      if history.Some? { PruneFilteredHistory(history.value, now); }
      saved := true;
    }
  }
}
