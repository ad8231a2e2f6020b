/** Whole histories of one feed: every interleaving of refreshes, editor saves, library
    filter edits and pauses, at clock readings that never go back. */
module History {
  import opened Wrappers
  import opened Store
  import opened ReaderOutput

  datatype Op =
    | Finish(run: Refresh)
    | Save(edit: Edit)
    | SaveFilter(history: Option<Item -> bool>)
    | SetEnabled(enabled: bool)

  ghost function Apply(s: FeedState, op: Op, limit: nat, now: int): FeedState {
    match op
    case Finish(run) => Completed(s, run, limit, now)
    case Save(edit) => Edited(s, edit, now)
    case SaveFilter(history) => FilterEdited(s, history, now)
    case SetEnabled(enabled) => s.(row := s.row.(enabled := enabled))
  }

  /** The source lists each story once (internal/extract keeps the first of a key). */
  ghost predicate Listable(op: Op) { op.Finish? ==> Distinct(op.run.items) }

  datatype Moment = Moment(op: Op, now: int)

  ghost predicate IsHistory(states: seq<FeedState>, moments: seq<Moment>, limit: nat) {
    && |states| == |moments| + 1
    && (forall i :: 0 <= i < |moments| ==> 0 < moments[i].now && Listable(moments[i].op))
    && (forall i, j :: 0 <= i <= j < |moments| ==> moments[i].now <= moments[j].now)
    && (forall i :: 0 <= i < |moments| ==> states[i + 1] == Apply(states[i], moments[i].op, limit, moments[i].now))
  }

  /** Any write may follow, at the same reading of the clock or a later one. */
  lemma AnyWriteMayFollow(states: seq<FeedState>, moments: seq<Moment>, limit: nat, m: Moment)
    requires IsHistory(states, moments, limit) && 0 < m.now && Listable(m.op)
    requires moments == [] || moments[|moments| - 1].now <= m.now
    ensures IsHistory(states + [Apply(states[|moments|], m.op, limit, m.now)], moments + [m], limit)
  {
    if moments != [] {
      forall i | 0 <= i < |moments| ensures moments[i].now <= m.now {
        assert moments[i].now <= moments[|moments| - 1].now;
      }
    }
  }

  /** Room for what is stored, or all of it first stored before this second: true of a
      database opened with a lower MAX_ITEMS once the second has passed. */
  ghost predicate Roomy(s: FeedState, limit: nat, now: int) {
    |s.items| <= limit || forall k :: k in s.items ==> s.items[k].firstSeen < now
  }

  ghost predicate Good(s: FeedState, limit: nat, now: int) { Dated(s, now) && Roomy(s, limit, now) }

  /** What readers can tell apart in a stored story. */
  datatype Shown = Shown(story: Story, effective: int, firstSeen: int)

  datatype Output = Output(title: string, url: string, ttl: nat, stories: map<Key, Shown>)

  function OutputOf(s: FeedState): Output {
    Output(s.row.title, s.row.url, s.row.interval / 60,
           map k | k in s.items :: Shown(StoryOf(s.items[k]), Effective(s.items[k]), s.items[k].firstSeen))
  }

  /** One write: the invariant survives, the change time never goes back, and the output
      and it move only together, but for a feed that had no change time yet. */
  ghost predicate Honest(s: FeedState, after: FeedState, limit: nat, now: int) {
    && Good(after, limit, now)
    && s.row.lastChanged <= after.row.lastChanged
    && (s.row.lastChanged == after.row.lastChanged ==> OutputOf(s) == OutputOf(after))
    && (s.row.lastChanged != after.row.lastChanged && s.row.lastChanged != 0 ==> OutputOf(s) != OutputOf(after))
    && (s.row.lastSuccess != 0 ==> after.row.lastSuccess != 0)
  }

  lemma GoodLater(s: FeedState, limit: nat, now: int, later: int)
    requires Good(s, limit, now) && now <= later
    ensures Good(s, limit, later)
  {
  }

  lemma RoomyIsTellable(s: FeedState, limit: nat, now: int)
    requires Roomy(s, limit, now)
    ensures Tellable(s, limit, now)
  {
    if |s.items| > limit {
      NewestSize(s.items, s.items.Keys, limit);
      assert |s.items| == |s.items.Keys|;
      var over := s.items.Keys - Newest(s.items, s.items.Keys, limit);
      SmallerMisses(Newest(s.items, s.items.Keys, limit), s.items.Keys);
      var k :| k in over;
    }
  }

  lemma SuccessIsDated(s: FeedState, incoming: seq<Incoming>, limit: nat, now: int)
    requires Good(s, limit, now) && Distinct(incoming) && 0 < now
    ensures Good(Succeeded(s, incoming, limit, now), limit, now)
  {
    var after := Succeeded(s, incoming, limit, now);
    var merged := MergedBy(s, incoming, now);
    NewestSize(merged, merged.Keys, limit);
    assert after.items.Keys == Newest(merged, merged.Keys, limit) && |after.items| == |after.items.Keys|;
    forall k | k in after.items ensures ItemDated(after.row, after.items[k], now) {
      MergedStory(s, incoming, now, k);
    }
  }

  lemma UnreportedKeepsOutput(s: FeedState, incoming: seq<Incoming>, limit: nat, now: int)
    requires Good(s, limit, now) && Distinct(incoming) && 0 < now
    requires !ReportsChange(s, incoming, limit, now)
    ensures OutputOf(s) == OutputOf(Succeeded(s, incoming, limit, now))
  {
    var after := Succeeded(s, incoming, limit, now);
    RoomyIsTellable(s, limit, now);
    ChangedFlagIsExact(s, incoming, limit, now);
    assert s.items.Keys == Stories(s.items).Keys == Stories(after.items).Keys == after.items.Keys;
    forall k | k in s.items
      ensures Effective(after.items[k]) == Effective(s.items[k]) && after.items[k].firstSeen == s.items[k].firstSeen
    {
      UntouchedKeeps(s, incoming, limit, now, k);
    }
    SameOutput(s, after);
  }

  lemma UntouchedKeeps(s: FeedState, incoming: seq<Incoming>, limit: nat, now: int, k: Key)
    requires Dated(s, now) && Distinct(incoming) && 0 < now && !ReportsChange(s, incoming, limit, now)
    requires k in s.items && k in Succeeded(s, incoming, limit, now).items
    ensures var after := Succeeded(s, incoming, limit, now).items[k];
      Effective(after) == Effective(s.items[k]) && after.firstSeen == s.items[k].firstSeen
  {
    MergedStory(s, incoming, now, k);
  }

  lemma SameOutput(s: FeedState, after: FeedState)
    requires after.row.title == s.row.title && after.row.url == s.row.url && after.row.interval == s.row.interval
    requires Stories(s.items) == Stories(after.items) && after.items.Keys == s.items.Keys
    requires forall k | k in s.items ::
      Effective(after.items[k]) == Effective(s.items[k]) && after.items[k].firstSeen == s.items[k].firstSeen
    ensures OutputOf(s) == OutputOf(after)
  {
    forall k | k in s.items ensures OutputOf(after).stories[k] == OutputOf(s).stories[k] {
      assert Stories(s.items)[k] == Stories(after.items)[k];
    }
  }

  lemma OutputShowsStories(s: FeedState, t: FeedState)
    requires OutputOf(s) == OutputOf(t)
    ensures Stories(s.items) == Stories(t.items)
  {
    assert s.items.Keys == OutputOf(s).stories.Keys == t.items.Keys;
    forall k | k in s.items ensures StoryOf(s.items[k]) == StoryOf(t.items[k]) {
      assert OutputOf(s).stories[k] == OutputOf(t).stories[k];
    }
  }

  lemma SuccessIsHonest(s: FeedState, incoming: seq<Incoming>, limit: nat, now: int)
    requires Good(s, limit, now) && Distinct(incoming) && 0 < now
    ensures Honest(s, Succeeded(s, incoming, limit, now), limit, now)
  {
    var after := Succeeded(s, incoming, limit, now);
    SuccessIsDated(s, incoming, limit, now);
    if ReportsChange(s, incoming, limit, now) {
      RoomyIsTellable(s, limit, now);
      ChangedFlagIsExact(s, incoming, limit, now);
      if OutputOf(s) == OutputOf(after) { OutputShowsStories(s, after); }
    } else {
      UnreportedKeepsOutput(s, incoming, limit, now);
    }
  }

  /** Whether a later state shows that some output of `s` was taken away. */
  ghost predicate Lost(s: FeedState, after: FeedState, k: Key) {
    k in s.items && (k in after.items ==> StoryOf(after.items[k]) != StoryOf(s.items[k]))
  }

  lemma LostIsSeen(s: FeedState, after: FeedState, k: Key)
    requires Lost(s, after, k)
    ensures OutputOf(s) != OutputOf(after)
  {
    var before, later := Stories(s.items), Stories(after.items);
    assert k in before && (k in later ==> later[k] != before[k]);
    if OutputOf(s) == OutputOf(after) { OutputShowsStories(s, after); }
  }

  lemma ClearingKeeps(s: FeedState, listedOnly: bool, limit: nat, now: int)
    requires Good(s, limit, now)
    ensures var after := Cleared(s, listedOnly, now);
      && Good(after, limit, now) && after.items.Keys == s.items.Keys
      && after.row == s.row.(lastChanged := after.row.lastChanged)
      && (after == s || (s.row.lastChanged < after.row.lastChanged && exists k :: Lost(s, after, k)))
      && forall k | k in s.items && Lost(s, after, k) :: after.items[k].contentFull == "" != s.items[k].contentFull
  {
    var after := Cleared(s, listedOnly, now);
    assert after.items.Keys == s.items.Keys && |s.items| == |s.items.Keys| && |after.items| == |after.items.Keys|;
    if ClearTargets(s, listedOnly) != {} {
      var k :| k in ClearTargets(s, listedOnly);
      assert Lost(s, after, k);
    }
  }

  lemma PruningKeeps(s: FeedState, matches: Item -> bool, limit: nat, now: int)
    requires Good(s, limit, now)
    ensures var after := Pruned(s, matches, now);
      && Good(after, limit, now) && after.row == s.row.(lastChanged := after.row.lastChanged)
      && (forall k | k in after.items :: k in s.items && after.items[k] == s.items[k])
      && (after == s || (s.row.lastChanged < after.row.lastChanged && exists k :: Lost(s, after, k)))
  {
    var after := Pruned(s, matches, now);
    SubsetSize(after.items.Keys, s.items.Keys);
    assert |s.items| == |s.items.Keys| && |after.items| == |after.items.Keys|;
    var removed := set k | k in s.items && !matches(s.items[k]);
    if removed != {} {
      var k :| k in removed;
      assert Lost(s, after, k);
    }
  }

  /** What one edit takes away after another is still gone. */
  lemma StillLost(s: FeedState, mid: FeedState, after: FeedState, k: Key)
    requires Lost(s, mid, k) && forall j | j in after.items :: j in mid.items && after.items[j] == mid.items[j]
    ensures Lost(s, after, k)
  {
  }

  lemma SaveIsHonest(s: FeedState, e: Edit, limit: nat, now: int)
    requires Good(s, limit, now)
    ensures Honest(s, Edited(s, e, now), limit, now)
  {
    var saved := s.(row := EditedRow(s.row, e, now));
    var clear := ArticleBodiesChanged(s.row.recipe, e.recipe);
    ClearingKeeps(saved, clear == ClearListedBodies, limit, now);
    var bodies := EditedBodies(s, e, now);
    if e.history.Some? && |s.items| <= MAX_HISTORY {
      PruningKeeps(bodies, e.history.value, limit, now);
      var after := Pruned(bodies, e.history.value, now);
      if bodies != saved {
        var k :| Lost(saved, bodies, k);
        StillLost(saved, bodies, after, k);
        LostIsSeen(saved, after, k);
      } else if after != bodies {
        var k :| Lost(bodies, after, k);
        LostIsSeen(bodies, after, k);
      }
      SavedTogether(s, e, saved, after, limit, now);
    } else if e.history.None? {
      if bodies != saved {
        var k :| Lost(saved, bodies, k);
        LostIsSeen(saved, bodies, k);
      }
      SavedTogether(s, e, saved, bodies, limit, now);
    }
  }

  /** The row's own output and its stories are told apart separately. */
  lemma SavedTogether(s: FeedState, e: Edit, saved: FeedState, after: FeedState, limit: nat, now: int)
    requires Good(s, limit, now) && saved == s.(row := EditedRow(s.row, e, now)) && Good(after, limit, now)
    requires after.row == saved.row.(lastChanged := after.row.lastChanged)
    requires after == saved || (saved.row.lastChanged < after.row.lastChanged && OutputOf(saved) != OutputOf(after))
    ensures Honest(s, after, limit, now)
  {
    assert OutputOf(saved).stories == OutputOf(s).stories;
  }

  lemma PruningIsHonest(s: FeedState, matches: Item -> bool, limit: nat, now: int)
    requires Good(s, limit, now)
    ensures Honest(s, Pruned(s, matches, now), limit, now)
  {
    var after := Pruned(s, matches, now);
    PruningKeeps(s, matches, limit, now);
    if after != s {
      var k :| Lost(s, after, k);
      LostIsSeen(s, after, k);
    }
  }

  lemma VersionIsUnseen(s: FeedState, bumped: FeedState, limit: nat, now: int)
    requires Good(s, limit, now) && bumped == s.(row := s.row.(version := s.row.version + 1))
    ensures OutputOf(bumped) == OutputOf(s) && Good(bumped, limit, now) && Honest(s, bumped, limit, now)
  {
  }

  lemma PrunedEditIsHonest(s: FeedState, bumped: FeedState, matches: Item -> bool, limit: nat, now: int)
    requires Good(s, limit, now) && bumped == s.(row := s.row.(version := s.row.version + 1))
    ensures Honest(s, Pruned(bumped, matches, now), limit, now)
  {
    VersionIsUnseen(s, bumped, limit, now);
    PruningIsHonest(bumped, matches, limit, now);
  }

  lemma FilterEditCases(s: FeedState, history: Option<Item -> bool>, now: int)
    ensures var bumped := s.(row := s.row.(version := s.row.version + 1));
      FilterEdited(s, history, now)
      == if history.None? then bumped
         else if |s.items| > MAX_HISTORY then s else Pruned(bumped, history.value, now)
  {
  }

  lemma FilterEditIsHonest(s: FeedState, history: Option<Item -> bool>, limit: nat, now: int)
    requires Good(s, limit, now)
    ensures Honest(s, FilterEdited(s, history, now), limit, now)
  {
    var bumped := s.(row := s.row.(version := s.row.version + 1));
    FilterEditCases(s, history, now);
    if history.None? {
      VersionIsUnseen(s, bumped, limit, now);
    } else if |s.items| <= MAX_HISTORY {
      PrunedEditIsHonest(s, bumped, history.value, limit, now);
    }
  }

  lemma CompletionIsHonest(s: FeedState, run: Refresh, limit: nat, now: int)
    requires Good(s, limit, now) && Distinct(run.items) && 0 < now
    ensures Honest(s, Completed(s, run, limit, now), limit, now)
  {
    var after := if run.failed then s.(row := s.row.(failures := run.failures + 1))
                 else Succeeded(s, run.items, limit, now);
    if !run.failed { SuccessIsHonest(s, run.items, limit, now); }
    assert Honest(s, after, limit, now);
  }

  lemma WriteIsHonest(s: FeedState, op: Op, limit: nat, now: int)
    requires Good(s, limit, now) && Listable(op) && 0 < now
    ensures Honest(s, Apply(s, op, limit, now), limit, now)
  {
    match op
    case Finish(run) => CompletionIsHonest(s, run, limit, now);
    case Save(edit) => SaveIsHonest(s, edit, limit, now);
    case SaveFilter(history) => FilterEditIsHonest(s, history, limit, now);
    case SetEnabled(_) =>
  }

  /** Whether no write between two states changed the output. */
  ghost predicate Quiet(states: seq<FeedState>, i: nat, j: nat)
    requires i <= j < |states|
  {
    forall k | i <= k < j :: OutputOf(states[k + 1]) == OutputOf(states[k])
  }

  lemma QuietSnoc(states: seq<FeedState>, i: nat, j: nat)
    requires i < j < |states|
    ensures Quiet(states, i, j) <==> Quiet(states, i, j - 1) && OutputOf(states[j]) == OutputOf(states[j - 1])
  {
    if Quiet(states, i, j) { assert OutputOf(states[(j - 1) + 1]) == OutputOf(states[j - 1]); }
  }

  lemma {:induction false} HistoryIsHonest(states: seq<FeedState>, moments: seq<Moment>, limit: nat, i: nat, j: nat)
    requires IsHistory(states, moments, limit) && i <= j < |states|
    requires moments != [] ==> Good(states[0], limit, moments[0].now)
    ensures j < |moments| ==> Good(states[j], limit, moments[j].now)
    ensures 0 < j ==> Good(states[j], limit, moments[j - 1].now)
    ensures states[i].row.lastChanged <= states[j].row.lastChanged
    ensures states[i].row.lastChanged == states[j].row.lastChanged ==> OutputOf(states[i]) == OutputOf(states[j])
    ensures states[i].row.lastChanged != 0 ==>
      (states[i].row.lastChanged == states[j].row.lastChanged <==> Quiet(states, i, j))
    ensures states[i].row.lastSuccess != 0 ==> states[j].row.lastSuccess != 0
    decreases j
  {
    if 0 < j {
      var m := moments[j - 1];
      HistoryIsHonest(states, moments, limit, Min(i, j - 1), j - 1);
      if i < j { QuietSnoc(states, i, j); }
      WriteIsHonest(states[j - 1], m.op, limit, m.now);
      if j < |moments| { GoodLater(states[j], limit, m.now, moments[j].now); }
    }
  }

  /** While the change time is a date feeds can show, what readers are served is a
      function of the output and that time. */
  lemma ViewIsOutput(s: FeedState, t: FeedState, now: int, later: int)
    requires Dated(s, now) && Dated(t, later) && OutputOf(s) == OutputOf(t)
    requires 0 < s.row.lastChanged == t.row.lastChanged <= END_OF_9999
    ensures Published(s) == Published(t)
  {
    assert s.items.Keys == OutputOf(s).stories.Keys == t.items.Keys;
    forall k | k in s.items ensures Published(s).entries[k] == Published(t).entries[k] {
      assert OutputOf(s).stories[k] == OutputOf(t).stories[k];
      RenderedDates(s.row, s.items[k], now);
      RenderedDates(t.row, t.items[k], later);
    }
  }

  lemma AtomDateUnfold(first: int, rest: seq<int>)
    ensures AtomDate([first] + rest) == if first != 0 && ZERO_TIME < first <= END_OF_9999 then first else AtomDate(rest)
  {
    assert ([first] + rest)[1..] == rest;
  }

  lemma RenderedDates(row: Row, it: Item, now: int)
    requires ItemDated(row, it, now) && row.lastChanged <= END_OF_9999
    ensures var published :=
        if it.published != 0 && -62135596800 < it.published <= 253402300799 then it.published else it.firstSeen;
      && Rendered(it, row.lastChanged).atomPublished == published
      && Rendered(it, row.lastChanged).atomUpdated == Max(published, Effective(it))
  {
    AtomDateUnfold(it.firstSeen, [it.lastSeen, row.lastChanged]);
    AtomDateUnfold(it.published, [it.firstSeen] + [it.lastSeen, row.lastChanged]);
    assert [it.published, it.firstSeen, it.lastSeen, row.lastChanged]
        == [it.published] + ([it.firstSeen] + [it.lastSeen, row.lastChanged]);
    var dates := [it.firstSeen, it.published, row.lastChanged];
    AtomDateUnfold(it.lastSeen, dates);
    AtomDateUnfold(it.lastChanged, [it.lastSeen] + dates);
    assert [it.lastChanged, it.lastSeen, it.firstSeen, it.published, row.lastChanged]
        == [it.lastChanged] + ([it.lastSeen] + dates);
  }

  /** The reader's guarantee. A reader that got the feed at one moment and sends back its
      Last-Modified at a later one is told "not modified" exactly when no write between
      the two changed the output; then the feed it would be served is the one it has. */
  lemma NotModifiedIsExact(states: seq<FeedState>, moments: seq<Moment>, limit: nat, i: nat, j: nat)
    requires IsHistory(states, moments, limit) && i <= j < |states|
    requires moments != [] && Good(states[0], limit, moments[0].now)
    requires states[i].row.lastSuccess != 0 && states[j].row.lastChanged <= END_OF_9999
    ensures var first := Answer(states[i], None);
      && first.Full? && first.view == Published(states[i])
      && var again := Answer(states[j], Some(first.lastModified));
        && (again == NotModified <==> Quiet(states, i, j))
        && (again == NotModified ==> Published(states[j]) == first.view)
        && (again != NotModified ==> again.Full? && again.view == Published(states[j]))
  {
    HistoryIsHonest(states, moments, limit, i, i);
    HistoryIsHonest(states, moments, limit, i, j);
    HistoryIsHonest(states, moments, limit, j, j);
    var a := if i == 0 then moments[0].now else moments[i - 1].now;
    var b := if j == 0 then moments[0].now else moments[j - 1].now;
    if states[i].row.lastChanged == states[j].row.lastChanged {
      ViewIsOutput(states[i], states[j], a, b);
    }
  }

  // ---------------------------------------------------------------- retention

  lemma KeptBeforeDropped(items: map<Key, Item>, limit: nat, kept: Key, dropped: Key)
    requires kept in Newest(items, items.Keys, limit)
    requires dropped in items && dropped !in Newest(items, items.Keys, limit)
    ensures Before(items, kept, dropped)
  {
    KeyLessTotal(kept, dropped);
    if Before(items, dropped, kept) {
      var a := set k | k in items.Keys && Before(items, k, dropped);
      var b := set k | k in items.Keys && Before(items, k, kept);
      forall k | k in a ensures k in b { BeforeTransitive(items, k, dropped, kept); }
      SubsetSize(a, b);
      assert false;
    }
  }

  /** What a successful refresh stores: the first `limit` of the stories it had and found,
      by published date and key, as the merge left them; a story it had keeps guid,
      published date and first sight, and its article body is never replaced by none;
      last_new says whether one is new. */
  lemma RetentionIsExact(s: FeedState, incoming: seq<Incoming>, limit: nat, now: int)
    requires Dated(s, now) && Distinct(incoming) && 0 < now
    ensures var after, merged := Succeeded(s, incoming, limit, now), MergedBy(s, incoming, now);
      && merged.Keys == s.items.Keys + Keys(incoming)
      && after.items.Keys <= merged.Keys
      && (forall k :: k in after.items ==> after.items[k] == merged[k])
      && |after.items| == Min(limit, |merged|)
      && (forall k, d :: k in after.items && d in merged && d !in after.items ==> Before(merged, k, d))
      && (forall k :: k in s.items && k in after.items ==>
            && after.items[k].guid == s.items[k].guid
            && after.items[k].published == s.items[k].published
            && after.items[k].firstSeen == s.items[k].firstSeen
            && (s.items[k].contentFull != "" ==> after.items[k].contentFull != ""))
      && after.row.lastNew == if after.items.Keys <= s.items.Keys then s.row.lastNew else now
  {
    var after, merged := Succeeded(s, incoming, limit, now), MergedBy(s, incoming, now);
    var kept := Newest(merged, merged.Keys, limit);
    MergedStory(s, incoming, now, "");
    NewestSize(merged, merged.Keys, limit);
    assert after.items.Keys == kept && |after.items| == |kept| && |merged| == |merged.Keys|;
    forall k, d | k in after.items && d in merged && d !in after.items ensures Before(merged, k, d) {
      KeptBeforeDropped(merged, limit, k, d);
    }
    forall k | k in merged
      ensures k in s.items ==> merged[k].guid == s.items[k].guid && merged[k].published == s.items[k].published
                               && merged[k].firstSeen == s.items[k].firstSeen
                               && (s.items[k].contentFull != "" ==> merged[k].contentFull != "")
      ensures k !in s.items ==> k in Touched(merged, incoming, ChangedAt(s.row, now)) && merged[k].firstSeen == now
    {
      MergedStory(s, incoming, now, k);
    }
  }

  lemma WriteKeepsIdentity(s: FeedState, op: Op, limit: nat, now: int, k: Key)
    requires Good(s, limit, now) && Listable(op) && 0 < now
    requires k in s.items && k in Apply(s, op, limit, now).items
    ensures var it, after := s.items[k], Apply(s, op, limit, now).items[k];
      after.guid == it.guid && after.published == it.published && after.firstSeen == it.firstSeen
  {
    if op.Finish? && !op.run.failed { RetentionIsExact(s, op.run.items, limit, now); }
  }

  /** A story keeps its identity for as long as it stays stored, whatever is written. */
  lemma {:induction false} IdentityIsForever(states: seq<FeedState>, moments: seq<Moment>, limit: nat, i: nat, j: nat,
                                             k: Key)
    requires IsHistory(states, moments, limit) && i <= j < |states|
    requires moments != [] ==> Good(states[0], limit, moments[0].now)
    requires forall m :: i <= m <= j ==> k in states[m].items
    ensures var it, later := states[i].items[k], states[j].items[k];
      later.guid == it.guid && later.published == it.published && later.firstSeen == it.firstSeen
    decreases j
  {
    if i < j {
      IdentityIsForever(states, moments, limit, i, j - 1, k);
      HistoryIsHonest(states, moments, limit, 0, j - 1);
      assert states[j - 1 + 1] == Apply(states[j - 1], moments[j - 1].op, limit, moments[j - 1].now);
      assert k in states[j].items && k in states[j - 1].items;
      WriteKeepsIdentity(states[j - 1], moments[j - 1].op, limit, moments[j - 1].now, k);
    }
  }
}
