/** Fetching article bodies a few at a time (internal/scheduler/article.go) and the flag
    that keeps a feed's list page requested in full until they are all stored
    (internal/scheduler/backlog.go). */
module Backlogs {
  import opened Wrappers
  import opened Store
  import opened ReaderOutput
  import StoredFeeds

  type Id = string

  const MAX_ARTICLES := 10
  const PREVIEW_ARTICLES := 3
  const NANOSECONDS := 1_000_000_000
  const RECENCY := 3600 * NANOSECONDS

  datatype ArticleState = ArticleState(hasBody: bool, firstSeen: int)

  /** What one round of article fetching did. */
  datatype ArticleRun = ArticleRun(fetched: set<Key>, left: seq<Key>, listed: seq<Key>, had: nat)

  /** The store's ArticleStates. */
  function ArticleStates(items: map<Key, Item>): map<Key, ArticleState> {
    map k | k in items :: ArticleState(items[k].contentFull != "", items[k].firstSeen)
  }

  predicate HasBody(known: map<Key, ArticleState>, key: Key) { key in known && known[key].hasBody }

  // ---------------------------------------------------------------- choosing what to fetch

  /** The keys of the stories with a link. */
  function Listed(items: seq<Incoming>): seq<Key> {
    if items == [] then []
    else
      var n := |items| - 1;
      Listed(items[..n]) + if items[n].url != "" then [items[n].key] else []
  }

  /** How many of the keys have a stored body. */
  function Count(keys: seq<Key>, known: map<Key, ArticleState>): nat {
    if keys == [] then 0
    else Count(keys[..|keys| - 1], known) + if HasBody(known, keys[|keys| - 1]) then 1 else 0
  }

  predicate IsMissing(it: Incoming, known: map<Key, ArticleState>, preview: bool) {
    it.url != "" && (preview || !HasBody(known, it.key))
  }

  predicate IsRecent(it: Incoming, known: map<Key, ArticleState>, preview: bool, clock: int) {
    && it.url != "" && !IsMissing(it, known, preview)
    && (known[it.key].firstSeen == 0 || clock - known[it.key].firstSeen * NANOSECONDS <= RECENCY)
  }

  /** Positions of the stories without a stored body, in list order. */
  function Missing(items: seq<Incoming>, known: map<Key, ArticleState>, preview: bool): (r: seq<nat>)
    ensures forall i :: i in r ==> i < |items|
  {
    if items == [] then []
    else
      var n := |items| - 1;
      Missing(items[..n], known, preview) + if IsMissing(items[n], known, preview) then [n] else []
  }

  /** Positions of the stories fetched before and found recently enough to fetch again. */
  function Recent(items: seq<Incoming>, known: map<Key, ArticleState>, preview: bool, clock: int): (r: seq<nat>)
    ensures forall i :: i in r ==> i < |items|
  {
    if items == [] then []
    else
      var n := |items| - 1;
      Recent(items[..n], known, preview, clock) + if IsRecent(items[n], known, preview, clock) then [n] else []
  }

  function Limit(preview: bool): nat { if preview then PREVIEW_ARTICLES else MAX_ARTICLES }

  /** What is fetched: stories without a body first, then recent ones, up to the limit. */
  function Targets(items: seq<Incoming>, known: map<Key, ArticleState>, preview: bool, clock: int): (r: seq<nat>)
    ensures forall i :: i in r ==> i < |items|
  {
    var all := Missing(items, known, preview) + Recent(items, known, preview, clock);
    var first := all[..Min(|all|, Limit(preview))];
    assert forall i :: i in first ==> i in all;
    first
  }

  /** The stories after the fetched positions got what their pages gave. */
  function Filled(items: seq<Incoming>, fetched: seq<nat>, got: Incoming -> Option<string>): seq<Incoming> {
    seq(|items|, i requires 0 <= i < |items| =>
      if i in fetched && got(items[i]).Some? then items[i].(contentFull := got(items[i]).value) else items[i])
  }

  function GotBody(items: seq<Incoming>, fetched: seq<nat>, got: Incoming -> Option<string>): set<Key> {
    set i | i in fetched && i < |items| && got(items[i]).Some? && got(items[i]).value != "" :: items[i].key
  }

  function KeysAt(items: seq<Incoming>, positions: seq<nat>): seq<Key>
    requires forall i :: i in positions ==> i < |items|
  {
    seq(|positions|, j requires 0 <= j < |positions| => assert positions[j] in positions; items[positions[j]].key)
  }

  /** The positions queued before the deadline; a story handed over after it is not. */
  function Queued(items: seq<Incoming>, known: map<Key, ArticleState>, preview: bool, clock: int,
                  inTime: nat): (r: seq<nat>)
    ensures forall i :: i in r ==> i < |items|
  {
    var targets := Targets(items, known, preview, clock);
    var queued := targets[..Min(|targets|, inTime)];
    assert forall i :: i in queued ==> i in targets;
    queued
  }

  /** Without a body after the round because it did not queue them. */
  function Left(items: seq<Incoming>, known: map<Key, ArticleState>, preview: bool, clock: int, inTime: nat): seq<Key> {
    var missing := Missing(items, known, preview);
    var rest := missing[Min(|Queued(items, known, preview, clock, inTime)|, |missing|)..];
    assert forall i :: i in rest ==> i in missing;
    KeysAt(items, rest)
  }

  function RunOf(items: seq<Incoming>, known: map<Key, ArticleState>, preview: bool, clock: int, inTime: nat,
                 got: Incoming -> Option<string>): ArticleRun {
    ArticleRun(GotBody(items, Queued(items, known, preview, clock, inTime), got),
               Left(items, known, preview, clock, inTime), Listed(items), Count(Listed(items), known))
  }

  lemma FilledOneMore(items: seq<Incoming>, fetched: seq<nat>, i: nat, got: Incoming -> Option<string>)
    requires i < |items|
    ensures Filled(items, fetched + [i], got)
            == if got(items[i]).Some?
               then Filled(items, fetched, got)[i := items[i].(contentFull := got(items[i]).value)]
               else Filled(items, fetched, got)
    ensures GotBody(items, fetched + [i], got)
            == GotBody(items, fetched, got)
               + if got(items[i]).Some? && got(items[i]).value != "" then {items[i].key} else {}
  {
  }

  /** fetchArticles' first loop: what the list page shows and what is worth fetching. */
  method Choose(items: seq<Incoming>, known: map<Key, ArticleState>, preview: bool, clock: int)
    returns (missing: seq<nat>, recent: seq<nat>, listed: seq<Key>, had: nat)
    ensures missing == Missing(items, known, preview) && recent == Recent(items, known, preview, clock)
    ensures listed == Listed(items) && had == Count(listed, known)
  {
    missing, recent, listed, had := [], [], [], 0;
    for i := 0 to |items|
      invariant missing == Missing(items[..i], known, preview) && recent == Recent(items[..i], known, preview, clock)
      invariant listed == Listed(items[..i]) && had == Count(listed, known)
    {
      assert items[..i + 1][..i] == items[..i];
      var it := items[i];
      if it.url != "" {
        listed := listed + [it.key];
        assert listed[..|listed| - 1] == Listed(items[..i]);
        if HasBody(known, it.key) { had := had + 1; }
        if preview || it.key !in known || !known[it.key].hasBody {
          missing := missing + [i];
        } else if known[it.key].firstSeen == 0 || clock - known[it.key].firstSeen * NANOSECONDS <= RECENCY {
          recent := recent + [i];
        }
      }
    }
    assert items[..|items|] == items;
  }

  /** Its queue: `got` is what each story's own page gives, None for a failure, and
      `inTime` how many stories the workers could take before the deadline. */
  method FetchQueued(items: seq<Incoming>, targets: seq<nat>, inTime: nat, got: Incoming -> Option<string>)
    returns (queued: nat, fetched: set<Key>, filled: seq<Incoming>)
    requires forall i :: i in targets ==> i < |items|
    ensures queued == Min(|targets|, inTime)
    ensures filled == Filled(items, targets[..queued], got) && fetched == GotBody(items, targets[..queued], got)
    ensures |filled| == |items| && forall i | 0 <= i < |items| ::
      filled[i] == match (if i in targets[..queued] then got(items[i]) else None)
                   case None => items[i]
                   case Some(body) => items[i].(contentFull := body)
    ensures forall k :: k in fetched <==>
      exists i :: 0 <= i < |items| && i in targets[..queued] && items[i].key == k
                  && got(items[i]).Some? && got(items[i]).value != ""
  {
    queued, fetched, filled := 0, {}, items;
    while queued < |targets| && queued < inTime
      invariant queued <= |targets| && queued <= inTime
      invariant filled == Filled(items, targets[..queued], got)
      invariant fetched == GotBody(items, targets[..queued], got)
    {
      var i := targets[queued];
      assert i in targets && targets[..queued + 1] == targets[..queued] + [i];
      FilledOneMore(items, targets[..queued], i, got);
      var body := got(items[i]);
      if body.Some? {
        filled := filled[i := items[i].(contentFull := body.value)];
        if body.value != "" { fetched := fetched + {items[i].key}; }
      }
      queued := queued + 1;
    }
  }

  /** fetchArticles. */
  method FetchArticles(items: seq<Incoming>, known: map<Key, ArticleState>, preview: bool, clock: int, inTime: nat,
                       got: Incoming -> Option<string>) returns (run: ArticleRun, filled: seq<Incoming>)
    ensures run == RunOf(items, known, preview, clock, inTime, got)
    ensures filled == Filled(items, Queued(items, known, preview, clock, inTime), got)
  {
    var missing, recent, listed, had := Choose(items, known, preview, clock);
    var targets := missing + recent;
    if |targets| > Limit(preview) { targets := targets[..Limit(preview)]; }
    assert targets == Targets(items, known, preview, clock);
    var queued, fetched, found := FetchQueued(items, targets, inTime, got);
    filled := found;
    var rest := missing[if queued < |missing| then queued else |missing|..];
    assert forall i :: i in rest ==> i in missing;
    run := ArticleRun(fetched, KeysAt(items, rest), listed, had);
  }

  // ---------------------------------------------------------------- the flag

  /** More of the listed stories have a body than before, and a story left without one is
      still stored without one. */
  ghost predicate Progressed(stored: map<Key, ArticleState>, run: ArticleRun) {
    && Count(run.listed, stored) > run.had
    && exists key :: key in run.left && key in stored && !stored[key].hasBody
  }

  ghost predicate KeepsFlag(stored: Option<map<Key, ArticleState>>, run: ArticleRun) {
    run.left != [] && run.fetched != {} && stored.Some? && Progressed(stored.value, run)
  }

  /** Whether a refresh asks for the list page without its validators. */
  predicate IsDraining(backlog: map<Id, bool>, id: Id, fetchesArticles: bool) {
    fetchesArticles && (id in backlog ==> backlog[id])
  }

  /** The flags after a stored success; `stored` is None when it cannot be read. */
  ghost function Flagged(backlog: map<Id, bool>, id: Id, fetchesArticles: bool,
                         stored: Option<map<Key, ArticleState>>, run: ArticleRun): map<Id, bool>
  {
    if fetchesArticles then backlog[id := KeepsFlag(stored, run)] else backlog
  }

  // ---------------------------------------------------------------- draining ends

  /** One successful refresh of a full-content feed. */
  datatype Round = Round(now: int, clock: int, items: seq<Incoming>, inTime: nat, got: Incoming -> Option<string>)

  function RoundRun(s: FeedState, r: Round): ArticleRun {
    RunOf(r.items, ArticleStates(s.items), false, r.clock, r.inTime, r.got)
  }

  ghost function After(s: FeedState, r: Round, limit: nat): FeedState {
    var queued := Queued(r.items, ArticleStates(s.items), false, r.clock, r.inTime);
    Succeeded(s, Filled(r.items, queued, r.got), limit, r.now)
  }

  /** The round leaves the feed draining. */
  ghost predicate Drains(s: FeedState, r: Round, limit: nat) {
    KeepsFlag(Some(ArticleStates(After(s, r, limit).items)), RoundRun(s, r))
  }

  ghost predicate Unique(keys: seq<Key>) { forall i, j :: 0 <= i < j < |keys| ==> keys[i] != keys[j] }

  function Keyed(keys: seq<Key>): set<Key> { set k | k in keys }

  function Bodied(keys: seq<Key>, known: map<Key, ArticleState>): set<Key> {
    set k | k in keys && HasBody(known, k)
  }

  lemma OneMoreKey(front: seq<Key>, last: Key, known: map<Key, ArticleState>)
    ensures Keyed(front + [last]) == Keyed(front) + {last}
    ensures Bodied(front + [last], known) == Bodied(front, known) + if HasBody(known, last) then {last} else {}
  {
  }

  lemma {:induction false} CountIsSize(keys: seq<Key>, known: map<Key, ArticleState>)
    requires Unique(keys)
    ensures Count(keys, known) == |Bodied(keys, known)| && |Keyed(keys)| == |keys|
    decreases |keys|
  {
    if keys != [] {
      var n := |keys| - 1;
      assert keys[n] !in Keyed(keys[..n]);
      CountIsSize(keys[..n], known);
      OneMoreKey(keys[..n], keys[n], known);
      assert keys[..n] + [keys[n]] == keys;
    }
  }

  /** A key without a body makes those with one fewer. */
  lemma WaitingLeavesRoom(keys: seq<Key>, known: map<Key, ArticleState>, waiting: Key)
    requires Unique(keys) && waiting in keys && waiting in known && !known[waiting].hasBody
    ensures Count(keys, known) < Min(|keys|, |known|)
  {
    CountIsSize(keys, known);
    SubsetSize(Bodied(keys, known), Keyed(keys) - {waiting});
    SubsetSize(Bodied(keys, known), known.Keys - {waiting});
    assert |known.Keys| == |known|;
  }

  lemma {:induction false} ListedFrom(items: seq<Incoming>)
    requires Distinct(items)
    ensures Unique(Listed(items))
    ensures forall k :: k in Listed(items) <==> exists i :: 0 <= i < |items| && items[i].key == k && items[i].url != ""
    decreases |items|
  {
    if items != [] {
      var n := |items| - 1;
      var front := items[..n];
      ListedFrom(front);
      forall k ensures k in Listed(items) <==> exists i :: 0 <= i < |items| && items[i].key == k && items[i].url != "" {
        if i :| 0 <= i < |items| && items[i].key == k && items[i].url != "" {
          if i < n { assert front[i] == items[i]; }
        }
        if k in Listed(front) {
          var i :| 0 <= i < |front| && front[i].key == k && front[i].url != "";
          assert items[i] == front[i];
        }
      }
      assert items[n].key !in Listed(front);
    }
  }

  lemma {:induction false} MissingFrom(items: seq<Incoming>, known: map<Key, ArticleState>, preview: bool)
    ensures forall i :: i in Missing(items, known, preview) <==> 0 <= i < |items| && IsMissing(items[i], known, preview)
    ensures forall j, k :: 0 <= j < k < |Missing(items, known, preview)| ==>
      Missing(items, known, preview)[j] < Missing(items, known, preview)[k]
    decreases |items|
  {
    if items != [] {
      var n := |items| - 1;
      MissingFrom(items[..n], known, preview);
      var front := Missing(items[..n], known, preview);
      forall i
        ensures i in Missing(items, known, preview) <==> 0 <= i < |items| && IsMissing(items[i], known, preview)
      {
        assert i in Missing(items, known, preview) <==> i in front || (i == n && IsMissing(items[n], known, preview));
      }
      forall j | 0 <= j < |front| ensures front[j] < n { assert front[j] in front; }
    }
  }

  /** A story is fetched again while it was first seen within the hour, or nobody knows when. */
  lemma {:induction false} RecentFrom(items: seq<Incoming>, known: map<Key, ArticleState>, preview: bool, clock: int)
    ensures forall i :: i in Recent(items, known, preview, clock) <==>
      0 <= i < |items| && IsRecent(items[i], known, preview, clock)
    decreases |items|
  {
    if items != [] {
      var n := |items| - 1;
      RecentFrom(items[..n], known, preview, clock);
      var front := Recent(items[..n], known, preview, clock);
      forall i
        ensures i in Recent(items, known, preview, clock)
                <==> 0 <= i < |items| && IsRecent(items[i], known, preview, clock)
      {
        assert i in Recent(items, known, preview, clock)
          <==> i in front || (i == n && IsRecent(items[n], known, preview, clock));
      }
    }
  }

  /** What a round fetches, of the stories with a link: those without a stored body and, in
      a preview, all; then, as far as the limit of ten or three goes, those with one that
      were first seen within the hour or at an unknown time. */
  lemma TargetsMean(items: seq<Incoming>, known: map<Key, ArticleState>, preview: bool, clock: int, i: nat)
    requires i < |items|
    ensures var it, stored := items[i], items[i].key in known && known[items[i].key].hasBody;
      var missing, recent := Missing(items, known, preview), Recent(items, known, preview, clock);
      var targets := Targets(items, known, preview, clock);
      && (i in missing <==> it.url != "" && (preview || !stored))
      && (i in recent <==> it.url != "" && !preview && stored
                           && (known[it.key].firstSeen == 0 || clock <= (known[it.key].firstSeen + 3600) * NANOSECONDS))
      && |targets| == Min(|missing| + |recent|, if preview then 3 else 10)
      && targets <= missing + recent
  {
    MissingFrom(items, known, preview);
    RecentFrom(items, known, preview, clock);
  }

  lemma LeftIsListed(items: seq<Incoming>, known: map<Key, ArticleState>, clock: int, inTime: nat, key: Key)
    requires Distinct(items) && key in Left(items, known, false, clock, inTime)
    ensures key in Listed(items)
  {
    ListedFrom(items);
    MissingFrom(items, known, false);
    var missing := Missing(items, known, false);
    var rest := missing[Min(|Queued(items, known, false, clock, inTime)|, |missing|)..];
    var j :| 0 <= j < |rest| && key == items[rest[j]].key;
    assert rest[j] in missing;
  }

  /** What of a sequence without repetitions a prefix of it and more does not reach. */
  lemma BeyondPrefix(first: seq<nat>, more: seq<nat>, n: nat, i: nat)
    requires n <= |first + more| && forall j, k :: 0 <= j < k < |first| ==> first[j] < first[k]
    ensures i in first[Min(n, |first|)..] <==> i in first && i !in (first + more)[..n]
  {
    var m := Min(n, |first|);
    assert forall j | 0 <= j < m :: (first + more)[..n][j] == first[j];
    assert forall j | m <= j < |first| :: first[m..][j - m] == first[j];
  }

  predicate IsLeft(items: seq<Incoming>, known: map<Key, ArticleState>, clock: int, inTime: nat, i: int)
    requires 0 <= i < |items|
  {
    && items[i].url != "" && !(items[i].key in known && known[items[i].key].hasBody)
    && i !in Queued(items, known, false, clock, inTime)
  }

  /** What a round leaves for the next one: the stories without a body it did not queue. */
  lemma LeftMeans(items: seq<Incoming>, known: map<Key, ArticleState>, clock: int, inTime: nat) returns (rest: seq<nat>)
    ensures (forall i :: i in rest ==> i < |items|) && Left(items, known, false, clock, inTime) == KeysAt(items, rest)
    ensures forall i | 0 <= i < |items| :: i in rest <==> IsLeft(items, known, clock, inTime, i)
  {
    var missing, recent := Missing(items, known, false), Recent(items, known, false, clock);
    var queued := Queued(items, known, false, clock, inTime);
    MissingFrom(items, known, false);
    rest := missing[Min(|queued|, |missing|)..];
    assert forall i :: i in rest ==> i in missing;
    assert queued == (missing + recent)[..|queued|];
    forall i | 0 <= i < |items| ensures i in rest <==> IsLeft(items, known, clock, inTime, i) {
      BeyondPrefix(missing, recent, |queued|, i);
    }
  }

  lemma KeyAt(items: seq<Incoming>, positions: seq<nat>, key: Key)
    requires forall i :: i in positions ==> i < |items|
    ensures key in KeysAt(items, positions) <==> exists i :: i in positions && items[i].key == key
  {
    var keys := KeysAt(items, positions);
    if key in keys { var j :| 0 <= j < |keys| && keys[j] == key; assert positions[j] in positions; }
    if i :| i in positions && items[i].key == key {
      var j :| 0 <= j < |positions| && positions[j] == i;
      assert keys[j] == key;
    }
  }

  ghost predicate IsWaiting(items: seq<Incoming>, before: map<Key, ArticleState>, after: map<Key, ArticleState>,
                            clock: int, inTime: nat, i: int)
    requires 0 <= i < |items|
  {
    IsLeft(items, before, clock, inTime, i) && items[i].key in after && !after[items[i].key].hasBody
  }

  lemma LeftWaits(items: seq<Incoming>, before: map<Key, ArticleState>, after: map<Key, ArticleState>, clock: int,
                  inTime: nat)
    ensures (exists key :: key in Left(items, before, false, clock, inTime) && key in after && !after[key].hasBody)
            <==> exists i :: 0 <= i < |items| && IsWaiting(items, before, after, clock, inTime, i)
  {
    var rest := LeftMeans(items, before, clock, inTime);
    var left := Left(items, before, false, clock, inTime);
    if key :| key in left && key in after && !after[key].hasBody {
      KeyAt(items, rest, key);
      var i :| i in rest && items[i].key == key;
      assert IsWaiting(items, before, after, clock, inTime, i);
    }
    if i :| 0 <= i < |items| && IsWaiting(items, before, after, clock, inTime, i) { KeyAt(items, rest, items[i].key); }
  }

  lemma FetchedMeans(items: seq<Incoming>, queued: seq<nat>, got: Incoming -> Option<string>)
    requires forall i :: i in queued ==> i < |items|
    ensures GotBody(items, queued, got) != {}
            <==> exists i :: i in queued && got(items[i]).Some? && got(items[i]).value != ""
  {
    if i :| i in queued && got(items[i]).Some? && got(items[i]).value != "" {
      assert items[i].key in GotBody(items, queued, got);
    }
  }

  lemma ListedCount(items: seq<Incoming>, known: map<Key, ArticleState>)
    requires Distinct(items)
    ensures Count(Listed(items), known) == |Bodied(Listed(items), known)|
  {
    ListedFrom(items);
    CountIsSize(Listed(items), known);
  }

  lemma KeepsFlagIf(stored: map<Key, ArticleState>, run: ArticleRun, gave: bool, waits: bool)
    requires run.fetched != {} <==> gave
    requires waits <==> exists key :: key in run.left && key in stored && !stored[key].hasBody
    ensures KeepsFlag(Some(stored), run) <==> gave && run.had < Count(run.listed, stored) && waits
  {
  }

  /** The flag after a round: it stays exactly when some queued story's page gave a body,
      more of the listed stories are stored with one than before, and a story without one
      that was not queued is still stored without one. */
  lemma KeepsFlagWhen(items: seq<Incoming>, before: map<Key, ArticleState>, after: map<Key, ArticleState>, clock: int,
                      inTime: nat, got: Incoming -> Option<string>)
    requires Distinct(items)
    ensures var listed, queued := Listed(items), Queued(items, before, false, clock, inTime);
      KeepsFlag(Some(after), RunOf(items, before, false, clock, inTime, got))
      <==> && (exists i :: i in queued && got(items[i]).Some? && got(items[i]).value != "")
           && |Bodied(listed, before)| < |Bodied(listed, after)|
           && (exists i :: 0 <= i < |items| && IsWaiting(items, before, after, clock, inTime, i))
  {
    ListedCount(items, before);
    ListedCount(items, after);
    var queued := Queued(items, before, false, clock, inTime);
    var run := RunOf(items, before, false, clock, inTime, got);
    var gave := exists i :: i in queued && got(items[i]).Some? && got(items[i]).value != "";
    var waits := exists i :: 0 <= i < |items| && IsWaiting(items, before, after, clock, inTime, i);
    assert run.fetched != {} <==> gave by { FetchedMeans(items, queued, got); }
    assert waits <==> exists key :: key in run.left && key in after && !after[key].hasBody by {
      LeftWaits(items, before, after, clock, inTime);
    }
    KeepsFlagIf(after, run, gave, waits);
  }

  lemma DrainsExactly(s: FeedState, r: Round, limit: nat)
    requires Distinct(r.items)
    ensures var before, after := ArticleStates(s.items), ArticleStates(After(s, r, limit).items);
      var listed, queued := Listed(r.items), Queued(r.items, before, false, r.clock, r.inTime);
      Drains(s, r, limit)
      <==> && (exists i :: i in queued && r.got(r.items[i]).Some? && r.got(r.items[i]).value != "")
           && |Bodied(listed, before)| < |Bodied(listed, after)|
           && (exists i :: 0 <= i < |r.items| && IsWaiting(r.items, before, after, r.clock, r.inTime, i))
  {
    KeepsFlagWhen(r.items, ArticleStates(s.items), ArticleStates(After(s, r, limit).items), r.clock, r.inTime, r.got);
  }

  lemma StoredFits(s: FeedState, incoming: seq<Incoming>, limit: nat, now: int)
    ensures |Succeeded(s, incoming, limit, now).items| <= limit
  {
    var after := Succeeded(s, incoming, limit, now);
    var merged := Merged(s.row.id, s.items, incoming, now, ChangedAt(s.row, now));
    NewestSize(merged, merged.Keys, limit);
    assert after.items.Keys == Newest(merged, merged.Keys, limit) && |after.items| == |after.items.Keys|;
  }

  /** A round that leaves the feed draining stores one more body at least, and still has
      a listed story stored without one. */
  lemma DrainingRound(s: FeedState, r: Round, limit: nat)
    requires Distinct(r.items) && Drains(s, r, limit)
    ensures var before, after := ArticleStates(s.items), ArticleStates(After(s, r, limit).items);
      && Count(Listed(r.items), before) < Count(Listed(r.items), after)
      && Count(Listed(r.items), after) < Min(|Listed(r.items)|, limit)
  {
    var after := ArticleStates(After(s, r, limit).items);
    var listed := Listed(r.items);
    var run := RoundRun(s, r);
    var waiting :| waiting in run.left && waiting in after && !after[waiting].hasBody;
    LeftIsListed(r.items, ArticleStates(s.items), r.clock, r.inTime, waiting);
    ListedFrom(r.items);
    WaitingLeavesRoom(listed, after, waiting);
    var queued := Queued(r.items, ArticleStates(s.items), false, r.clock, r.inTime);
    StoredFits(s, Filled(r.items, queued, r.got), limit, r.now);
    assert after.Keys == After(s, r, limit).items.Keys;
    assert |after| == |after.Keys| && |After(s, r, limit).items| == |After(s, r, limit).items.Keys|;
  }

  /** Stored refreshes in a row of an unchanged list page, each leaving the feed draining. */
  ghost predicate IsDrain(states: seq<FeedState>, rounds: seq<Round>, listed: seq<Key>, limit: nat) {
    && |states| == |rounds| + 1
    && forall i {:trigger rounds[i]} :: 0 <= i < |rounds| ==>
         && Distinct(rounds[i].items) && Listed(rounds[i].items) == listed
         && states[i + 1] == After(states[i], rounds[i], limit) && Drains(states[i], rounds[i], limit)
  }

  lemma DrainedAt(states: seq<FeedState>, rounds: seq<Round>, listed: seq<Key>, limit: nat, i: nat)
    requires IsDrain(states, rounds, listed, limit) && i < |rounds|
    ensures var before, after := ArticleStates(states[i].items), ArticleStates(states[i + 1].items);
      Count(listed, before) < Count(listed, after) < Min(|listed|, limit)
  {
    assert Distinct(rounds[i].items);
    DrainingRound(states[i], rounds[i], limit);
  }

  lemma {:induction false} BodiesGrow(states: seq<FeedState>, rounds: seq<Round>, listed: seq<Key>, limit: nat, i: nat)
    requires IsDrain(states, rounds, listed, limit) && i <= |rounds|
    ensures i <= Count(listed, ArticleStates(states[i].items))
  {
    if i > 0 {
      BodiesGrow(states, rounds, listed, limit, i - 1);
      DrainedAt(states, rounds, listed, limit, i - 1);
    }
  }

  /** The drain ends: while the list page stays the same, fewer refreshes in a row keep the
      flag than there are listed stories, and fewer than MAX_ITEMS, whatever article pages
      fail, whenever deadlines strike, and whatever retention drops. */
  lemma DrainEnds(states: seq<FeedState>, rounds: seq<Round>, listed: seq<Key>, limit: nat)
    requires IsDrain(states, rounds, listed, limit) && rounds != []
    ensures |rounds| < Min(|listed|, limit)
  {
    var n := |rounds| - 1;
    BodiesGrow(states, rounds, listed, limit, |rounds|);
    DrainedAt(states, rounds, listed, limit, n);
  }

  /** A full-content feed's stored rows and the flags in memory. */
  datatype Feed = Feed(state: FeedState, backlog: map<Id, bool>)

  /** A refresh whose list page was answered with 304 fetches nothing. */
  const NOTHING_RUN := ArticleRun({}, [], [], 0)

  /** One stored success while the list page stays the same: asked for in full while the
      feed drains, and otherwise answered with 304. `readable` says whether the store can
      then be read back. */
  ghost function Refreshed(feed: Feed, id: Id, r: Round, readable: bool, limit: nat): Feed {
    var full := IsDraining(feed.backlog, id, true);
    var state := if full then After(feed.state, r, limit) else Succeeded(feed.state, [], limit, r.now);
    var stored := if readable then Some(ArticleStates(state.items)) else None;
    Feed(state, Flagged(feed.backlog, id, true, stored, if full then RoundRun(feed.state, r) else NOTHING_RUN))
  }

  class Flags {
    var backlog: map<Id, bool>

    constructor ()
      ensures backlog == map[]
    {
      backlog := map[];
    }

    method Draining(id: Id, fetchesArticles: bool) returns (full: bool)
      ensures full == IsDraining(backlog, id, fetchesArticles)
    {
      full := fetchesArticles && (id !in backlog || backlog[id]);
    }

    method ReadProgress(stored: Option<map<Key, ArticleState>>, run: ArticleRun) returns (progressed: bool)
      ensures progressed <==> stored.Some? && Progressed(stored.value, run)
    {
      if stored.None? { return false; }
      var states, has, waiting := stored.value, 0, false;
      for i := 0 to |run.listed|
        invariant has == Count(run.listed[..i], states)
      {
        assert run.listed[..i + 1][..i] == run.listed[..i];
        if HasBody(states, run.listed[i]) { has := has + 1; }
      }
      assert run.listed[..|run.listed|] == run.listed;
      for i := 0 to |run.left|
        invariant waiting <==> exists key :: key in run.left[..i] && key in states && !states[key].hasBody
      {
        var key := run.left[i];
        assert run.left[..i + 1] == run.left[..i] + [key];
        waiting := waiting || (key in states && !states[key].hasBody);
      }
      assert run.left[..|run.left|] == run.left;
      return has > run.had && waiting;
    }

    /** Follows a stored successful refresh of a feed. */
    method RecordBacklog(id: Id, fetchesArticles: bool, stored: Option<map<Key, ArticleState>>, run: ArticleRun)
      modifies this
      ensures backlog == Flagged(old(backlog), id, fetchesArticles, stored, run)
    {
      if !fetchesArticles { return; }
      var keeps := run.left != [] && run.fetched != {};
      if keeps { keeps := ReadProgress(stored, run); }
      backlog := backlog[id := keeps];
    }

    /** A refresh that succeeds while the list page stays the same, from the question whether
        it asks for the page in full to the flag after it. */
    method Run(id: Id, r: Round, readable: bool, store: StoredFeeds.StoredFeed, limit: nat)
      requires 0 < r.now
      modifies this, store
      ensures var feed := Refreshed(Feed(old(store.State()), old(backlog)), id, r, readable, limit);
        store.State() == feed.state.(runs := store.runs) && backlog == feed.backlog
    {
      var run, items, status := NOTHING_RUN, [], 304;
      var full := Draining(id, true);
      if full {
        run, items := FetchArticles(r.items, ArticleStates(store.items), false, r.clock, r.inTime, r.got);
        status := 200;
      }
      var refresh := Refresh(store.row.version, store.row.failures, false, status, items);
      var outcome := store.Complete(refresh, limit, r.now);
      RecordBacklog(id, true, if readable then Some(ArticleStates(store.items)) else None, run);
    }
  }

  ghost predicate IsRefreshing(feeds: seq<Feed>, rounds: seq<Round>, readable: seq<bool>, id: Id, listed: seq<Key>,
                               limit: nat)
  {
    && |feeds| == |rounds| + 1 == |readable| + 1
    && forall i {:trigger rounds[i]} :: 0 <= i < |rounds| ==>
         && Distinct(rounds[i].items) && Listed(rounds[i].items) == listed
         && feeds[i + 1] == Refreshed(feeds[i], id, rounds[i], readable[i], limit)
  }

  lemma RefreshedAt(feeds: seq<Feed>, rounds: seq<Round>, readable: seq<bool>, id: Id, listed: seq<Key>, limit: nat,
                    i: nat)
    requires IsRefreshing(feeds, rounds, readable, id, listed, limit) && i < |rounds|
    ensures Listed(rounds[i].items) == listed && Distinct(rounds[i].items)
    ensures feeds[i + 1] == Refreshed(feeds[i], id, rounds[i], readable[i], limit)
  {
  }

  /** Only a refresh in full leaves a feed draining. */
  lemma StillDraining(feed: Feed, id: Id, r: Round, readable: bool, limit: nat)
    requires IsDraining(Refreshed(feed, id, r, readable, limit).backlog, id, true)
    ensures IsDraining(feed.backlog, id, true) && Drains(feed.state, r, limit)
    ensures Refreshed(feed, id, r, readable, limit).state == After(feed.state, r, limit)
  {
  }

  lemma DrainingBefore(feeds: seq<Feed>, rounds: seq<Round>, readable: seq<bool>, id: Id, listed: seq<Key>, limit: nat,
                       i: nat)
    requires IsRefreshing(feeds, rounds, readable, id, listed, limit) && i < |rounds|
    requires IsDraining(feeds[i + 1].backlog, id, true)
    ensures IsDraining(feeds[i].backlog, id, true)
    ensures Drains(feeds[i].state, rounds[i], limit) && feeds[i + 1].state == After(feeds[i].state, rounds[i], limit)
  {
    RefreshedAt(feeds, rounds, readable, id, listed, limit, i);
    StillDraining(feeds[i], id, rounds[i], readable[i], limit);
  }

  /** A feed still draining after some refreshes was draining before each of them. */
  lemma {:induction false} DrainingSince(feeds: seq<Feed>, rounds: seq<Round>, readable: seq<bool>, id: Id,
                                         listed: seq<Key>, limit: nat, k: nat, i: nat)
    requires IsRefreshing(feeds, rounds, readable, id, listed, limit) && i <= k <= |rounds|
    requires IsDraining(feeds[k].backlog, id, true)
    ensures IsDraining(feeds[i].backlog, id, true)
    decreases k
  {
    if i < k {
      DrainingBefore(feeds, rounds, readable, id, listed, limit, k - 1);
      DrainingSince(feeds, rounds, readable, id, listed, limit, k - 1, i);
    }
  }

  /** While the list page stays the same, a feed asks for it in full only in its first
      refreshes: as many as there are listed stories, or MAX_ITEMS, and one in any case. */
  lemma FullRequestsEnd(feeds: seq<Feed>, rounds: seq<Round>, readable: seq<bool>, id: Id, listed: seq<Key>,
                        limit: nat, k: nat)
    requires IsRefreshing(feeds, rounds, readable, id, listed, limit) && k < |rounds|
    requires IsDraining(feeds[k].backlog, id, true)
    ensures k < Max(1, Min(|listed|, limit))
  {
    if k > 0 {
      var states := seq(k + 1, i requires 0 <= i <= k => feeds[i].state);
      forall i | 0 <= i < k
        ensures Distinct(rounds[..k][i].items) && Listed(rounds[..k][i].items) == listed
        ensures states[i + 1] == After(states[i], rounds[..k][i], limit) && Drains(states[i], rounds[..k][i], limit)
      {
        DrainingSince(feeds, rounds, readable, id, listed, limit, k, i + 1);
        DrainingBefore(feeds, rounds, readable, id, listed, limit, i);
        RefreshedAt(feeds, rounds, readable, id, listed, limit, i);
      }
      DrainEnds(states, rounds[..k], listed, limit);
    }
  }

  // ---------------------------------------------------------------- how fast a healthy source drains

  lemma {:induction false} MissingIsTheRest(items: seq<Incoming>, known: map<Key, ArticleState>)
    ensures |Missing(items, known, false)| + Count(Listed(items), known) == |Listed(items)|
    decreases |items|
  {
    if items != [] {
      var n := |items| - 1;
      MissingIsTheRest(items[..n], known);
      var listed := Listed(items[..n]);
      assert listed + [] == listed && (listed + [items[n].key])[..|listed|] == listed;
    }
  }

  /** Every article page answers with a body before the deadline, and everything stored
      and listed fits the limit. */
  ghost predicate Healthy(s: FeedState, r: Round, limit: nat) {
    && Distinct(r.items) && (forall it :: it in r.items ==> it.contentFull == "")
    && (forall it :: it in r.items ==> r.got(it).Some? && r.got(it).value != "")
    && MAX_ARTICLES <= r.inTime
    && |s.items.Keys + Keys(r.items)| <= limit
  }

  /** The stories without a body that a healthy round reaches. */
  function Reached(items: seq<Incoming>, known: map<Key, ArticleState>): (r: seq<nat>)
    ensures forall i :: i in r ==> i < |items|
  {
    var missing := Missing(items, known, false);
    var first := missing[..Min(|missing|, MAX_ARTICLES)];
    assert forall i :: i in first ==> i in missing;
    first
  }

  lemma ReachedKeys(items: seq<Incoming>, known: map<Key, ArticleState>)
    requires Distinct(items)
    ensures Unique(KeysAt(items, Reached(items, known)))
    ensures forall k :: k in KeysAt(items, Reached(items, known)) ==> k in Listed(items) && !HasBody(known, k)
  {
    var reached := Reached(items, known);
    var keys := KeysAt(items, reached);
    MissingFrom(items, known, false);
    ListedFrom(items);
    forall j | 0 <= j < |keys| ensures keys[j] in Listed(items) && !HasBody(known, keys[j]) {
      assert reached[j] in Missing(items, known, false);
    }
    forall i, j | 0 <= i < j < |keys| ensures keys[i] != keys[j] {
      assert reached[i] in reached && reached[j] in reached && reached[i] < reached[j];
    }
  }

  /** With room for everything, retention drops nothing. */
  lemma NothingDropped(s: FeedState, incoming: seq<Incoming>, limit: nat, now: int)
    requires Distinct(incoming) && |s.items.Keys + Keys(incoming)| <= limit
    ensures Succeeded(s, incoming, limit, now).items == Merged(s.row.id, s.items, incoming, now, ChangedAt(s.row, now))
    ensures Succeeded(s, incoming, limit, now).items.Keys == s.items.Keys + Keys(incoming)
  {
    var merged := Merged(s.row.id, s.items, incoming, now, ChangedAt(s.row, now));
    MergedAt(s.row.id, s.items, incoming, now, ChangedAt(s.row, now), "");
    AllAreNewest(merged, limit);
    assert Restrict(merged, merged.Keys) == merged;
  }

  lemma AllAreNewest(items: map<Key, Item>, limit: nat)
    requires |items.Keys| <= limit
    ensures Newest(items, items.Keys, limit) == items.Keys
  {
    var kept := Newest(items, items.Keys, limit);
    NewestSize(items, items.Keys, limit);
    if kept != items.Keys {
      var dropped :| dropped in items.Keys && dropped !in kept;
      SubsetSize(kept, items.Keys - {dropped});
      assert false;
    }
  }

  lemma FilledKeys(items: seq<Incoming>, fetched: seq<nat>, got: Incoming -> Option<string>)
    requires Distinct(items)
    ensures Keys(Filled(items, fetched, got)) == Keys(items) && Distinct(Filled(items, fetched, got))
  {
    var filled := Filled(items, fetched, got);
    forall k ensures k in Keys(filled) <==> k in Keys(items) {
      if k in Keys(items) { var j :| 0 <= j < |items| && items[j].key == k; assert filled[j] in filled; }
      if k in Keys(filled) { var j :| 0 <= j < |filled| && filled[j].key == k; assert items[j] in items; }
    }
  }

  /** A merge with room for everything gives a listed story a body when it had or found one. */
  lemma MergedBody(s: FeedState, incoming: seq<Incoming>, limit: nat, now: int, it: Incoming)
    requires Distinct(incoming) && |s.items.Keys + Keys(incoming)| <= limit && it in incoming
    ensures var before, after := ArticleStates(s.items), ArticleStates(Succeeded(s, incoming, limit, now).items);
      && it.key in after
      && (HasBody(after, it.key) <==> HasBody(before, it.key) || it.contentFull != "")
  {
    NothingDropped(s, incoming, limit, now);
    MergedAt(s.row.id, s.items, incoming, now, ChangedAt(s.row, now), it.key);
    var after := Succeeded(s, incoming, limit, now).items;
    assert it.key in Keys(incoming);
    UpsertedBody(s.row.id, s.items, after, it, now, ChangedAt(s.row, now));
  }

  lemma UpsertedBody(feed: string, items: map<Key, Item>, after: map<Key, Item>, it: Incoming, now: int, changedAt: int)
    requires it.key in after && after[it.key] == Upsert(feed, Lookup(items, it.key), it, now, changedAt)
    ensures HasBody(ArticleStates(after), it.key) <==> HasBody(ArticleStates(items), it.key) || it.contentFull != ""
  {
  }

  /** Which listed stories a healthy round leaves with a body: those that had one and
      those it reached. */
  lemma HealthyBody(s: FeedState, r: Round, limit: nat, i: nat)
    requires Healthy(s, r, limit) && i < |r.items| && r.items[i].url != ""
    ensures var before, after := ArticleStates(s.items), ArticleStates(After(s, r, limit).items);
      && r.items[i].key in after
      && (HasBody(after, r.items[i].key) <==> HasBody(before, r.items[i].key) || i in Reached(r.items, before))
  {
    var before := ArticleStates(s.items);
    var queued := Queued(r.items, before, false, r.clock, r.inTime);
    var filled := Filled(r.items, queued, r.got);
    FilledKeys(r.items, queued, r.got);
    assert filled[i] in filled && r.items[i] in r.items;
    MergedBody(s, filled, limit, r.now, filled[i]);
    HealthyQueue(r.items, before, r.clock, r.inTime, i);
  }

  /** A healthy round's queue holds what it reaches, and otherwise stories with a body. */
  lemma HealthyQueue(items: seq<Incoming>, known: map<Key, ArticleState>, clock: int, inTime: nat, i: nat)
    requires MAX_ARTICLES <= inTime && i < |items| && items[i].url != ""
    ensures i in Reached(items, known) ==> i in Queued(items, known, false, clock, inTime)
    ensures i in Queued(items, known, false, clock, inTime) ==>
      i in Reached(items, known) || HasBody(known, items[i].key)
  {
    var missing, recent := Missing(items, known, false), Recent(items, known, false, clock);
    var queued, reached := Queued(items, known, false, clock, inTime), Reached(items, known);
    assert queued == (missing + recent)[..Min(|missing + recent|, MAX_ARTICLES)];
    assert reached == queued[..|reached|];
    if i in queued && i !in reached {
      var j :| 0 <= j < |queued| && queued[j] == i;
      assert queued[j] == (missing + recent)[j] && j >= |missing|;
      RecentHasBody(items, known, clock, j - |missing|);
    }
  }

  lemma {:induction false} RecentHasBody(items: seq<Incoming>, known: map<Key, ArticleState>, clock: int, j: nat)
    requires j < |Recent(items, known, false, clock)|
    ensures Recent(items, known, false, clock)[j] < |items|
    ensures HasBody(known, items[Recent(items, known, false, clock)[j]].key)
    decreases |items|
  {
    var n := |items| - 1;
    if j < |Recent(items[..n], known, false, clock)| { RecentHasBody(items[..n], known, clock, j); }
  }

  /** Bodies that appear exactly at the reached stories. */
  ghost predicate BodiesAppear(items: seq<Incoming>, before: map<Key, ArticleState>, after: map<Key, ArticleState>) {
    forall i {:trigger items[i].key} :: 0 <= i < |items| && items[i].url != "" ==>
      (HasBody(after, items[i].key) <==> HasBody(before, items[i].key) || i in Reached(items, before))
  }

  lemma ReachedAt(items: seq<Incoming>, known: map<Key, ArticleState>, i: nat)
    requires Distinct(items) && i < |items|
    ensures i in Reached(items, known) <==> items[i].key in KeysAt(items, Reached(items, known))
  {
    var reached := Reached(items, known);
    var keys := KeysAt(items, reached);
    if i in reached { var j :| 0 <= j < |reached| && reached[j] == i; assert keys[j] == items[i].key; }
    if items[i].key in keys {
      var j :| 0 <= j < |keys| && keys[j] == items[i].key;
      assert reached[j] in reached && reached[j] == i;
    }
  }

  lemma AppearingKey(items: seq<Incoming>, before: map<Key, ArticleState>, after: map<Key, ArticleState>, k: Key)
    requires Distinct(items) && BodiesAppear(items, before, after)
    ensures k in Bodied(Listed(items), after)
            <==> k in Bodied(Listed(items), before) || k in KeysAt(items, Reached(items, before))
  {
    ListedFrom(items);
    ReachedKeys(items, before);
    if k in Listed(items) {
      var i :| 0 <= i < |items| && items[i].key == k && items[i].url != "";
      ReachedAt(items, before, i);
    }
  }

  lemma AppearingCount(listed: seq<Key>, keys: seq<Key>, before: map<Key, ArticleState>, after: map<Key, ArticleState>)
    requires Unique(listed) && Unique(keys) && (forall k :: k in keys ==> !HasBody(before, k))
    requires Bodied(listed, after) == Bodied(listed, before) + Keyed(keys)
    ensures Count(listed, after) == Count(listed, before) + |keys|
  {
    CountIsSize(listed, before);
    CountIsSize(listed, after);
    CountIsSize(keys, before);
    assert Bodied(listed, before) !! Keyed(keys);
  }

  lemma AppearingBodies(items: seq<Incoming>, before: map<Key, ArticleState>, after: map<Key, ArticleState>)
    requires Distinct(items) && BodiesAppear(items, before, after)
    ensures Count(Listed(items), after)
            == Count(Listed(items), before) + Min(|Missing(items, before, false)|, MAX_ARTICLES)
  {
    var keys := KeysAt(items, Reached(items, before));
    ReachedKeys(items, before);
    ListedFrom(items);
    forall k ensures k in Bodied(Listed(items), after) <==> k in Bodied(Listed(items), before) + Keyed(keys) {
      AppearingKey(items, before, after, k);
    }
    assert Bodied(Listed(items), after) == Bodied(Listed(items), before) + Keyed(keys);
    AppearingCount(Listed(items), keys, before, after);
  }

  /** With more than ten missing, a healthy round fetches the first ten and leaves the rest. */
  lemma HealthyRunLeaves(s: FeedState, r: Round, limit: nat)
    requires Healthy(s, r, limit)
    ensures var missing, run := Missing(r.items, ArticleStates(s.items), false), RoundRun(s, r);
      && (run.left != [] <==> |missing| > MAX_ARTICLES)
      && (|missing| > MAX_ARTICLES ==>
            run.fetched != {} && missing[MAX_ARTICLES] < |r.items| && run.left[0] == r.items[missing[MAX_ARTICLES]].key)
  {
    var before := ArticleStates(s.items);
    var missing, recent := Missing(r.items, before, false), Recent(r.items, before, false, r.clock);
    var queued := Queued(r.items, before, false, r.clock, r.inTime);
    assert queued == (missing + recent)[..Min(|missing + recent|, MAX_ARTICLES)];
    if |missing| > MAX_ARTICLES {
      assert queued[0] in queued && missing[MAX_ARTICLES] in missing;
      assert r.items[queued[0]] in r.items;
      assert r.items[queued[0]].key in RoundRun(s, r).fetched;
    }
  }

  /** A healthy round stores up to ten bodies more, and leaves the feed draining exactly
      when more than ten were missing. */
  lemma HealthyRound(s: FeedState, r: Round, limit: nat)
    requires Healthy(s, r, limit)
    ensures var before, after := ArticleStates(s.items), ArticleStates(After(s, r, limit).items);
      && |Missing(r.items, after, false)| == Max(0, |Missing(r.items, before, false)| - MAX_ARTICLES)
      && (Drains(s, r, limit) <==> |Missing(r.items, before, false)| > MAX_ARTICLES)
  {
    var before, after := ArticleStates(s.items), ArticleStates(After(s, r, limit).items);
    HealthyCount(s, r, limit);
    MissingIsTheRest(r.items, before);
    MissingIsTheRest(r.items, after);
    HealthyDrains(s, r, limit);
  }

  lemma HealthyDrains(s: FeedState, r: Round, limit: nat)
    requires Healthy(s, r, limit)
    ensures Drains(s, r, limit) <==> |Missing(r.items, ArticleStates(s.items), false)| > MAX_ARTICLES
  {
    var run, missing := RoundRun(s, r), Missing(r.items, ArticleStates(s.items), false);
    var after := ArticleStates(After(s, r, limit).items);
    HealthyRunLeaves(s, r, limit);
    if |missing| > MAX_ARTICLES {
      HealthyCount(s, r, limit);
      HealthyWaiting(s, r, limit, missing[MAX_ARTICLES]);
      assert run.left[0] in run.left;
      assert Progressed(after, run);
    }
  }

  /** How many listed stories have a body after a healthy round. */
  lemma HealthyCount(s: FeedState, r: Round, limit: nat)
    requires Healthy(s, r, limit)
    ensures var before, after := ArticleStates(s.items), ArticleStates(After(s, r, limit).items);
      Count(Listed(r.items), after)
          == Count(Listed(r.items), before) + Min(|Missing(r.items, before, false)|, MAX_ARTICLES)
  {
    var before, after := ArticleStates(s.items), ArticleStates(After(s, r, limit).items);
    forall i | 0 <= i < |r.items| && r.items[i].url != ""
      ensures HasBody(after, r.items[i].key) <==> HasBody(before, r.items[i].key) || i in Reached(r.items, before)
    {
      HealthyBody(s, r, limit, i);
    }
    AppearingBodies(r.items, before, after);
  }

  lemma HealthyWaiting(s: FeedState, r: Round, limit: nat, i: nat)
    requires Healthy(s, r, limit)
    requires |Missing(r.items, ArticleStates(s.items), false)| > MAX_ARTICLES
    requires i == Missing(r.items, ArticleStates(s.items), false)[MAX_ARTICLES]
    ensures var after := ArticleStates(After(s, r, limit).items);
      i < |r.items| && r.items[i].key in after && !after[r.items[i].key].hasBody
  {
    var missing := Missing(r.items, ArticleStates(s.items), false);
    MissingFrom(r.items, ArticleStates(s.items), false);
    assert i in missing;
    assert i !in Reached(r.items, ArticleStates(s.items));
    HealthyBody(s, r, limit, i);
  }

  // ---------------------------------------------------------------- a whole healthy drain

  /** How many listed stories are not stored with a body. */
  function Waiting(feed: Feed, listed: seq<Key>): int { |listed| - Count(listed, ArticleStates(feed.state.items)) }

  /** A refresh answered with 304 changes no story. */
  lemma QuietRound(s: FeedState, limit: nat, now: int)
    requires |s.items.Keys| <= limit
    ensures Succeeded(s, [], limit, now).items == s.items
  {
    assert s.items.Keys + Keys([]) == s.items.Keys;
    NothingDropped(s, [], limit, now);
  }

  /** A refresh in full stores ten bodies more and drains on if more were waiting; one that
      is answered with 304 changes nothing and does not drain. */
  ghost predicate DrainsOn(feed: Feed, next: Feed, id: Id, listed: seq<Key>) {
    if IsDraining(feed.backlog, id, true) then
      && Waiting(next, listed) == Max(0, Waiting(feed, listed) - MAX_ARTICLES)
      && (IsDraining(next.backlog, id, true) <==> Waiting(feed, listed) > MAX_ARTICLES)
    else Waiting(next, listed) == Waiting(feed, listed) && !IsDraining(next.backlog, id, true)
  }

  lemma HealthyStep(feed: Feed, id: Id, r: Round, limit: nat)
    requires Healthy(feed.state, r, limit)
    ensures DrainsOn(feed, Refreshed(feed, id, r, true, limit), id, Listed(r.items))
  {
    var next := Refreshed(feed, id, r, true, limit);
    if IsDraining(feed.backlog, id, true) {
      HealthyRound(feed.state, r, limit);
      MissingIsTheRest(r.items, ArticleStates(feed.state.items));
      MissingIsTheRest(r.items, ArticleStates(next.state.items));
    } else {
      SubsetSize(feed.state.items.Keys, feed.state.items.Keys + Keys(r.items));
      QuietRound(feed.state, limit, r.now);
      assert next.state.items == feed.state.items;
    }
  }

  ghost predicate AllHealthy(feeds: seq<Feed>, rounds: seq<Round>, readable: seq<bool>, limit: nat) {
    && |feeds| == |rounds| + 1 == |readable| + 1
    && forall i {:trigger rounds[i]} :: 0 <= i < |rounds| ==> Healthy(feeds[i].state, rounds[i], limit) && readable[i]
  }

  lemma HealthyAt(feeds: seq<Feed>, rounds: seq<Round>, readable: seq<bool>, limit: nat, i: nat)
    requires AllHealthy(feeds, rounds, readable, limit) && i < |rounds|
    ensures Healthy(feeds[i].state, rounds[i], limit) && readable[i]
  {
    assert rounds[i] == rounds[i];
  }

  lemma HealthyStepAt(feeds: seq<Feed>, rounds: seq<Round>, readable: seq<bool>, id: Id, listed: seq<Key>, limit: nat,
                      i: nat)
    requires IsRefreshing(feeds, rounds, readable, id, listed, limit) && i < |rounds|
    requires AllHealthy(feeds, rounds, readable, limit)
    ensures DrainsOn(feeds[i], feeds[i + 1], id, listed)
  {
    RefreshedAt(feeds, rounds, readable, id, listed, limit, i);
    HealthyAt(feeds, rounds, readable, limit, i);
    HealthyStep(feeds[i], id, rounds[i], limit);
  }

  /** A feed nobody refreshed yet, over a source that answers in time and with room to store:
      refresh after refresh it stores ten bodies more until all listed stories have one, and
      it asks for the whole page at first and for as long as more than that is waiting. */
  lemma {:induction false} HealthyDrain(feeds: seq<Feed>, rounds: seq<Round>, readable: seq<bool>, id: Id,
                                        listed: seq<Key>, limit: nat, k: nat)
    requires IsRefreshing(feeds, rounds, readable, id, listed, limit) && k <= |rounds|
    requires AllHealthy(feeds, rounds, readable, limit)
    requires id !in feeds[0].backlog && 0 <= Waiting(feeds[0], listed)
    ensures Waiting(feeds[k], listed) == Max(0, Waiting(feeds[0], listed) - k * MAX_ARTICLES)
    ensures IsDraining(feeds[k].backlog, id, true) <==> k == 0 || Waiting(feeds[0], listed) > k * MAX_ARTICLES
    decreases k
  {
    if k > 0 {
      HealthyDrain(feeds, rounds, readable, id, listed, limit, k - 1);
      HealthyStepAt(feeds, rounds, readable, id, listed, limit, k - 1);
    }
  }
}
