/** The refresh protocol across scheduler and store, as interleaved atomic steps: a tick
    reads the feed list and starts due feeds from that copy; jobs run, save their result
    against the version they started from, raise their alert, and end in two critical
    sections; edits, filter edits, previews, creation and deletion happen at any time. */
module Protocol {
  import opened Wrappers
  import opened Admission
  import opened Store
  import A = Alerts

  const NANOSECONDS := 1_000_000_000

  /** What a refresh took from the list: the row's version and failure count then. */
  datatype Snapshot = Snapshot(version: int, failures: nat)

  /** A job before it saves, after its result was stored (as entry `at` of the feed's
      history), when it has nothing more to do, and once its end time is recorded. */
  datatype Phase = Running | Saved(at: nat, ok: bool) | Done | Ended

  datatype Job = Job(snap: Snapshot, listed: int, phase: Phase)

  /** Everything about one id: the stored feed, its copy in the tick's list until the tick
      has passed it, its refresh, whether it is a preview, and whether its failing is out.
      The last fields are history, which the program never reads: the events raised, the
      failure count when the process started, the stored results and edits since, and when
      the last refresh ended. */
  datatype Node = Node(
    feed: Option<FeedState>, copy: Option<Snapshot>, job: Option<Job>, preview: bool, reported: bool,
    alerts: seq<Option<A.Kind>>, start: nat, log: seq<A.Entry>, lastEnd: Option<int>)

  /** The single tick: waiting, reading the list, holding it, or starting feeds from it. */
  datatype Tick = Idle | Listing | Listed | Dispatching

  /** `listed` is when the tick began to read its list, the latest one if it is idle. */
  datatype Sys = Sys(now: int, tick: Tick, listed: int, desk: Desk, nodes: map<Id, Node>)

  datatype Act =
    | Skip
    | Start(solver: Option<Solver>, browser: Chromium)
    | Save(run: Refresh, limit: nat)
    | GiveUp
    | Alert
    | MarkEnd
    | Release
    | DoneWithSolver
    | DoneWithChromium
    | EndPreview
    | EditFeed(edit: Edit)
    | EditFilter(history: Option<Item -> bool>)
    | Delete

  datatype Action =
    | Wait(until: int)
    | BeginTick
    | ListFailed
    | ReadList
    | StartDispatch
    | EndDispatch
    | StartPreview(id: Id, solver: Option<Solver>, browser: Chromium)
    | Create(id: Id, feed: FeedState)
    | On(id: Id, act: Act)

  function Find<V>(m: map<Id, V>, id: Id): Option<V> { if id in m then Some(m[id]) else None }

  function NewNode(feed: Option<FeedState>, preview: bool): Node {
    Node(feed, None, None, preview, false, [], 0, [], None)
  }

  // ---------------------------------------------------------------- steps on one id

  ghost predicate Can(n: Node, tick: Tick, act: Act) {
    match act
    case Skip => tick.Dispatching? && n.copy.Some?
    case Start(_, _) => tick.Dispatching? && n.copy.Some?
    // A refresh passes what it read from the list, and saves within its job.
    case Save(run, _) =>
      n.job.Some? && n.job.value.phase.Running? && Snapshot(run.version, run.failures) == n.job.value.snap
    case GiveUp => n.job.Some? && n.job.value.phase.Running?
    case Alert => n.job.Some? && n.job.value.phase.Saved?
    case MarkEnd => n.job.Some? && n.job.value.phase.Done?
    case Release => n.job.Some? && n.job.value.phase.Ended?
    case DoneWithSolver => n.job.Some? || n.preview
    case DoneWithChromium => n.job.Some? || n.preview
    case EndPreview => n.preview
    case EditFeed(_) => n.feed.Some?
    case EditFilter(_) => n.feed.Some?
    case Delete => n.feed.Some?
  }

  function Moved(n: Node, phase: Phase): Node
    requires n.job.Some?
  {
    n.(job := Some(n.job.value.(phase := phase)))
  }

  /** CompleteWithDiagnostics within a job: stored, or discarded as stale or deleted. */
  ghost function SavedBy(n: Node, run: Refresh, limit: nat, now: int): Node
    requires n.job.Some?
  {
    if n.feed.None? || n.feed.value.row.version != run.version then Moved(n, Done)
    else
      Moved(n, Saved(|n.log|, !run.failed))
        .(feed := Some(Completed(n.feed.value, run, limit, now / NANOSECONDS)), log := n.log + [A.Result(!run.failed)])
  }

  /** alertRefresh for a stored result. */
  function Alerted(n: Node, threshold: nat): Node
    requires n.job.Some? && n.job.value.phase.Saved?
  {
    var ok, failures := n.job.value.phase.ok, n.job.value.snap.failures;
    Moved(n, Done).(alerts := n.alerts + [A.Event(threshold, ok, failures, n.reported)],
                    reported := A.StillReported(threshold, ok, failures, n.reported))
  }

  /** An editor save; a history too long to prune rolls it back. */
  ghost function EditedBy(n: Node, edit: Edit, now: int): Node
    requires n.feed.Some?
  {
    var stored := n.(feed := Some(Edited(n.feed.value, edit, now / NANOSECONDS)));
    if edit.history.Some? && |n.feed.value.items| > MAX_HISTORY then stored else stored.(log := n.log + [A.Edit])
  }

  /** What an action does to the id it is about; `refused` is reserve's answer. */
  ghost function Acted(n: Node, tick: Tick, act: Act, refused: bool, listed: int, now: int, threshold: nat): Node
    requires Can(n, tick, act)
  {
    match act
    case Skip => n.(copy := None)
    case Start(_, _) =>
      if refused then n.(copy := None)
      else n.(copy := None, job := Some(Job(n.copy.value, listed, Running)))
    case Save(run, limit) => SavedBy(n, run, limit, now)
    case GiveUp => Moved(n, Done)
    case Alert => Alerted(n, threshold)
    case MarkEnd => Moved(n, Ended).(lastEnd := Some(now))
    case Release => n.(job := None)
    case DoneWithSolver => n
    case DoneWithChromium => n
    case EndPreview => n.(preview := false)
    case EditFeed(edit) => EditedBy(n, edit, now)
    case EditFilter(history) => n.(feed := Some(FilterEdited(n.feed.value, history, now / NANOSECONDS)))
    case Delete => n.(feed := None)
  }

  /** What it does to the scheduler's shared state. */
  function DeskAfter(desk: Desk, id: Id, act: Act, listed: int, now: int): Desk {
    match act
    case Start(solver, browser) =>
      if Answer(desk, id, solver, browser, Some(listed)).Some? then desk else Admitted(desk, id, solver.Some?, browser)
    case MarkEnd => Marked(desk, id, now)
    case Release => if 0 < desk.used then Released(desk, id) else desk
    case EndPreview => if 0 < desk.used then Released(desk, id) else desk
    case DoneWithSolver => SolverDone(desk, id)
    case DoneWithChromium => ChromiumDone(desk, id)
    case _ => desk
  }

  function Refused(desk: Desk, id: Id, act: Act, listed: int): bool {
    act.Start? && Answer(desk, id, act.solver, act.browser, Some(listed)).Some?
  }

  // ---------------------------------------------------------------- steps of the system

  function CopyOf(n: Node): Option<Snapshot> {
    if n.feed.None? then None else Some(Snapshot(n.feed.value.row.version, n.feed.value.row.failures))
  }

  ghost predicate Enabled(s: Sys, a: Action) {
    match a
    case Wait(until) => s.now <= until
    case BeginTick => s.tick.Idle?
    case ListFailed => s.tick.Listing?
    case ReadList => s.tick.Listing?
    case StartDispatch => s.tick.Listed?
    case EndDispatch => s.tick.Dispatching?
    case StartPreview(id, _, _) => id !in s.nodes
    case Create(id, feed) => id !in s.nodes && feed.row.failures == 0
    case On(id, act) => id in s.nodes && Can(s.nodes[id], s.tick, act)
  }

  /** One step. The clock reading of a step is the current time. */
  ghost function Step(s: Sys, threshold: nat, a: Action): Sys
    requires Enabled(s, a)
  {
    match a
    case Wait(until) => s.(now := until)
    case BeginTick => s.(tick := Listing, listed := s.now)
    case ListFailed => s.(tick := Idle)
    case ReadList => s.(tick := Listed, nodes := map id | id in s.nodes :: s.nodes[id].(copy := CopyOf(s.nodes[id])))
    case StartDispatch =>
      s.(tick := Dispatching, desk := Forgotten(s.desk, s.listed),
         nodes := map id | id in s.nodes :: s.nodes[id].(reported := s.nodes[id].reported && s.nodes[id].copy.Some?))
    case EndDispatch => s.(tick := Idle, nodes := map id | id in s.nodes :: s.nodes[id].(copy := None))
    case StartPreview(id, solver, browser) =>
      if Answer(s.desk, id, solver, browser, None).Some? then s
      else s.(desk := Admitted(s.desk, id, solver.Some?, browser), nodes := s.nodes[id := NewNode(None, true)])
    case Create(id, feed) => s.(nodes := s.nodes[id := NewNode(Some(feed), false)])
    case On(id, act) =>
      s.(desk := DeskAfter(s.desk, id, act, s.listed, s.now),
         nodes := s.nodes[id := Acted(s.nodes[id], s.tick, act, Refused(s.desk, id, act, s.listed),
                                            s.listed, s.now, threshold)])
  }

  // ---------------------------------------------------------------- the invariant

  /** A copy of a row is current as far as the row's version says, or cannot be used: the
      feed is running, or ended too recently for this list. */
  ghost predicate Usable(n: Node, finished: Option<int>, listed: int) {
    n.copy.Some? && n.feed.Some? ==>
      var copy, row := n.copy.value, n.feed.value.row;
      && copy.version <= row.version
      && (copy.version == row.version && copy.failures != row.failures ==>
            || (n.job.Some? && !n.job.value.phase.Ended?)
            || (finished.Some? && listed <= finished.value))
  }

  /** A running job's copy of the row is current as far as the row's version says. */
  ghost predicate Current(n: Node) {
    n.job.Some? && n.job.value.phase.Running? && n.feed.Some? ==>
      var snap, row := n.job.value.snap, n.feed.value.row;
      snap.version <= row.version && (snap.version == row.version ==> snap.failures == row.failures)
  }

  /** How many entries of a feed's history have raised their event. */
  function Settled(n: Node): (k: nat)
    ensures k <= |n.log|
  {
    if n.job.Some? && n.job.value.phase.Saved? then Min(n.job.value.phase.at, |n.log|) else |n.log|
  }

  /** The row's failure count is the streak of the feed's stored history; the alerts sent
      are those the settled history raises. */
  ghost predicate Counted(n: Node, threshold: nat) {
    n.feed.Some? ==>
      && n.feed.value.row.failures == A.Streak(n.start, n.log)
      && n.alerts == A.Events(threshold, n.start, n.log[..Settled(n)])
      && n.reported == A.Reported(threshold, n.start, n.log[..Settled(n)])
  }

  /** A job between saving and alerting: its result is in the history, and since then
      there were only edits. */
  ghost predicate Pending(n: Node) {
    n.job.Some? && n.job.value.phase.Saved? && n.feed.Some? ==>
      var at := n.job.value.phase.at;
      && at < |n.log| && n.log[at] == A.Result(n.job.value.phase.ok)
      && n.job.value.snap.failures == A.Streak(n.start, n.log[..at])
      && forall k | at < k < |n.log| :: n.log[k].Edit?
  }

  /** End times are remembered until a later list is used. */
  ghost predicate Ends(n: Node, finished: Option<int>, listed: int, now: int) {
    && (finished.Some? ==> n.lastEnd == finished)
    && (n.lastEnd.Some? ==> n.lastEnd.value <= now && !n.preview && (finished.None? ==> n.lastEnd.value < listed))
    && (n.job.Some? && n.lastEnd.Some? && !n.job.value.phase.Ended? ==> n.lastEnd.value < n.job.value.listed)
    && (n.job.Some? && n.job.value.phase.Ended? ==> n.lastEnd.Some?)
  }

  ghost predicate InTick(n: Node, tick: Tick) {
    && (n.copy.Some? ==> tick.Listed? || tick.Dispatching?)
    && (tick.Listed? && n.feed.Some? && n.copy.None? ==> n.job.None? && !n.reported)
    && (n.preview ==> n.feed.None? && n.job.None? && n.copy.None?)
  }

  ghost predicate NodeInv(n: Node, finished: Option<int>, tick: Tick, listed: int, now: int, threshold: nat) {
    && InTick(n, tick) && Ends(n, finished, listed, now)
    && Usable(n, finished, listed) && Current(n) && Pending(n) && Counted(n, threshold)
  }

  predicate Working(n: Node) { n.job.Some? || n.preview }

  ghost predicate Occupied(nodes: map<Id, Node>, id: Id) {
    id in nodes && Working(nodes[id])
  }

  ghost predicate Inv(s: Sys, threshold: nat) {
    && Sound(s.desk) && s.listed <= s.now
    && s.desk.finished.Keys <= s.nodes.Keys
    && (forall id :: id in s.desk.active <==> Occupied(s.nodes, id))
    && (forall id | id in s.nodes ::
          NodeInv(s.nodes[id], Find(s.desk.finished, id), s.tick, s.listed, s.now, threshold))
  }

  /** When the process starts: feeds with any stored count, and nothing else. */
  ghost predicate Init(s: Sys) {
    && s.tick.Idle? && s.listed <= s.now
    && s.desk == Desk(s.desk.capacity, s.desk.pool, 0, {}, {}, {}, map[])
    && forall id | id in s.nodes :: s.nodes[id].feed.Some?
         && s.nodes[id] == NewNode(s.nodes[id].feed, false).(start := s.nodes[id].feed.value.row.failures)
  }

  // ---------------------------------------------------------------- what store writes do to a row

  lemma CompletedCounts(f: FeedState, run: Refresh, limit: nat, now: int)
    ensures var after := Completed(f, run, limit, now).row;
      && after.version == f.row.version
      && after.failures == if run.version != f.row.version then f.row.failures
                           else if run.failed then run.failures + 1 else 0
  {
  }

  lemma EditedCounts(f: FeedState, e: Edit, now: int)
    ensures var after := Edited(f, e, now).row;
      if e.history.Some? && |f.items| > MAX_HISTORY then after == f.row
      else after.version == f.row.version + 1 && after.failures == 0
  {
  }

  lemma FilterEditedCounts(f: FeedState, history: Option<Item -> bool>, now: int)
    ensures var after := FilterEdited(f, history, now).row;
      after.failures == f.row.failures && f.row.version <= after.version
      && (after.version == f.row.version ==> after == f.row)
  {
  }

  // ---------------------------------------------------------------- histories

  lemma LogSnoc(threshold: nat, start: nat, log: seq<A.Entry>, e: A.Entry)
    ensures var all := log + [e];
      && all[..|log|] == log
      && A.Streak(start, all) == (if e == A.Result(false) then A.Streak(start, log) + 1 else 0)
      && (e.Edit? ==> A.Events(threshold, start, all) == A.Events(threshold, start, log)
                      && A.Reported(threshold, start, all) == A.Reported(threshold, start, log))
      && (e.Result? ==>
            && A.Events(threshold, start, all) == A.Events(threshold, start, log)
                 + [A.Event(threshold, e.ok, A.Streak(start, log), A.Reported(threshold, start, log))]
            && A.Reported(threshold, start, all)
                 == A.StillReported(threshold, e.ok, A.Streak(start, log), A.Reported(threshold, start, log)))
  {
    var all := log + [e];
    assert all[..|all| - 1] == log && all[|all| - 1] == e && all[..|log|] == log;
    assert e.Edit? ==> A.Events(threshold, start, log) + [] == A.Events(threshold, start, log);
  }

  /** Edits after an entry raise nothing. */
  lemma {:induction false} EditsSettle(threshold: nat, start: nat, log: seq<A.Entry>, n: nat)
    requires n <= |log| && forall k | n <= k < |log| :: log[k].Edit?
    ensures A.Events(threshold, start, log) == A.Events(threshold, start, log[..n])
    ensures A.Reported(threshold, start, log) == A.Reported(threshold, start, log[..n])
    decreases |log|
  {
    if n == |log| {
      assert log[..n] == log;
    } else {
      var front := log[..|log| - 1];
      EditsSettle(threshold, start, front, n);
      assert front[..n] == log[..n] && log == front + [A.Edit];
      LogSnoc(threshold, start, front, A.Edit);
    }
  }

  // ---------------------------------------------------------------- steps on one id keep its invariant

  /** A stored result counts on the row as its history says. */
  lemma StoredKeeps(n: Node, after: FeedState, ok: bool, finished: Option<int>, tick: Tick, listed: int, now: int,
                    threshold: nat)
    requires NodeInv(n, finished, tick, listed, now, threshold) && n.feed.Some?
    requires n.job.Some? && n.job.value.phase.Running? && n.job.value.snap.version == n.feed.value.row.version
    requires after.row.version == n.feed.value.row.version
    requires after.row.failures == if ok then 0 else n.job.value.snap.failures + 1
    ensures NodeInv(Moved(n, Saved(|n.log|, ok)).(feed := Some(after), log := n.log + [A.Result(ok)]),
                    finished, tick, listed, now, threshold)
  {
    LogSnoc(threshold, n.start, n.log, A.Result(ok));
    assert n.log[..|n.log|] == n.log;
  }

  lemma SaveKeeps(n: Node, run: Refresh, limit: nat, finished: Option<int>, tick: Tick, listed: int, now: int,
                  threshold: nat)
    requires NodeInv(n, finished, tick, listed, now, threshold) && Can(n, tick, Save(run, limit))
    ensures NodeInv(SavedBy(n, run, limit, now), finished, tick, listed, now, threshold)
  {
    if n.feed.Some? && n.feed.value.row.version == run.version {
      var after := Completed(n.feed.value, run, limit, now / NANOSECONDS);
      CompletedCounts(n.feed.value, run, limit, now / NANOSECONDS);
      StoredKeeps(n, after, !run.failed, finished, tick, listed, now, threshold);
    }
  }

  lemma AlertKeeps(n: Node, finished: Option<int>, tick: Tick, listed: int, now: int, threshold: nat)
    requires NodeInv(n, finished, tick, listed, now, threshold) && Can(n, tick, Alert)
    ensures NodeInv(Alerted(n, threshold), finished, tick, listed, now, threshold)
  {
    if n.feed.Some? {
      var at, log := n.job.value.phase.at, n.log;
      EditsSettle(threshold, n.start, log, at + 1);
      LogSnoc(threshold, n.start, log[..at], log[at]);
      assert log[..at + 1] == log[..at] + [log[at]] && log[..|log|] == log;
    }
  }

  lemma EditKeeps(n: Node, edit: Edit, finished: Option<int>, tick: Tick, listed: int, now: int, threshold: nat)
    requires NodeInv(n, finished, tick, listed, now, threshold) && n.feed.Some?
    ensures NodeInv(EditedBy(n, edit, now), finished, tick, listed, now, threshold)
  {
    EditedCounts(n.feed.value, edit, now / NANOSECONDS);
    var all := n.log + [A.Edit];
    LogSnoc(threshold, n.start, n.log, A.Edit);
    assert all[..Settled(n)] == n.log[..Settled(n)] && all[..|all|] == all && n.log[..|n.log|] == n.log;
  }

  lemma FilterEditKeeps(n: Node, history: Option<Item -> bool>, finished: Option<int>, tick: Tick, listed: int,
                        now: int, threshold: nat)
    requires NodeInv(n, finished, tick, listed, now, threshold) && n.feed.Some?
    ensures NodeInv(n.(feed := Some(FilterEdited(n.feed.value, history, now / NANOSECONDS))), finished, tick, listed,
                    now, threshold)
  {
    FilterEditedCounts(n.feed.value, history, now / NANOSECONDS);
  }

  /** Every step about an id keeps that id's invariant. */
  lemma ActKeeps(n: Node, id: Id, desk: Desk, act: Act, tick: Tick, listed: int, now: int, threshold: nat)
    requires NodeInv(n, Find(desk.finished, id), tick, listed, now, threshold) && Can(n, tick, act) && listed <= now
    requires Working(n) ==> id in desk.active
    ensures NodeInv(Acted(n, tick, act, Refused(desk, id, act, listed), listed, now, threshold),
                    Find(DeskAfter(desk, id, act, listed, now).finished, id), tick, listed, now, threshold)
  {
    match act {
      case Save(run, limit) => SaveKeeps(n, run, limit, Find(desk.finished, id), tick, listed, now, threshold);
      case Alert => AlertKeeps(n, Find(desk.finished, id), tick, listed, now, threshold);
      case EditFeed(edit) => EditKeeps(n, edit, Find(desk.finished, id), tick, listed, now, threshold);
      case EditFilter(history) => FilterEditKeeps(n, history, Find(desk.finished, id), tick, listed, now, threshold);
      case _ =>
    }
  }

  // ---------------------------------------------------------------- steps of the system keep the invariant

  lemma TickStepKeeps(s: Sys, threshold: nat, a: Action)
    requires Inv(s, threshold) && Enabled(s, a)
    requires a.Wait? || a.BeginTick? || a.ListFailed? || a.ReadList? || a.EndDispatch?
    ensures Inv(Step(s, threshold, a), threshold)
  {
    var t := Step(s, threshold, a);
    forall id | id in t.nodes
      ensures NodeInv(t.nodes[id], Find(t.desk.finished, id), t.tick, t.listed, t.now, threshold)
      ensures Occupied(t.nodes, id) == Occupied(s.nodes, id)
    {
      assert NodeInv(s.nodes[id], Find(s.desk.finished, id), s.tick, s.listed, s.now, threshold);
    }
  }

  lemma DispatchStepKeeps(s: Sys, threshold: nat)
    requires Inv(s, threshold) && Enabled(s, StartDispatch)
    ensures Inv(Step(s, threshold, StartDispatch), threshold)
  {
    var t := Step(s, threshold, StartDispatch);
    forall id | id in t.nodes
      ensures NodeInv(t.nodes[id], Find(t.desk.finished, id), t.tick, t.listed, t.now, threshold)
      ensures Occupied(t.nodes, id) == Occupied(s.nodes, id)
    {
      assert NodeInv(s.nodes[id], Find(s.desk.finished, id), s.tick, s.listed, s.now, threshold);
    }
  }

  lemma PreviewStepKeeps(s: Sys, threshold: nat, id: Id, solver: Option<Solver>, browser: Chromium)
    requires Inv(s, threshold) && id !in s.nodes && Answer(s.desk, id, solver, browser, None).None?
    ensures Inv(Step(s, threshold, StartPreview(id, solver, browser)), threshold)
  {
    var t := Step(s, threshold, StartPreview(id, solver, browser));
    AdmittedIsSound(s.desk, id, solver, browser, None);
    forall k ensures k in t.desk.active <==> Occupied(t.nodes, k) {
      assert k in s.desk.active <==> Occupied(s.nodes, k);
    }
    forall k | k in t.nodes
      ensures NodeInv(t.nodes[k], Find(t.desk.finished, k), t.tick, t.listed, t.now, threshold)
    {
      if k in s.nodes { assert NodeInv(s.nodes[k], Find(s.desk.finished, k), s.tick, s.listed, s.now, threshold); }
    }
  }

  lemma CreateStepKeeps(s: Sys, threshold: nat, id: Id, feed: FeedState)
    requires Inv(s, threshold) && Enabled(s, Create(id, feed))
    ensures Inv(Step(s, threshold, Create(id, feed)), threshold)
  {
    var t := Step(s, threshold, Create(id, feed));
    forall k ensures k in t.desk.active <==> Occupied(t.nodes, k) {
      assert k in s.desk.active <==> Occupied(s.nodes, k);
    }
    forall k | k in t.nodes
      ensures NodeInv(t.nodes[k], Find(t.desk.finished, k), t.tick, t.listed, t.now, threshold)
    {
      if k in s.nodes { assert NodeInv(s.nodes[k], Find(s.desk.finished, k), s.tick, s.listed, s.now, threshold); }
    }
  }

  lemma DeskStaysSound(desk: Desk, id: Id, act: Act, listed: int, now: int)
    requires Sound(desk) && (act.Release? || act.EndPreview? ==> id in desk.active)
    ensures Sound(DeskAfter(desk, id, act, listed, now))
  {
    if act.Release? || act.EndPreview? { ReleasedIsSound(desk, id); }
    if act.DoneWithChromium? { SubsetSize(desk.rendering - {id}, desk.rendering); }
  }

  lemma ActWorks(n: Node, tick: Tick, act: Act, refused: bool, listed: int, now: int, threshold: nat)
    requires Can(n, tick, act) && InTick(n, tick)
    ensures Working(Acted(n, tick, act, refused, listed, now, threshold))
            == if act.Start? && !refused then true else if act.Release? || act.EndPreview? then false else Working(n)
  {
  }

  /** An id is active exactly while it has a job or is a preview. */
  lemma DeskCounts(desk: Desk, id: Id, act: Act, listed: int, now: int)
    requires Sound(desk) && (act.Release? || act.EndPreview? ==> id in desk.active)
    ensures forall k :: k in DeskAfter(desk, id, act, listed, now).active <==>
      if k == id && act.Start? && !Refused(desk, id, act, listed) then true
      else if k == id && (act.Release? || act.EndPreview?) then false else k in desk.active
  {
    if act.Release? || act.EndPreview? { ReleasedIsSound(desk, id); }
  }

  lemma OnStepKeeps(s: Sys, threshold: nat, id: Id, act: Act)
    requires Inv(s, threshold) && Enabled(s, On(id, act))
    ensures Inv(Step(s, threshold, On(id, act)), threshold)
  {
    var t := Step(s, threshold, On(id, act));
    assert id in s.desk.active <==> Occupied(s.nodes, id);
    assert NodeInv(s.nodes[id], Find(s.desk.finished, id), s.tick, s.listed, s.now, threshold);
    DeskStaysSound(s.desk, id, act, s.listed, s.now);
    DeskCounts(s.desk, id, act, s.listed, s.now);
    ActWorks(s.nodes[id], s.tick, act, Refused(s.desk, id, act, s.listed), s.listed, s.now, threshold);
    forall k ensures k in t.desk.active <==> Occupied(t.nodes, k) {
      assert k in s.desk.active <==> Occupied(s.nodes, k);
    }
    ActKeeps(s.nodes[id], id, s.desk, act, s.tick, s.listed, s.now, threshold);
    forall k | k in t.nodes
      ensures NodeInv(t.nodes[k], Find(t.desk.finished, k), t.tick, t.listed, t.now, threshold)
    {
      if k != id {
        assert NodeInv(s.nodes[k], Find(s.desk.finished, k), s.tick, s.listed, s.now, threshold);
        assert Find(t.desk.finished, k) == Find(s.desk.finished, k);
      }
    }
  }

  lemma StepKeeps(s: Sys, threshold: nat, a: Action)
    requires Inv(s, threshold) && Enabled(s, a)
    ensures Inv(Step(s, threshold, a), threshold)
  {
    match a {
      case StartDispatch => DispatchStepKeeps(s, threshold);
      case StartPreview(id, solver, browser) =>
        if Answer(s.desk, id, solver, browser, None).None? { PreviewStepKeeps(s, threshold, id, solver, browser); }
      case Create(id, feed) => CreateStepKeeps(s, threshold, id, feed);
      case On(id, act) => OnStepKeeps(s, threshold, id, act);
      case _ => TickStepKeeps(s, threshold, a);
    }
  }
}
