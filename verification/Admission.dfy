/** The scheduler's admission of jobs (internal/scheduler/scheduler.go): shared slots,
    FlareSolverr and Chromium admissions, and the end times that keep a stale list from
    restarting a feed. Each method is one critical section. */
module Admission {
  import opened Wrappers

  type Id = string

  /** Whether and how a job is admitted to the local Chromium pool. */
  datatype Chromium = NoChromium | ShareChromium | NeedChromium

  datatype Refusal = Busy | SolverBusy

  /** What the solver client reports while a job is admitted. */
  datatype Solver = Solver(active: nat, capacity: nat, cooling: nat)

  datatype Desk = Desk(
    capacity: nat, pool: nat, used: nat,
    active: set<Id>, solving: set<Id>, rendering: set<Id>, finished: map<Id, int>)

  /** solverFree: one more FlareSolverr job can start without waiting for a slot. */
  predicate SolverFree(desk: Desk, solver: Solver) {
    Max(solver.active, |desk.solving| + solver.cooling) < solver.capacity
  }

  /** What reserve answers. `listed` is the time the feed list was read; previews pass none. */
  function Answer(desk: Desk, id: Id, solver: Option<Solver>, browser: Chromium, listed: Option<int>): Option<Refusal> {
    if id in desk.active || desk.used == desk.capacity then Some(Busy)
    else if listed.Some? && id in desk.finished && listed.value <= desk.finished[id] then Some(Busy)
    else if solver.Some? && !SolverFree(desk, solver.value) then Some(SolverBusy)
    else if browser == NeedChromium && desk.pool > 0 && |desk.rendering| >= desk.pool then Some(Busy)
    else None
  }

  function Admitted(desk: Desk, id: Id, solver: bool, browser: Chromium): Desk {
    desk.(used := desk.used + 1, active := desk.active + {id},
          solving := if solver then desk.solving + {id} else desk.solving,
          rendering := if browser != NoChromium && |desk.rendering| < desk.pool then desk.rendering + {id}
                       else desk.rendering)
  }

  function Released(desk: Desk, id: Id): Desk
    requires 0 < desk.used
  {
    desk.(used := desk.used - 1, active := desk.active - {id}, solving := desk.solving - {id},
          rendering := desk.rendering - {id})
  }

  function Marked(desk: Desk, id: Id, now: int): Desk { desk.(finished := desk.finished[id := now]) }

  function SolverDone(desk: Desk, id: Id): Desk { desk.(solving := desk.solving - {id}) }

  function ChromiumDone(desk: Desk, id: Id): Desk { desk.(rendering := desk.rendering - {id}) }

  function Forgotten(desk: Desk, listed: int): Desk {
    desk.(finished := map id | id in desk.finished && listed <= desk.finished[id] :: desk.finished[id])
  }

  /** Slots in use are the active jobs; admissions belong to active jobs and stay within
      their pools. */
  ghost predicate Sound(desk: Desk) {
    && desk.used == |desk.active| <= desk.capacity
    && desk.solving <= desk.active && desk.rendering <= desk.active
    && |desk.rendering| <= desk.pool
  }

  class Scheduler {
    const capacity: nat
    const pool: nat
    var used: nat
    var active: set<Id>
    var solving: set<Id>
    var rendering: set<Id>
    var finished: map<Id, int>

    ghost function State(): Desk
      reads this
    {
      Desk(capacity, pool, used, active, solving, rendering, finished)
    }

    constructor (workers: nat, pool: nat)
      ensures State() == Desk(workers, pool, 0, {}, {}, {}, map[]) && Sound(State())
    {
      capacity, this.pool, used, active, solving, rendering, finished := workers, pool, 0, {}, {}, {}, map[];
    }

    /** Admits a job to a shared slot and to what else it needs, or refuses it. */
    method Reserve(id: Id, solver: Option<Solver>, browser: Chromium, listed: Option<int>)
      returns (refusal: Option<Refusal>)
      requires Sound(State())
      modifies this
      ensures refusal == Answer(old(State()), id, solver, browser, listed)
      ensures State() == if refusal.Some? then old(State()) else Admitted(old(State()), id, solver.Some?, browser)
      ensures Sound(State())
    {
      if id in active || used == capacity { return Some(Busy); }
      if id in finished && listed.Some? && listed.value <= finished[id] { return Some(Busy); }
      if solver.Some? && !(Max(solver.value.active, |solving| + solver.value.cooling) < solver.value.capacity) {
        return Some(SolverBusy);
      }
      var render := browser != NoChromium && |rendering| < pool;
      if browser == NeedChromium && pool > 0 && !render { return Some(Busy); }
      used := used + 1;
      active := active + {id};
      if solver.Some? { solving := solving + {id}; }
      if render { rendering := rendering + {id}; }
      return None;
    }

    /** Ends a job, with the admissions it still holds. */
    method Release(id: Id)
      requires Sound(State()) && id in active
      modifies this
      ensures 0 < old(used) && State() == Released(old(State()), id) && Sound(State())
    {
      ReleasedIsSound(State(), id);
      active, solving, rendering := active - {id}, solving - {id}, rendering - {id};
      used := used - 1;
    }

    /** finish: the end time is recorded before the job is released. */
    method Finish(id: Id, now: int)
      requires Sound(State()) && id in active
      modifies this
      ensures 0 < old(used) && State() == Released(Marked(old(State()), id, now), id) && Sound(State())
    {
      finished := finished[id := now];
      Release(id);
    }

    method DoneWithSolver(id: Id)
      modifies this`solving
      ensures State() == SolverDone(old(State()), id)
    {
      solving := solving - {id};
    }

    method DoneWithChromium(id: Id)
      modifies this`rendering
      ensures State() == ChromiumDone(old(State()), id)
    {
      rendering := rendering - {id};
    }

    /** Drops the end times that a list read at `listed` already reflects. */
    method ForgetFinished(listed: int)
      modifies this`finished
      ensures State() == Forgotten(old(State()), listed)
    {
      var ids := finished.Keys;
      while ids != {}
        invariant ids <= old(finished).Keys
        invariant finished == map id | id in old(finished) && (id in ids || listed <= old(finished)[id]) ::
          old(finished)[id]
        decreases ids
      {
        var id :| id in ids;
        if finished[id] < listed { finished := finished - {id}; }
        ids := ids - {id};
      }
    }
  }

  lemma ReleasedIsSound(desk: Desk, id: Id)
    requires Sound(desk) && id in desk.active
    ensures 0 < desk.used && Sound(Released(desk, id))
  {
    SubsetSize(desk.rendering - {id}, desk.rendering);
  }

  lemma AdmittedIsSound(desk: Desk, id: Id, solver: Option<Solver>, browser: Chromium, listed: Option<int>)
    requires Sound(desk) && Answer(desk, id, solver, browser, listed).None?
    ensures Sound(Admitted(desk, id, solver.Some?, browser))
  {
  }

  // ---------------------------------------------------------------- what a request is told

  /** Each answer and its own cause: a job already here, a full desk or a stale list; then a
      solver without a slot to spare, in use or promised; then a full Chromium pool. */
  lemma AnswerHasCause(desk: Desk, id: Id, solver: Option<Solver>, browser: Chromium, listed: Option<int>)
    ensures var answer := Answer(desk, id, solver, browser, listed);
      var here := id in desk.active || desk.used == desk.capacity;
      var stale := listed.Some? && id in desk.finished && listed.value <= desk.finished[id];
      var slots := match solver
                   case None => false
                   case Some(s) => s.active >= s.capacity || |desk.solving| + s.cooling >= s.capacity;
      var pool := browser.NeedChromium? && 0 < desk.pool <= |desk.rendering|;
      && (answer.None? <==> !here && !stale && !slots && !pool)
      && (answer == Some(SolverBusy) <==> !here && !stale && slots)
  {
  }

  /** What an admission promises: the solver's slots in use and those promised stay within
      its capacity, a job that needs Chromium is in its pool, and one that shares it is if
      there is room. */
  lemma AdmittedFits(desk: Desk, id: Id, solver: Option<Solver>, browser: Chromium, listed: Option<int>)
    requires Sound(desk) && Answer(desk, id, solver, browser, listed).None?
    ensures var after := Admitted(desk, id, solver.Some?, browser);
      && after.active == desk.active + {id} && id !in desk.active && after.finished == desk.finished
      && after.solving == desk.solving + (if solver.Some? then {id} else {})
      && (solver.Some? ==>
            && solver.value.active < solver.value.capacity
            && |after.solving| + solver.value.cooling <= solver.value.capacity)
      && (browser.NeedChromium? && 0 < desk.pool ==> id in after.rendering)
      && (browser.ShareChromium? ==> (id in after.rendering <==> |desk.rendering| < desk.pool))
      && (browser.NoChromium? ==> id !in after.rendering)
      && desk.rendering <= after.rendering <= desk.rendering + {id} && |after.rendering| <= desk.pool
  {
    AnswerHasCause(desk, id, solver, browser, listed);
  }

  // ---------------------------------------------------------------- what later requests are told

  /** finish: the job ends, and only a list read after it did starts the feed again. */
  lemma FinishedNeedsALaterList(desk: Desk, id: Id, now: int, solver: Option<Solver>, browser: Chromium, listed: int)
    requires Sound(desk) && id in desk.active
    ensures 0 < desk.used
    ensures var after := Released(Marked(desk, id, now), id);
      && Sound(after)
      && (listed <= now ==> Answer(after, id, solver, browser, Some(listed)) == Some(Busy))
      && (now < listed ==> Answer(after, id, solver, browser, Some(listed)) == Answer(after, id, solver, browser, None))
      && Answer(after, id, None, NoChromium, None).None?
  {
    ReleasedIsSound(Marked(desk, id, now), id);
    SubsetSize(desk.active - {id}, desk.active);
  }

  /** Forgetting end times changes no answer to a list read then or later, and any end
      time kept would have changed one. */
  lemma ForgettingIsUnseen(desk: Desk, read: int, id: Id)
    ensures forall solver, browser, listed: int | read <= listed ::
      Answer(Forgotten(desk, read), id, solver, browser, Some(listed))
          == Answer(desk, id, solver, browser, Some(listed))
    ensures id !in desk.active && desk.used != desk.capacity ==>
      (id in Forgotten(desk, read).finished
       <==> exists listed: int | read <= listed :: Answer(desk, id, None, NoChromium, Some(listed)) == Some(Busy))
  {
    if id in Forgotten(desk, read).finished && id !in desk.active && desk.used != desk.capacity {
      assert Answer(desk, id, None, NoChromium, Some(read)) == Some(Busy);
    }
  }

  /** An admission given back early keeps the desk sound and helps exactly the jobs that
      waited for it: another job's answer changes only from SolverBusy, and one more slot
      is counted free. */
  lemma SolverDoneAdmitsNext(desk: Desk, id: Id, next: Id, solver: Option<Solver>, browser: Chromium,
                             listed: Option<int>)
    requires Sound(desk) && id in desk.solving
    ensures var after := SolverDone(desk, id);
      && Sound(after)
      && (Answer(after, next, solver, browser, listed) != Answer(desk, next, solver, browser, listed) ==>
            Answer(desk, next, solver, browser, listed) == Some(SolverBusy) && SolverFree(after, solver.value))
      && (solver.Some? ==>
            (SolverFree(after, solver.value)
             <==> Max(solver.value.active, |desk.solving| - 1 + solver.value.cooling) < solver.value.capacity))
  {
    assert desk.solving == (desk.solving - {id}) + {id};
  }

  /** The same for Chromium: the pool then has room, and only a job that needed it and was
      refused for want of room is answered differently. */
  lemma ChromiumDoneAdmitsNext(desk: Desk, id: Id, next: Id, solver: Option<Solver>, browser: Chromium,
                               listed: Option<int>)
    requires Sound(desk) && id in desk.rendering
    ensures var after := ChromiumDone(desk, id);
      && Sound(after) && |after.rendering| < after.pool
      && (Answer(after, next, solver, browser, listed) != Answer(desk, next, solver, browser, listed) ==>
            && Answer(after, next, solver, browser, listed).None?
            && browser == NeedChromium && |desk.rendering| == desk.pool)
      && (Answer(after, next, solver, browser, listed).None? && browser != NoChromium ==>
            next in Admitted(after, next, solver.Some?, browser).rendering)
  {
    assert desk.rendering == (desk.rendering - {id}) + {id};
  }
}
