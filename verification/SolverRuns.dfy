/** What holds over whole runs of the solver's slots. */
module SolverRuns {
  import opened Wrappers
  import opened SolverSlots

  ghost predicate IsRun(states: seq<Sys>, actions: seq<Action>) {
    && |states| == |actions| + 1
    && states[0] == Sys(states[0].capacity, map[], 0, 0, 0, Nowhere)
    && forall i {:trigger actions[i]} :: 0 <= i < |actions| ==>
         Enabled(states[i], actions[i]) && states[i + 1] == Step(states[i], actions[i])
  }

  lemma {:induction false} EveryStateIsGood(states: seq<Sys>, actions: seq<Action>, i: nat)
    requires IsRun(states, actions) && i < |states|
    ensures Inv(states[i])
  {
    if i > 0 {
      EveryStateIsGood(states, actions, i - 1);
      assert states[i - 1 + 1] == Step(states[i - 1], actions[i - 1]);
      StepKeeps(states[i - 1], actions[i - 1]);
    } else {
      assert Of(map[], Hot) == {} && Of(map[], Holding) == {};
    }
  }

  /** In every interleaving, jobs still to acquire plus jobs holding plus cooling slots stay
      within the capacity and the cooling slots of jobs that went on; and a job that waits
      for a slot then finds none free only while one is in transit or such a job exists. */
  lemma LoadIsBounded(states: seq<Sys>, actions: seq<Action>, i: nat)
    requires IsRun(states, actions) && i < |states|
    ensures Load(states[i]) <= states[i].capacity + states[i].resumed
    ensures Used(states[i]) <= states[i].capacity
    ensures (exists id :: id in states[i].jobs && states[i].jobs[id].Ready?) && Used(states[i]) == states[i].capacity
            ==> 0 < states[i].transit + states[i].resumed
  {
    var s := states[i];
    EveryStateIsGood(states, actions, i);
    PhasesCover(s.jobs);
    if id :| id in s.jobs && s.jobs[id].Ready? {
      assert Of(s.jobs, Ready) >= {id};
      SubsetSize({id}, Of(s.jobs, Ready));
    }
  }

  /** Only jobs in `goOn` make another request while the slot of their interrupted one is held. */
  ghost predicate OnlyGoOn(states: seq<Sys>, actions: seq<Action>, goOn: set<Id>)
    requires |states| == |actions| + 1
  {
    forall i {:trigger actions[i]}
      | && 0 <= i < |actions| && actions[i].Continue?
        && actions[i].id in states[i].jobs && states[i].jobs[actions[i].id].Hot?
      :: actions[i].id in goOn
  }

  lemma {:induction false} NoneResumed(states: seq<Sys>, actions: seq<Action>, i: nat)
    requires IsRun(states, actions) && OnlyGoOn(states, actions, {}) && i < |states|
    ensures states[i].resumed == 0 && states[i].capacity == states[0].capacity
  {
    if i > 0 {
      NoneResumed(states, actions, i - 1);
      assert states[i - 1 + 1] == Step(states[i - 1], actions[i - 1]);
    }
  }

  /** solverFree's own sum passes the capacity by no more than the jobs it counts twice and
      the cooling slots of jobs that went on. */
  lemma SumIsBounded(states: seq<Sys>, actions: seq<Action>, i: nat)
    requires IsRun(states, actions) && i < |states|
    ensures Sum(states[i]) <= states[i].capacity + |Of(states[i].jobs, Hot)| + states[i].resumed
  {
    EveryStateIsGood(states, actions, i);
  }

  /** Where an interrupted request is its job's last while its slot cools, the slots needed
      never exceed the capacity, and an admitted job finds no free slot only in the instant
      between the two lines that end a hold. */
  lemma CapacityHolds(states: seq<Sys>, actions: seq<Action>, i: nat)
    requires IsRun(states, actions) && OnlyGoOn(states, actions, {}) && i < |states|
    ensures Load(states[i]) <= states[i].capacity == states[0].capacity
    ensures (exists id :: id in states[i].jobs && states[i].jobs[id].Ready?) && Used(states[i]) == states[i].capacity
            ==> 0 < states[i].transit
  {
    NoneResumed(states, actions, i);
    LoadIsBounded(states, actions, i);
  }

  // ---------------------------------------------------------------- when the comment fails

  function Alone(id: Id, phase: Phase): map<Id, Phase> { map[id := phase] }

  lemma AloneCounts(id: Id, phase: Phase)
    ensures |Of(Alone(id, phase), Ready)| == if phase.Ready? then 1 else 0
    ensures |Of(Alone(id, phase), Holding)| == if phase.Holding? then 1 else 0
    ensures |Of(Alone(id, phase), Hot)| == if phase.Hot? then 1 else 0
  {
    assert Of(Alone(id, phase), Ready) == if phase.Ready? then {id} else {};
    assert Of(Alone(id, phase), Holding) == if phase.Holding? then {id} else {};
    assert Of(Alone(id, phase), Hot) == if phase.Hot? then {id} else {};
  }

  /** One job, after `resumed` interrupted requests it went on from. */
  function Lone(capacity: nat, id: Id, phase: Phase, resumed: nat): Sys {
    Sys(capacity, Alone(id, phase), 0, resumed, 0, Nowhere)
  }

  /** Only requests of jobs in `cut` are interrupted. */
  ghost predicate OnlyCut(states: seq<Sys>, actions: seq<Action>, cut: set<Id>)
    requires |states| == |actions| + 1
  {
    forall i {:trigger actions[i]} | 0 <= i < |actions| && actions[i].Interrupt? :: actions[i].id in cut
  }

  ghost predicate RunTo(states: seq<Sys>, actions: seq<Action>, goOn: set<Id>, cut: set<Id>, last: Sys) {
    && IsRun(states, actions) && OnlyGoOn(states, actions, goOn) && OnlyCut(states, actions, cut)
    && states[|actions|] == last
  }

  lemma Extended(states: seq<Sys>, actions: seq<Action>, goOn: set<Id>, cut: set<Id>, s: Sys, a: Action)
    returns (after: seq<Sys>, done: seq<Action>)
    requires RunTo(states, actions, goOn, cut, s) && Enabled(s, a)
    requires (a.Continue? && a.id in s.jobs && s.jobs[a.id].Hot? ==> a.id in goOn) && (a.Interrupt? ==> a.id in cut)
    ensures RunTo(after, done, goOn, cut, Step(s, a)) && after[0] == states[0]
  {
    after, done := states + [Step(s, a)], actions + [a];
    forall i | 0 <= i < |done| ensures Enabled(after[i], done[i]) && after[i + 1] == Step(after[i], done[i]) {
      if i < |actions| { assert actions[i] == done[i]; }
    }
    forall i | 0 <= i < |done|
      ensures done[i].Continue? && done[i].id in after[i].jobs && after[i].jobs[done[i].id].Hot? ==> done[i].id in goOn
      ensures done[i].Interrupt? ==> done[i].id in cut
    {
      if i < |actions| { assert actions[i] == done[i]; }
    }
  }

  /** No job, and slots cooling behind departed ones. */
  function Idle(capacity: nat, left: nat): Sys { Sys(capacity, map[], left, 0, 0, Nowhere) }

  function OneJob(capacity: nat, id: Id, phase: Phase, left: nat): Sys {
    Sys(capacity, Alone(id, phase), left, 0, 0, Nowhere)
  }

  lemma NoneCount()
    ensures forall phase :: |Of(map[], phase)| == 0
  {
    forall phase ensures |Of(map[], phase)| == 0 { assert Of(map[], phase) == {}; }
  }

  /** A job is admitted and takes a slot. */
  lemma Holds(states: seq<Sys>, actions: seq<Action>, goOn: set<Id>, cut: set<Id>, capacity: nat, id: Id, left: nat)
    returns (after: seq<Sys>, done: seq<Action>)
    requires RunTo(states, actions, goOn, cut, Idle(capacity, left)) && left < capacity
    ensures RunTo(after, done, goOn, cut, OneJob(capacity, id, Holding, left)) && after[0] == states[0]
  {
    var s := Idle(capacity, left);
    NoneCount();
    AloneCounts(id, Ready);
    after, done := Extended(states, actions, goOn, cut, s, ReadStats(id));
    assert Step(s, ReadStats(id)) == s.(reserve := SawStats(id, left));
    after, done := Extended(after, done, goOn, cut, s.(reserve := SawStats(id, left)), Compare);
    assert Step(s.(reserve := SawStats(id, left)), Compare) == s.(reserve := Admitting(id));
    after, done := Extended(after, done, goOn, cut, s.(reserve := Admitting(id)), Admit);
    assert Step(s.(reserve := Admitting(id)), Admit) == OneJob(capacity, id, Ready, left);
    after, done := Extended(after, done, goOn, cut, OneJob(capacity, id, Ready, left), Acquire(id));
    assert Step(OneJob(capacity, id, Ready, left), Acquire(id)) == OneJob(capacity, id, Holding, left);
  }

  /** Its request is interrupted. */
  lemma IsCut(states: seq<Sys>, actions: seq<Action>, goOn: set<Id>, cut: set<Id>, capacity: nat, id: Id, left: nat)
    returns (after: seq<Sys>, done: seq<Action>)
    requires RunTo(states, actions, goOn, cut, Idle(capacity, left)) && left < capacity && id in cut
    ensures RunTo(after, done, goOn, cut, OneJob(capacity, id, Hot, left)) && after[0] == states[0]
  {
    after, done := Holds(states, actions, goOn, cut, capacity, id, left);
    after, done := Extended(after, done, goOn, cut, OneJob(capacity, id, Holding, left), Interrupt(id));
    assert Step(OneJob(capacity, id, Holding, left), Interrupt(id)) == OneJob(capacity, id, Hot, left);
  }

  lemma Start(capacity: nat, goOn: set<Id>, cut: set<Id>) returns (states: seq<Sys>, actions: seq<Action>)
    ensures RunTo(states, actions, goOn, cut, Idle(capacity, 0)) && states[0].capacity == capacity
  {
    states, actions := [Idle(capacity, 0)], [];
  }

  /** A feed whose refreshes are interrupted, each leaving its slot behind. */
  lemma {:induction false} LeavesBehind(capacity: nat, id: Id, goOn: set<Id>, cut: set<Id>, left: nat)
    returns (states: seq<Sys>, actions: seq<Action>)
    requires id in cut && left <= capacity
    ensures RunTo(states, actions, goOn, cut, Idle(capacity, left)) && states[0].capacity == capacity
    decreases left
  {
    if left == 0 {
      states, actions := Start(capacity, goOn, cut);
    } else {
      states, actions := LeavesBehind(capacity, id, goOn, cut, left - 1);
      states, actions := IsCut(states, actions, goOn, cut, capacity, id, left - 1);
      states, actions := Extended(states, actions, goOn, cut, OneJob(capacity, id, Hot, left - 1), Leave(id));
      assert Alone(id, Hot) - {id} == map[];
      assert Step(OneJob(capacity, id, Hot, left - 1), Leave(id)) == Idle(capacity, left);
    }
  }

  /** At every capacity a feed that is interrupted takes solverFree's sum past it, though no
      job goes on: the last one is still admitted while its slot cools. */
  lemma InterruptingExceedsCapacity(capacity: nat, id: Id, cut: set<Id>)
    returns (states: seq<Sys>, actions: seq<Action>)
    requires 0 < capacity && id in cut
    ensures IsRun(states, actions) && OnlyGoOn(states, actions, {}) && OnlyCut(states, actions, cut)
    ensures states[0].capacity == capacity && Sum(states[|actions|]) == capacity + 1
  {
    states, actions := LeavesBehind(capacity, id, {}, cut, capacity - 1);
    states, actions := IsCut(states, actions, {}, cut, capacity, id, capacity - 1);
    AloneCounts(id, Hot);
  }

  lemma {:induction false} NoneHot(states: seq<Sys>, actions: seq<Action>, i: nat)
    requires IsRun(states, actions) && OnlyCut(states, actions, {}) && i < |states|
    ensures (forall id | id in states[i].jobs :: !states[i].jobs[id].Hot?) && states[i].left == states[i].resumed == 0
    ensures states[i].capacity == states[0].capacity
  {
    if i > 0 {
      NoneHot(states, actions, i - 1);
      assert states[i - 1 + 1] == Step(states[i - 1], actions[i - 1]);
    }
  }

  /** In every run in which only these jobs' requests are interrupted, and no job goes on,
      solverFree's sum stays within the capacity. */
  ghost predicate AlwaysSummed(capacity: nat, cut: set<Id>) {
    forall states: seq<Sys>, actions: seq<Action>, i: nat {:trigger IsRun(states, actions), states[i]} ::
      (IsRun(states, actions) && states[0].capacity == capacity && i < |states|
       && OnlyGoOn(states, actions, {}) && OnlyCut(states, actions, cut)) ==> Sum(states[i]) <= capacity
  }

  /** When the comment at solverFree is true of its own sum: exactly when no request is
      interrupted, at every capacity. */
  lemma CommentHoldsExactly(capacity: nat, cut: set<Id>)
    requires 0 < capacity
    ensures AlwaysSummed(capacity, cut) <==> cut == {}
  {
    if id :| id in cut {
      var states, actions := InterruptingExceedsCapacity(capacity, id, cut);
      assert Sum(states[|actions|]) > capacity;
    } else {
      forall states: seq<Sys>, actions: seq<Action>, i: nat
        | IsRun(states, actions) && states[0].capacity == capacity && i < |states|
          && OnlyGoOn(states, actions, {}) && OnlyCut(states, actions, cut)
        ensures Sum(states[i]) <= capacity
      {
        NoneHot(states, actions, i);
        SumIsBounded(states, actions, i);
        assert Of(states[i].jobs, Hot) == {};
      }
    }
  }

  // ---------------------------------------------------------------- when slots run short

  /** One article request: begun, interrupted, and left behind for the next article. */
  lemma GoesOnOnce(states: seq<Sys>, actions: seq<Action>, capacity: nat, id: Id, k: nat)
    returns (after: seq<Sys>, done: seq<Action>)
    requires RunTo(states, actions, {id}, {id}, Lone(capacity, id, Ready, k)) && k < capacity
    ensures RunTo(after, done, {id}, {id}, Lone(capacity, id, Ready, k + 1)) && after[0] == states[0]
  {
    var ready, holding, hot := Lone(capacity, id, Ready, k), Lone(capacity, id, Holding, k), Lone(capacity, id, Hot, k);
    AloneCounts(id, Ready);
    assert Step(ready, Acquire(id)) == holding;
    after, done := Extended(states, actions, {id}, {id}, ready, Acquire(id));
    assert Step(holding, Interrupt(id)) == hot;
    after, done := Extended(after, done, {id}, {id}, holding, Interrupt(id));
    assert Step(hot, Continue(id)) == Lone(capacity, id, Ready, k + 1);
    after, done := Extended(after, done, {id}, {id}, hot, Continue(id));
  }

  lemma {:induction false} GoesOnManyTimes(capacity: nat, id: Id, k: nat)
    returns (states: seq<Sys>, actions: seq<Action>)
    requires 0 < capacity && k <= capacity
    ensures RunTo(states, actions, {id}, {id}, Lone(capacity, id, Ready, k)) && states[0].capacity == capacity
    decreases k
  {
    if k == 0 {
      states, actions := Start(capacity, {id}, {id});
      states, actions := Holds(states, actions, {id}, {id}, capacity, id, 0);
      states, actions := Extended(states, actions, {id}, {id}, OneJob(capacity, id, Holding, 0), Finish(id));
      assert Step(OneJob(capacity, id, Holding, 0), Finish(id)) == Lone(capacity, id, Ready, 0);
    } else {
      states, actions := GoesOnManyTimes(capacity, id, k - 1);
      states, actions := GoesOnOnce(states, actions, capacity, id, k - 1);
    }
  }

  /** At every capacity a single job that goes on needs more slots than there are. */
  lemma GoingOnExceedsCapacity(capacity: nat, id: Id, goOn: set<Id>) returns (states: seq<Sys>, actions: seq<Action>)
    requires 0 < capacity && id in goOn
    ensures IsRun(states, actions) && OnlyGoOn(states, actions, goOn) && states[0].capacity == capacity
    ensures Load(states[|actions|]) == capacity + 1
  {
    states, actions := GoesOnManyTimes(capacity, id, capacity);
    AloneCounts(id, Ready);
  }

  ghost predicate WithinCapacity(states: seq<Sys>) {
    forall i {:trigger states[i]} | 0 <= i < |states| :: Load(states[i]) <= states[0].capacity
  }

  /** Every run in which only these jobs go on needs no more slots than there are. */
  ghost predicate AlwaysWithin(capacity: nat, goOn: set<Id>) {
    forall states: seq<Sys>, actions: seq<Action> {:trigger IsRun(states, actions)} ::
      IsRun(states, actions) && states[0].capacity == capacity && OnlyGoOn(states, actions, goOn) ==>
          WithinCapacity(states)
  }

  /** At any capacity the slots needed stay within it in every run exactly when no job goes on. */
  lemma CapacityHoldsExactly(capacity: nat, goOn: set<Id>)
    requires 0 < capacity
    ensures AlwaysWithin(capacity, goOn) <==> goOn == {}
  {
    if id :| id in goOn {
      var states, actions := GoingOnExceedsCapacity(capacity, id, goOn);
      assert !WithinCapacity(states);
    } else {
      forall states: seq<Sys>, actions: seq<Action>
        | IsRun(states, actions) && states[0].capacity == capacity && OnlyGoOn(states, actions, goOn)
        ensures WithinCapacity(states)
      {
        forall i | 0 <= i < |states| ensures Load(states[i]) <= states[0].capacity {
          CapacityHolds(states, actions, i);
        }
      }
    }
  }

  /** What decides whether a job's articles go through the solver. */
  datatype Full = Full(selector: string, browser: bool)

  datatype Recipe = Recipe(mode: string, full: Option<Full>)

  /** articlesUseSolver: the guard that keeps a job's admission past its list page. */
  predicate ArticlesUseSolver(r: Recipe) {
    r.mode == "flaresolverr" && r.full.Some? && r.full.value.selector != "" && r.full.value.browser
  }

  function RenderingJobs(recipes: map<Id, Recipe>): set<Id> { set id | id in recipes && ArticlesUseSolver(recipes[id]) }

  /** When the slots always suffice: exactly when no job renders its articles through the
      solver, whatever the capacity. */
  lemma RecipesSufficeExactly(capacity: nat, recipes: map<Id, Recipe>)
    requires 0 < capacity
    ensures AlwaysWithin(capacity, RenderingJobs(recipes))
            <==> forall id | id in recipes :: var r := recipes[id];
                   r.mode != "flaresolverr" || r.full.None? || r.full.value.selector == "" || !r.full.value.browser
  {
    CapacityHoldsExactly(capacity, RenderingJobs(recipes));
    if id :| id in recipes && ArticlesUseSolver(recipes[id]) { assert id in RenderingJobs(recipes); }
  }
}
