/** The solver's slots under the scheduler's admission (solverFree and reserve in
    internal/scheduler/scheduler.go, Fetch in internal/flaresolverr/client.go). The
    scheduler's lock covers admitting and leaving; the client's counters move under it at
    any time, so solverFree reads them at two different moments. */
module SolverSlots {
  import opened Wrappers
  import Admission

  type Id = Admission.Id

  /** An admitted job: without a slot, in a request, or after an interrupted request whose
      slot is still held (Hot) or was let go (Cold). */
  datatype Phase = Ready | Holding | Hot | Cold

  /** Where reserve is: nowhere, past Stats, or past a successful solverFree. */
  datatype Reserve = Nowhere | SawStats(id: Id, active: nat) | Admitting(id: Id)

  /** Slots held after an interrupted request belong to a Hot job, to a job that has left,
      or to one that went on to further requests. `transit` counts slots between the two
      lines that end such a hold. */
  datatype Sys = Sys(
    capacity: nat, jobs: map<Id, Phase>, left: nat, resumed: nat, transit: nat, reserve: Reserve)

  datatype Action =
    | ReadStats(id: Id)
    | Compare
    | Admit
    | Leave(id: Id)
    | Acquire(id: Id)
    | Finish(id: Id)
    | Interrupt(id: Id)
    | Continue(id: Id)
    | CoolHot(id: Id)
    | CoolLeft
    | CoolResumed
    | Free

  function Of(jobs: map<Id, Phase>, phase: Phase): set<Id> { set id | id in jobs && jobs[id] == phase }

  /** What the client's Cooling reports. */
  function Cooling(s: Sys): nat { |Of(s.jobs, Hot)| + s.left + s.resumed }

  /** What its Stats reports as active. */
  function Used(s: Sys): nat { |Of(s.jobs, Holding)| + Cooling(s) + s.transit }

  /** Slots needed: for jobs still to acquire one, for jobs holding one, and those cooling. */
  function Load(s: Sys): nat { |Of(s.jobs, Ready)| + |Of(s.jobs, Holding)| + Cooling(s) }

  /** The sum of the comment and of solverFree: admitted jobs and cooling slots. A job whose
      request was interrupted counts twice while its slot cools. */
  function Sum(s: Sys): nat { |s.jobs| + Cooling(s) }

  predicate Enabled(s: Sys, a: Action) {
    match a
    case ReadStats(id) => s.reserve.Nowhere? && id !in s.jobs
    case Compare => s.reserve.SawStats?
    case Admit => s.reserve.Admitting?
    case Leave(id) => s.reserve.Nowhere? && id in s.jobs && !s.jobs[id].Holding?
    case Acquire(id) => id in s.jobs && s.jobs[id].Ready? && Used(s) < s.capacity
    case Finish(id) => id in s.jobs && s.jobs[id].Holding?
    case Interrupt(id) => id in s.jobs && s.jobs[id].Holding?
    case Continue(id) => id in s.jobs && (s.jobs[id].Hot? || s.jobs[id].Cold?)
    case CoolHot(id) => id in s.jobs && s.jobs[id].Hot?
    case CoolLeft => 0 < s.left
    case CoolResumed => 0 < s.resumed
    case Free => 0 < s.transit
  }

  function Moved(s: Sys, id: Id, phase: Phase): Sys { s.(jobs := s.jobs[id := phase]) }

  function Step(s: Sys, a: Action): Sys
    requires Enabled(s, a)
  {
    match a
    case ReadStats(id) => s.(reserve := SawStats(id, Used(s)))
    case Compare =>
      var desk := Admission.Desk(1, 0, 0, {}, s.jobs.Keys, {}, map[]);
      var solver := Admission.Solver(s.reserve.active, s.capacity, Cooling(s));
      var answer := Admission.Answer(desk, s.reserve.id, Some(solver), Admission.NoChromium, None);
      s.(reserve := if answer.None? then Admitting(s.reserve.id) else Nowhere)
    case Admit => Moved(s, s.reserve.id, Ready).(reserve := Nowhere)
    case Leave(id) => s.(jobs := s.jobs - {id}, left := if s.jobs[id].Hot? then s.left + 1 else s.left)
    case Acquire(id) => Moved(s, id, Holding)
    case Finish(id) => Moved(s, id, Ready)
    case Interrupt(id) => Moved(s, id, Hot)
    case Continue(id) => Moved(s, id, Ready).(resumed := if s.jobs[id].Hot? then s.resumed + 1 else s.resumed)
    case CoolHot(id) => Moved(s, id, Cold).(transit := s.transit + 1)
    case CoolLeft => s.(left := s.left - 1, transit := s.transit + 1)
    case CoolResumed => s.(resumed := s.resumed - 1, transit := s.transit + 1)
    case Free => s.(transit := s.transit - 1)
  }

  // ---------------------------------------------------------------- counting

  /** Moving one job changes one count down and one up. */
  lemma MoveCounts(jobs: map<Id, Phase>, id: Id, to: Phase, phase: Phase)
    ensures |Of(jobs[id := to], phase)|
            == |Of(jobs, phase)| - (if id in jobs && jobs[id] == phase then 1 else 0) + (if to == phase then 1 else 0)
  {
    var rest := Of(jobs, phase) - {id};
    assert Of(jobs[id := to], phase) == if to == phase then rest + {id} else rest;
  }

  lemma LeaveCounts(jobs: map<Id, Phase>, id: Id, phase: Phase)
    requires id in jobs
    ensures |Of(jobs - {id}, phase)| == |Of(jobs, phase)| - (if jobs[id] == phase then 1 else 0)
  {
    assert Of(jobs - {id}, phase) == Of(jobs, phase) - {id};
  }

  lemma PhasesCover(jobs: map<Id, Phase>)
    ensures |jobs| == |Of(jobs, Ready)| + |Of(jobs, Holding)| + |Of(jobs, Hot)| + |Of(jobs, Cold)|
  {
    var ready, holding, hot, cold := Of(jobs, Ready), Of(jobs, Holding), Of(jobs, Hot), Of(jobs, Cold);
    assert jobs.Keys == (ready + holding) + (hot + cold);
    assert ready !! holding && hot !! cold && (ready + holding) !! (hot + cold);
  }

  // ---------------------------------------------------------------- the bound

  /** Admitted jobs and the slots left cooling behind departed ones fit the capacity, with
      room for one more while reserve is about to admit; so do the slots in use. */
  ghost predicate Inv(s: Sys) {
    && |s.jobs| + s.left + (if s.reserve.Admitting? then 1 else 0) <= s.capacity
    && Used(s) <= s.capacity
    && (!s.reserve.Nowhere? ==> s.reserve.id !in s.jobs)
  }

  lemma AdmitKeeps(s: Sys)
    requires Inv(s) && Enabled(s, Admit)
    ensures Inv(Step(s, Admit))
  {
    MoveCounts(s.jobs, s.reserve.id, Ready, Hot);
    MoveCounts(s.jobs, s.reserve.id, Ready, Holding);
    assert s.jobs[s.reserve.id := Ready].Keys == s.jobs.Keys + {s.reserve.id};
  }

  lemma LeaveKeeps(s: Sys, id: Id)
    requires Inv(s) && Enabled(s, Leave(id))
    ensures Inv(Step(s, Leave(id)))
  {
    LeaveCounts(s.jobs, id, Hot);
    LeaveCounts(s.jobs, id, Holding);
    assert (s.jobs - {id}).Keys == s.jobs.Keys - {id};
  }

  lemma StepKeeps(s: Sys, a: Action)
    requires Inv(s) && Enabled(s, a)
    ensures Inv(Step(s, a))
  {
    match a {
      case Admit => AdmitKeeps(s);
      case Leave(id) => LeaveKeeps(s, id);
      case Acquire(id) => MovesWithin(s, id, Holding);
      case Finish(id) => MovesWithin(s, id, Ready);
      case Interrupt(id) => MovesWithin(s, id, Hot);
      case Continue(id) => MovesWithin(s, id, Ready);
      case CoolHot(id) => MovesWithin(s, id, Cold);
      case _ =>
    }
  }

  lemma MovesWithin(s: Sys, id: Id, to: Phase)
    requires id in s.jobs
    ensures var jobs := s.jobs[id := to];
      && jobs.Keys == s.jobs.Keys && |jobs| == |s.jobs|
      && |Of(jobs, Hot)| == |Of(s.jobs, Hot)| - (if s.jobs[id].Hot? then 1 else 0) + (if to.Hot? then 1 else 0)
      && |Of(jobs, Holding)|
          == |Of(s.jobs, Holding)| - (if s.jobs[id].Holding? then 1 else 0) + (if to.Holding? then 1 else 0)
  {
    var jobs := s.jobs[id := to];
    assert jobs.Keys == s.jobs.Keys;
    assert |jobs| == |jobs.Keys| && |s.jobs| == |s.jobs.Keys|;
    MoveCounts(s.jobs, id, to, Hot);
    MoveCounts(s.jobs, id, to, Holding);
  }
}
