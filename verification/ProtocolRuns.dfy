/** What holds over whole runs of the refresh protocol. */
module ProtocolRuns {
  import opened Wrappers
  import opened Admission
  import opened Store
  import opened Protocol
  import A = Alerts

  ghost predicate Follow(states: seq<Sys>, actions: seq<Action>, threshold: nat) {
    && |states| == |actions| + 1
    && forall i {:trigger actions[i]} :: 0 <= i < |actions| ==>
         Enabled(states[i], actions[i]) && states[i + 1] == Step(states[i], threshold, actions[i])
  }

  ghost predicate IsRun(states: seq<Sys>, actions: seq<Action>, threshold: nat) {
    Follow(states, actions, threshold) && Init(states[0])
  }

  lemma {:induction false} EveryStateIsGood(states: seq<Sys>, actions: seq<Action>, threshold: nat, i: nat)
    requires IsRun(states, actions, threshold) && i < |states|
    ensures Inv(states[i], threshold)
  {
    if i == 0 {
      var s := states[0];
      forall id | id in s.nodes
        ensures NodeInv(s.nodes[id], Find(s.desk.finished, id), s.tick, s.listed, s.now, threshold)
        ensures !Occupied(s.nodes, id)
      {
        assert s.nodes[id] == NewNode(s.nodes[id].feed, false).(start := s.nodes[id].feed.value.row.failures);
      }
    } else {
      EveryStateIsGood(states, actions, threshold, i - 1);
      StepKeeps(states[i - 1], threshold, actions[i - 1]);
      assert states[i - 1 + 1] == Step(states[i - 1], threshold, actions[i - 1]);
    }
  }

  /** No lost update: when the store accepts a refresh, the failure count the refresh read
      from the list is still the row's, so writing from it loses nothing. */
  lemma NoLostUpdate(states: seq<Sys>, actions: seq<Action>, threshold: nat, i: nat, id: Id, run: Refresh, limit: nat)
    requires IsRun(states, actions, threshold) && i < |actions| && actions[i] == On(id, Save(run, limit))
    requires id in states[i].nodes && states[i].nodes[id].feed.Some?
    requires run.version == states[i].nodes[id].feed.value.row.version
    ensures run.failures == states[i].nodes[id].feed.value.row.failures
  {
    EveryStateIsGood(states, actions, threshold, i);
    assert NodeInv(states[i].nodes[id], Find(states[i].desk.finished, id), states[i].tick, states[i].listed,
                   states[i].now, threshold);
    assert Can(states[i].nodes[id], states[i].tick, Save(run, limit));
  }

  /** The stored failure count is the number of stored failures since the last stored
      success or editor save, in every state of every run; and once a feed's last result
      has been reported, the events raised for it are those its history calls for. */
  lemma CountIsHistory(states: seq<Sys>, actions: seq<Action>, threshold: nat, i: nat, id: Id)
    requires IsRun(states, actions, threshold) && i < |states|
    requires id in states[i].nodes && states[i].nodes[id].feed.Some?
    ensures var n := states[i].nodes[id];
      && n.feed.value.row.failures == A.Streak(n.start, n.log)
      && (!(n.job.Some? && n.job.value.phase.Saved?) ==> n.alerts == A.Events(threshold, n.start, n.log))
  {
    EveryStateIsGood(states, actions, threshold, i);
    var n := states[i].nodes[id];
    assert NodeInv(n, Find(states[i].desk.finished, id), states[i].tick, states[i].listed, states[i].now, threshold);
    assert n.log[..|n.log|] == n.log;
  }

  /** alertRefresh, working from the refresh's old copy and the reported set, raises the
      event that the feed's stored history calls for at that result. */
  lemma AlertIsTheHistorysEvent(states: seq<Sys>, actions: seq<Action>, threshold: nat, i: nat, id: Id)
    requires IsRun(states, actions, threshold) && i < |actions| && actions[i] == On(id, Alert)
    requires id in states[i].nodes && states[i].nodes[id].feed.Some?
    requires states[i].nodes[id].job.Some? && states[i].nodes[id].job.value.phase.Saved?
    ensures id in states[i + 1].nodes
    ensures var n, at := states[i].nodes[id], states[i].nodes[id].job.value.phase.at;
      at < |n.log| && n.log[at].Result?
      && states[i + 1].nodes[id].alerts == n.alerts + [A.EventAt(threshold, n.start, n.log, at)]
  {
    EveryStateIsGood(states, actions, threshold, i);
    var n := states[i].nodes[id];
    assert NodeInv(n, Find(states[i].desk.finished, id), states[i].tick, states[i].listed, states[i].now, threshold);
    assert states[i + 1] == Step(states[i], threshold, actions[i]);
  }

  /** In every state of every run the slots in use are the running jobs, and every
      admission belongs to one of them and stays within its pool. */
  lemma AdmissionHolds(states: seq<Sys>, actions: seq<Action>, threshold: nat, i: nat)
    requires IsRun(states, actions, threshold) && i < |states|
    ensures var desk := states[i].desk;
      && desk.active == (set id | id in states[i].nodes && Working(states[i].nodes[id]))
      && desk.used == |desk.active| <= desk.capacity
      && desk.solving <= desk.active && desk.rendering <= desk.active && |desk.rendering| <= desk.pool
  {
    EveryStateIsGood(states, actions, threshold, i);
    forall id ensures id in states[i].desk.active <==> id in states[i].nodes && Working(states[i].nodes[id]) {
      assert id in states[i].desk.active <==> Occupied(states[i].nodes, id);
    }
  }

  lemma ActRecordsEnd(n: Node, tick: Tick, act: Act, refused: bool, listed: int, now: int, threshold: nat)
    requires Can(n, tick, act)
    ensures Acted(n, tick, act, refused, listed, now, threshold).lastEnd
            == if act.MarkEnd? then Some(now) else n.lastEnd
  {
  }

  ghost predicate EndedSince(s: Sys, id: Id, time: int) {
    id in s.nodes && s.nodes[id].lastEnd.Some? && time <= s.nodes[id].lastEnd.value
  }

  lemma StepKeepsEnds(s: Sys, threshold: nat, a: Action, id: Id, time: int)
    requires Enabled(s, a) && time <= s.now
    requires a == On(id, MarkEnd) || EndedSince(s, id, time)
    ensures EndedSince(Step(s, threshold, a), id, time)
  {
    if a.On? {
      ActRecordsEnd(s.nodes[a.id], s.tick, a.act, Refused(s.desk, a.id, a.act, s.listed), s.listed, s.now, threshold);
    }
  }

  lemma {:induction false} EndIsKept(states: seq<Sys>, actions: seq<Action>, threshold: nat, i: nat, j: nat, id: Id)
    requires IsRun(states, actions, threshold) && i < j < |states| && actions[i] == On(id, MarkEnd)
    ensures EndedSince(states[j], id, states[i].now)
    decreases j
  {
    assert states[j - 1 + 1] == Step(states[j - 1], threshold, actions[j - 1]);
    if i < j - 1 {
      EndIsKept(states, actions, threshold, i, j - 1, id);
      EveryStateIsGood(states, actions, threshold, j - 1);
      var n := states[j - 1].nodes[id];
      assert Ends(n, Find(states[j - 1].desk.finished, id), states[j - 1].listed, states[j - 1].now);
    }
    StepKeepsEnds(states[j - 1], threshold, actions[j - 1], id, states[i].now);
  }

  /** No restart from a stale list: a refresh starts only from a list whose reading began
      strictly after every earlier refresh of that feed ended. */
  lemma StartsOnlyFromALaterList(states: seq<Sys>, actions: seq<Action>, threshold: nat, i: nat, j: nat, id: Id,
                                 act: Act)
    requires IsRun(states, actions, threshold) && i < j < |actions|
    requires actions[i] == On(id, MarkEnd) && actions[j] == On(id, act) && act.Start?
    requires !Refused(states[j].desk, id, act, states[j].listed)
    ensures states[i].now < states[j].listed
  {
    EndIsKept(states, actions, threshold, i, j, id);
    EveryStateIsGood(states, actions, threshold, j);
    assert NodeInv(states[j].nodes[id], Find(states[j].desk.finished, id), states[j].tick, states[j].listed,
                   states[j].now, threshold);
  }

  // ---------------------------------------------------------------- an undisturbed refresh

  /** What one id and the scheduler look like. */
  ghost predicate At(s: Sys, id: Id, tick: Tick, listed: int, now: int, desk: Desk, node: Node) {
    s.tick == tick && s.listed == listed && s.now == now && s.desk == desk && id in s.nodes && s.nodes[id] == node
  }

  lemma ActAt(s: Sys, threshold: nat, id: Id, act: Act)
    requires id in s.nodes && Can(s.nodes[id], s.tick, act)
    ensures Enabled(s, On(id, act))
    ensures At(Step(s, threshold, On(id, act)), id, s.tick, s.listed, s.now,
               DeskAfter(s.desk, id, act, s.listed, s.now),
               Acted(s.nodes[id], s.tick, act, Refused(s.desk, id, act, s.listed), s.listed, s.now, threshold))
  {
  }

  lemma FollowOn(states: seq<Sys>, actions: seq<Action>, more: seq<Sys>, others: seq<Action>, threshold: nat)
    requires Follow(states, actions, threshold) && Follow(more, others, threshold) && states[|actions|] == more[0]
    ensures Follow(states + more[1..], actions + others, threshold)
  {
    var all := states + more[1..];
    forall i | 0 <= i < |actions + others|
      ensures Enabled(all[i], (actions + others)[i]) && all[i + 1] == Step(all[i], threshold, (actions + others)[i])
    {
      if i < |actions| {
        assert (actions + others)[i] == actions[i];
      } else {
        assert all[i] == more[i - |actions|] && (actions + others)[i] == others[i - |actions|];
      }
    }
  }

  /** The steps of one refresh that nothing comes between. */
  const READING := [BeginTick, ReadList, StartDispatch]

  function Refreshing(id: Id, run: Refresh, limit: nat): seq<Action> {
    [On(id, Start(None, NoChromium)), On(id, Save(run, limit))]
  }

  function Ending(id: Id): seq<Action> { [On(id, Alert), On(id, MarkEnd), On(id, Protocol.Release)] }

  lemma ReadingTheList(s: Sys, threshold: nat, id: Id) returns (states: seq<Sys>)
    requires Init(s) && id in s.nodes
    ensures Follow(states, READING, threshold) && states[0] == s && s.nodes[id].feed.Some?
    ensures At(states[3], id, Dispatching, s.now, s.now, s.desk, s.nodes[id].(copy := CopyOf(s.nodes[id])))
  {
    var begun := Step(s, threshold, BeginTick);
    var read := Step(begun, threshold, ReadList);
    states := [s, begun, read, Step(read, threshold, StartDispatch)];
    assert Forgotten(s.desk, s.now).finished == map[];
  }

  predicate Free(desk: Desk, id: Id) { id !in desk.active && id !in desk.finished && desk.used < desk.capacity }

  /** A refresh that starts from a current copy and saves what it read. */
  lemma StartAndSave(s: Sys, threshold: nat, id: Id, run: Refresh, limit: nat) returns (states: seq<Sys>)
    requires id in s.nodes && s.tick.Dispatching? && Free(s.desk, id)
    requires s.nodes[id].feed.Some? && s.nodes[id].copy == Some(Snapshot(run.version, run.failures))
    requires run.version == s.nodes[id].feed.value.row.version
    ensures Follow(states, Refreshing(id, run, limit), threshold) && states[0] == s
    ensures var n := s.nodes[id];
      At(states[2], id, Dispatching, s.listed, s.now, Admitted(s.desk, id, false, NoChromium),
         n.(copy := None, job := Some(Job(n.copy.value, s.listed, Saved(|n.log|, !run.failed))),
            feed := Some(Completed(n.feed.value, run, limit, s.now / NANOSECONDS)),
            log := n.log + [A.Result(!run.failed)]))
  {
    ActAt(s, threshold, id, Start(None, NoChromium));
    var mid := Step(s, threshold, On(id, Start(None, NoChromium)));
    ActAt(mid, threshold, id, Save(run, limit));
    states := [s, mid, Step(mid, threshold, On(id, Save(run, limit)))];
  }

  /** And then raises its event and ends. */
  lemma AlertAndEnd(s: Sys, threshold: nat, id: Id) returns (states: seq<Sys>)
    requires id in s.nodes && 0 < s.desk.used
    requires s.nodes[id].job.Some? && s.nodes[id].job.value.phase.Saved?
    ensures Follow(states, Ending(id), threshold) && states[0] == s
    ensures At(states[3], id, s.tick, s.listed, s.now, Released(Marked(s.desk, id, s.now), id),
               Alerted(s.nodes[id], threshold).(job := None, lastEnd := Some(s.now)))
  {
    ActAt(s, threshold, id, Alert);
    var alerted := Step(s, threshold, On(id, Alert));
    ActAt(alerted, threshold, id, MarkEnd);
    var marked := Step(alerted, threshold, On(id, MarkEnd));
    ActAt(marked, threshold, id, Protocol.Release);
    states := [s, alerted, marked, Step(marked, threshold, On(id, Protocol.Release))];
  }

  lemma DeskIsFree(desk: Desk, id: Id, now: int)
    requires desk == Desk(desk.capacity, desk.pool, 0, {}, {}, {}, map[])
    ensures Released(Marked(Admitted(desk, id, false, NoChromium), id, now), id) == desk.(finished := map[id := now])
  {
  }

  /** With a slot free, an undisturbed refresh from the list is admitted, its result stored,
      its event raised and its slot given back. */
  lemma RefreshIsStored(s: Sys, threshold: nat, id: Id, run: Refresh, limit: nat) returns (states: seq<Sys>)
    requires Init(s) && id in s.nodes && 0 < s.desk.capacity && s.nodes[id].feed.Some?
    requires run.version == s.nodes[id].feed.value.row.version && run.failures == s.nodes[id].feed.value.row.failures
    ensures IsRun(states, READING + Refreshing(id, run, limit) + Ending(id), threshold) && states[0] == s
    ensures var end := states[8];
      && id in end.nodes && end.nodes[id].job.None? && end.nodes[id].log == [A.Result(!run.failed)]
      && end.nodes[id].feed == Some(Completed(s.nodes[id].feed.value, run, limit, s.now / NANOSECONDS))
      && end.nodes[id].alerts == [A.Event(threshold, !run.failed, run.failures, false)]
      && end.desk == s.desk.(finished := map[id := s.now])
  {
    var read := ReadingTheList(s, threshold, id);
    var saved := StartAndSave(read[3], threshold, id, run, limit);
    var ended := AlertAndEnd(saved[2], threshold, id);
    FollowOn(read, READING, saved, Refreshing(id, run, limit), threshold);
    FollowOn(read + saved[1..], READING + Refreshing(id, run, limit), ended, Ending(id), threshold);
    states := read + saved[1..] + ended[1..];
    DeskIsFree(s.desk, id, s.now);
  }
}
