/** What holds over whole runs of requests entering, waiting for, holding and leaving
    their origins. */
module OriginRuns {
  import opened Wrappers
  import opened Origins

  ghost predicate IsRun(states: seq<Sys>, actions: seq<Action>) {
    && |states| == |actions| + 1 && states[0] == Sys(map[], [], map[])
    && forall i {:trigger actions[i]} :: 0 <= i < |actions| ==>
         Enabled(states[i], actions[i]) && states[i + 1] == Step(states[i], actions[i])
  }

  lemma {:induction false} EveryStateIsGood(states: seq<Sys>, actions: seq<Action>, i: nat)
    requires IsRun(states, actions) && i < |states|
    ensures Inv(states[i])
  {
    if i > 0 {
      EveryStateIsGood(states, actions, i - 1);
      assert states[i - 1 + 1] == Step(states[i - 1], actions[i - 1]);
      StepKeeps(states[i - 1], actions[i - 1]);
    }
  }

  /** Requests to one origin that are past acquire and have not released. */
  function AtOrigin(s: Sys, key: Key): set<nat> {
    set id | id in s.requests && s.requests[id].key == key && s.requests[id].phase.Holding?
  }

  /** Requests to one origin anywhere between entering and leaving. */
  function Using(s: Sys, key: Key): set<nat> { set id | id in s.requests && s.requests[id].key == key }

  /** In every interleaving of acquiring, giving up and releasing, at most two requests are
      at one origin, although its entry comes and goes; it is in the map exactly while some
      request uses it; and all those requests share the entry that is in the map. */
  lemma TwoPerOrigin(states: seq<Sys>, actions: seq<Action>, i: nat, key: Key)
    requires IsRun(states, actions) && i < |states|
    ensures |AtOrigin(states[i], key)| <= 2
    ensures key in states[i].origins <==> Using(states[i], key) != {}
    ensures forall id :: id in Using(states[i], key) ==>
      key in states[i].origins && states[i].requests[id].entry == states[i].origins[key]
  {
    EveryStateIsGood(states, actions, i);
    var s := states[i];
    forall id | id in Using(s, key) ensures key in s.origins && s.requests[id].entry == s.origins[key] {
      var e := s.requests[id].entry;
      assert Counted(s, e);
      assert Users(s.requests, e) >= {id};
      SubsetSize({id}, Users(s.requests, e));
    }
    if key in s.origins {
      var e := s.origins[key];
      assert Counted(s, e);
      assert AtOrigin(s, key) == Holders(s.requests, e);
      var id :| id in Users(s.requests, e);
      assert id in Using(s, key);
    } else {
      assert AtOrigin(s, key) <= Using(s, key);
    }
  }

  /** A holder can always release, and who is done with an entry can always leave it: the
      counts are never short. */
  lemma NobodyIsStuck(states: seq<Sys>, actions: seq<Action>, i: nat, id: nat)
    requires IsRun(states, actions) && i < |states| && id in states[i].requests
    ensures states[i].requests[id].phase.Holding? ==> Enabled(states[i], Release(id))
    ensures states[i].requests[id].phase.Freed? || states[i].requests[id].phase.GaveUp? ==>
      Enabled(states[i], Leave(id))
  {
    EveryStateIsGood(states, actions, i);
    NotShort(states[i], id);
  }
}
