/** Two requests at most per source origin (acquire in internal/fetch/fetch.go): map
    entries that count their users and are deleted and created again. A request keeps the
    entry it found, even after the map has moved on to another one for the same origin. */
module Origins {
  import opened Wrappers

  type Key = string

  const PER_ORIGIN := 2

  /** A request that entered acquire, holds a place, gave the place back but not the
      entry, or gave up waiting. `entry` names the semaphore it waits for or holds. */
  datatype Phase = Waiting | Holding | Freed | GaveUp

  datatype Request = Request(key: Key, entry: nat, phase: Phase)

  datatype Entry = Entry(key: Key, users: nat, sem: nat)

  /** `entries` are all semaphores ever created, `origins` the map of the live ones. */
  datatype Sys = Sys(origins: map<Key, nat>, entries: seq<Entry>, requests: map<nat, Request>)

  datatype Action =
    | Enter(id: nat, key: Key)
    | Acquire(id: nat)
    | Cancel(id: nat)
    | Release(id: nat)
    | Leave(id: nat)

  predicate Enabled(s: Sys, a: Action) {
    match a
    case Enter(id, key) => id !in s.requests && (key in s.origins ==> s.origins[key] < |s.entries|)
    case Acquire(id) =>
      id in s.requests && s.requests[id].phase.Waiting?
      && s.requests[id].entry < |s.entries| && s.entries[s.requests[id].entry].sem < PER_ORIGIN
    case Cancel(id) => id in s.requests && s.requests[id].phase.Waiting?
    case Release(id) =>
      id in s.requests && s.requests[id].phase.Holding?
      && s.requests[id].entry < |s.entries| && 0 < s.entries[s.requests[id].entry].sem
    case Leave(id) =>
      id in s.requests && (s.requests[id].phase.Freed? || s.requests[id].phase.GaveUp?)
      && s.requests[id].entry < |s.entries| && 0 < s.entries[s.requests[id].entry].users
  }

  function Moved(s: Sys, id: nat, phase: Phase): Sys
    requires id in s.requests
  {
    s.(requests := s.requests[id := s.requests[id].(phase := phase)])
  }

  /** The first critical section: finds or makes the entry, and counts a user. */
  function Entered(s: Sys, id: nat, key: Key): Sys
    requires Enabled(s, Enter(id, key))
  {
    if key in s.origins then
      var e := s.origins[key];
      s.(entries := s.entries[e := s.entries[e].(users := s.entries[e].users + 1)],
         requests := s.requests[id := Request(key, e, Waiting)])
    else
      s.(origins := s.origins[key := |s.entries|], entries := s.entries + [Entry(key, 1, 0)],
         requests := s.requests[id := Request(key, |s.entries|, Waiting)])
  }

  /** releaseUser: the last user deletes the entry from the map. */
  function Left(s: Sys, id: nat): Sys
    requires Enabled(s, Leave(id))
  {
    var e := s.requests[id].entry;
    var users := s.entries[e].users - 1;
    s.(entries := s.entries[e := s.entries[e].(users := users)],
       origins := if users == 0 then s.origins - {s.requests[id].key} else s.origins,
       requests := s.requests - {id})
  }

  function Step(s: Sys, a: Action): Sys
    requires Enabled(s, a)
  {
    match a
    case Enter(id, key) => Entered(s, id, key)
    case Acquire(id) =>
      var e := s.requests[id].entry;
      Moved(s, id, Holding).(entries := s.entries[e := s.entries[e].(sem := s.entries[e].sem + 1)])
    case Cancel(id) => Moved(s, id, GaveUp)
    case Release(id) =>
      var e := s.requests[id].entry;
      Moved(s, id, Freed).(entries := s.entries[e := s.entries[e].(sem := s.entries[e].sem - 1)])
    case Leave(id) => Left(s, id)
  }

  // ---------------------------------------------------------------- the invariant

  type Requests = map<nat, Request>

  predicate Uses(r: Request, e: nat) { r.entry == e }

  predicate Holds(r: Request, e: nat) { r.entry == e && r.phase.Holding? }

  function Users(requests: Requests, e: nat): set<nat> { set id | id in requests && Uses(requests[id], e) }

  function Holders(requests: Requests, e: nat): set<nat> { set id | id in requests && Holds(requests[id], e) }

  function One(b: bool): nat { if b then 1 else 0 }

  lemma PutUsers(requests: Requests, id: nat, r: Request, e: nat)
    ensures |Users(requests[id := r], e)|
      == |Users(requests, e)| - One(id in requests && Uses(requests[id], e)) + One(Uses(r, e))
  {
    var before, after := Users(requests, e), Users(requests[id := r], e);
    SizeWithout(before, id);
    SizeWithout(after, id);
    assert after - {id} == before - {id};
  }

  lemma PutHolders(requests: Requests, id: nat, r: Request, e: nat)
    ensures |Holders(requests[id := r], e)|
      == |Holders(requests, e)| - One(id in requests && Holds(requests[id], e)) + One(Holds(r, e))
  {
    var before, after := Holders(requests, e), Holders(requests[id := r], e);
    SizeWithout(before, id);
    SizeWithout(after, id);
    assert after - {id} == before - {id};
  }

  lemma DropCounts(requests: Requests, id: nat, e: nat)
    requires id in requests
    ensures |Users(requests - {id}, e)| == |Users(requests, e)| - One(Uses(requests[id], e))
    ensures |Holders(requests - {id}, e)| == |Holders(requests, e)| - One(Holds(requests[id], e))
  {
    assert Users(requests - {id}, e) == Users(requests, e) - {id};
    assert Holders(requests - {id}, e) == Holders(requests, e) - {id};
  }

  /** An entry counts its requests and holders, and is in the map exactly while it has users. */
  ghost predicate Counted(s: Sys, e: nat)
    requires e < |s.entries|
  {
    && s.entries[e].users == |Users(s.requests, e)|
    && s.entries[e].sem == |Holders(s.requests, e)| <= PER_ORIGIN
    && (0 < s.entries[e].users <==> s.entries[e].key in s.origins && s.origins[s.entries[e].key] == e)
  }

  ghost predicate Inv(s: Sys) {
    && (forall e {:trigger s.entries[e]} :: 0 <= e < |s.entries| ==> Counted(s, e))
    && (forall k :: k in s.origins ==> s.origins[k] < |s.entries| && s.entries[s.origins[k]].key == k)
    && (forall id :: id in s.requests ==>
          s.requests[id].entry < |s.entries| && s.entries[s.requests[id].entry].key == s.requests[id].key)
  }

  lemma EnterCounts(s: Sys, id: nat, key: Key, e: nat)
    requires Inv(s) && Enabled(s, Enter(id, key)) && e < |Entered(s, id, key).entries|
    ensures Counted(Entered(s, id, key), e)
  {
    var t := Entered(s, id, key);
    PutUsers(s.requests, id, t.requests[id], e);
    PutHolders(s.requests, id, t.requests[id], e);
    if e < |s.entries| {
      assert Counted(s, e);
      assert key in s.origins || s.entries[e].users == 0 || s.entries[e].key != key;
    } else {
      assert Users(s.requests, e) == {} && Holders(s.requests, e) == {};
    }
  }

  lemma MoveCounts(s: Sys, a: Action, e: nat)
    requires Inv(s) && Enabled(s, a) && (a.Acquire? || a.Cancel? || a.Release?) && e < |s.entries|
    ensures Counted(Step(s, a), e)
  {
    assert Counted(s, e);
    var r := Step(s, a).requests[a.id];
    PutUsers(s.requests, a.id, r, e);
    PutHolders(s.requests, a.id, r, e);
  }

  lemma LeaveCounts(s: Sys, id: nat, e: nat)
    requires Inv(s) && Enabled(s, Leave(id)) && e < |s.entries|
    ensures Counted(Left(s, id), e)
  {
    assert Counted(s, e);
    assert Counted(s, s.requests[id].entry);
    DropCounts(s.requests, id, e);
  }

  lemma EnterKeeps(s: Sys, id: nat, key: Key)
    requires Inv(s) && Enabled(s, Enter(id, key))
    ensures Inv(Step(s, Enter(id, key)))
  {
    forall e | 0 <= e < |Entered(s, id, key).entries| ensures Counted(Entered(s, id, key), e) {
      EnterCounts(s, id, key, e);
    }
  }

  lemma MoveKeeps(s: Sys, a: Action)
    requires Inv(s) && Enabled(s, a) && (a.Acquire? || a.Cancel? || a.Release?)
    ensures Inv(Step(s, a))
  {
    forall e | 0 <= e < |s.entries| ensures Counted(Step(s, a), e) { MoveCounts(s, a, e); }
  }

  lemma LeaveKeeps(s: Sys, id: nat)
    requires Inv(s) && Enabled(s, Leave(id))
    ensures Inv(Step(s, Leave(id)))
  {
    forall e | 0 <= e < |s.entries| ensures Counted(Left(s, id), e) { LeaveCounts(s, id, e); }
    assert Counted(s, s.requests[id].entry);
  }

  lemma StepKeeps(s: Sys, a: Action)
    requires Inv(s) && Enabled(s, a)
    ensures Inv(Step(s, a))
  {
    match a {
      case Enter(id, key) => EnterKeeps(s, id, key);
      case Leave(id) => LeaveKeeps(s, id);
      case _ => MoveKeeps(s, a);
    }
  }

  // ---------------------------------------------------------------- acquire in place

  class Origin {
    var users: nat
    var sem: nat

    constructor ()
      ensures users == 0 && sem == 0
    {
      users, sem := 0, 0;
    }
  }

  /** The fetcher's map of live origins, as acquire and its two closures change it. `made`
      are all entries ever created, in order. Each method performs one step of the machine. */
  class Client {
    var origins: map<Key, Origin>
    ghost var made: seq<Origin>

    /** The objects are the machine's state: one for each of its entries, and the map points
        at the live ones. */
    ghost predicate Shows(s: Sys)
      reads this, made
    {
      && |made| == |s.entries| && (forall i, j :: 0 <= i < j < |made| ==> made[i] != made[j])
      && (forall e :: 0 <= e < |made| ==> made[e].users == s.entries[e].users && made[e].sem == s.entries[e].sem)
      && origins.Keys == s.origins.Keys
      && (forall k :: k in origins ==> s.origins[k] < |made| && origins[k] == made[s.origins[k]])
    }

    constructor ()
      ensures Shows(Sys(map[], [], map[])) && made == []
    {
      origins, made := map[], [];
    }

    /** acquire's critical section. */
    method Enter(key: Key, ghost id: nat, ghost s: Sys) returns (o: Origin)
      requires Shows(s) && Enabled(s, Action.Enter(id, key))
      modifies this, if key in origins then {origins[key]} else {}
      ensures Shows(Step(s, Action.Enter(id, key)))
      ensures Step(s, Action.Enter(id, key)).requests[id].entry < |made|
      ensures o == made[Step(s, Action.Enter(id, key)).requests[id].entry]
    {
      if key in origins {
        o := origins[key];
      } else {
        o := new Origin();
        origins := origins[key := o];
        made := made + [o];
      }
      o.users := o.users + 1;
    }

    /** Takes a place if one is free now. */
    method TryAcquire(o: Origin, ghost id: nat, ghost s: Sys) returns (taken: bool)
      requires Shows(s) && id in s.requests && s.requests[id].phase.Waiting?
      requires s.requests[id].entry < |made| && o == made[s.requests[id].entry]
      modifies o`sem
      ensures taken <==> Enabled(s, Acquire(id))
      ensures Shows(if taken then Step(s, Acquire(id)) else s)
    {
      taken := o.sem < PER_ORIGIN;
      if taken { o.sem := o.sem + 1; }
    }

    /** releaseUser, after the place is given back or the wait given up. */
    method ReleaseUser(key: Key, o: Origin, ghost id: nat, ghost s: Sys)
      requires Shows(s) && Inv(s) && Enabled(s, Leave(id)) && key == s.requests[id].key
      requires o == made[s.requests[id].entry]
      modifies this, o`users
      ensures made == old(made) && Shows(Step(s, Leave(id)))
    {
      o.users := o.users - 1;
      if o.users == 0 { origins := origins - {key}; }
    }

    /** What a granted request calls when it is done. */
    method Release(key: Key, o: Origin, ghost id: nat, ghost s: Sys)
      requires Shows(s) && Inv(s) && id in s.requests && s.requests[id].phase.Holding?
      requires key == s.requests[id].key && s.requests[id].entry < |made| && o == made[s.requests[id].entry]
      modifies this, o
      ensures Enabled(s, Action.Release(id)) && Enabled(Step(s, Action.Release(id)), Leave(id))
      ensures made == old(made) && Shows(Step(Step(s, Action.Release(id)), Leave(id)))
    {
      FreedCanLeave(s, id);
      ghost var freed := Step(s, Action.Release(id));
      o.sem := o.sem - 1;
      ReleaseUser(key, o, id, freed);
    }
  }

  lemma FreedCanLeave(s: Sys, id: nat)
    requires Inv(s) && id in s.requests && s.requests[id].phase.Holding?
    ensures Enabled(s, Release(id))
    ensures var freed := Step(s, Release(id)); Inv(freed) && Enabled(freed, Leave(id))
  {
    NotShort(s, id);
    StepKeeps(s, Release(id));
    NotShort(Step(s, Release(id)), id);
  }

  /** A holder can release, and who is done with an entry can leave it: the counts are
      never short. */
  lemma NotShort(s: Sys, id: nat)
    requires Inv(s) && id in s.requests
    ensures s.requests[id].phase.Holding? ==> Enabled(s, Release(id))
    ensures s.requests[id].phase.Freed? || s.requests[id].phase.GaveUp? ==> Enabled(s, Leave(id))
  {
    var e := s.requests[id].entry;
    assert Counted(s, e);
    assert id in Users(s.requests, e);
    assert s.requests[id].phase.Holding? ==> id in Holders(s.requests, e);
  }
}
