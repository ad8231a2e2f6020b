/** The solver client in place (internal/flaresolverr/client.go): the slot channel and the
    cooling counter, changed where Fetch changes them. Each method is tied to the step of
    module SolverSlots that it performs. */
module SolverClients {
  import opened Wrappers
  import opened SolverSlots
  import R = RemoteSolves

  /** How a request with a slot ended: its context was over before it was sent, no time was
      left for it, no connection, a failure after one, or a complete reply. */
  datatype Outcome = Expired | NoTimeLeft | Unconnected | Interrupted | Replied

  class Client {
    const capacity: nat
    const timeout: int
    const grace: nat
    var slots: nat
    var cooling: nat
    var closed: bool

    /** The counters are those of the solver's state. */
    ghost predicate Shows(s: Sys) reads this { capacity == s.capacity && slots == Used(s) && cooling == Cooling(s) }

    constructor (capacity: nat, timeout: int, grace: nat)
      ensures this.capacity == capacity && this.timeout == timeout && this.grace == grace && !closed
      ensures Shows(Sys(capacity, map[], 0, 0, 0, Nowhere))
    {
      this.capacity, this.timeout, this.grace := capacity, timeout, grace;
      slots, cooling, closed := 0, 0, false;
      new;
      assert Of(map[], Hot) == {} && Of(map[], Holding) == {};
    }

    /** The select at the start of Fetch: a slot, when one is free. */
    method TakeSlot(ghost s: Sys, ghost id: Id) returns (taken: bool)
      requires Shows(s) && id in s.jobs && s.jobs[id].Ready?
      modifies this`slots
      ensures taken <==> Enabled(s, Acquire(id))
      ensures Shows(if taken then Step(s, Acquire(id)) else s)
    {
      taken := slots < capacity;
      if taken {
        slots := slots + 1;
        MovesWithin(s, id, Holding);
      }
    }

    /** From the slot to the deferred function. `expired` says that the context is over, and
        `outcome` how the request ends if it is sent. `hold` is how long the slot stays held. */
    method EndRequest(ghost s: Sys, ghost id: Id, expired: bool, remaining: int, outcome: Outcome)
      returns (ended: Outcome, hold: Option<int>)
      requires Shows(s) && id in s.jobs && s.jobs[id].Holding?
      requires outcome.Unconnected? || outcome.Interrupted? || outcome.Replied?
      modifies this`slots, this`cooling
      ensures ended == if expired then Expired
                       else if R.MaxTimeout(timeout, grace, remaining).None? then NoTimeLeft else outcome
      ensures hold == if ended.Interrupted? && !closed
                      then Some(R.MaxTimeout(timeout, grace, remaining).value * R.MILLISECOND + grace) else None
      ensures Shows(Step(s, if hold.Some? then Interrupt(id) else Finish(id)))
    {
      var holdFor := 0;
      var budget := Min(timeout, remaining - R.GraceShare(grace, remaining));
      var maxTimeout := R.Quotient(budget, R.MILLISECOND);
      if expired {
        ended := Expired;
      } else if maxTimeout < 1 {
        ended := NoTimeLeft;
      } else {
        holdFor := maxTimeout * R.MILLISECOND + grace;
        ended := outcome;
        if !outcome.Interrupted? { holdFor := 0; }
      }
      MovesWithin(s, id, Hot);
      MovesWithin(s, id, Ready);
      if holdFor > 0 && !closed {
        cooling := cooling + 1;
        hold := Some(holdFor);
      } else {
        HolderUsesASlot(s, id);
        slots := slots - 1;
        hold := None;
      }
    }

    /** The first of the two lines that end a hold; other goroutines may run before the other. */
    method StopCooling(ghost s: Sys, ghost a: Action)
      requires Shows(s) && Enabled(s, a) && (a.CoolHot? || a.CoolLeft? || a.CoolResumed?)
      modifies this`cooling
      ensures Shows(Step(s, a))
    {
      if a.CoolHot? {
        MovesWithin(s, a.id, Cold);
        assert a.id in Of(s.jobs, Hot);
      }
      cooling := cooling - 1;
    }

    /** The second of them. */
    method FreeSlot(ghost s: Sys)
      requires Shows(s) && Enabled(s, Free)
      modifies this`slots
      ensures Shows(Step(s, Free))
    {
      slots := slots - 1;
    }
  }

  lemma HolderUsesASlot(s: Sys, id: Id)
    requires id in s.jobs && s.jobs[id].Holding?
    ensures 0 < Used(s)
  {
    assert id in Of(s.jobs, Holding);
  }
}
