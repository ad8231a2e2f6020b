/** Which health events a feed's history of stored results raises
    (internal/scheduler/alerts.go), and how failing and recovered pair up. */
module Alerts {
  import opened Wrappers

  /** What the database remembers of one feed: results it stored, and editor saves, which
      reset the failure count. */
  datatype Entry = Result(ok: bool) | Edit

  datatype Kind = Failing | Recovered

  /** Failed results in a row at the end of a history that began with `start`. */
  function Streak(start: nat, log: seq<Entry>): nat {
    if log == [] then start
    else if log[|log| - 1] == Result(false) then Streak(start, log[..|log| - 1]) + 1
    else 0
  }

  /** alertRefresh: the event for one result, from the failure count the refresh read and
      whether the feed's failing is out. */
  function Event(threshold: nat, ok: bool, failures: nat, reported: bool): Option<Kind> {
    if !ok && failures + 1 == threshold then Some(Failing)
    else if ok && (failures >= threshold || reported) then Some(Recovered)
    else None
  }

  /** Whether the feed is in the reported set after that. */
  function StillReported(threshold: nat, ok: bool, failures: nat, reported: bool): bool {
    match Event(threshold, ok, failures, reported)
    case Some(Failing) => true
    case Some(Recovered) => false
    case None => reported
  }

  /** Whether a feed's failing went out and was not answered yet. */
  function Reported(threshold: nat, start: nat, log: seq<Entry>): bool {
    if log == [] then false
    else
      var front, last := log[..|log| - 1], log[|log| - 1];
      var reported := Reported(threshold, start, front);
      if last.Edit? then reported else StillReported(threshold, last.ok, Streak(start, front), reported)
  }

  /** The event raised by the result at position i, if any. */
  function EventAt(threshold: nat, start: nat, log: seq<Entry>, i: nat): Option<Kind>
    requires i < |log|
  {
    if log[i].Edit? then None
    else Event(threshold, log[i].ok, Streak(start, log[..i]), Reported(threshold, start, log[..i]))
  }

  /** The events of a whole history, one place for each stored result. */
  function Events(threshold: nat, start: nat, log: seq<Entry>): seq<Option<Kind>> {
    if log == [] then []
    else
      var front := log[..|log| - 1];
      Events(threshold, start, front)
      + if log[|log| - 1].Edit? then [] else [EventAt(threshold, start, log, |log| - 1)]
  }

  /** Failing goes out exactly when a stored failure brings the streak to the threshold. */
  lemma FailingAtThreshold(threshold: nat, start: nat, log: seq<Entry>, i: nat)
    requires i < |log|
    ensures EventAt(threshold, start, log, i) == Some(Failing)
            <==> log[i] == Result(false) && Streak(start, log[..i + 1]) == threshold
  {
    assert log[..i + 1][..i] == log[..i] && log[..i + 1][i] == log[i];
  }

  ghost predicate NoSuccess(log: seq<Entry>, from: nat, to: nat) {
    forall k | from <= k < to && k < |log| :: log[k] != Result(true)
  }

  lemma {:induction false} ReportedUntilSuccess(threshold: nat, start: nat, log: seq<Entry>, i: nat, j: nat)
    requires i < j <= |log| && EventAt(threshold, start, log, i) == Some(Failing) && NoSuccess(log, i + 1, j)
    ensures Reported(threshold, start, log[..j])
    decreases j
  {
    assert log[..j][..j - 1] == log[..j - 1] && log[..j][j - 1] == log[j - 1];
    if j > i + 1 {
      ReportedUntilSuccess(threshold, start, log, i, j - 1);
    }
  }

  /** The first stored success after a failing event raises recovered, whatever edits and
      failures lie between; and no success after it does until the feed fails again. */
  lemma RecoveredOnce(threshold: nat, start: nat, log: seq<Entry>, i: nat, j: nat)
    requires i < j < |log| && EventAt(threshold, start, log, i) == Some(Failing)
    requires NoSuccess(log, i + 1, j) && log[j] == Result(true)
    ensures EventAt(threshold, start, log, j) == Some(Recovered)
    ensures forall k | j < k < |log| && log[k] == Result(true) && (forall m | j < m < k :: log[m] != Result(false)) ::
      0 < threshold ==> EventAt(threshold, start, log, k) == None
  {
    ReportedUntilSuccess(threshold, start, log, i, j);
    forall k | j < k < |log| && log[k] == Result(true) && (forall m | j < m < k :: log[m] != Result(false))
               && 0 < threshold
      ensures EventAt(threshold, start, log, k) == None
    {
      assert log[..j + 1][..j] == log[..j] && log[..j + 1][j] == log[j];
      QuietStays(threshold, start, log, j + 1, k);
    }
  }

  lemma {:induction false} QuietStays(threshold: nat, start: nat, log: seq<Entry>, i: nat, j: nat)
    requires i <= j <= |log| && 0 < threshold
    requires Streak(start, log[..i]) == 0 && !Reported(threshold, start, log[..i])
    requires forall m | i <= m < j :: log[m] != Result(false)
    ensures Streak(start, log[..j]) == 0 && !Reported(threshold, start, log[..j])
    decreases j
  {
    if i < j {
      QuietStays(threshold, start, log, i, j - 1);
      assert log[..j][..j - 1] == log[..j - 1] && log[..j][j - 1] == log[j - 1];
    }
  }

  /** Where a feed's failing that is still unanswered went out. */
  lemma {:induction false} ReportedBy(threshold: nat, start: nat, log: seq<Entry>, j: nat) returns (i: nat)
    requires j <= |log| && Reported(threshold, start, log[..j])
    ensures i < j && EventAt(threshold, start, log, i) == Some(Failing) && NoSuccess(log, i + 1, j)
    decreases j
  {
    assert log[..j][..j - 1] == log[..j - 1] && log[..j][j - 1] == log[j - 1];
    if EventAt(threshold, start, log, j - 1) == Some(Failing) {
      i := j - 1;
    } else {
      i := ReportedBy(threshold, start, log, j - 1);
    }
  }

  /** A streak at or past the threshold was reported when it got there, unless it was
      there when the process started. */
  lemma {:induction false} LongStreak(threshold: nat, start: nat, log: seq<Entry>, j: nat)
    requires j <= |log| && Streak(start, log[..j]) >= threshold && 0 < threshold
    ensures Reported(threshold, start, log[..j])
            || (start >= threshold && forall k | 0 <= k < j :: log[k] == Result(false))
    decreases j
  {
    if j > 0 {
      assert log[..j][..j - 1] == log[..j - 1] && log[..j][j - 1] == log[j - 1];
      if Streak(start, log[..j - 1]) >= threshold { LongStreak(threshold, start, log, j - 1); }
    }
  }

  lemma {:induction false} StreakFromStart(start: nat, log: seq<Entry>, j: nat)
    requires j <= |log| && forall k | 0 <= k < j :: log[k] == Result(false)
    ensures Streak(start, log[..j]) == start + j
    decreases j
  {
    if j > 0 {
      assert log[..j][..j - 1] == log[..j - 1] && log[..j][j - 1] == log[j - 1];
      StreakFromStart(start, log, j - 1);
    }
  }

  /** Recovered answers a failing event, or a streak that was already at the threshold when
      the process started, and the first success after either raises it. */
  lemma RecoveredHasReason(threshold: nat, start: nat, log: seq<Entry>, j: nat)
    requires j < |log| && 0 < threshold
    ensures EventAt(threshold, start, log, j) == Some(Recovered)
            <==> && log[j] == Result(true)
                 && ((exists i :: 0 <= i < j && EventAt(threshold, start, log, i) == Some(Failing)
                                  && NoSuccess(log, i + 1, j))
                     || (start >= threshold && forall k | 0 <= k < j :: log[k] == Result(false)))
  {
    if EventAt(threshold, start, log, j) == Some(Recovered) {
      if Streak(start, log[..j]) >= threshold { LongStreak(threshold, start, log, j); }
      if Reported(threshold, start, log[..j]) { var i := ReportedBy(threshold, start, log, j); }
    } else if log[j] == Result(true) {
      if i :| 0 <= i < j && EventAt(threshold, start, log, i) == Some(Failing) && NoSuccess(log, i + 1, j) {
        ReportedUntilSuccess(threshold, start, log, i, j);
      }
      if start >= threshold && forall k | 0 <= k < j :: log[k] == Result(false) { StreakFromStart(start, log, j); }
    }
  }

  /** The feeds whose failing is out, as the scheduler keeps them. */
  class Reports {
    var reported: set<string>

    constructor ()
      ensures reported == {}
    {
      reported := {};
    }

    /** alertRefresh, for a threshold of at least one. */
    method AlertRefresh(threshold: nat, id: string, ok: bool, failures: nat) returns (event: Option<Kind>)
      modifies this
      ensures event == Event(threshold, ok, failures, id in old(reported))
      ensures reported == if StillReported(threshold, ok, failures, id in old(reported))
                          then old(reported) + {id} else old(reported) - {id}
    {
      event := None;
      if !ok && failures + 1 == threshold {
        reported := reported + {id};
        event := Some(Failing);
      } else if ok && (failures >= threshold || id in reported) {
        reported := reported - {id};
        event := Some(Recovered);
      }
    }

    /** forget: drops feeds that are not in the list. */
    method Forget(live: set<string>)
      modifies this
      ensures reported == old(reported) * live
    {
      var ids := reported;
      while ids != {}
        invariant ids <= old(reported) && reported == old(reported) * live + ids
        decreases ids
      {
        var id :| id in ids;
        if id !in live { reported := reported - {id}; }
        ids := ids - {id};
      }
    }
  }
}
