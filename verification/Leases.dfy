/** Whether a worker still finds its task running when it comes to report. Between its claim and its report any
    other events may happen, by any other workers, at any clock readings. */
module Leases {
  import opened Wrappers
  import opened TaskQueue
  import opened QueueHistory

  /** An event that neither reports on the task nor claims at or after the end of a lease begun at `start`,
      the end being reckoned with the claim's own timeout. */
  predicate KeepsLease(e: Event, id: string, start: int) {
    match e
    case Claim(now, timeout) => now < start + timeout * SECOND
    case Complete(taskId, _) => taskId != id
    case Fail(ticket, _, _, _) => ticket.taskId != id
    case Enqueue(_, _) => true
  }

  predicate AllKeepLease(events: seq<Event>, id: string, start: int) {
    forall e :: e in events ==> KeepsLease(e, id, start)
  }

  ghost predicate HeldSince(row: Row, start: int) {
    row.status == Running && row.claimedAt == Some(start)
  }

  /** A running task goes through an event unchanged exactly if the event keeps its lease. */
  lemma RunningThrough(rows: Rows, e: Event, id: string, start: int)
    requires id in rows && HeldSince(rows[id], start)
    ensures id in Apply(rows, e)
    ensures KeepsLease(e, id, start) ==> Apply(rows, e)[id] == rows[id] && !HandsOut(rows, e, id)
    ensures !KeepsLease(e, id, start) ==> Apply(rows, e)[id].status != Running || HandsOut(rows, e, id)
  {
    if e.Claim? {
      ClaimRowByRow(rows, e.now, e.timeout);
    }
  }

  /** A worker's task is still running under the worker's own attempt exactly if nobody reported on it and no
      claim came at or after the end of its lease; its row is then the one the claim left. */
  lemma {:induction false} OwnLeaseIff(rows: Rows, events: seq<Event>, id: string, start: int)
    requires id in rows && HeldSince(rows[id], start)
    ensures id in Run(rows, events)
    ensures AllKeepLease(events, id, start) <==>
      Run(rows, events)[id].status == Running && Run(rows, events)[id].attempts == rows[id].attempts
    ensures AllKeepLease(events, id, start) ==> Run(rows, events)[id] == rows[id]
    decreases events
  {
    if events != [] {
      var (e, rest, next) := (events[0], events[1..], Apply(rows, events[0]));
      assert events == [e] + rest;
      RunningThrough(rows, e, id, start);
      if KeepsLease(e, id, start) {
        OwnLeaseIff(next, rest, id, start);
      } else {
        LostLease(rows, events, id);
      }
    }
  }

  /** A lease once broken is not restored: the task runs again only with a higher attempt number. */
  lemma LostLease(rows: Rows, events: seq<Event>, id: string)
    requires events != [] && id in rows
    requires HandsOut(rows, events[0], id)
      || (id in Apply(rows, events[0]) && Apply(rows, events[0])[id].status != Running)
    ensures id in Run(rows, events)
    ensures Run(rows, events)[id].status == Running ==> rows[id].attempts < Run(rows, events)[id].attempts
  {
    AttemptsAreHandOuts(rows, events, id);
    if !HandsOut(rows, events[0], id) && HandOuts(rows, events, id) == 0 {
      NoHandOutNoLease(Apply(rows, events[0]), events[1..], id);
    }
  }

  lemma {:induction false} NoHandOutNoLease(rows: Rows, events: seq<Event>, id: string)
    requires id in rows && rows[id].status != Running && HandOuts(rows, events, id) == 0
    ensures id in Run(rows, events) && Run(rows, events)[id].status != Running
    decreases events
  {
    if events != [] {
      OnlyHandOutsLease(rows, events[0], id);
      NoHandOutNoLease(Apply(rows, events[0]), events[1..], id);
    }
  }

  // ---------- The same for the lease of anyone ----------

  /** A later hand-out since when nobody reported on the task and no claim came too late for its lease. */
  ghost predicate LaterLease(rows: Rows, events: seq<Event>, id: string) {
    exists i :: 0 <= i < |events| && LeaseFrom(rows, events, i, id)
  }

  ghost predicate LeaseFrom(rows: Rows, events: seq<Event>, i: nat, id: string)
    requires i < |events|
  {
    HandedOutAt(rows, events, i, id) && AllKeepLease(events[i + 1..], id, events[i].now)
  }

  lemma LeaseFromLater(rows: Rows, events: seq<Event>, i: nat, id: string)
    requires 0 < i < |events|
    ensures LeaseFrom(rows, events, i, id) <==> LeaseFrom(Apply(rows, events[0]), events[1..], i - 1, id)
  {
    HandedOutLater(rows, events, i, id);
    assert events[i + 1..] == events[1..][i - 1 + 1..];
  }

  /** Peeling off the first event. */
  lemma LaterLeaseSplit(rows: Rows, events: seq<Event>, id: string)
    requires events != []
    ensures var e := events[0];
      LaterLease(rows, events, id) <==>
        (HandsOut(rows, e, id) && AllKeepLease(events[1..], id, e.now)) || LaterLease(Apply(rows, e), events[1..], id)
  {
    var (e, rest, next) := (events[0], events[1..], Apply(rows, events[0]));
    assert events[..0] == [] && events[0 + 1..] == rest;
    assert LeaseFrom(rows, events, 0, id) <==> HandsOut(rows, e, id) && AllKeepLease(rest, id, e.now);
    if LaterLease(rows, events, id) {
      var i :| 0 <= i < |events| && LeaseFrom(rows, events, i, id);
      if i > 0 {
        LeaseFromLater(rows, events, i, id);
      }
    }
    if LaterLease(next, rest, id) {
      var j :| 0 <= j < |rest| && LeaseFrom(next, rest, j, id);
      LeaseFromLater(rows, events, j + 1, id);
    }
  }

  /** After any events a task is running exactly if a lease stands: the one it had, or a later one. */
  lemma {:induction false} RunningIff(rows: Rows, events: seq<Event>, id: string, start: int)
    requires id in rows && (rows[id].status == Running ==> HeldSince(rows[id], start))
    ensures id in Run(rows, events)
    ensures Run(rows, events)[id].status == Running <==>
      (rows[id].status == Running && AllKeepLease(events, id, start)) || LaterLease(rows, events, id)
    decreases events
  {
    if events != [] {
      var (e, rest, next) := (events[0], events[1..], Apply(rows, events[0]));
      assert events == [e] + rest;
      LaterLeaseSplit(rows, events, id);
      if rows[id].status == Running {
        RunningThrough(rows, e, id, start);
      }
      if HandsOut(rows, e, id) {
        HandOutLeases(rows, e, id);
        RunningIff(next, rest, id, e.now);
      } else {
        OnlyHandOutsLease(rows, e, id);
        RunningIff(next, rest, id, start);
      }
    }
  }
}
