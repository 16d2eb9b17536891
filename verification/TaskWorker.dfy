/** The worker loop: claim a task, scan, report the outcome. While the scan is awaited, and between two turns, other
    workers and schedulers go on using the queue; any series of their events may happen there. */
module TaskWorker {
  import opened Wrappers
  import opened TaskQueue
  import opened QueueHistory
  import opened Leases

  /** What happens to a claimed scan. `Lost` is a worker stopped before it could report;
      any turns after it are those of the worker started in its place. */
  datatype Outcome = Succeeds | Raises(error: string) | Lost

  /** One turn of the loop: what others do `before` it, the clock at the claim, what others do `during` the scan,
      the clock at the report, and how the scan ends. */
  datatype Turn = Turn(before: seq<Event>, claimAt: int, during: seq<Event>, reportAt: int, outcome: Outcome)

  datatype Settings = Settings(maxAttempts: int, timeout: int)

  /** The error reported for a ticket, if the attempt failed. */
  function ErrorOf(ticket: Ticket, outcome: Outcome): Option<string> {
    if outcome.Lost? then None
    else if ticket.kind != "scan" then Some("unsupported task kind: " + ticket.kind)
    else if outcome.Raises? then Some(outcome.error)
    else None
  }

  ghost function AfterReport(rows: Rows, ticket: Ticket, s: Settings, turn: Turn): Rows {
    match ErrorOf(ticket, turn.outcome)
    case Some(error) => AfterFail(rows, ticket, error, s.maxAttempts, turn.reportAt)
    case None => if turn.outcome.Lost? then rows else AfterComplete(rows, ticket.taskId, turn.reportAt)
  }

  /** The table the report finds. */
  ghost function AtReport(rows: Rows, s: Settings, turn: Turn): Rows {
    Run(AfterClaim(rows, turn.claimAt, s.timeout), turn.during)
  }

  /** The table after one turn that starts at `rows`, the events before it being over. */
  ghost function AfterTurn(rows: Rows, s: Settings, turn: Turn): Rows {
    match Next(rows, turn.claimAt, s.timeout)
    case None => rows
    case Some(id) => AfterReport(AtReport(rows, s, turn), TicketFor(rows, id), s, turn)
  }

  ghost predicate Works(rows: Rows, s: Settings, turn: Turn) {
    Next(rows, turn.claimAt, s.timeout).Some?
  }

  /** The scan of `id` ends well and the worker goes on to complete the task. */
  ghost predicate Completes(rows: Rows, s: Settings, turn: Turn, id: string) {
    Next(rows, turn.claimAt, s.timeout) == Some(id) && turn.outcome.Succeeds? && rows[id].kind == "scan"
  }

  /** The worker comes to complete a task that is no longer running. */
  ghost predicate ReportRaises(rows: Rows, s: Settings, turn: Turn) {
    exists id :: Completes(rows, s, turn, id) && !IsRunning(AtReport(rows, s, turn), id)
  }

  ghost predicate IsRunning(rows: Rows, id: string) {
    id in rows && rows[id].status == Running
  }

  ghost predicate LegalTurn(turn: Turn) {
    AllLegal(turn.before) && AllLegal(turn.during)
  }

  // ---------- When a report raises ----------

  /** `complete` raises exactly when no lease of the task stands any more: somebody reported on it, or a claim came
      at or after the end of the worker's lease, and it was not handed out again to anyone who still holds it. */
  lemma ReportRaisesIff(rows: Rows, s: Settings, turn: Turn, id: string)
    requires Completes(rows, s, turn, id)
    ensures ReportRaises(rows, s, turn) <==>
      !AllKeepLease(turn.during, id, turn.claimAt)
      && !LaterLease(AfterClaim(rows, turn.claimAt, s.timeout), turn.during, id)
  {
    ClaimRowByRow(rows, turn.claimAt, s.timeout);
    RunningIff(AfterClaim(rows, turn.claimAt, s.timeout), turn.during, id, turn.claimAt);
  }

  /** The worker completes its own attempt exactly if everything during the scan kept its lease. Otherwise a
      completion that does not raise finishes the attempt of a successor. */
  lemma CompletesOwnAttemptIff(rows: Rows, s: Settings, turn: Turn, id: string)
    requires Completes(rows, s, turn, id)
    ensures AllKeepLease(turn.during, id, turn.claimAt) <==>
      !ReportRaises(rows, s, turn) && AtReport(rows, s, turn)[id].attempts == TicketFor(rows, id).attempts
    ensures !ReportRaises(rows, s, turn) ==>
      id in AtReport(rows, s, turn) && TicketFor(rows, id).attempts <= AtReport(rows, s, turn)[id].attempts
      && AfterTurn(rows, s, turn)[id].status == Completed
  {
    var claimed := AfterClaim(rows, turn.claimAt, s.timeout);
    ClaimRowByRow(rows, turn.claimAt, s.timeout);
    OwnLeaseIff(claimed, turn.during, id, turn.claimAt);
    AttemptsAreHandOuts(claimed, turn.during, id);
  }

  /** The scan of `id` fails and the worker goes on to report the failure. */
  ghost predicate Fails(rows: Rows, s: Settings, turn: Turn, id: string) {
    && Next(rows, turn.claimAt, s.timeout) == Some(id)
    && (turn.outcome.Raises? || (turn.outcome.Succeeds? && rows[id].kind != "scan"))
  }

  /** The error a failed attempt is reported with. */
  function FailureText(row: Row, outcome: Outcome): string
    requires !outcome.Lost?
  {
    if row.kind == "scan" && outcome.Raises? then outcome.error else "unsupported task kind: " + row.kind
  }

  /** What a turn that claims `id` does to the table its report finds: nothing if the worker is lost or the task is not
      running; otherwise a scan that succeeds completes the task, and any other attempt is a failure. */
  ghost predicate TurnOutcome(rows: Rows, found: Rows, after: Rows, s: Settings, turn: Turn, id: string)
    requires id in rows
  {
    if turn.outcome.Lost? || !IsRunning(found, id) then after == found
    else if turn.outcome.Succeeds? && rows[id].kind == "scan"
    then after == found[id := found[id].(status := Completed, completedAt := Some(turn.reportAt))]
    else
      var ticket := Ticket(id, rows[id].kind, rows[id].customer, rows[id].payload, rows[id].attempts + 1);
      FailureOutcome(found, after, ticket, FailureText(rows[id], turn.outcome), s.maxAttempts, turn.reportAt)
  }

  lemma TurnMeans(rows: Rows, s: Settings, turn: Turn, id: string)
    requires Next(rows, turn.claimAt, s.timeout) == Some(id)
    ensures TurnOutcome(rows, AtReport(rows, s, turn), AfterTurn(rows, s, turn), s, turn, id)
  {
    if !turn.outcome.Lost? {
      FailureMeans(AtReport(rows, s, turn), TicketFor(rows, id), FailureText(rows[id], turn.outcome), s.maxAttempts,
                   turn.reportAt);
    }
    hide FailureOutcome, AtReport, Next;
  }

  /** While the lease is kept, the outcome of the scan decides: success on a scan task completes it; anything else sends
      it back to pending or fails it for good, with the error stored, and never completes it. */
  lemma OutcomeDecides(rows: Rows, s: Settings, turn: Turn, id: string)
    requires Next(rows, turn.claimAt, s.timeout) == Some(id) && AllKeepLease(turn.during, id, turn.claimAt)
    ensures id in AfterTurn(rows, s, turn)
    ensures var row := AfterTurn(rows, s, turn)[id];
      match turn.outcome
      case Lost => row.status == Running
      case Succeeds => rows[id].kind == "scan" ==> row.status == Completed && row.completedAt == Some(turn.reportAt)
      case Raises(error) => rows[id].kind == "scan" ==> row.lastError.Some? && row.lastError.value <= error
    ensures var row := AfterTurn(rows, s, turn)[id];
      turn.outcome.Raises? || (turn.outcome.Succeeds? && rows[id].kind != "scan") ==>
        row.lastError.Some? && row.status == if rows[id].attempts + 1 < s.maxAttempts then Pending else Failed
  {
    ClaimRowByRow(rows, turn.claimAt, s.timeout);
    OwnLeaseIff(AfterClaim(rows, turn.claimAt, s.timeout), turn.during, id, turn.claimAt);
    TurnMeans(rows, s, turn, id);
    hide AfterTurn, AfterClaim, Next, AllKeepLease, Run;
  }

  /** A reported failure hits the worker's own attempt exactly if everything during the scan kept its lease. It hits
      anything at all exactly if that is so or the lease of a later hand-out stands. Whichever attempt it hits, the
      task goes back to pending or fails for good by the number of the worker's ticket; if it hits none, nothing
      changes. */
  lemma FailsOwnAttemptIff(rows: Rows, s: Settings, turn: Turn, id: string)
    requires Fails(rows, s, turn, id)
    ensures var found := AtReport(rows, s, turn);
      AllKeepLease(turn.during, id, turn.claimAt) <==>
        IsRunning(found, id) && found[id].attempts == TicketFor(rows, id).attempts
    ensures var found := AtReport(rows, s, turn);
      IsRunning(found, id) <==>
        AllKeepLease(turn.during, id, turn.claimAt)
        || LaterLease(AfterClaim(rows, turn.claimAt, s.timeout), turn.during, id)
    ensures var (found, after) := (AtReport(rows, s, turn), AfterTurn(rows, s, turn));
      if IsRunning(found, id)
      then id in after && TicketFor(rows, id).attempts <= found[id].attempts == after[id].attempts
           && after[id].status == if TicketFor(rows, id).attempts < s.maxAttempts then Pending else Failed
      else after == found
  {
    var claimed := AfterClaim(rows, turn.claimAt, s.timeout);
    ClaimRowByRow(rows, turn.claimAt, s.timeout);
    OwnLeaseIff(claimed, turn.during, id, turn.claimAt);
    RunningIff(claimed, turn.during, id, turn.claimAt);
    AttemptsAreHandOuts(claimed, turn.during, id);
    hide AfterClaim, Next, Run, Backoff, AllKeepLease, LaterLease;
  }

  // ---------- Runs in which a lease is lost ----------

  const TASK: Row := NewRow("scan", "c", "{}", "k", 0)
  /** The task held by a first worker from instant 0 on, and by a second one from the end of that lease on. */
  const HELD: Rows := map["t" := TASK.(status := Running, attempts := 1, claimedAt := Some(0))]
  const TAKEN: Rows := map["t" := TASK.(status := Running, attempts := 2, claimedAt := Some(300 * SECOND),
                                        availableAt := 300 * SECOND)]

  lemma FirstClaim()
    ensures Next(map["t" := TASK], 0, 300) == Some("t") && AfterClaim(map["t" := TASK], 0, 300) == HELD
  {
    LoneTaskClaimed(map["t" := TASK], "t", 0, 300);
  }

  lemma SecondClaim()
    ensures Apply(HELD, Claim(300 * SECOND, 300)) == TAKEN
  {
    LoneTaskClaimed(HELD, "t", 300 * SECOND, 300);
  }

  /** A worker whose scan outlasts its lease can raise: a second worker claims the task when the lease ends and
      completes it, and the first worker's report then finds it completed. */
  lemma ReportCanRaise() returns (rows: Rows, s: Settings, turn: Turn)
    ensures Valid(rows) && LegalTurn(turn) && s.timeout > 0
    ensures Works(rows, s, turn) && ReportRaises(rows, s, turn)
  {
    rows := map["t" := TASK];
    s := Settings(3, 300);
    var (claim, completion) := (Claim(300 * SECOND, 300), Complete("t", 301 * SECOND));
    turn := Turn([], 0, [claim] + [completion], 302 * SECOND, Succeeds);
    FirstClaim();
    SecondClaim();
    RunConcat(HELD, [claim], [completion]);
    RunOne(HELD, claim);
    RunOne(TAKEN, completion);
    hide AfterClaim, Next, Run;
    assert Completes(rows, s, turn, "t");
  }

  /** Or it can complete its successor's attempt, which is still running. */
  lemma CompletionCanHitSuccessor() returns (rows: Rows, s: Settings, turn: Turn)
    ensures Valid(rows) && LegalTurn(turn) && s.timeout > 0
    ensures Completes(rows, s, turn, "t") && IsRunning(AtReport(rows, s, turn), "t")
    ensures AtReport(rows, s, turn)["t"].attempts != TicketFor(rows, "t").attempts
    ensures AfterTurn(rows, s, turn)["t"].status == Completed
  {
    rows := map["t" := TASK];
    s := Settings(3, 300);
    var claim := Claim(300 * SECOND, 300);
    turn := Turn([], 0, [claim], 301 * SECOND, Succeeds);
    FirstClaim();
    SecondClaim();
    RunOne(HELD, claim);
    hide AfterClaim, Next, Run;
    assert AtReport(rows, s, turn) == TAKEN;
  }

  /** Or it can send its successor's running attempt back to pending, or fail the task for good under it. */
  lemma FailureCanHitSuccessor() returns (rows: Rows, turn: Turn)
    ensures Valid(rows) && LegalTurn(turn)
    ensures forall m :: Fails(rows, Settings(m, 300), turn, "t")
    ensures forall m :: var found := AtReport(rows, Settings(m, 300), turn);
      IsRunning(found, "t") && found["t"].attempts != TicketFor(rows, "t").attempts
    ensures AfterTurn(rows, Settings(3, 300), turn)["t"].status == Pending
    ensures AfterTurn(rows, Settings(1, 300), turn)["t"].status == Failed
  {
    rows := map["t" := TASK];
    var claim := Claim(300 * SECOND, 300);
    turn := Turn([], 0, [claim], 301 * SECOND, Raises("timed out"));
    FirstClaim();
    SecondClaim();
    RunOne(HELD, claim);
    hide AfterClaim, Next, Run, Backoff;
    assert forall m :: AtReport(rows, Settings(m, 300), turn) == TAKEN;
  }

  // ---------- The worker ----------

  /** What other users of the queue do, event by event. */
  method OthersAct(queue: DurableTaskQueue, events: seq<Event>)
    requires Valid(queue.rows) && AllLegal(events)
    modifies queue
    ensures queue.rows == Run(old(queue.rows), events) && Valid(queue.rows)
  {
    var i := 0;
    while i < |events|
      invariant 0 <= i <= |events| && Valid(queue.rows)
      invariant Run(queue.rows, events[i..]) == Run(old(queue.rows), events)
    {
      var e := events[i];
      ghost var before := queue.rows;
      assert events[i..][1..] == events[i + 1..];
      ApplyKeepsValid(before, e);
      match e {
        case Enqueue(taskId, row) =>
          if taskId !in queue.rows && !exists k :: k in queue.rows && queue.rows[k].dedupeKey == row.dedupeKey {
            queue.rows := queue.rows[taskId := row];
          }
        case Claim(now, timeout) => var _ := queue.Claim(Aware(now), timeout);
        case Complete(taskId, at) => var _ := queue.Complete(taskId, at);
        case Fail(ticket, error, maxAttempts, at) => queue.Fail(ticket, error, maxAttempts, at);
      }
      assert queue.rows == Apply(before, e);
      i := i + 1;
    }
  }

  class TaskWorker {
    const queue: DurableTaskQueue
    const settings: Settings

    constructor (queue: DurableTaskQueue, settings: Settings)
      ensures this.queue == queue && this.settings == settings
    {
      this.queue := queue;
      this.settings := settings;
    }

    /** `run_once`: true exactly when a task was claimed. It raises for a timeout the queue rejects, and when the
        task to complete is no longer running; `ReportRaisesIff` says when that is. */
    method RunOnce(turn: Turn) returns (r: Result<bool, QueueError>)
      requires Valid(queue.rows) && LegalTurn(turn)
      modifies queue
      ensures Valid(queue.rows)
      ensures settings.timeout <= 0 ==> r == Err(NonPositiveTimeout) && queue.rows == old(queue.rows)
      ensures settings.timeout > 0 ==> queue.rows == AfterTurn(old(queue.rows), settings, turn)
      ensures settings.timeout > 0 ==>
        r == if ReportRaises(old(queue.rows), settings, turn) then Err(TaskNotRunning)
             else Ok(Works(old(queue.rows), settings, turn))
      ensures settings.timeout > 0 ==>
        match Next(old(queue.rows), turn.claimAt, settings.timeout)
        case None => queue.rows == old(queue.rows)
        case Some(id) =>
          TurnOutcome(old(queue.rows), AtReport(old(queue.rows), settings, turn), queue.rows, settings, turn, id)
    {
      ghost var before := queue.rows;
      var claimed := queue.Claim(Clock.Aware(turn.claimAt), settings.timeout);
      if claimed.Err? {
        return Err(claimed.error);
      }
      if claimed.value == None {
        return Ok(false);
      }
      var ticket := claimed.value.value;
      TurnMeans(before, settings, turn, ticket.taskId);
      hide TurnOutcome;
      assert ticket == TicketFor(before, ticket.taskId);
      OthersAct(queue, turn.during);
      assert queue.rows == AtReport(before, settings, turn);
      if turn.outcome.Lost? {
        return Ok(true);
      }
      var error := ErrorOf(ticket, turn.outcome);
      if error.Some? {
        queue.Fail(ticket, error.value, settings.maxAttempts, turn.reportAt);
      } else {
        assert Completes(before, settings, turn, ticket.taskId);
        var reported := queue.Complete(ticket.taskId, turn.reportAt);
        if reported.Err? {
          return Err(reported.error);
        }
      }
      return Ok(true);
    }

    /** `run`, one turn per poll, until it is stopped or a turn raises; the error then ends the loop for good. */
    method Run(turns: seq<Turn>) returns (worked: nat, stopped: Option<QueueError>)
      requires Valid(queue.rows) && AllLegalTurns(turns)
      modifies queue
      ensures Valid(queue.rows)
      ensures queue.rows == AfterTurns(old(queue.rows), settings, turns)
      ensures worked == Worked(old(queue.rows), settings, turns)
      ensures stopped == StoppedBy(old(queue.rows), settings, turns)
    {
      hide AfterTurn, Works, Valid, ReportRaises;
      worked := 0;
      var i := 0;
      while i < |turns|
        invariant 0 <= i <= |turns| && Valid(queue.rows)
        invariant AfterTurns(queue.rows, settings, turns[i..]) == AfterTurns(old(queue.rows), settings, turns)
        invariant worked + Worked(queue.rows, settings, turns[i..]) == Worked(old(queue.rows), settings, turns)
        invariant StoppedBy(queue.rows, settings, turns[i..]) == StoppedBy(old(queue.rows), settings, turns)
      {
        assert turns[i..][1..] == turns[i + 1..];
        assert turns[i] in turns;
        OthersAct(queue, turns[i].before);
        var r := RunOnce(turns[i]);
        if r.Err? {
          return worked, Some(r.error);
        }
        if r.value {
          worked := worked + 1;
        }
        i := i + 1;
      }
      stopped := None;
    }
  }

  ghost predicate AllLegalTurns(turns: seq<Turn>) {
    forall t :: t in turns ==> LegalTurn(t)
  }

  /** The error that ends the loop in this turn, if any. */
  ghost function Raised(rows: Rows, s: Settings, turn: Turn): Option<QueueError> {
    if s.timeout <= 0 then Some(NonPositiveTimeout)
    else if ReportRaises(rows, s, turn) then Some(TaskNotRunning)
    else None
  }

  ghost function AfterTurns(rows: Rows, s: Settings, turns: seq<Turn>): Rows
    decreases turns
  {
    if turns == [] then rows
    else
      var start := QueueHistory.Run(rows, turns[0].before);
      if s.timeout <= 0 then start
      else
        var next := AfterTurn(start, s, turns[0]);
        if Raised(start, s, turns[0]).Some? then next else AfterTurns(next, s, turns[1..])
  }

  /** The number of turns that claimed a task and did not raise. */
  ghost function Worked(rows: Rows, s: Settings, turns: seq<Turn>): nat
    decreases turns
  {
    if turns == [] then 0
    else
      var start := QueueHistory.Run(rows, turns[0].before);
      if Raised(start, s, turns[0]).Some? then 0
      else (if Works(start, s, turns[0]) then 1 else 0) + Worked(AfterTurn(start, s, turns[0]), s, turns[1..])
  }

  ghost function StoppedBy(rows: Rows, s: Settings, turns: seq<Turn>): Option<QueueError>
    decreases turns
  {
    if turns == [] then None
    else
      var start := QueueHistory.Run(rows, turns[0].before);
      var raised := Raised(start, s, turns[0]);
      if raised.Some? then raised else StoppedBy(AfterTurn(start, s, turns[0]), s, turns[1..])
  }

  // ---------- Work left ----------

  /** An upper bound on the reports a task can still need. */
  function Left(row: Row, maxAttempts: int): nat {
    if Finished(row) then 0
    else if row.attempts < maxAttempts then maxAttempts - row.attempts
    else 1
  }

  ghost function SumLeft(rows: Rows, ids: set<string>, maxAttempts: int): nat
    requires ids <= rows.Keys
  {
    if ids == {} then 0
    else
      var id :| id in ids;
      Left(rows[id], maxAttempts) + SumLeft(rows, ids - {id}, maxAttempts)
  }

  /** The sum does not depend on the order of summation. */
  lemma {:induction false} SumLeftSplit(rows: Rows, ids: set<string>, id: string, maxAttempts: int)
    requires ids <= rows.Keys && id in ids
    ensures SumLeft(rows, ids, maxAttempts) == Left(rows[id], maxAttempts) + SumLeft(rows, ids - {id}, maxAttempts)
  {
    var first :| first in ids && SumLeft(rows, ids, maxAttempts)
      == Left(rows[first], maxAttempts) + SumLeft(rows, ids - {first}, maxAttempts);
    if first != id {
      SumLeftSplit(rows, ids - {first}, id, maxAttempts);
      SumLeftSplit(rows, ids - {id}, first, maxAttempts);
      assert ids - {first} - {id} == ids - {id} - {first};
    }
  }

  lemma {:induction false} SumLeftSame(before: Rows, after: Rows, ids: set<string>, maxAttempts: int)
    requires ids <= before.Keys && ids <= after.Keys
    requires forall id :: id in ids ==> Left(after[id], maxAttempts) == Left(before[id], maxAttempts)
    ensures SumLeft(after, ids, maxAttempts) == SumLeft(before, ids, maxAttempts)
  {
    if ids != {} {
      var id :| id in ids;
      SumLeftSplit(before, ids, id, maxAttempts);
      SumLeftSplit(after, ids, id, maxAttempts);
      SumLeftSame(before, after, ids - {id}, maxAttempts);
    }
  }

  ghost function WorkLeft(rows: Rows, maxAttempts: int): nat {
    SumLeft(rows, rows.Keys, maxAttempts)
  }

  ghost function Unfinished(rows: Rows): set<string> {
    set id | id in rows && !Finished(rows[id])
  }

  lemma OneMoreUnfinished(rows: Rows, ids: set<string>, id: string)
    requires id in ids && ids <= rows.Keys
    ensures |ids * Unfinished(rows)| == |(ids - {id}) * Unfinished(rows)| + if Finished(rows[id]) then 0 else 1
  {
    var rest := (ids - {id}) * Unfinished(rows);
    if Finished(rows[id]) {
      assert ids * Unfinished(rows) == rest;
    } else {
      assert ids * Unfinished(rows) == rest + {id};
    }
  }

  lemma OneMoreTime(k: nat, n: nat)
    ensures k * (n + 1) == k * n + k
  {
  }

  /** At most `maxAttempts` reports, or one if that is less, for each unfinished task. */
  lemma {:induction false} LeftOfUnfinished(rows: Rows, ids: set<string>, maxAttempts: int)
    requires ids <= rows.Keys
    ensures SumLeft(rows, ids, maxAttempts) <= AtLeastOne(maxAttempts) * |ids * Unfinished(rows)|
  {
    if ids == {} {
      assert ids * Unfinished(rows) == {};
    } else {
      var id :| id in ids;
      SumLeftSplit(rows, ids, id, maxAttempts);
      LeftOfUnfinished(rows, ids - {id}, maxAttempts);
      OneMoreUnfinished(rows, ids, id);
      hide SumLeft, Unfinished;
      assert Left(rows[id], maxAttempts) <= if Finished(rows[id]) then 0 else AtLeastOne(maxAttempts);
      OneMoreTime(AtLeastOne(maxAttempts), |(ids - {id}) * Unfinished(rows)|);
    }
  }

  lemma WorkLeftIsSmall(rows: Rows, maxAttempts: int)
    ensures WorkLeft(rows, maxAttempts) <= AtLeastOne(maxAttempts) * |Unfinished(rows)|
  {
    LeftOfUnfinished(rows, rows.Keys, maxAttempts);
    assert rows.Keys * Unfinished(rows) == Unfinished(rows);
  }

  /** No event gives an existing task more to do, whoever causes it. */
  lemma {:induction false} LeftNeverGrows(rows: Rows, events: seq<Event>, id: string, maxAttempts: int)
    requires id in rows
    ensures id in Run(rows, events) && Left(Run(rows, events)[id], maxAttempts) <= Left(rows[id], maxAttempts)
  {
    TasksPersist(rows, events, id);
  }

  lemma ReportLeavesLess(rows: Rows, ticket: Ticket, s: Settings, turn: Turn)
    requires IsRunning(rows, ticket.taskId) && ticket.attempts == rows[ticket.taskId].attempts && !turn.outcome.Lost?
    ensures var id := ticket.taskId;
      var after := AfterReport(rows, ticket, s, turn);
      after.Keys == rows.Keys
      && Left(after[id], s.maxAttempts) <=
        (if s.maxAttempts > ticket.attempts then s.maxAttempts - ticket.attempts else 0)
      && forall k :: k in rows && k != id ==> after[k] == rows[k]
  {
  }

  lemma TurnEffect(rows: Rows, s: Settings, turn: Turn, id: string)
    requires Next(rows, turn.claimAt, s.timeout) == Some(id) && !turn.outcome.Lost?
    requires AllKeepLease(turn.during, id, turn.claimAt)
    ensures rows.Keys <= AfterTurn(rows, s, turn).Keys
    ensures Left(AfterTurn(rows, s, turn)[id], s.maxAttempts) < Left(rows[id], s.maxAttempts)
    ensures forall k :: k in rows ==> Left(AfterTurn(rows, s, turn)[k], s.maxAttempts) <= Left(rows[k], s.maxAttempts)
  {
    var claimed := AfterClaim(rows, turn.claimAt, s.timeout);
    ClaimRowByRow(rows, turn.claimAt, s.timeout);
    OwnLeaseIff(claimed, turn.during, id, turn.claimAt);
    ReportLeavesLess(AtReport(rows, s, turn), TicketFor(rows, id), s, turn);
    hide AfterClaim, AfterReport, AllKeepLease;
    forall k | k in rows
      ensures k in AfterTurn(rows, s, turn)
      ensures k != id ==> Left(AfterTurn(rows, s, turn)[k], s.maxAttempts) <= Left(rows[k], s.maxAttempts)
    {
      LeftNeverGrows(claimed, turn.during, k, s.maxAttempts);
    }
  }

  lemma {:induction false} SumLeftShrinks(before: Rows, after: Rows, ids: set<string>, maxAttempts: int)
    requires ids <= before.Keys && ids <= after.Keys
    requires forall id :: id in ids ==> Left(after[id], maxAttempts) <= Left(before[id], maxAttempts)
    ensures SumLeft(after, ids, maxAttempts) <= SumLeft(before, ids, maxAttempts)
  {
    if ids != {} {
      var id :| id in ids;
      SumLeftSplit(before, ids, id, maxAttempts);
      SumLeftSplit(after, ids, id, maxAttempts);
      SumLeftShrinks(before, after, ids - {id}, maxAttempts);
    }
  }

  /** The turn claims a task, and everything others do during the scan keeps its lease. */
  ghost predicate KeepsOwnLease(rows: Rows, s: Settings, turn: Turn) {
    Works(rows, s, turn) && AllKeepLease(turn.during, Next(rows, turn.claimAt, s.timeout).value, turn.claimAt)
  }

  /** A turn that works and keeps its lease leaves strictly less to do for the tasks there were, whatever others do
      during the scan and even when it starts from a lease another worker lost. A turn that finds no task changes
      nothing. */
  lemma TurnReducesWork(rows: Rows, s: Settings, turn: Turn)
    requires !turn.outcome.Lost?
    ensures !Works(rows, s, turn) ==> AfterTurn(rows, s, turn) == rows
    ensures KeepsOwnLease(rows, s, turn) ==>
      rows.Keys <= AfterTurn(rows, s, turn).Keys
      && SumLeft(AfterTurn(rows, s, turn), rows.Keys, s.maxAttempts) < WorkLeft(rows, s.maxAttempts)
  {
    if KeepsOwnLease(rows, s, turn) {
      var id := Next(rows, turn.claimAt, s.timeout).value;
      var after := AfterTurn(rows, s, turn);
      TurnEffect(rows, s, turn, id);
      hide AfterTurn, AllKeepLease;
      SumLeftSplit(rows, rows.Keys, id, s.maxAttempts);
      SumLeftSplit(after, rows.Keys, id, s.maxAttempts);
      SumLeftShrinks(rows, after, rows.Keys - {id}, s.maxAttempts);
    }
  }

  // ---------- A worker that has the queue to itself ----------

  ghost predicate Alone(turns: seq<Turn>) {
    forall t :: t in turns ==> t.before == [] && t.during == [] && !t.outcome.Lost?
  }

  /** Alone, a turn raises only for a rejected timeout, and it never loses its lease. */
  lemma LoneTurn(rows: Rows, s: Settings, turn: Turn)
    requires turn.before == [] && turn.during == [] && !turn.outcome.Lost? && s.timeout > 0
    ensures Raised(rows, s, turn) == None
    ensures AfterTurn(rows, s, turn).Keys == rows.Keys
    ensures if Works(rows, s, turn)
            then WorkLeft(AfterTurn(rows, s, turn), s.maxAttempts) < WorkLeft(rows, s.maxAttempts)
            else AfterTurn(rows, s, turn) == rows
  {
    TurnReducesWork(rows, s, turn);
    if Works(rows, s, turn) {
      var id := Next(rows, turn.claimAt, s.timeout).value;
      ClaimRowByRow(rows, turn.claimAt, s.timeout);
      ReportLeavesLess(AtReport(rows, s, turn), TicketFor(rows, id), s, turn);
    }
  }

  /** A lone worker claims at most `WorkLeft` times, however long it runs: by `WorkLeftIsSmall` at most `maxAttempts`
      times the number of unfinished tasks. */
  lemma {:induction false} WorkIsBounded(rows: Rows, s: Settings, turns: seq<Turn>)
    requires Alone(turns) && s.timeout > 0
    ensures Worked(rows, s, turns) + WorkLeft(AfterTurns(rows, s, turns), s.maxAttempts) <=
      WorkLeft(rows, s.maxAttempts)
    ensures StoppedBy(rows, s, turns) == None
    decreases turns
  {
    if turns != [] {
      assert turns[0] in turns;
      LoneTurn(rows, s, turns[0]);
      hide AfterTurn, Works, Raised;
      WorkIsBounded(AfterTurn(rows, s, turns[0]), s, turns[1..]);
    }
  }

  ghost predicate AllFinished(rows: Rows) {
    forall id :: id in rows ==> Finished(rows[id])
  }

  /** Each claim is made after every back-off and every lease then pending has run out. */
  ghost predicate PollsLate(rows: Rows, s: Settings, turns: seq<Turn>)
    decreases turns
  {
    turns == [] ||
    ((forall id :: id in rows && !Finished(rows[id]) ==> ReadyAt(rows[id], s.timeout) <= turns[0].claimAt)
     && PollsLate(AfterTurn(rows, s, turns[0]), s, turns[1..]))
  }

  lemma TurnKeepsValid(rows: Rows, s: Settings, turn: Turn)
    requires Valid(rows) && AllLegal(turn.during)
    ensures Valid(AfterTurn(rows, s, turn))
  {
    hide AfterClaim, AfterFail, AfterComplete, Valid;
    ClaimKeepsValid(rows, turn.claimAt, s.timeout);
    match Next(rows, turn.claimAt, s.timeout)
    case None =>
    case Some(id) =>
      var (found, ticket) := (AtReport(rows, s, turn), TicketFor(rows, id));
      RunKeepsValid(AfterClaim(rows, turn.claimAt, s.timeout), turn.during);
      var error := ErrorOf(ticket, turn.outcome);
      ReportsKeepValid(found, id, ticket, if error.Some? then error.value else "", s.maxAttempts, turn.reportAt);
  }

  lemma NoWorkNothingLeft(rows: Rows, maxAttempts: int)
    requires WorkLeft(rows, maxAttempts) == 0
    ensures AllFinished(rows)
  {
    forall id | id in rows ensures Finished(rows[id]) {
      SumLeftSplit(rows, rows.Keys, id, maxAttempts);
    }
  }

  /** A lone worker that polls long enough finishes every task: `WorkLeft` late turns drain the queue. */
  lemma {:induction false} QueueDrains(rows: Rows, s: Settings, turns: seq<Turn>)
    requires Valid(rows) && Alone(turns) && PollsLate(rows, s, turns) && s.timeout > 0
    requires WorkLeft(rows, s.maxAttempts) <= |turns|
    ensures AllFinished(AfterTurns(rows, s, turns))
    decreases turns
  {
    if turns == [] {
      NoWorkNothingLeft(rows, s.maxAttempts);
    } else {
      assert turns[0] in turns;
      LoneTurn(rows, s, turns[0]);
      TurnKeepsValid(rows, s, turns[0]);
      hide AfterTurn, Raised;
      if !Works(rows, s, turns[0]) {
        forall id | id in rows
          ensures Finished(rows[id])
        {
          assert !Claimable(rows[id], turns[0].claimAt, s.timeout);
        }
        AllFinishedLeavesNothing(rows, rows.Keys, s.maxAttempts);
      }
      QueueDrains(AfterTurn(rows, s, turns[0]), s, turns[1..]);
    }
  }

  lemma {:induction false} AllFinishedLeavesNothing(rows: Rows, ids: set<string>, maxAttempts: int)
    requires AllFinished(rows) && ids <= rows.Keys
    ensures SumLeft(rows, ids, maxAttempts) == 0
  {
    if ids != {} {
      var id :| id in ids;
      SumLeftSplit(rows, ids, id, maxAttempts);
      AllFinishedLeavesNothing(rows, ids - {id}, maxAttempts);
    }
  }
}
