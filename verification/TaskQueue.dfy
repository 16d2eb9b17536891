/** The durable task queue over one SQLite table. Instants are microseconds since an epoch; `QueueTexts` proves that
    the claim, which compares the stored texts, does the same. */
module TaskQueue {
  import opened Wrappers
  import opened Counting
  import TextOrder

  const SECOND: int := 1_000_000

  datatype TaskStatus = Pending | Running | Completed | Failed

  datatype Row = Row(
    kind: string, customer: string, payload: string, status: TaskStatus, attempts: nat,
    availableAt: int, createdAt: int, claimedAt: Option<int>, completedAt: Option<int>,
    lastError: Option<string>, dedupeKey: string)

  type Rows = map<string, Row>

  /** What a claim hands to a worker: the task and the number of this attempt. */
  datatype Ticket = Ticket(taskId: string, kind: string, customer: string, payload: string, attempts: nat)

  datatype QueueError = NaiveTimestamp | NonPositiveTimeout | TaskNotRunning | LostInsert

  // ---------- One-step specification ----------

  /** A row whose lease of `timeout` seconds has run out. */
  predicate Expired(row: Row, now: int, timeout: int) {
    row.status == Running && row.claimedAt.Some? && row.claimedAt.value <= now - timeout * SECOND
  }

  predicate Available(row: Row, now: int) {
    row.status == Pending && row.availableAt <= now
  }

  predicate Claimable(row: Row, now: int, timeout: int) {
    Available(row, now) || Expired(row, now, timeout)
  }

  /** Earlier by creation time, or at the same time with the smaller id. */
  predicate Precedes(rows: Rows, a: string, b: string)
    requires a in rows && b in rows
  {
    rows[a].createdAt < rows[b].createdAt
    || (rows[a].createdAt == rows[b].createdAt && TextOrder.Less(a, b))
  }

  ghost predicate IsNext(rows: Rows, now: int, timeout: int, id: string) {
    && id in rows && Claimable(rows[id], now, timeout)
    && forall k :: k in rows && k != id && Claimable(rows[k], now, timeout) ==> Precedes(rows, id, k)
  }

  /** The claimable task that is first by creation, if any task is claimable. */
  ghost function Next(rows: Rows, now: int, timeout: int): (next: Option<string>)
    ensures next == None <==> forall k :: k in rows ==> !Claimable(rows[k], now, timeout)
    ensures forall id :: next == Some(id) <==> IsNext(rows, now, timeout, id)
  {
    NextIsUnique(rows, now, timeout);
    NextExists(rows, now, timeout);
    if id :| IsNext(rows, now, timeout, id) then Some(id) else None
  }

  lemma NextIsUnique(rows: Rows, now: int, timeout: int)
    ensures forall a, b :: IsNext(rows, now, timeout, a) && IsNext(rows, now, timeout, b) ==> a == b
  {
    forall a, b | IsNext(rows, now, timeout, a) && IsNext(rows, now, timeout, b) ensures a == b {
      TextOrder.LessIsTotal(a, b);
    }
  }

  lemma PrecedesIsLinear(rows: Rows, a: string, b: string, c: string)
    requires a in rows && b in rows && c in rows
    ensures a == b || Precedes(rows, a, b) || Precedes(rows, b, a)
    ensures Precedes(rows, a, b) && Precedes(rows, b, c) ==> Precedes(rows, a, c)
  {
    TextOrder.LessIsTotal(a, b);
    if TextOrder.Less(a, b) && TextOrder.Less(b, c) {
      TextOrder.LessIsTransitive(a, b, c);
    }
  }

  ghost predicate IsFirst(rows: Rows, ids: set<string>, a: string)
    requires ids <= rows.Keys
  {
    a in ids && forall k :: k in ids && k != a ==> Precedes(rows, a, k)
  }

  /** Every non-empty set of tasks has a first one. */
  lemma {:induction false} FirstExists(rows: Rows, ids: set<string>) returns (a: string)
    requires ids != {} && ids <= rows.Keys
    ensures IsFirst(rows, ids, a)
  {
    var x :| x in ids;
    var rest := ids - {x};
    if rest == {} {
      assert ids == {x};
      return x;
    }
    a := FirstExists(rows, rest);
    PrecedesIsLinear(rows, a, x, x);
    if Precedes(rows, x, a) {
      forall k | k in rest ensures Precedes(rows, x, k) {
        PrecedesIsLinear(rows, x, a, k);
      }
      a := x;
    }
  }

  lemma NextExists(rows: Rows, now: int, timeout: int)
    ensures (exists id :: IsNext(rows, now, timeout, id)) <==> exists k :: k in rows && Claimable(rows[k], now, timeout)
  {
    var claimable := set k | k in rows && Claimable(rows[k], now, timeout);
    if k :| k in rows && Claimable(rows[k], now, timeout) {
      assert k in claimable;
      var a := FirstExists(rows, claimable);
      assert IsNext(rows, now, timeout, a);
    }
  }

  /** The reclaimed form of an expired row. */
  function Reclaimed(row: Row, now: int): Row {
    row.(status := Pending, availableAt := now, claimedAt := None)
  }

  function Leased(row: Row, now: int): Row {
    row.(status := Running, attempts := row.attempts + 1, claimedAt := Some(now))
  }

  function TicketFor(rows: Rows, id: string): Ticket
    requires id in rows
  {
    Ticket(id, rows[id].kind, rows[id].customer, rows[id].payload, rows[id].attempts + 1)
  }

  function ReclaimExpired(rows: Rows, now: int, timeout: int): Rows {
    map k | k in rows :: if Expired(rows[k], now, timeout) then Reclaimed(rows[k], now) else rows[k]
  }

  /** Expired leases return to the queue and the first claimable task is leased;
      nothing at all changes when no task is claimable. */
  ghost function AfterClaim(rows: Rows, now: int, timeout: int): Rows {
    match Next(rows, now, timeout)
    case None => rows
    case Some(id) =>
      var reclaimed := ReclaimExpired(rows, now, timeout);
      reclaimed[id := Leased(reclaimed[id], now)]
  }

  ghost function AfterComplete(rows: Rows, id: string, at: int): Rows {
    if id in rows && rows[id].status == Running
    then rows[id := rows[id].(status := Completed, completedAt := Some(at))]
    else rows
  }

  /** Retry delay in seconds after the given attempt. */
  function Backoff(attempt: nat): nat {
    if Pow2(attempt) < 60 then Pow2(attempt) else 60
  }

  ghost function AfterFail(rows: Rows, ticket: Ticket, error: string, maxAttempts: int, at: int): Rows {
    var id := ticket.taskId;
    if id in rows && rows[id].status == Running
    then rows[id := rows[id].(
                status := if ticket.attempts < maxAttempts then Pending else Failed,
                availableAt := at + Backoff(ticket.attempts) * SECOND,
                lastError := Some(if |error| <= 500 then error else error[..500]))]
    else rows
  }

  function NewRow(kind: string, customer: string, payload: string, dedupeKey: string, at: int): Row {
    Row(kind, customer, payload, Pending, 0, at, at, None, None, None, dedupeKey)
  }

  ghost predicate KeyUsed(rows: Rows, dedupeKey: string) {
    exists k :: k in rows && rows[k].dedupeKey == dedupeKey
  }

  ghost function AfterEnqueue(rows: Rows, id: string, row: Row): Rows {
    if id in rows || KeyUsed(rows, row.dedupeKey) then rows else rows[id := row]
  }

  /** What every operation keeps: leases carry their start, dedupe keys are unique. */
  ghost predicate Valid(rows: Rows) {
    && (forall k :: k in rows && rows[k].status == Running ==> rows[k].claimedAt.Some?)
    && (forall j, k :: j in rows && k in rows && rows[j].dedupeKey == rows[k].dedupeKey ==> j == k)
  }

  /** What a claim does to one row. */
  function RowAfterClaim(row: Row, now: int, timeout: int, chosen: bool): Row {
    var kept := if Expired(row, now, timeout) then Reclaimed(row, now) else row;
    if chosen then Leased(kept, now) else kept
  }

  lemma ClaimRowByRow(rows: Rows, now: int, timeout: int)
    ensures AfterClaim(rows, now, timeout).Keys == rows.Keys
    ensures forall id :: Next(rows, now, timeout) == Some(id) ==> id in rows && Claimable(rows[id], now, timeout)
    ensures forall id :: id in rows ==>
      AfterClaim(rows, now, timeout)[id] == RowAfterClaim(rows[id], now, timeout, Next(rows, now, timeout) == Some(id))
  {
    forall id | id in rows
      ensures AfterClaim(rows, now, timeout)[id] ==
        RowAfterClaim(rows[id], now, timeout, Next(rows, now, timeout) == Some(id))
    {
      assert Next(rows, now, timeout) == None ==> !Expired(rows[id], now, timeout);
    }
  }

  /** Row updates that leave the dedupe keys alone and the leases started keep the table valid. */
  lemma UpdatesKeepValid(before: Rows, after: Rows)
    requires Valid(before) && after.Keys == before.Keys
    requires forall id :: id in before ==> after[id].dedupeKey == before[id].dedupeKey
    requires forall id :: id in before && after[id].status == Running ==> after[id].claimedAt.Some?
    ensures Valid(after)
  {
  }

  lemma ClaimKeepsValid(rows: Rows, now: int, timeout: int)
    requires Valid(rows)
    ensures Valid(AfterClaim(rows, now, timeout))
  {
    ClaimRowByRow(rows, now, timeout);
    hide Next, AfterClaim;
    assert forall id :: id in rows && rows[id].status == Running ==> rows[id].claimedAt.Some?;
    hide Valid;
    UpdatesKeepValid(rows, AfterClaim(rows, now, timeout));
  }

  /** A report touches only its own row, neither its key nor, if it goes on running, its lease. */
  lemma ReportRowByRow(rows: Rows, id: string, ticket: Ticket, error: string, maxAttempts: int, at: int)
    ensures AfterComplete(rows, id, at).Keys == AfterFail(rows, ticket, error, maxAttempts, at).Keys == rows.Keys
    ensures forall k :: k in rows && k != id ==> AfterComplete(rows, id, at)[k] == rows[k]
    ensures forall k :: k in rows && k != ticket.taskId ==>
      AfterFail(rows, ticket, error, maxAttempts, at)[k] == rows[k]
    ensures forall k :: k in rows ==> SameLease(rows[k], AfterComplete(rows, id, at)[k])
    ensures forall k :: k in rows ==> SameLease(rows[k], AfterFail(rows, ticket, error, maxAttempts, at)[k])
  {
  }

  ghost predicate SameLease(before: Row, after: Row) {
    && after.dedupeKey == before.dedupeKey && after.claimedAt == before.claimedAt && after.attempts == before.attempts
    && (after.status == Running ==> before.status == Running)
  }

  lemma ReportsKeepValid(rows: Rows, id: string, ticket: Ticket, error: string, maxAttempts: int, at: int)
    requires Valid(rows)
    ensures Valid(AfterComplete(rows, id, at)) && Valid(AfterFail(rows, ticket, error, maxAttempts, at))
  {
    ReportRowByRow(rows, id, ticket, error, maxAttempts, at);
    assert forall k :: k in rows && rows[k].status == Running ==> rows[k].claimedAt.Some?;
    hide Valid, AfterComplete, AfterFail;
    UpdatesKeepValid(rows, AfterComplete(rows, id, at));
    UpdatesKeepValid(rows, AfterFail(rows, ticket, error, maxAttempts, at));
  }

  /** What the SELECT after the reclaim picks. */
  predicate IsFirstAvailable(rows: Rows, now: int, id: string) {
    && id in rows && Available(rows[id], now)
    && forall k :: k in rows && k != id && Available(rows[k], now) ==> Precedes(rows, id, k)
  }

  predicate SomeAvailable(rows: Rows, now: int) {
    exists k :: k in rows && Available(rows[k], now)
  }

  /** Reclaiming first and selecting the first available task picks the first claimable task. */
  lemma SelectAfterReclaim(before: Rows, now: int, timeout: int)
    requires timeout > 0
    ensures var after := ReclaimExpired(before, now, timeout);
      && (forall id :: IsFirstAvailable(after, now, id) ==> IsNext(before, now, timeout, id))
      && (SomeAvailable(after, now) ==> exists id :: id in after && IsFirstAvailable(after, now, id))
      && (!SomeAvailable(after, now) ==> after == before && Next(before, now, timeout) == None)
  {
    var after := ReclaimExpired(before, now, timeout);
    assert forall k :: k in before ==> (Available(after[k], now) <==> Claimable(before[k], now, timeout));
    assert forall j, k :: j in before && k in before ==> (Precedes(after, j, k) <==> Precedes(before, j, k));
    if SomeAvailable(after, now) {
      var available := set k | k in after && Available(after[k], now);
      var k :| k in after && Available(after[k], now);
      assert k in available;
      var id := FirstExists(after, available);
      assert IsFirstAvailable(after, now, id);
    }
  }

  // ---------- What a claim means, column by column ----------

  predicate LeaseOver(row: Row, now: int, timeout: int) {
    row.status == Running && row.claimedAt.Some? && row.claimedAt.value + timeout * SECOND <= now
  }

  predicate Open(row: Row, now: int, timeout: int) {
    (row.status == Pending && row.availableAt <= now) || LeaseOver(row, now, timeout)
  }

  /** The ticket names the task and its next attempt, and carries the columns the worker needs. */
  predicate Describes(ticket: Ticket, row: Row) {
    ticket.kind == row.kind && ticket.customer == row.customer && ticket.payload == row.payload
  }

  /** Nothing open: nothing changes. Otherwise the open task created first, ties by id, is handed out and running, and
      every other task whose lease is over waits again, from now on. */
  ghost predicate ClaimOutcome(before: Rows, after: Rows, now: int, timeout: int, r: Option<Ticket>) {
    match r
    case None => after == before && forall k :: k in before ==> !Open(before[k], now, timeout)
    case Some(t) =>
      && after.Keys == before.Keys && t.taskId in before && Open(before[t.taskId], now, timeout)
      && Describes(t, before[t.taskId]) && t.attempts == before[t.taskId].attempts + 1
      && (forall k :: k in before && k != t.taskId && Open(before[k], now, timeout) ==>
            before[t.taskId].createdAt < before[k].createdAt
            || (before[t.taskId].createdAt == before[k].createdAt && TextOrder.Less(t.taskId, k)))
      && after[t.taskId] == before[t.taskId].(
           status := Running, attempts := t.attempts, claimedAt := Some(now),
           availableAt := if before[t.taskId].status == Running then now else before[t.taskId].availableAt)
      && (forall k :: k in before && k != t.taskId ==>
            after[k] == if LeaseOver(before[k], now, timeout)
                        then before[k].(status := Pending, availableAt := now, claimedAt := None) else before[k])
  }

  lemma ClaimMeans(rows: Rows, now: int, timeout: int)
    ensures ClaimOutcome(rows, AfterClaim(rows, now, timeout), now, timeout,
                         match Next(rows, now, timeout)
                         case None => None
                         case Some(id) => Some(TicketFor(rows, id)))
  {
    ClaimRowByRow(rows, now, timeout);
    hide AfterClaim;
    if Next(rows, now, timeout) == None {
      forall k | k in rows
        ensures !Open(rows[k], now, timeout) && AfterClaim(rows, now, timeout)[k] == rows[k]
      {
        assert !Claimable(rows[k], now, timeout);
      }
    } else {
      assert IsNext(rows, now, timeout, Next(rows, now, timeout).value);
    }
  }

  /** A running task waits for a retry, or has failed for good once the ticket's number has reached the limit; it is
      available again after a delay that doubles with each attempt up to a minute, and keeps the first 500 characters
      of the error. Any other task is left alone. */
  ghost predicate FailureOutcome(before: Rows, after: Rows, ticket: Ticket, error: string, maxAttempts: int, at: int) {
    if ticket.taskId in before && before[ticket.taskId].status == Running
    then
      var delay := if ticket.attempts < 6 then Pow2(ticket.attempts) else 60;
      && after.Keys == before.Keys && (forall k :: k in before && k != ticket.taskId ==> after[k] == before[k])
      && var row := after[ticket.taskId];
      && row == before[ticket.taskId].(
           status := if maxAttempts <= ticket.attempts then Failed else Pending,
           availableAt := at + delay * SECOND, lastError := row.lastError)
      && row.lastError.Some? && row.lastError.value <= error
      && |row.lastError.value| == if |error| < 500 then |error| else 500
    else after == before
  }

  lemma {:induction false} LongDelays(n: nat)
    ensures Pow2(n) < 60 <==> n < 6
  {
    if n < 6 {
      assert Pow2(1) == 2 && Pow2(2) == 4 && Pow2(3) == 8 && Pow2(4) == 16 && Pow2(5) == 32;
    } else if n == 6 {
      assert Pow2(2) == 4 && Pow2(4) == 16 && Pow2(6) == 64;
    } else {
      LongDelays(n - 1);
    }
  }

  lemma FailureMeans(rows: Rows, ticket: Ticket, error: string, maxAttempts: int, at: int)
    ensures FailureOutcome(rows, AfterFail(rows, ticket, error, maxAttempts, at), ticket, error, maxAttempts, at)
  {
    LongDelays(ticket.attempts);
    hide Pow2;
  }

  // ---------- The queue ----------

  class DurableTaskQueue {
    var rows: Rows

    constructor ()
      ensures rows == map[]
    {
      rows := map[];
    }

    /** `taskId` is the freshly drawn UUID. A repeated key returns the task that has it. */
    method Enqueue(kind: string, customer: string, payload: string, dedupeKey: string, taskId: string, now: Clock<int>)
      returns (r: Result<(string, bool), QueueError>)
      requires Valid(rows)
      modifies this
      ensures Valid(rows)
      ensures now.Naive? ==> r == Err(NaiveTimestamp) && rows == old(rows)
      ensures now.Aware? ==> rows == AfterEnqueue(old(rows), taskId, NewRow(kind, customer, payload, dedupeKey, now.at))
      ensures r.Ok? && r.value.1 ==>
        rows == old(rows)[taskId :=
          Row(kind, customer, payload, Pending, 0, now.at, now.at, None, None, None, dedupeKey)]
      ensures !(r.Ok? && r.value.1) ==> rows == old(rows)
      ensures now.Aware? && taskId !in old(rows) && !KeyUsed(old(rows), dedupeKey) ==> r == Ok((taskId, true))
      ensures now.Aware? && KeyUsed(old(rows), dedupeKey) ==>
        r.Ok? && !r.value.1 && r.value.0 in rows && rows[r.value.0].dedupeKey == dedupeKey
      ensures now.Aware? && taskId in old(rows) && !KeyUsed(old(rows), dedupeKey) ==> r == Err(LostInsert)
    {
      if now.Naive? {
        return Err(NaiveTimestamp);
      }
      var same := set k | k in rows && rows[k].dedupeKey == dedupeKey;
      assert KeyUsed(rows, dedupeKey) <==> same != {} by {
        if KeyUsed(rows, dedupeKey) {
          var k :| k in rows && rows[k].dedupeKey == dedupeKey;
          assert k in same;
        }
      }
      assert same == {} ==> forall k :: k in rows ==> rows[k].dedupeKey != dedupeKey;
      if taskId !in rows && same == {} {
        rows := rows[taskId := NewRow(kind, customer, payload, dedupeKey, now.at)];
        return Ok((taskId, true));
      }
      if same == {} {
        return Err(LostInsert);
      }
      var k :| k in same;
      return Ok((k, false));
    }

    /** UPDATE of expired leases, then SELECT of the first available task, then UPDATE to lease it. */
    method Claim(now: Clock<int>, timeout: int) returns (r: Result<Option<Ticket>, QueueError>)
      requires Valid(rows)
      modifies this
      ensures Valid(rows)
      ensures now.Naive? ==> r == Err(NaiveTimestamp)
      ensures now.Aware? && timeout <= 0 ==> r == Err(NonPositiveTimeout)
      ensures r.Err? ==> rows == old(rows)
      ensures now.Aware? && timeout > 0 ==> rows == AfterClaim(old(rows), now.at, timeout)
      ensures now.Aware? && timeout > 0 ==>
        r == Ok(match Next(old(rows), now.at, timeout)
                case None => None
                case Some(id) => Some(TicketFor(old(rows), id)))
      ensures now.Aware? && timeout > 0 ==> r.Ok? && ClaimOutcome(old(rows), rows, now.at, timeout, r.value)
    {
      if now.Naive? {
        return Err(NaiveTimestamp);
      }
      if timeout <= 0 {
        return Err(NonPositiveTimeout);
      }
      ghost var before := rows;
      SelectAfterReclaim(before, now.at, timeout);
      ClaimKeepsValid(before, now.at, timeout);
      ClaimMeans(before, now.at, timeout);
      hide Valid, ClaimOutcome, Expired, Available, Precedes;
      rows := ReclaimExpired(rows, now.at, timeout);
      if !SomeAvailable(rows, now.at) {
        return Ok(None);
      }
      var id :| id in rows && IsFirstAvailable(rows, now.at, id);
      r := Ok(Some(TicketFor(rows, id)));
      rows := rows[id := Leased(rows[id], now.at)];
      assert Next(before, now.at, timeout) == Some(id);
    }

    method Complete(taskId: string, at: int) returns (r: Result<(), QueueError>)
      requires Valid(rows)
      modifies this
      ensures Valid(rows)
      ensures rows == AfterComplete(old(rows), taskId, at)
      ensures r == if taskId in old(rows) && old(rows)[taskId].status == Running then Ok(()) else Err(TaskNotRunning)
      ensures rows == if r.Err? then old(rows)
                      else old(rows)[taskId := old(rows)[taskId].(status := Completed, completedAt := Some(at))]
    {
      if taskId !in rows || rows[taskId].status != Running {
        return Err(TaskNotRunning);
      }
      rows := rows[taskId := rows[taskId].(status := Completed, completedAt := Some(at))];
      return Ok(());
    }

    /** Silent when the task is not running: the update then matches no row. */
    method Fail(ticket: Ticket, error: string, maxAttempts: int, at: int)
      requires Valid(rows)
      modifies this
      ensures Valid(rows)
      ensures rows == AfterFail(old(rows), ticket, error, maxAttempts, at)
      ensures FailureOutcome(old(rows), rows, ticket, error, maxAttempts, at)
    {
      FailureMeans(rows, ticket, error, maxAttempts, at);
      hide FailureOutcome;
      var retry := ticket.attempts < maxAttempts;
      var status := if retry then Pending else Failed;
      if ticket.taskId in rows && rows[ticket.taskId].status == Running {
        rows := rows[ticket.taskId := rows[ticket.taskId].(
          status := status,
          availableAt := at + Backoff(ticket.attempts) * SECOND,
          lastError := Some(if |error| <= 500 then error else error[..500]))];
      }
    }
  }
}
