/** What holds over every run of the queue: any series of operations by any workers at any
    clock readings, nondecreasing or not. */
module QueueHistory {
  import opened Wrappers
  import opened Counting
  import opened TaskQueue

  datatype Event =
    | Enqueue(taskId: string, row: Row)
    | Claim(now: int, timeout: int)
    | Complete(taskId: string, at: int)
    | Fail(ticket: Ticket, error: string, maxAttempts: int, at: int)

  /** Events the queue accepts: `enqueue` writes fresh rows and `claim` rejects other timeouts. */
  ghost predicate Legal(e: Event) {
    match e
    case Enqueue(_, row) => row.status == Pending && row.attempts == 0 && row.claimedAt == None
    case Claim(_, timeout) => timeout > 0
    case _ => true
  }

  ghost predicate AllLegal(events: seq<Event>) {
    forall e :: e in events ==> Legal(e)
  }

  ghost function Apply(rows: Rows, e: Event): Rows {
    match e
    case Enqueue(id, row) => AfterEnqueue(rows, id, row)
    case Claim(now, timeout) => AfterClaim(rows, now, timeout)
    case Complete(id, at) => AfterComplete(rows, id, at)
    case Fail(ticket, error, maxAttempts, at) => AfterFail(rows, ticket, error, maxAttempts, at)
  }

  ghost function Run(rows: Rows, events: seq<Event>): Rows
    decreases events
  {
    if events == [] then rows else Run(Apply(rows, events[0]), events[1..])
  }

  lemma ApplyKeepsValid(rows: Rows, e: Event)
    requires Valid(rows) && Legal(e)
    ensures Valid(Apply(rows, e))
  {
    hide AfterClaim, AfterFail, AfterComplete;
    match e
    case Enqueue(_, _) =>
    case Claim(now, timeout) => ClaimKeepsValid(rows, now, timeout);
    case Complete(id, at) => ReportsKeepValid(rows, id, Ticket("", "", "", "", 0), "", 0, at);
    case Fail(ticket, error, maxAttempts, at) => ReportsKeepValid(rows, "", ticket, error, maxAttempts, at);
  }

  lemma {:induction false} RunKeepsValid(rows: Rows, events: seq<Event>)
    requires Valid(rows) && AllLegal(events)
    ensures Valid(Run(rows, events))
    decreases events
  {
    if events != [] {
      ApplyKeepsValid(rows, events[0]);
      RunKeepsValid(Apply(rows, events[0]), events[1..]);
    }
  }

  // ---------- Durability ----------

  predicate Finished(row: Row) {
    row.status == Completed || row.status == Failed
  }

  /** A task is never lost or altered, its attempts only grow, and a finished row never changes again. */
  ghost predicate Persists(before: Row, after: Row) {
    && after.kind == before.kind && after.customer == before.customer && after.payload == before.payload
    && after.createdAt == before.createdAt && after.dedupeKey == before.dedupeKey
    && before.attempts <= after.attempts
    && (Finished(before) ==> after == before)
  }

  lemma {:induction false} TasksPersist(rows: Rows, events: seq<Event>, id: string)
    requires id in rows
    ensures id in Run(rows, events) && Persists(rows[id], Run(rows, events)[id])
    decreases events
  {
    if events != [] {
      TasksPersist(Apply(rows, events[0]), events[1..], id);
    }
  }

  /** The first instant from which an unfinished task can be claimed. */
  function ReadyAt(row: Row, timeout: int): int {
    match row.status
    case Running => (if row.claimedAt.Some? then row.claimedAt.value else 0) + timeout * SECOND
    case _ => row.availableAt
  }

  /** Every unfinished task of a reachable table becomes claimable, at a known finite time. */
  lemma UnfinishedBecomesClaimable(events: seq<Event>, id: string, now: int, timeout: int)
    requires AllLegal(events) && id in Run(map[], events)
    ensures var row := Run(map[], events)[id];
            Claimable(row, now, timeout) <==> !Finished(row) && ReadyAt(row, timeout) <= now
  {
    RunKeepsValid(map[], events);
  }

  // ---------- Hand-outs ----------

  /** The event is a claim that returns this task. */
  ghost predicate HandsOut(rows: Rows, e: Event, id: string) {
    e.Claim? && Next(rows, e.now, e.timeout) == Some(id)
  }

  ghost predicate HandedOutAt(rows: Rows, events: seq<Event>, i: nat, id: string)
    requires i < |events|
  {
    HandsOut(Run(rows, events[..i]), events[i], id)
  }

  /** Whatever happens in between, a ticket carries the kind, customer and payload the task was enqueued with. */
  lemma TicketsCarryTheTask(rows: Rows, id: string, kind: string, customer: string, payload: string, key: string,
                            at: int, events: seq<Event>, now: int, timeout: int)
    requires id !in rows && !KeyUsed(rows, key)
    requires var run := Run(AfterEnqueue(rows, id, NewRow(kind, customer, payload, key, at)), events);
      Next(run, now, timeout) == Some(id)
    ensures var run := Run(AfterEnqueue(rows, id, NewRow(kind, customer, payload, key, at)), events);
      TicketFor(run, id) == Ticket(id, kind, customer, payload, run[id].attempts + 1)
  {
    TasksPersist(AfterEnqueue(rows, id, NewRow(kind, customer, payload, key, at)), events, id);
  }

  /** How often the task is handed out in the run. */
  ghost function HandOuts(rows: Rows, events: seq<Event>, id: string): nat
    decreases events
  {
    if events == [] then 0
    else (if HandsOut(rows, events[0], id) then 1 else 0) + HandOuts(Apply(rows, events[0]), events[1..], id)
  }

  /** A hand-out starts a lease and counts one attempt. */
  lemma HandOutLeases(rows: Rows, e: Event, id: string)
    requires HandsOut(rows, e, id)
    ensures id in rows && id in Apply(rows, e)
    ensures Apply(rows, e)[id].status == Running && Apply(rows, e)[id].claimedAt == Some(e.now)
    ensures Apply(rows, e)[id].attempts == rows[id].attempts + 1
  {
    ClaimRowByRow(rows, e.now, e.timeout);
  }

  /** Without a hand-out a task neither starts running nor gains an attempt. */
  lemma OnlyHandOutsLease(rows: Rows, e: Event, id: string)
    requires id in rows && !HandsOut(rows, e, id)
    ensures id in Apply(rows, e) && Apply(rows, e)[id].attempts == rows[id].attempts
    ensures Apply(rows, e)[id].status == Running ==> rows[id].status == Running && Apply(rows, e)[id] == rows[id]
  {
    if e.Claim? {
      ClaimRowByRow(rows, e.now, e.timeout);
    }
  }

  lemma HandedOutLater(rows: Rows, events: seq<Event>, i: nat, id: string)
    requires 0 < i < |events|
    ensures HandedOutAt(rows, events, i, id) <==> HandedOutAt(Apply(rows, events[0]), events[1..], i - 1, id)
  {
    assert events[..i][1..] == events[1..][..i - 1];
  }

  /** The attempts of a task count its hand-outs. */
  lemma {:induction false} AttemptsAreHandOuts(rows: Rows, events: seq<Event>, id: string)
    requires id in rows
    ensures id in Run(rows, events)
    ensures Run(rows, events)[id].attempts == rows[id].attempts + HandOuts(rows, events, id)
    decreases events
  {
    if events != [] {
      if HandsOut(rows, events[0], id) {
        HandOutLeases(rows, events[0], id);
      } else {
        OnlyHandOutsLease(rows, events[0], id);
      }
      AttemptsAreHandOuts(Apply(rows, events[0]), events[1..], id);
    }
  }

  /** The same for a task enqueued during the run. */
  lemma {:induction false} HandOutsOfNewTask(rows: Rows, events: seq<Event>, id: string)
    requires id !in rows && AllLegal(events)
    ensures HandOuts(rows, events, id) == if id in Run(rows, events) then Run(rows, events)[id].attempts else 0
    decreases events
  {
    if events != [] {
      assert events[0] in events;
      var next := Apply(rows, events[0]);
      if id in next {
        AttemptsAreHandOuts(next, events[1..], id);
      } else {
        HandOutsOfNewTask(next, events[1..], id);
      }
    }
  }

  lemma RunOne(rows: Rows, e: Event)
    ensures Run(rows, [e]) == Apply(rows, e)
  {
    assert [e][1..] == [];
    assert Run(Apply(rows, e), []) == Apply(rows, e);
  }

  lemma {:induction false} RunConcat(rows: Rows, first: seq<Event>, rest: seq<Event>)
    ensures Run(rows, first + rest) == Run(Run(rows, first), rest)
    decreases first
  {
    if first == [] {
      assert first + rest == rest;
    } else {
      assert (first + rest)[1..] == first[1..] + rest;
      RunConcat(Apply(rows, first[0]), first[1..], rest);
    }
  }

  // ---------- Lease exclusion and back-off ----------

  /** No claim with lease `timeout` or longer can return the task before `bound`. */
  ghost predicate NotBefore(row: Row, bound: int, timeout: int) {
    || (row.status == Pending && bound <= row.availableAt)
    || (row.status == Running && row.claimedAt.Some? && bound <= row.claimedAt.value + timeout * SECOND)
    || Finished(row)
  }

  /** Events that neither report on the task nor claim with a shorter lease. */
  ghost predicate Undisturbed(events: seq<Event>, id: string, timeout: int) {
    forall e :: e in events ==>
      && (e.Claim? ==> timeout <= e.timeout)
      && (e.Complete? ==> e.taskId != id)
      && (e.Fail? ==> e.ticket.taskId != id)
  }

  lemma {:induction false} NotBeforeHolds(rows: Rows, events: seq<Event>, id: string, bound: int, timeout: int)
    requires timeout > 0 && Undisturbed(events, id, timeout)
    requires id in rows && NotBefore(rows[id], bound, timeout)
    ensures id in Run(rows, events) && NotBefore(Run(rows, events)[id], bound, timeout)
    decreases events
  {
    if events != [] {
      var next := Apply(rows, events[0]);
      assert events[0] in events;
      assert NotBefore(next[id], bound, timeout);
      NotBeforeHolds(next, events[1..], id, bound, timeout);
    }
  }

  /** While a ticket issued at `issuedAt` is unreported, no claim before the end of its lease returns
      the task, whatever clock readings the other operations in between used. */
  lemma LeaseExclusion(rows: Rows, id: string, issuedAt: int, timeout: int, events: seq<Event>, now: int, lease: int)
    requires timeout > 0 && Next(rows, issuedAt, timeout) == Some(id)
    requires Undisturbed(events, id, timeout) && timeout <= lease
    requires now < issuedAt + timeout * SECOND
    ensures Next(Run(Apply(rows, Claim(issuedAt, timeout)), events), now, lease) != Some(id)
  {
    var claimed := Apply(rows, Claim(issuedAt, timeout));
    NotBeforeHolds(claimed, events, id, issuedAt + timeout * SECOND, timeout);
  }

  ghost predicate NeverHandedOut(rows: Rows, events: seq<Event>, id: string) {
    forall i :: 0 <= i < |events| ==> !HandedOutAt(rows, events, i, id)
  }

  /** A task that is not running stays as it is until it is handed out, whoever reports on it. */
  lemma {:induction false} WaitsForHandOut(rows: Rows, events: seq<Event>, id: string)
    requires id in rows && rows[id].status != Running && NeverHandedOut(rows, events, id)
    ensures id in Run(rows, events) && Run(rows, events)[id] == rows[id]
    decreases events
  {
    if events != [] {
      var (e, next) := (events[0], Apply(rows, events[0]));
      assert !HandedOutAt(rows, events, 0, id);
      if e.Claim? {
        ClaimRowByRow(rows, e.now, e.timeout);
      }
      assert id in next && next[id] == rows[id];
      forall i | 0 <= i < |events[1..]|
        ensures !HandedOutAt(next, events[1..], i, id)
      {
        HandedOutLater(rows, events, i + 1, id);
      }
      WaitsForHandOut(next, events[1..], id);
    }
  }

  /** After a failure the next claim that returns the task comes only when the back-off has passed: whatever
      reports, late or not, whatever timeouts and whatever clock readings lie in between. */
  lemma BackoffExclusion(rows: Rows, ticket: Ticket, error: string, maxAttempts: int, failedAt: int,
                         events: seq<Event>, now: int, timeout: int)
    requires ticket.taskId in rows && rows[ticket.taskId].status == Running
    requires NeverHandedOut(Apply(rows, Fail(ticket, error, maxAttempts, failedAt)), events, ticket.taskId)
    requires now < failedAt + Backoff(ticket.attempts) * SECOND
    ensures Next(Run(Apply(rows, Fail(ticket, error, maxAttempts, failedAt)), events), now, timeout)
            != Some(ticket.taskId)
  {
    WaitsForHandOut(Apply(rows, Fail(ticket, error, maxAttempts, failedAt)), events, ticket.taskId);
  }

  /** The same for all later claims, if nobody reports on the task and every lease is at least this long. */
  lemma BackoffExclusionLater(rows: Rows, ticket: Ticket, error: string, maxAttempts: int, failedAt: int,
                              events: seq<Event>, now: int, timeout: int)
    requires ticket.taskId in rows && rows[ticket.taskId].status == Running
    requires timeout > 0 && Undisturbed(events, ticket.taskId, timeout)
    requires now < failedAt + Backoff(ticket.attempts) * SECOND
    ensures Next(Run(Apply(rows, Fail(ticket, error, maxAttempts, failedAt)), events), now, timeout)
            != Some(ticket.taskId)
  {
    var failed := Apply(rows, Fail(ticket, error, maxAttempts, failedAt));
    NotBeforeHolds(failed, events, ticket.taskId, failedAt + Backoff(ticket.attempts) * SECOND, timeout);
  }

  /** The delay is `min(60, 2^attempt)`: it doubles up to the cap and never shrinks. */
  lemma BackoffGrows(attempt: nat)
    ensures 1 <= Backoff(attempt) <= Backoff(attempt + 1) <= 60
    ensures attempt < 5 ==> Backoff(attempt + 1) == 2 * Backoff(attempt)
    ensures 6 <= attempt ==> Backoff(attempt) == 60
  {
    PowersGrow(attempt);
    if attempt < 5 {
      assert Pow2(1) == 2 && Pow2(2) == 4 && Pow2(3) == 8 && Pow2(4) == 16 && Pow2(5) == 32;
    }
  }

  lemma {:induction false} PowersGrow(n: nat)
    ensures 1 <= Pow2(n)
    ensures 6 <= n ==> 64 <= Pow2(n)
  {
    if n == 6 {
      assert Pow2(2) == 4 && Pow2(4) == 16;
    }
    if n > 0 {
      PowersGrow(n - 1);
    }
  }

  // ---------- Attempts ----------

  /** How often the lease of the task expired and was reclaimed during the run. */
  ghost function Expiries(rows: Rows, events: seq<Event>, id: string): nat
    decreases events
  {
    if events == [] then 0
    else ExpiriesAt(rows, events[0], id) + Expiries(Apply(rows, events[0]), events[1..], id)
  }

  ghost function ExpiriesAt(rows: Rows, e: Event, id: string): nat {
    if e.Claim? && id in rows && Expired(rows[id], e.now, e.timeout) then 1 else 0
  }

  ghost predicate ReportsFailure(e: Event, id: string) {
    e.Fail? && e.ticket.taskId == id
  }

  /** How often a reported failure sent the task back to wait for a retry. */
  ghost function Retries(rows: Rows, events: seq<Event>, id: string): nat
    decreases events
  {
    if events == [] then 0
    else RetriesAt(rows, events[0], id) + Retries(Apply(rows, events[0]), events[1..], id)
  }

  ghost function RetriesAt(rows: Rows, e: Event, id: string): nat {
    if ReportsFailure(e, id) && id in rows && rows[id].status == Running && e.ticket.attempts < e.maxAttempts then 1
    else 0
  }

  /** The attempts made, and the one a pending task has ahead. */
  ghost function Granted(row: Row): nat {
    row.attempts + if row.status == Pending then 1 else 0
  }

  /** Only a retry and an expiry grant another attempt, and each grants one. */
  lemma StepGrants(rows: Rows, e: Event, id: string)
    requires id in rows
    ensures id in Apply(rows, e)
    ensures Granted(Apply(rows, e)[id]) == Granted(rows[id]) + RetriesAt(rows, e, id) + ExpiriesAt(rows, e, id)
  {
    if e.Claim? {
      ClaimRowByRow(rows, e.now, e.timeout);
    }
    hide Backoff;
  }

  lemma {:induction false} RunGrants(rows: Rows, events: seq<Event>, id: string)
    requires id in rows
    ensures id in Run(rows, events)
    ensures Granted(Run(rows, events)[id])
            == Granted(rows[id]) + Retries(rows, events, id) + Expiries(rows, events, id)
    decreases events
  {
    if events != [] {
      StepGrants(rows, events[0], id);
      hide Apply, Granted, RetriesAt, ExpiriesAt;
      RunGrants(Apply(rows, events[0]), events[1..], id);
    }
  }

  /** Every attempt is accounted for, in every run and whoever reports what: a task has been granted one attempt by its
      enqueue, one by each retry and one by each expiry of its lease. */
  lemma {:induction false} AttemptsArePaidFor(rows: Rows, events: seq<Event>, id: string)
    requires id !in rows && AllLegal(events) && id in Run(rows, events)
    ensures Granted(Run(rows, events)[id]) == 1 + Retries(rows, events, id) + Expiries(rows, events, id)
    decreases events
  {
    assert events[0] in events;
    var next := Apply(rows, events[0]);
    if id in next {
      RunGrants(next, events[1..], id);
    } else {
      AttemptsArePaidFor(next, events[1..], id);
    }
  }

  /** When a task stays within a number of attempts: exactly if its retries and expiries do, one less being left for
      them once the attempt they granted last has begun. */
  lemma WithinLimitIff(rows: Rows, events: seq<Event>, id: string, limit: int)
    requires id !in rows && AllLegal(events) && id in Run(rows, events)
    ensures Run(rows, events)[id].attempts <= limit <==>
      Retries(rows, events, id) + Expiries(rows, events, id)
        <= limit - if Run(rows, events)[id].status == Pending then 0 else 1
  {
    AttemptsArePaidFor(rows, events, id);
  }

  // ---------- Attempts when every ticket is reported at most once ----------

  /** The smallest and the largest `max_attempts` of the workers that report. */
  datatype Limits = Limits(least: int, most: int)

  /** The attempt number of the ticket a claim issues for the task, if it issues one. */
  ghost function Issued(rows: Rows, e: Event, id: string): set<nat> {
    if e.Claim? && Next(rows, e.now, e.timeout) == Some(id) && id in rows then {rows[id].attempts + 1} else {}
  }

  /** The open tickets after the event: a failure reported closes its ticket, a hand-out opens one. */
  ghost function OpenNext(rows: Rows, e: Event, id: string, open: set<nat>): set<nat> {
    (if ReportsFailure(e, id) then open - {e.ticket.attempts} else open) + Issued(rows, e, id)
  }

  /** The attempts whose reported failure was allowed a retry. */
  ghost function RetriedNext(e: Event, id: string, retried: set<nat>): set<nat> {
    if ReportsFailure(e, id) && e.ticket.attempts < e.maxAttempts then retried + {e.ticket.attempts} else retried
  }

  /** Workers report only tickets they were issued, each at most once, with limits of their own within `limits`:
      `open` holds the attempt numbers issued and not yet reported as failed. */
  ghost predicate ReportsOnce(rows: Rows, events: seq<Event>, id: string, limits: Limits, open: set<nat>)
    decreases events
  {
    events == [] ||
    var e := events[0];
    && (ReportsFailure(e, id) ==> e.ticket.attempts in open && limits.least <= e.maxAttempts <= limits.most)
    && ReportsOnce(Apply(rows, e), events[1..], id, limits, OpenNext(rows, e, id, open))
  }

  ghost predicate NumbersUpTo(s: set<nat>, n: int) {
    forall k :: k in s ==> 1 <= k <= n
  }

  /** The bound one step at a time: `retried` holds the reported numbers that were allowed a retry. */
  ghost predicate RowBounded(row: Row, limits: Limits, open: set<nat>, retried: set<nat>, expiries: nat) {
    && NumbersUpTo(open, row.attempts)
    && NumbersUpTo(retried, limits.most - 1)
    && open !! retried
    && NumbersUpTo(retried, row.attempts)
    && row.attempts + (if row.status == Pending then 1 else 0) <= 1 + |retried| + expiries
    && (row.status == Failed ==> limits.least <= row.attempts)
  }

  ghost predicate Bounded(rows: Rows, id: string, limits: Limits, open: set<nat>, retried: set<nat>, expiries: nat) {
    if id in rows then RowBounded(rows[id], limits, open, retried, expiries) else open == {} && retried == {}
  }

  /** A lease uses up the place a pending task still has; an expiry makes a new one. */
  lemma ClaimBounded(row: Row, now: int, timeout: int, chosen: bool, limits: Limits, open: set<nat>,
                     retried: set<nat>, expiries: nat)
    requires RowBounded(row, limits, open, retried, expiries)
    requires chosen ==> Claimable(row, now, timeout)
    ensures RowBounded(RowAfterClaim(row, now, timeout, chosen), limits,
                       open + (if chosen then {row.attempts + 1} else {}), retried,
                       expiries + if Expired(row, now, timeout) then 1 else 0)
  {
  }

  /** A reported failure gives a retry only for a number not reported before. */
  lemma FailureBounded(rows: Rows, id: string, ticket: Ticket, error: string, maxAttempts: int, at: int,
                       limits: Limits, open: set<nat>, retried: set<nat>, expiries: nat)
    requires id in rows && RowBounded(rows[id], limits, open, retried, expiries)
    requires ticket.taskId == id && ticket.attempts in open && limits.least <= maxAttempts <= limits.most
    ensures RowBounded(AfterFail(rows, ticket, error, maxAttempts, at)[id], limits, open - {ticket.attempts},
                       (if ticket.attempts < maxAttempts then retried + {ticket.attempts} else retried), expiries)
  {
    hide Backoff;
    if ticket.attempts < maxAttempts {
      assert |retried + {ticket.attempts}| == |retried| + 1;
    }
  }

  lemma NewRowBounded(row: Row, limits: Limits, expiries: nat)
    requires Legal(Enqueue("", row))
    ensures RowBounded(row, limits, {}, {}, expiries)
  {
  }

  lemma CompletionBounded(rows: Rows, id: string, at: int, limits: Limits, open: set<nat>, retried: set<nat>,
                          expiries: nat)
    requires id in rows && RowBounded(rows[id], limits, open, retried, expiries)
    ensures RowBounded(AfterComplete(rows, id, at)[id], limits, open, retried, expiries)
  {
  }

  lemma StepBounded(rows: Rows, e: Event, id: string, limits: Limits, open: set<nat>, retried: set<nat>,
                    expiries: nat)
    requires Legal(e) && Bounded(rows, id, limits, open, retried, expiries)
    requires ReportsFailure(e, id) ==> e.ticket.attempts in open && limits.least <= e.maxAttempts <= limits.most
    ensures Bounded(Apply(rows, e), id, limits, OpenNext(rows, e, id, open), RetriedNext(e, id, retried),
                    expiries + ExpiriesAt(rows, e, id))
  {
    hide AfterClaim, Next, AfterFail, AfterComplete, RowBounded, RowAfterClaim;
    assert open + {} == open;
    match e
    case Enqueue(_, row) => NewRowBounded(row, limits, expiries);
    case Claim(now, timeout) =>
      ClaimRowByRow(rows, now, timeout);
      if id in rows {
        ClaimBounded(rows[id], now, timeout, Next(rows, now, timeout) == Some(id), limits, open, retried, expiries);
      }
    case Complete(taskId, at) =>
      ReportRowByRow(rows, taskId, Ticket("", "", "", "", 0), "", 0, at);
      if taskId == id && id in rows {
        CompletionBounded(rows, id, at, limits, open, retried, expiries);
      }
    case Fail(ticket, error, maxAttempts, at) =>
      ReportRowByRow(rows, "", ticket, error, maxAttempts, at);
      if ticket.taskId == id && id in rows {
        FailureBounded(rows, id, ticket, error, maxAttempts, at, limits, open, retried, expiries);
        assert open - {ticket.attempts} + {} == open - {ticket.attempts};
      }
  }

  lemma {:induction false} CardinalityUpTo(s: set<nat>, n: nat)
    requires NumbersUpTo(s, n)
    ensures |s| <= n
    decreases n
  {
    if n > 0 {
      CardinalityUpTo(s - {n}, n - 1);
    } else {
      assert s == {};
    }
  }

  /** The tickets for the task that were handed out and not reported as failed since. */
  ghost function OpenAfter(rows: Rows, events: seq<Event>, id: string, open: set<nat>): set<nat>
    decreases events
  {
    if events == [] then open
    else OpenAfter(Apply(rows, events[0]), events[1..], id, OpenNext(rows, events[0], id, open))
  }

  /** The attempts of the task reported as failed in the run whose number allowed a retry. */
  ghost function RetriedIn(events: seq<Event>, id: string): set<nat> {
    set e | e in events && ReportsFailure(e, id) && e.ticket.attempts < e.maxAttempts :: e.ticket.attempts
  }

  lemma RetriedSplit(events: seq<Event>, id: string, retried: set<nat>)
    requires events != []
    ensures RetriedNext(events[0], id, retried) + RetriedIn(events[1..], id) == retried + RetriedIn(events, id)
  {
    assert events == [events[0]] + events[1..];
  }

  /** The bound over a run, the retried numbers being those reported as failed in it. */
  lemma {:induction false} RunBounded(rows: Rows, events: seq<Event>, id: string, limits: Limits, open: set<nat>,
                                      retried: set<nat>, expiries: nat)
    requires AllLegal(events) && ReportsOnce(rows, events, id, limits, open)
    requires Bounded(rows, id, limits, open, retried, expiries)
    ensures Bounded(Run(rows, events), id, limits, OpenAfter(rows, events, id, open),
                    retried + RetriedIn(events, id), expiries + Expiries(rows, events, id))
    decreases events
  {
    hide Bounded, OpenNext, RetriedNext, ExpiriesAt, Apply;
    if events == [] {
      assert retried + RetriedIn(events, id) == retried;
    } else {
      var e := events[0];
      assert e in events;
      StepBounded(rows, e, id, limits, open, retried, expiries);
      RetriedSplit(events, id, retried);
      RunBounded(Apply(rows, e), events[1..], id, limits, OpenNext(rows, e, id, open), RetriedNext(e, id, retried),
                 expiries + ExpiriesAt(rows, e, id));
    }
  }

  function AtLeastOne(n: int): nat {
    if n < 1 then 1 else n
  }

  /** Each attempt number is retried at most once, and only below the limit: retries alone never exceed it. */
  lemma RetriesAreReported(rows: Rows, events: seq<Event>, id: string, limits: Limits)
    requires id !in rows && AllLegal(events) && ReportsOnce(rows, events, id, limits, {})
    requires id in Run(rows, events)
    ensures Retries(rows, events, id) <= |RetriedIn(events, id)| <= AtLeastOne(limits.most) - 1
    ensures NumbersUpTo(RetriedIn(events, id), limits.most - 1)
  {
    RunBounded(rows, events, id, limits, {}, {}, 0);
    assert {} + RetriedIn(events, id) == RetriedIn(events, id);
    AttemptsArePaidFor(rows, events, id);
    CardinalityUpTo(RetriedIn(events, id), AtLeastOne(limits.most) - 1);
  }

  /** Over a whole run a task is attempted at most as often as the largest limit says, or once if that is less, and once
      more for each expiry of its lease; it fails for good only after as many attempts as the smallest limit. */
  lemma AttemptBound(rows: Rows, events: seq<Event>, id: string, limits: Limits)
    requires id !in rows && AllLegal(events) && ReportsOnce(rows, events, id, limits, {})
    requires id in Run(rows, events)
    ensures var row := Run(rows, events)[id];
      && row.attempts <= AtLeastOne(limits.most) + Expiries(rows, events, id)
      && (row.status == Failed ==> limits.least <= row.attempts)
  {
    RunBounded(rows, events, id, limits, {}, {}, 0);
    AttemptsArePaidFor(rows, events, id);
    RetriesAreReported(rows, events, id, limits);
  }

  /** The limit can be exceeded even so: a task whose only permitted attempt outlasts its lease is attempted again. */
  lemma LimitCanBeExceeded() returns (events: seq<Event>, id: string, limits: Limits)
    ensures AllLegal(events) && ReportsOnce(map[], events, id, limits, {})
    ensures id in Run(map[], events) && AtLeastOne(limits.most) < Run(map[], events)[id].attempts
  {
    var row := NewRow("scan", "c", "{}", "k", 0);
    var (first, second) := (Claim(0, 300), Claim(300 * SECOND, 300));
    id, limits := "t", Limits(1, 1);
    events := [Enqueue(id, row)] + [first, second];
    var enqueued: Rows := map[id := row];
    assert Apply(map[], Enqueue(id, row)) == enqueued;
    LoneTaskClaimed(enqueued, id, 0, 300);
    LoneTaskClaimed(Apply(enqueued, first), id, 300 * SECOND, 300);
    NoReportsNoHarm(map[], events, id, limits, {});
    RunThree(map[], Enqueue(id, row), first, second);
  }

  lemma LoneTaskClaimed(rows: Rows, id: string, now: int, timeout: int)
    requires rows.Keys == {id} && Claimable(rows[id], now, timeout)
    ensures Next(rows, now, timeout) == Some(id)
    ensures AfterClaim(rows, now, timeout) == map[id := RowAfterClaim(rows[id], now, timeout, true)]
  {
    assert IsNext(rows, now, timeout, id);
    ClaimRowByRow(rows, now, timeout);
  }

  lemma RunThree(rows: Rows, a: Event, b: Event, c: Event)
    ensures Run(rows, [a, b, c]) == Apply(Apply(Apply(rows, a), b), c)
  {
    assert [a, b, c][1..] == [b, c] && [b, c][1..] == [c];
    RunOne(Apply(Apply(rows, a), b), c);
  }

  lemma {:induction false} NoReportsNoHarm(rows: Rows, events: seq<Event>, id: string, limits: Limits, open: set<nat>)
    requires forall e :: e in events ==> !ReportsFailure(e, id)
    ensures ReportsOnce(rows, events, id, limits, open)
    decreases events
  {
    if events != [] {
      assert events[0] in events;
      NoReportsNoHarm(Apply(rows, events[0]), events[1..], id, limits, OpenNext(rows, events[0], id, open));
    }
  }
}
