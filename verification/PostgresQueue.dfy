/** Many workers on one PostgreSQL queue. A worker's transaction runs statement by statement and row
    by row; the steps of all transactions interleave freely and any of them may abort at any point.

    Assumed of the database: a transaction writes a row only after locking it, a row has one lock,
    `SKIP LOCKED` passes over rows locked by others, a waiting UPDATE checks its WHERE clause again on
    the version committed last, and uncommitted versions are visible to their own transaction only. */
module PostgresQueue {
  import opened Wrappers
  import opened TaskQueue
  import H = QueueHistory

  type TxId = nat

  /** How far a claim has come: in the UPDATE of expired leases, holding the row picked by
      SELECT ... FOR UPDATE SKIP LOCKED, or with the lease written and the commit next. */
  datatype Stage = Reclaiming | Selected(taskId: string) | Leasing(ticket: Ticket)

  /** `writes` are the rows a transaction has locked, with its uncommitted versions. */
  datatype Tx =
    | Claimer(now: int, timeout: int, stage: Stage, writes: Rows)
    | Reporter(report: H.Event, writes: Rows)

  datatype Db = Db(committed: Rows, active: map<TxId, Tx>, tickets: seq<Ticket>)

  datatype Step =
    | Insert(taskId: string, row: Row)              // enqueue of a new key
    | Begin(t: TxId, now: int, timeout: int)        // claim starts
    | ReclaimRow(t: TxId, taskId: string)           // one row of its first UPDATE
    | SelectRow(t: TxId, taskId: string)            // the row its SELECT locks
    | LeaseRow(t: TxId)                             // its second UPDATE
    | Report(t: TxId, report: H.Event)              // the UPDATE of complete or fail
    | Commit(t: TxId)
    | Abort(t: TxId)                                // rollback, deadlock victim, lost connection

  ghost predicate LockedByOther(db: Db, t: TxId, id: string) {
    exists u :: u in db.active && u != t && id in db.active[u].writes
  }

  /** The version of a row that transaction `t` sees. */
  function Visible(db: Db, t: TxId, id: string): Row
    requires t in db.active && id in db.committed
  {
    if id in db.active[t].writes then db.active[t].writes[id] else db.committed[id]
  }

  /** The task a report is about. */
  function Reported(report: H.Event): string
    requires report.Complete? || report.Fail?
  {
    if report.Complete? then report.taskId else report.ticket.taskId
  }

  ghost predicate Enabled(db: Db, s: Step) {
    match s
    case Insert(id, row) =>
      row.status == Pending && row.attempts == 0 && row.claimedAt == None
      && id !in db.committed && !KeyUsed(db.committed, row.dedupeKey)
    case Begin(t, _, timeout) => t !in db.active && timeout > 0
    case ReclaimRow(t, id) =>
      && t in db.active && db.active[t].Claimer? && db.active[t].stage.Reclaiming?
      && id in db.committed && !LockedByOther(db, t, id)
      && Expired(Visible(db, t, id), db.active[t].now, db.active[t].timeout)
    case SelectRow(t, id) =>
      && t in db.active && db.active[t].Claimer? && db.active[t].stage.Reclaiming?
      && id in db.committed && !LockedByOther(db, t, id)
      && Available(Visible(db, t, id), db.active[t].now)
    case LeaseRow(t) =>
      && t in db.active && db.active[t].Claimer? && db.active[t].stage.Selected?
      && db.active[t].stage.taskId in db.active[t].writes
    case Report(t, report) =>
      && t !in db.active && (report.Complete? || report.Fail?)
      && Reported(report) in db.committed && !LockedByOther(db, t, Reported(report))
      && db.committed[Reported(report)].status == Running
    case Commit(t) => t in db.active && (db.active[t].Claimer? ==> !db.active[t].stage.Selected?)
    case Abort(t) => t in db.active
  }

  ghost function Take(db: Db, s: Step): Db
    requires Enabled(db, s)
  {
    match s
    case Insert(id, row) => db.(committed := db.committed[id := row])
    case Begin(t, now, timeout) => db.(active := db.active[t := Claimer(now, timeout, Reclaiming, map[])])
    case ReclaimRow(t, id) =>
      var Claimer(now, timeout, stage, writes) := db.active[t];
      db.(active := db.active[t := Claimer(now, timeout, stage, writes[id := Reclaimed(Visible(db, t, id), now)])])
    case SelectRow(t, id) =>
      var Claimer(now, timeout, _, writes) := db.active[t];
      db.(active := db.active[t := Claimer(now, timeout, Selected(id), writes[id := Visible(db, t, id)])])
    case LeaseRow(t) =>
      var Claimer(now, timeout, stage, writes) := db.active[t];
      var id := stage.taskId;
      db.(active := db.active[t := Claimer(now, timeout, Leasing(TicketFor(writes, id)),
                                           writes[id := Leased(writes[id], now)])])
    case Report(t, report) =>
      var id := Reported(report);
      db.(active := db.active[t := Reporter(report, map[id := H.Apply(db.committed, report)[id]])])
    case Commit(t) =>
      var tx := db.active[t];
      Db(db.committed + tx.writes, db.active - {t},
         if tx.Claimer? && tx.stage.Leasing? then db.tickets + [tx.stage.ticket] else db.tickets)
    case Abort(t) => db.(active := db.active - {t})
  }

  // ---------- The invariant of every reachable state ----------

  /** What an open claim may have written over the committed version of a row. */
  ghost predicate ClaimWrite(before: Row, after: Row, tx: Tx, id: string)
    requires tx.Claimer?
  {
    var base := if Expired(before, tx.now, tx.timeout) then Reclaimed(before, tx.now) else before;
    match tx.stage
    case Reclaiming => Expired(before, tx.now, tx.timeout) && after == base
    case Selected(chosen) =>
      if id == chosen then Available(base, tx.now) && after == base
      else Expired(before, tx.now, tx.timeout) && after == base
    case Leasing(ticket) =>
      if id == ticket.taskId then Available(base, tx.now) && after == Leased(base, tx.now)
      else Expired(before, tx.now, tx.timeout) && after == base
  }

  ghost predicate TxInv(committed: Rows, tx: Tx) {
    && tx.writes.Keys <= committed.Keys
    && match tx
       case Claimer(_, timeout, stage, writes) =>
         && timeout > 0
         && (forall id :: id in writes ==> ClaimWrite(committed[id], writes[id], tx, id))
         && (stage.Selected? ==> stage.taskId in writes)
         && (stage.Leasing? ==>
               stage.ticket.taskId in writes && stage.ticket == TicketFor(committed, stage.ticket.taskId))
       case Reporter(report, writes) =>
         && (report.Complete? || report.Fail?)
         && Reported(report) in committed && committed[Reported(report)].status == Running
         && writes == map[Reported(report) := H.Apply(committed, report)[Reported(report)]]
  }

  /** No two transactions hold the same row. */
  ghost predicate Exclusive(active: map<TxId, Tx>) {
    forall t, u :: t in active && u in active && t != u ==> active[t].writes.Keys !! active[u].writes.Keys
  }

  /** Every attempt of every task has exactly one ticket, which carries the task's kind, customer and payload. */
  ghost predicate OneTicketPerAttempt(committed: Rows, tickets: seq<Ticket>) {
    && (forall i :: 0 <= i < |tickets| ==>
          && tickets[i].taskId in committed && Describes(tickets[i], committed[tickets[i].taskId])
          && 1 <= tickets[i].attempts <= committed[tickets[i].taskId].attempts)
    && (forall i, j :: 0 <= i < j < |tickets| ==>
          tickets[i].taskId != tickets[j].taskId || tickets[i].attempts != tickets[j].attempts)
    && (forall id, k :: id in committed && 1 <= k <= committed[id].attempts ==> HasTicket(tickets, id, k))
  }

  ghost predicate HasTicket(tickets: seq<Ticket>, id: string, k: int) {
    exists i :: 0 <= i < |tickets| && tickets[i].taskId == id && tickets[i].attempts == k
  }

  ghost predicate Inv(db: Db) {
    && Valid(db.committed)
    && Exclusive(db.active)
    && (forall t :: t in db.active ==> TxInv(db.committed, db.active[t]))
    && OneTicketPerAttempt(db.committed, db.tickets)
  }

  // ---------- Every step is one atomic change of the committed table, or none ----------

  /** A claim in one step: some expired leases return to the queue and at most one claimable task,
      taken back first if its lease had expired, is leased. */
  ghost predicate AtomicClaim(before: Rows, after: Rows, now: int, timeout: int, reclaimed: set<string>,
                              ticket: Option<Ticket>) {
    && reclaimed <= before.Keys && after.Keys == before.Keys && timeout > 0
    && (forall id :: id in reclaimed ==> Expired(before[id], now, timeout))
    && (ticket.Some? ==>
          && ticket.value.taskId in before && ticket.value == TicketFor(before, ticket.value.taskId)
          && (ticket.value.taskId in reclaimed || Available(before[ticket.value.taskId], now)))
    && (forall id :: id in before ==>
          var row := if id in reclaimed then Reclaimed(before[id], now) else before[id];
          after[id] == if ticket.Some? && id == ticket.value.taskId then Leased(row, now) else row)
  }

  /** The tickets a step hands out. */
  ghost function Handed(db: Db, s: Step): Option<Ticket>
    requires Enabled(db, s)
  {
    if s.Commit? && db.active[s.t].Claimer? && db.active[s.t].stage.Leasing?
    then Some(db.active[s.t].stage.ticket)
    else None
  }

  ghost predicate Atomic(db: Db, s: Step, after: Db)
    requires Enabled(db, s)
  {
    match s
    case Insert(id, row) => after.committed == AfterEnqueue(db.committed, id, row)
    case Commit(t) =>
      (match db.active[t]
       case Claimer(now, timeout, _, writes) =>
         exists reclaimed :: AtomicClaim(db.committed, after.committed, now, timeout, reclaimed, Handed(db, s))
       case Reporter(report, _) => after.committed == H.Apply(db.committed, report))
    case _ => after.committed == db.committed
  }

  lemma CommitIsAtomic(db: Db, t: TxId)
    requires Inv(db) && Enabled(db, Commit(t))
    ensures Atomic(db, Commit(t), Take(db, Commit(t)))
  {
    hide OneTicketPerAttempt, Exclusive, Valid;
    var tx := db.active[t];
    assert TxInv(db.committed, tx);
    if tx.Claimer? {
      var reclaimed := set id | id in tx.writes && Expired(db.committed[id], tx.now, tx.timeout);
      assert AtomicClaim(db.committed, Take(db, Commit(t)).committed, tx.now, tx.timeout, reclaimed,
                         Handed(db, Commit(t)));
    }
  }

  /** Statement-by-statement interleaving looks, in the committed table, like one atomic operation after
      another: claims, reports and inserts, each at the commit of its transaction. */
  lemma StepsAreAtomic(db: Db, s: Step)
    requires Inv(db) && Enabled(db, s)
    ensures Atomic(db, s, Take(db, s))
  {
    if s.Commit? {
      CommitIsAtomic(db, s.t);
    }
  }

  // ---------- The invariant is kept ----------

  lemma CommitKeepsTxInv(db: Db, t: TxId)
    requires Inv(db) && Enabled(db, Commit(t))
    ensures forall u :: u in db.active && u != t ==> TxInv(db.committed + db.active[t].writes, db.active[u])
  {
    hide OneTicketPerAttempt, Valid;
    forall u | u in db.active && u != t ensures TxInv(db.committed + db.active[t].writes, db.active[u]) {
      assert TxInv(db.committed, db.active[u]);
      assert TxInv(db.committed, db.active[t]);
      assert db.active[t].writes.Keys !! db.active[u].writes.Keys;
      assert forall id :: id in db.active[u].writes ==> id !in db.active[t].writes;
    }
  }

  predicate SameTask(before: Row, after: Row) {
    after.kind == before.kind && after.customer == before.customer && after.payload == before.payload
  }

  /** The new ticket carries the number of the new attempt. */
  lemma TicketsGrow(before: Rows, after: Rows, tickets: seq<Ticket>, ticket: Option<Ticket>)
    requires OneTicketPerAttempt(before, tickets) && after.Keys == before.Keys
    requires ticket.Some? ==> ticket.value.taskId in before
    requires ticket.Some? ==> ticket.value.attempts == before[ticket.value.taskId].attempts + 1
    requires ticket.Some? ==> Describes(ticket.value, before[ticket.value.taskId])
    requires forall id :: id in before ==> SameTask(before[id], after[id])
    requires forall id :: id in before ==>
      after[id].attempts == before[id].attempts + if ticket.Some? && ticket.value.taskId == id then 1 else 0
    ensures OneTicketPerAttempt(after, tickets + if ticket.Some? then [ticket.value] else [])
  {
    var more := tickets + if ticket.Some? then [ticket.value] else [];
    forall id, k | id in after && 1 <= k <= after[id].attempts
      ensures HasTicket(more, id, k)
    {
      if k <= before[id].attempts {
        assert HasTicket(tickets, id, k);
        var i :| 0 <= i < |tickets| && tickets[i].taskId == id && tickets[i].attempts == k;
        assert more[i] == tickets[i];
      } else {
        assert more[|tickets|].taskId == id;
      }
    }
  }

  lemma CommitKeepsTickets(db: Db, t: TxId)
    requires Inv(db) && Enabled(db, Commit(t))
    ensures OneTicketPerAttempt(Take(db, Commit(t)).committed, Take(db, Commit(t)).tickets)
  {
    hide OneTicketPerAttempt, Exclusive, Valid;
    var after := Take(db, Commit(t));
    assert TxInv(db.committed, db.active[t]);
    TicketsGrow(db.committed, after.committed, db.tickets, Handed(db, Commit(t)));
    assert db.tickets + [] == db.tickets;
  }

  lemma CommitKeepsValid(db: Db, t: TxId)
    requires Inv(db) && Enabled(db, Commit(t))
    ensures Valid(Take(db, Commit(t)).committed)
  {
    hide OneTicketPerAttempt, Exclusive;
    var after := Take(db, Commit(t)).committed;
    assert TxInv(db.committed, db.active[t]);
    forall id | id in after
      ensures after[id].dedupeKey == db.committed[id].dedupeKey
      ensures after[id].status == Running ==> after[id].claimedAt.Some?
    {
      if id in db.active[t].writes && db.active[t].Claimer? {
        assert ClaimWrite(db.committed[id], after[id], db.active[t], id);
      }
    }
    hide Valid, TxInv, ClaimWrite;
    UpdatesKeepValid(db.committed, after);
  }

  lemma UnlockedIsDisjoint(db: Db, t: TxId, u: TxId, writes: Rows)
    requires forall id :: id in writes ==> !LockedByOther(db, t, id)
    requires u in db.active && u != t
    ensures writes.Keys !! db.active[u].writes.Keys
  {
    forall id | id in writes
      ensures id !in db.active[u].writes
    {
      assert !LockedByOther(db, t, id);
    }
  }

  /** A step that only rewrites one transaction's own rows. */
  lemma LocalStepKeepsInv(db: Db, t: TxId, tx: Tx)
    requires Inv(db) && TxInv(db.committed, tx)
    requires forall id :: id in tx.writes ==> !LockedByOther(db, t, id)
    ensures Inv(db.(active := db.active[t := tx]))
  {
    hide TxInv, OneTicketPerAttempt, LockedByOther;
    var active := db.active[t := tx];
    forall u, w | u in active && w in active && u != w
      ensures active[u].writes.Keys !! active[w].writes.Keys
    {
      if u == t {
        UnlockedIsDisjoint(db, t, w, tx.writes);
      } else if w == t {
        UnlockedIsDisjoint(db, t, u, tx.writes);
      }
    }
  }

  lemma OwnRowsUnlocked(db: Db, t: TxId)
    requires Inv(db) && t in db.active
    ensures forall id :: id in db.active[t].writes ==> !LockedByOther(db, t, id)
  {
    assert forall u :: u in db.active && u != t ==> db.active[t].writes.Keys !! db.active[u].writes.Keys;
  }

  lemma ClaimStepKeepsInv(db: Db, s: Step)
    requires Inv(db) && Enabled(db, s) && (s.ReclaimRow? || s.SelectRow? || s.LeaseRow?)
    ensures Inv(Take(db, s))
  {
    hide OneTicketPerAttempt, Valid;
    var tx := Take(db, s).active[s.t];
    OwnRowsUnlocked(db, s.t);
    forall id | id in tx.writes ensures ClaimWrite(db.committed[id], tx.writes[id], tx, id) {
      if id in db.active[s.t].writes {
        assert ClaimWrite(db.committed[id], db.active[s.t].writes[id], db.active[s.t], id);
      }
    }
    assert TxInv(db.committed, tx);
    LocalStepKeepsInv(db, s.t, tx);
  }

  lemma InsertKeepsTickets(db: Db, id: string, row: Row)
    requires OneTicketPerAttempt(db.committed, db.tickets) && Enabled(db, Insert(id, row))
    ensures OneTicketPerAttempt(db.committed[id := row], db.tickets)
  {
  }

  lemma InsertKeepsTx(committed: Rows, id: string, row: Row, tx: Tx)
    requires TxInv(committed, tx) && id !in committed
    ensures TxInv(committed[id := row], tx)
  {
    assert forall k :: k in tx.writes ==> committed[id := row][k] == committed[k];
  }

  lemma InsertKeepsInv(db: Db, id: string, row: Row)
    requires Inv(db) && Enabled(db, Insert(id, row))
    ensures Inv(Take(db, Insert(id, row)))
  {
    hide OneTicketPerAttempt, TxInv, Exclusive;
    InsertKeepsTickets(db, id, row);
    forall t | t in db.active
      ensures TxInv(db.committed[id := row], db.active[t])
    {
      InsertKeepsTx(db.committed, id, row, db.active[t]);
    }
    assert forall k :: k in db.committed ==> db.committed[k].dedupeKey != row.dedupeKey;
  }

  lemma StepKeepsInv(db: Db, s: Step)
    requires Inv(db) && Enabled(db, s)
    ensures Inv(Take(db, s))
  {
    match s
    case Insert(id, row) => InsertKeepsInv(db, id, row);
    case Begin(t, now, timeout) => LocalStepKeepsInv(db, t, Claimer(now, timeout, Reclaiming, map[]));
    case Report(t, report) =>
      LocalStepKeepsInv(db, t, Take(db, s).active[t]);
    case Commit(t) =>
      CommitKeepsTxInv(db, t);
      CommitKeepsTickets(db, t);
      CommitKeepsValid(db, t);
    case Abort(t) =>
    case _ => ClaimStepKeepsInv(db, s);
  }

  // ---------- Runs ----------

  /** The steps can be taken one after another. */
  ghost predicate Fires(db: Db, steps: seq<Step>)
    decreases steps
  {
    steps == [] || (Enabled(db, steps[0]) && Fires(Take(db, steps[0]), steps[1..]))
  }

  ghost function After(db: Db, steps: seq<Step>): Db
    requires Fires(db, steps)
    decreases steps
  {
    if steps == [] then db else After(Take(db, steps[0]), steps[1..])
  }

  const EMPTY: Db := Db(map[], map[], [])

  lemma {:induction false} RunKeepsInv(db: Db, steps: seq<Step>)
    requires Inv(db) && Fires(db, steps)
    ensures Inv(After(db, steps))
    decreases steps
  {
    if steps != [] {
      StepKeepsInv(db, steps[0]);
      RunKeepsInv(Take(db, steps[0]), steps[1..]);
    }
  }

  /** In every interleaving no row is held by two transactions, and the tickets handed out for a task are
      exactly its attempts 1 to `attempts`, each handed to one worker. */
  lemma NoDuplicateOwnership(steps: seq<Step>)
    requires Fires(EMPTY, steps)
    ensures var db := After(EMPTY, steps); Exclusive(db.active) && OneTicketPerAttempt(db.committed, db.tickets)
  {
    RunKeepsInv(EMPTY, steps);
  }

  /** Nobody reports on the task and every claim uses the lease or a longer one. */
  ghost predicate QuietState(db: Db, id: string, bound: int, timeout: int) {
    && id in db.committed && H.NotBefore(db.committed[id], bound, timeout)
    && forall t :: t in db.active ==>
         if db.active[t].Claimer? then timeout <= db.active[t].timeout else id !in db.active[t].writes
  }

  ghost predicate QuietSteps(steps: seq<Step>, id: string, timeout: int) {
    forall s :: s in steps ==>
      && (s.Begin? ==> timeout <= s.timeout)
      && (s.Report? && (s.report.Complete? || s.report.Fail?) ==> Reported(s.report) != id)
  }

  lemma ClaimWriteNotBefore(before: Row, after: Row, tx: Tx, id: string, bound: int, timeout: int)
    requires tx.Claimer? && 0 < timeout <= tx.timeout && ClaimWrite(before, after, tx, id)
    requires H.NotBefore(before, bound, timeout)
    ensures H.NotBefore(after, bound, timeout)
    ensures tx.stage.Leasing? && tx.stage.ticket.taskId == id ==>
      bound <= tx.now && after.status == Running && after.claimedAt == Some(tx.now)
  {
  }

  lemma QuietCommit(db: Db, t: TxId, id: string, bound: int, timeout: int)
    requires Inv(db) && Enabled(db, Commit(t)) && QuietState(db, id, bound, timeout) && timeout > 0
    ensures QuietState(Take(db, Commit(t)), id, bound, timeout)
  {
    var tx := db.active[t];
    var after := Take(db, Commit(t));
    assert forall u :: u in after.active ==> u in db.active && after.active[u] == db.active[u];
    if id in tx.writes {
      assert TxInv(db.committed, tx);
      ClaimWriteNotBefore(db.committed[id], tx.writes[id], tx, id, bound, timeout);
    }
  }

  lemma QuietStep(db: Db, s: Step, id: string, bound: int, timeout: int)
    requires Inv(db) && Enabled(db, s) && QuietState(db, id, bound, timeout) && timeout > 0
      && QuietSteps([s], id, timeout)
    ensures QuietState(Take(db, s), id, bound, timeout)
  {
    assert s in [s];
    if s.Commit? {
      QuietCommit(db, s.t, id, bound, timeout);
    } else {
      assert Take(db, s).committed[id] == db.committed[id];
    }
  }

  lemma {:induction false} QuietRun(db: Db, steps: seq<Step>, id: string, bound: int, timeout: int)
    requires Inv(db) && Fires(db, steps) && QuietState(db, id, bound, timeout)
    requires timeout > 0 && QuietSteps(steps, id, timeout)
    ensures QuietState(After(db, steps), id, bound, timeout)
    decreases steps
  {
    if steps != [] {
      assert steps[0] in steps;
      QuietStep(db, steps[0], id, bound, timeout);
      StepKeepsInv(db, steps[0]);
      QuietRun(Take(db, steps[0]), steps[1..], id, bound, timeout);
    }
  }

  /** Right after a lease is committed the task is out of reach until the lease ends. */
  lemma LeaseStartsQuiet(db: Db, t: TxId, timeout: int)
    requires Inv(db) && Enabled(db, Commit(t)) && db.active[t].Claimer? && db.active[t].stage.Leasing? && timeout > 0
    requires forall u :: u in db.active && u != t && db.active[u].Claimer? ==> timeout <= db.active[u].timeout
    ensures QuietState(Take(db, Commit(t)), db.active[t].stage.ticket.taskId, db.active[t].now + timeout * SECOND,
                       timeout)
  {
    var tx := db.active[t];
    var id := tx.stage.ticket.taskId;
    var after := Take(db, Commit(t));
    assert TxInv(db.committed, tx);
    assert ClaimWrite(db.committed[id], tx.writes[id], tx, id);
    assert after.committed[id] == tx.writes[id];
    forall u | u in after.active
      ensures if after.active[u].Claimer? then timeout <= after.active[u].timeout else id !in after.active[u].writes
    {
      assert tx.writes.Keys !! db.active[u].writes.Keys;
      assert id in tx.writes.Keys;
    }
  }

  /** Transaction `t` is about to commit a lease of the task. */
  ghost predicate AboutToLease(db: Db, t: TxId, id: string) {
    && t in db.active && db.active[t].Claimer? && db.active[t].stage.Leasing?
    && db.active[t].stage.ticket.taskId == id
  }

  /** Lease exclusion between concurrent workers: after the commit that hands out a ticket, and as long as
      nobody reports on the task, whoever commits the next lease of it read a clock at or after the end of
      the first lease, even if both claims were under way at the same time. */
  lemma ConcurrentLeaseExclusion(db: Db, first: TxId, steps: seq<Step>, second: TxId, id: string, timeout: int)
    requires Inv(db) && AboutToLease(db, first, id) && timeout > 0
    requires forall t :: t in db.active && t != first && db.active[t].Claimer? ==> timeout <= db.active[t].timeout
    requires Fires(Take(db, Commit(first)), steps) && QuietSteps(steps, id, timeout)
    requires AboutToLease(After(Take(db, Commit(first)), steps), second, id)
    ensures db.active[first].now + timeout * SECOND <= After(Take(db, Commit(first)), steps).active[second].now
  {
    var bound := db.active[first].now + timeout * SECOND;
    var claimed := Take(db, Commit(first));
    StepKeepsInv(db, Commit(first));
    LeaseStartsQuiet(db, first, timeout);
    QuietRun(claimed, steps, id, bound, timeout);
    RunKeepsInv(claimed, steps);
    var last := After(claimed, steps);
    var tx := last.active[second];
    assert TxInv(last.committed, tx);
    ClaimWriteNotBefore(last.committed[id], tx.writes[id], tx, id, bound, timeout);
  }
}
