/** Any number of workers on one queue, each with settings of its own, their claims and reports interleaving with each
    other and with enqueues. A worker may join at any time and may stop at any time, with or without a task in its
    hands. */
module WorkerFleet {
  import opened Wrappers
  import opened Counting
  import opened TaskQueue
  import opened Leases
  import H = QueueHistory
  import W = TaskWorker

  type WorkerId = nat

  /** `Stopped` has crashed, was cancelled, or left its loop by an error. */
  datatype State = Idle | Holding(ticket: Ticket) | Stopped

  datatype Worker = Worker(settings: W.Settings, state: State)

  datatype Fleet = Fleet(rows: Rows, workers: map<WorkerId, Worker>)

  datatype Step =
    | Enqueue(taskId: string, row: Row)
    | Join(w: WorkerId, settings: W.Settings)
    | Poll(w: WorkerId, now: int)                        // an idle worker claims
    | Report(w: WorkerId, at: int, outcome: W.Outcome)   // a worker's scan ends
    | Stop(w: WorkerId)

  const EMPTY: Fleet := Fleet(map[], map[])

  ghost predicate Enabled(f: Fleet, step: Step) {
    match step
    case Enqueue(id, row) => H.Legal(H.Enqueue(id, row))
    case Join(w, _) => w !in f.workers
    case Poll(w, _) => w in f.workers && f.workers[w].state == Idle
    case Report(w, _, outcome) => w in f.workers && f.workers[w].state.Holding? && !outcome.Lost?
    case Stop(w) => w in f.workers
  }

  /** The report a worker makes for its ticket. */
  function ReportOf(worker: Worker, at: int, outcome: W.Outcome): H.Event
    requires worker.state.Holding?
  {
    var ticket := worker.state.ticket;
    match W.ErrorOf(ticket, outcome)
    case Some(error) => H.Fail(ticket, error, worker.settings.maxAttempts, at)
    case None => H.Complete(ticket.taskId, at)
  }

  /** What a step does at the queue. */
  ghost function EventsOf(f: Fleet, step: Step): seq<H.Event>
    requires Enabled(f, step)
  {
    match step
    case Enqueue(id, row) => [H.Enqueue(id, row)]
    case Poll(w, now) =>
      if f.workers[w].settings.timeout > 0 then [H.Claim(now, f.workers[w].settings.timeout)] else []
    case Report(w, at, outcome) => [ReportOf(f.workers[w], at, outcome)]
    case _ => []
  }

  /** The worker after its step: a claim with a rejected timeout, and the completion of a task that is no longer
      running, raise and end its loop. */
  ghost function StateAfter(f: Fleet, step: Step): State
    requires Enabled(f, step) && !step.Enqueue?
  {
    match step
    case Join(_, _) => Idle
    case Poll(w, now) =>
      var timeout := f.workers[w].settings.timeout;
      if timeout <= 0 then Stopped
      else (match Next(f.rows, now, timeout) case Some(id) => Holding(TicketFor(f.rows, id)) case None => Idle)
    case Report(w, _, outcome) =>
      var ticket := f.workers[w].state.ticket;
      if W.ErrorOf(ticket, outcome).None? && !W.IsRunning(f.rows, ticket.taskId) then Stopped else Idle
    case Stop(_) => Stopped
  }

  ghost function WorkersAfter(f: Fleet, step: Step): map<WorkerId, Worker>
    requires Enabled(f, step)
  {
    if step.Enqueue? then f.workers
    else
      var settings := if step.Join? then step.settings else f.workers[step.w].settings;
      f.workers[step.w := Worker(settings, StateAfter(f, step))]
  }

  ghost function Take(f: Fleet, step: Step): Fleet
    requires Enabled(f, step)
  {
    Fleet(H.Run(f.rows, EventsOf(f, step)), WorkersAfter(f, step))
  }

  ghost predicate Fires(f: Fleet, steps: seq<Step>)
    decreases steps
  {
    steps == [] || (Enabled(f, steps[0]) && Fires(Take(f, steps[0]), steps[1..]))
  }

  ghost function After(f: Fleet, steps: seq<Step>): Fleet
    requires Fires(f, steps)
    decreases steps
  {
    if steps == [] then f else After(Take(f, steps[0]), steps[1..])
  }

  /** The events of a run at the queue. */
  ghost function Trace(f: Fleet, steps: seq<Step>): seq<H.Event>
    requires Fires(f, steps)
    decreases steps
  {
    if steps == [] then [] else EventsOf(f, steps[0]) + Trace(Take(f, steps[0]), steps[1..])
  }

  /** To the queue a run of the fleet is the series of its events, so everything proved about series of events holds. */
  lemma {:induction false} TraceRuns(f: Fleet, steps: seq<Step>)
    requires Fires(f, steps)
    ensures After(f, steps).rows == H.Run(f.rows, Trace(f, steps))
    ensures H.AllLegal(Trace(f, steps))
    decreases steps
  {
    if steps != [] {
      TraceRuns(Take(f, steps[0]), steps[1..]);
      H.RunConcat(f.rows, EventsOf(f, steps[0]), Trace(Take(f, steps[0]), steps[1..]));
    }
  }

  /** A run goes on where another one has ended. */
  lemma {:induction false} RunsConcat(f: Fleet, first: seq<Step>, rest: seq<Step>)
    requires Fires(f, first) && Fires(After(f, first), rest)
    ensures Fires(f, first + rest) && After(f, first + rest) == After(After(f, first), rest)
    ensures Trace(f, first + rest) == Trace(f, first) + Trace(After(f, first), rest)
    decreases first
  {
    hide Enabled, Take, EventsOf;
    if first == [] {
      assert first + rest == rest;
    } else {
      assert (first + rest)[0] == first[0] && (first + rest)[1..] == first[1..] + rest;
      RunsConcat(Take(f, first[0]), first[1..], rest);
    }
  }

  // ---------- What a report finds ----------

  /** No step of the run is one of this worker. */
  ghost predicate OthersOnly(steps: seq<Step>, w: WorkerId) {
    forall step :: step in steps ==> step.Enqueue? || step.w != w
  }

  lemma {:induction false} StillWaiting(f: Fleet, steps: seq<Step>, w: WorkerId)
    requires Fires(f, steps) && OthersOnly(steps, w) && w in f.workers
    ensures w in After(f, steps).workers && After(f, steps).workers[w] == f.workers[w]
    decreases steps
  {
    if steps != [] {
      assert steps[0] in steps;
      StillWaiting(Take(f, steps[0]), steps[1..], w);
    }
  }

  /** Worker `w` claims `id` at `now`, and then others take any steps. */
  ghost predicate ClaimsAndWaits(f: Fleet, w: WorkerId, now: int, id: string, others: seq<Step>) {
    && Enabled(f, Poll(w, now)) && f.workers[w].settings.timeout > 0
    && Next(f.rows, now, f.workers[w].settings.timeout) == Some(id)
    && Fires(Take(f, Poll(w, now)), others) && OthersOnly(others, w)
  }

  /** Whatever any number of others did, the worker comes to report with its ticket in hand. It finds its own attempt
      running exactly if nobody reported on the task and every claim came before the end of its lease, and it finds the
      task running exactly if that is so or the lease of a later hand-out stands in the same way. */
  lemma ReportFinds(f: Fleet, w: WorkerId, now: int, id: string, others: seq<Step>)
    requires ClaimsAndWaits(f, w, now, id, others)
    ensures var claimed := Take(f, Poll(w, now));
      var (g, events) := (After(claimed, others), Trace(claimed, others));
      && w in g.workers && g.workers[w] == Worker(f.workers[w].settings, Holding(TicketFor(f.rows, id))) && id in g.rows
      && (AllKeepLease(events, id, now) <==>
            g.rows[id].status == Running && g.rows[id].attempts == TicketFor(f.rows, id).attempts)
      && (g.rows[id].status == Running <==>
            AllKeepLease(events, id, now) || LaterLease(claimed.rows, events, id))
      && TicketFor(f.rows, id).attempts <= g.rows[id].attempts
  {
    var claimed := Take(f, Poll(w, now));
    var timeout := f.workers[w].settings.timeout;
    var events := Trace(claimed, others);
    ClaimRowByRow(f.rows, now, timeout);
    H.RunOne(f.rows, H.Claim(now, timeout));
    TraceRuns(claimed, others);
    StillWaiting(claimed, others, w);
    OwnLeaseIff(claimed.rows, events, id, now);
    RunningIff(claimed.rows, events, id, now);
    H.AttemptsAreHandOuts(claimed.rows, events, id);
  }

  /** When a completion raises and stops the worker for good. */
  lemma CompletionRaisesIff(f: Fleet, w: WorkerId, now: int, id: string, others: seq<Step>, at: int,
                            outcome: W.Outcome)
    requires ClaimsAndWaits(f, w, now, id, others)
    requires outcome.Succeeds? && f.rows[id].kind == "scan"
    ensures var claimed := Take(f, Poll(w, now));
      var (g, events) := (After(claimed, others), Trace(claimed, others));
      && Enabled(g, Report(w, at, outcome))
      && (Take(g, Report(w, at, outcome)).workers[w].state == Stopped <==>
            !AllKeepLease(events, id, now) && !LaterLease(claimed.rows, events, id))
  {
    ReportFinds(f, w, now, id, others);
  }

  /** What a reported failure does, to the worker's own attempt or to that of a successor. */
  lemma FailureHitsIff(f: Fleet, w: WorkerId, now: int, id: string, others: seq<Step>, at: int, outcome: W.Outcome)
    requires ClaimsAndWaits(f, w, now, id, others)
    requires outcome.Raises? || (outcome.Succeeds? && f.rows[id].kind != "scan")
    ensures var claimed := Take(f, Poll(w, now));
      var (g, events) := (After(claimed, others), Trace(claimed, others));
      && Enabled(g, Report(w, at, outcome))
      && var u := Take(g, Report(w, at, outcome));
      if AllKeepLease(events, id, now) || LaterLease(claimed.rows, events, id)
      then id in u.rows && u.rows[id].status ==
             if TicketFor(f.rows, id).attempts < f.workers[w].settings.maxAttempts then Pending else Failed
      else u.rows == g.rows
  {
    ReportFinds(f, w, now, id, others);
    var g := After(Take(f, Poll(w, now)), others);
    H.RunOne(g.rows, ReportOf(g.workers[w], at, outcome));
    hide AllKeepLease, LaterLease, Backoff;
  }

  /** While everything others do keeps the lease, the outcome of the scan decides what becomes of the task. */
  lemma OutcomeDecides(f: Fleet, w: WorkerId, now: int, id: string, others: seq<Step>, at: int, outcome: W.Outcome)
    requires ClaimsAndWaits(f, w, now, id, others) && !outcome.Lost?
    requires AllKeepLease(Trace(Take(f, Poll(w, now)), others), id, now)
    ensures var g := After(Take(f, Poll(w, now)), others);
      && Enabled(g, Report(w, at, outcome)) && id in g.rows && id in Take(g, Report(w, at, outcome)).rows
      && var row := Take(g, Report(w, at, outcome)).rows[id];
      if outcome.Succeeds? && f.rows[id].kind == "scan"
      then row == g.rows[id].(status := Completed, completedAt := Some(at))
      else row.lastError.Some?
           && row.status == (if f.rows[id].attempts + 1 < f.workers[w].settings.maxAttempts then Pending else Failed)
           && (outcome.Raises? && f.rows[id].kind == "scan" ==> row.lastError.value <= outcome.error)
  {
    ReportFinds(f, w, now, id, others);
    var g := After(Take(f, Poll(w, now)), others);
    H.RunOne(g.rows, ReportOf(g.workers[w], at, outcome));
    hide AllKeepLease, Backoff;
  }

  // ---------- Every ticket is reported at most once ----------

  /** Tickets in hand are of attempts that were made, and no two workers hold the same one. */
  ghost predicate Inv(f: Fleet) {
    && (forall w :: w in f.workers && f.workers[w].state.Holding? ==> Made(f.rows, f.workers[w].state.ticket))
    && (forall v, w :: v in f.workers && w in f.workers && v != w ==> Apart(f.workers[v].state, f.workers[w].state))
  }

  predicate Made(rows: Rows, ticket: Ticket) {
    ticket.taskId in rows && 1 <= ticket.attempts <= rows[ticket.taskId].attempts
  }

  predicate Apart(a: State, b: State) {
    a.Holding? && b.Holding? ==> a.ticket.taskId != b.ticket.taskId || a.ticket.attempts != b.ticket.attempts
  }

  lemma MadeStays(rows: Rows, events: seq<H.Event>, ticket: Ticket)
    requires Made(rows, ticket)
    ensures Made(H.Run(rows, events), ticket)
  {
    H.TasksPersist(rows, events, ticket.taskId);
  }

  /** A freshly issued ticket carries a number nobody holds. */
  lemma FreshTicket(f: Fleet, step: Step)
    requires Inv(f) && Enabled(f, step) && step.Poll? && StateAfter(f, step).Holding?
    ensures Made(Take(f, step).rows, StateAfter(f, step).ticket)
    ensures forall v :: v in f.workers ==> Apart(f.workers[v].state, StateAfter(f, step))
  {
    var timeout := f.workers[step.w].settings.timeout;
    ClaimRowByRow(f.rows, step.now, timeout);
    H.RunOne(f.rows, H.Claim(step.now, timeout));
  }

  lemma StepKeepsInv(f: Fleet, step: Step)
    requires Inv(f) && Enabled(f, step)
    ensures Inv(Take(f, step))
  {
    var next := Take(f, step);
    if step.Poll? && StateAfter(f, step).Holding? {
      FreshTicket(f, step);
    }
    forall w | w in f.workers && f.workers[w].state.Holding?
      ensures Made(next.rows, f.workers[w].state.ticket)
    {
      MadeStays(f.rows, EventsOf(f, step), f.workers[w].state.ticket);
    }
  }

  /** The limits of all workers lie within these bounds. */
  ghost predicate Within(f: Fleet, limits: H.Limits) {
    forall w :: w in f.workers ==> limits.least <= f.workers[w].settings.maxAttempts <= limits.most
  }

  ghost predicate JoinWithin(steps: seq<Step>, limits: H.Limits) {
    forall step :: step in steps && step.Join? ==> limits.least <= step.settings.maxAttempts <= limits.most
  }

  /** The attempt numbers of the task that workers hold. */
  ghost function Held(f: Fleet, id: string): set<nat> {
    set w | w in f.workers && f.workers[w].state.Holding? && f.workers[w].state.ticket.taskId == id ::
      f.workers[w].state.ticket.attempts
  }

  lemma ReportClosesTicket(f: Fleet, step: Step, id: string)
    requires Inv(f) && Enabled(f, step) && step.Report? && f.workers[step.w].state.ticket.taskId == id
    ensures f.workers[step.w].state.ticket.attempts in Held(f, id)
    ensures Held(Take(f, step), id) <= Held(f, id) - {f.workers[step.w].state.ticket.attempts}
  {
    var w := step.w;
    forall v | v in f.workers && v != w
      ensures Apart(f.workers[v].state, f.workers[w].state)
    {
    }
  }

  lemma PollOpensTicket(f: Fleet, step: Step, id: string)
    requires Enabled(f, step) && step.Poll? && f.workers[step.w].settings.timeout > 0
    ensures Held(Take(f, step), id)
            <= Held(f, id) + H.Issued(f.rows, H.Claim(step.now, f.workers[step.w].settings.timeout), id)
  {
    ClaimRowByRow(f.rows, step.now, f.workers[step.w].settings.timeout);
  }

  /** The events of one step respect the discipline of reporting a ticket at most once. */
  lemma StepReportsOnce(f: Fleet, step: Step, id: string, limits: H.Limits, open: set<nat>, rest: seq<H.Event>)
    requires Inv(f) && Within(f, limits) && Enabled(f, step) && Held(f, id) <= open
    requires forall o :: Held(Take(f, step), id) <= o ==> H.ReportsOnce(Take(f, step).rows, rest, id, limits, o)
    ensures H.ReportsOnce(f.rows, EventsOf(f, step) + rest, id, limits, open)
  {
    var (events, next) := (EventsOf(f, step), Take(f, step));
    if events == [] {
      assert events + rest == rest;
      assert Held(next, id) <= Held(f, id);
    } else {
      var e := events[0];
      assert events == [e] && (events + rest)[0] == e && (events + rest)[1..] == rest;
      H.RunOne(f.rows, e);
      if step.Poll? {
        PollOpensTicket(f, step, id);
      } else if step.Report? && f.workers[step.w].state.ticket.taskId == id {
        ReportClosesTicket(f, step, id);
      }
      assert Held(next, id) <= H.OpenNext(f.rows, e, id, open);
    }
  }

  lemma {:induction false} FleetReportsOnce(f: Fleet, steps: seq<Step>, id: string, limits: H.Limits, open: set<nat>)
    requires Inv(f) && Within(f, limits) && JoinWithin(steps, limits) && Fires(f, steps) && Held(f, id) <= open
    ensures H.ReportsOnce(f.rows, Trace(f, steps), id, limits, open)
    decreases steps
  {
    if steps != [] {
      var next := Take(f, steps[0]);
      assert steps[0] in steps;
      StepKeepsInv(f, steps[0]);
      forall o | Held(next, id) <= o
        ensures H.ReportsOnce(next.rows, Trace(next, steps[1..]), id, limits, o)
      {
        FleetReportsOnce(next, steps[1..], id, limits, o);
      }
      StepReportsOnce(f, steps[0], id, limits, open, Trace(next, steps[1..]));
    }
  }

  // ---------- How often a task is executed ----------

  /** However the workers interleave, and however often they stop, a task is handed out at most as often as the largest
      limit says, or once if that is less, plus the number of times its lease expired; and it fails for good only after
      as many attempts as the smallest limit. */
  lemma ExecutionsAreBounded(steps: seq<Step>, id: string, limits: H.Limits)
    requires Fires(EMPTY, steps) && JoinWithin(steps, limits)
    ensures H.HandOuts(map[], Trace(EMPTY, steps), id)
            <= H.AtLeastOne(limits.most) + H.Expiries(map[], Trace(EMPTY, steps), id)
    ensures var rows := After(EMPTY, steps).rows;
      id in rows && rows[id].status == Failed ==> limits.least <= rows[id].attempts
  {
    var events := Trace(EMPTY, steps);
    TraceRuns(EMPTY, steps);
    FleetReportsOnce(EMPTY, steps, id, limits, {});
    H.HandOutsOfNewTask(map[], events, id);
    if id in H.Run(map[], events) {
      H.AttemptBound(map[], events, id, limits);
    }
  }

  // ---------- Polling drains the queue ----------

  predicate HoldsCurrent(worker: Worker, id: string, attempts: nat) {
    worker.state.Holding? && worker.state.ticket.taskId == id && worker.state.ticket.attempts == attempts
  }

  /** A live worker is executing the current attempt of the task. */
  ghost predicate InHand(f: Fleet, id: string) {
    id in f.rows && exists w :: w in f.workers && HoldsCurrent(f.workers[w], id, f.rows[id].attempts)
  }

  /** Nothing is left to claim: every task is finished or being executed. */
  ghost predicate Settled(f: Fleet) {
    forall id :: id in f.rows ==> H.Finished(f.rows[id]) || InHand(f, id)
  }

  /** The claim comes after every back-off, and after every lease whose worker is gone, has run out. */
  ghost predicate Late(f: Fleet, timeout: int, now: int) {
    forall id :: id in f.rows && !H.Finished(f.rows[id]) && !InHand(f, id) ==> H.ReadyAt(f.rows[id], timeout) <= now
  }

  ghost predicate LatePoll(f: Fleet, step: Step)
    requires Enabled(f, step)
  {
    step.Poll? ==> f.workers[step.w].settings.timeout > 0 && Late(f, f.workers[step.w].settings.timeout, step.now)
  }

  /** All polls of the run are late, and with timeouts the queue accepts. */
  ghost predicate LatePolls(f: Fleet, steps: seq<Step>)
    requires Fires(f, steps)
    decreases steps
  {
    steps == [] || (LatePoll(f, steps[0]) && LatePolls(Take(f, steps[0]), steps[1..]))
  }

  function Polls(steps: seq<Step>): nat {
    if steps == [] then 0 else (if steps[0].Poll? then 1 else 0) + Polls(steps[1..])
  }

  /** Some poll of the run finds the queue settled. */
  ghost predicate SettledAtAPoll(f: Fleet, steps: seq<Step>)
    requires Fires(f, steps)
    decreases steps
  {
    steps != [] && ((steps[0].Poll? && Settled(f)) || SettledAtAPoll(Take(f, steps[0]), steps[1..]))
  }

  /** The number of claims that return a task. */
  ghost function AllHandOuts(rows: Rows, events: seq<H.Event>): nat
    decreases events
  {
    if events == [] then 0
    else
      var e := events[0];
      (if e.Claim? && Next(rows, e.now, e.timeout).Some? then 1 else 0) + AllHandOuts(H.Apply(rows, e), events[1..])
  }

  lemma {:induction false} AllHandOutsConcat(rows: Rows, first: seq<H.Event>, rest: seq<H.Event>)
    ensures AllHandOuts(rows, first + rest) == AllHandOuts(rows, first) + AllHandOuts(H.Run(rows, first), rest)
    decreases first
  {
    if first == [] {
      assert first + rest == rest;
    } else {
      assert (first + rest)[0] == first[0] && (first + rest)[1..] == first[1..] + rest;
      AllHandOutsConcat(H.Apply(rows, first[0]), first[1..], rest);
    }
  }

  ghost function HandOutsOf(rows: Rows, events: seq<H.Event>): string -> nat {
    (id: string) => H.HandOuts(rows, events, id)
  }

  /** Every claim that returns a task returns one of the tasks there are. */
  lemma {:induction false} HandOutsByTask(rows: Rows, events: seq<H.Event>, ids: set<string>)
    requires H.Run(rows, events).Keys <= ids
    ensures AllHandOuts(rows, events) == Sum(ids, HandOutsOf(rows, events))
    decreases events
  {
    if events == [] {
      SumOfZeros(ids, HandOutsOf(rows, events));
    } else {
      var (e, next, rest) := (events[0], H.Apply(rows, events[0]), events[1..]);
      HandOutsByTask(next, rest, ids);
      if e.Claim? && Next(rows, e.now, e.timeout).Some? {
        var place := Next(rows, e.now, e.timeout).value;
        H.AttemptsAreHandOuts(rows, events, place);
        SumPlusOne(ids, place, HandOutsOf(next, rest), HandOutsOf(rows, events));
      } else {
        SumAtMost(ids, HandOutsOf(next, rest), HandOutsOf(rows, events));
        SumAtMost(ids, HandOutsOf(rows, events), HandOutsOf(next, rest));
      }
    }
  }

  /** A late claim that returns nothing finds the queue settled. */
  lemma EmptyPollMeansSettled(f: Fleet, timeout: int, now: int)
    requires Valid(f.rows) && Late(f, timeout, now) && Next(f.rows, now, timeout) == None
    ensures Settled(f)
  {
    forall id | id in f.rows
      ensures H.Finished(f.rows[id]) || InHand(f, id)
    {
      assert !Claimable(f.rows[id], now, timeout);
    }
  }

  lemma {:induction false} PollsHandOut(f: Fleet, steps: seq<Step>)
    requires Valid(f.rows) && Fires(f, steps) && LatePolls(f, steps)
    ensures SettledAtAPoll(f, steps) || Polls(steps) <= AllHandOuts(f.rows, Trace(f, steps))
    decreases steps
  {
    if steps != [] {
      var (step, next, rest) := (steps[0], Take(f, steps[0]), steps[1..]);
      var events := EventsOf(f, step);
      H.RunKeepsValid(f.rows, events);
      PollsHandOut(next, rest);
      if step.Poll? && Next(f.rows, step.now, f.workers[step.w].settings.timeout) == None {
        EmptyPollMeansSettled(f, f.workers[step.w].settings.timeout, step.now);
      }
      var later := Trace(next, rest);
      if events == [] {
        assert events + later == later;
      } else {
        assert events == [events[0]] && (events + later)[1..] == later;
        H.RunOne(f.rows, events[0]);
      }
    }
  }

  /** How often a task can be handed out over a run. */
  ghost function Budget(limits: H.Limits, events: seq<H.Event>): string -> nat {
    (id: string) => H.AtLeastOne(limits.most) + H.Expiries(map[], events, id)
  }

  /** From any state the fleet can reach, workers that go on polling settle the queue, however they interleave and stop
      and whatever is enqueued meanwhile. As soon as the late polls since then outnumber the hand-outs that were still
      possible, one of them has found every task finished or in the hands of a live worker. Possible are the attempts
      and expiries of the tasks there are in the end, less the hand-outs that had happened before. */
  lemma FleetDrains(before: seq<Step>, steps: seq<Step>, limits: H.Limits)
    requires Fires(EMPTY, before) && Fires(After(EMPTY, before), steps)
    requires LatePolls(After(EMPTY, before), steps) && JoinWithin(before + steps, limits)
    requires var (f, past) := (After(EMPTY, before), Trace(EMPTY, before));
      Sum(After(f, steps).rows.Keys, Budget(limits, past + Trace(f, steps))) < AllHandOuts(map[], past) + Polls(steps)
    ensures SettledAtAPoll(After(EMPTY, before), steps)
  {
    var (f, past) := (After(EMPTY, before), Trace(EMPTY, before));
    var events := past + Trace(f, steps);
    var ids := After(f, steps).rows.Keys;
    RunsConcat(EMPTY, before, steps);
    TraceRuns(EMPTY, before);
    TraceRuns(EMPTY, before + steps);
    H.RunKeepsValid(map[], past);
    PollsHandOut(f, steps);
    AllHandOutsConcat(map[], past, Trace(f, steps));
    HandOutsByTask(map[], events, ids);
    forall id | id in ids
      ensures HandOutsOf(map[], events)(id) <= Budget(limits, events)(id)
    {
      ExecutionsAreBounded(before + steps, id, limits);
    }
    SumAtMost(ids, HandOutsOf(map[], events), Budget(limits, events));
  }
}
