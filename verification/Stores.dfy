/** The three stores that write the tables, each operation one transaction. */
module Stores {
  import opened Wrappers
  import opened WorkOrders
  import opened Tables
  import O = Optimization

  // ---------- DecisionStore ----------

  /** A constraint one of the two inserts of an approval would violate. */
  ghost predicate ApprovalClashes(t: Tables, w: WorkOrder, key: string) {
    KeyTaken(t, key) || w.orderId in t.orders || BatchTaken(t, w.customer, w.batchId)
  }

  /** A clash that no order of the batch explains. */
  ghost predicate ClashesElsewhere(t: Tables, w: WorkOrder, key: string) {
    (KeyTaken(t, key) || w.orderId in t.orders) && !BatchTaken(t, w.customer, w.batchId)
  }

  ghost predicate ApprovalAccepted(d: Decision, w: WorkOrder, key: string) {
    IsApproved(d) && key != "" && d.customer == w.customer && d.batchId == w.batchId && d.action == w.action
  }

  ghost function AfterApproval(t: Tables, d: Decision, w: WorkOrder, key: string): Tables {
    if ApprovalAccepted(d, w, key) && !ApprovalClashes(t, w, key)
    then WithOrder(WithDecision(t, d, Some(key)), w, t.nextId)
    else t
  }

  /** `_work_order_from_row`. */
  function Load(row: OrderRow): Result<WorkOrder, DbError> {
    if Valid(row.order) then Ok(row.order) else Err(Corrupt)
  }

  class DecisionStore {
    const db: SQLiteDatabase

    constructor (db: SQLiteDatabase)
      ensures this.db == db
    {
      this.db := db;
    }

    method Save(d: Decision) returns (id: int)
      requires Constrained(db.tables)
      modifies db
      ensures Constrained(db.tables)
      ensures id == old(db.tables).nextId && db.tables == WithDecision(old(db.tables), d, None)
      ensures db.tables == old(db.tables).(
        decisions := old(db.tables).decisions[id := DecisionRow(d, None)], nextId := id + 1)
    {
      var inserted := db.InsertDecision(d, None);
      id := inserted.value;
    }

    /** A repeated approval of a batch returns the order the batch already has; any other clash is raised.
        Either way nothing is written unless both rows are. */
    method RecordApproval(d: Decision, w: WorkOrder, key: string) returns (r: Result<(int, WorkOrder, bool), DbError>)
      requires Constrained(db.tables)
      modifies db
      ensures Constrained(db.tables)
      ensures db.tables == AfterApproval(old(db.tables), d, w, key)
      ensures r.Ok? && r.value.2 <==> ApprovalAccepted(d, w, key) && !ApprovalClashes(old(db.tables), w, key)
      ensures r.Ok? && r.value.2 ==> r.value.0 == old(db.tables).nextId && r.value.1 == w
      ensures r.Ok? && r.value.2 ==>
        db.tables == old(db.tables).(
          decisions := old(db.tables).decisions[r.value.0 := DecisionRow(d, Some(key))],
          orders := old(db.tables).orders[w.orderId := OrderRow(w.(receipt := None), r.value.0)],
          nextId := r.value.0 + 1)
      ensures !(r.Ok? && r.value.2) ==> db.tables == old(db.tables)
      ensures d.outcome == Snoozed || d.outcome == Rejected ==> r == Err(NotApproved)
      ensures r == Err(NotApproved) ==> d.outcome == Snoozed || d.outcome == Rejected
      ensures r == Err(Mismatch) ==> d.customer != w.customer || d.batchId != w.batchId || d.action != w.action
      ensures r.Ok? && !r.value.2 ==>
        && r.value.1.orderId in old(db.tables).orders
        && old(db.tables).orders[r.value.1.orderId] == OrderRow(r.value.1, r.value.0)
        && r.value.1.customer == d.customer && r.value.1.batchId == d.batchId
      ensures ApprovalAccepted(d, w, key) && ClashesElsewhere(old(db.tables), w, key) ==> r == Err(Integrity)
      ensures Consistent(old(db.tables)) ==>
        ApprovalAccepted(d, w, key) && !ClashesElsewhere(old(db.tables), w, key) ==> r.Ok?
      ensures !IsApproved(d) ==> r == Err(NotApproved)
      ensures IsApproved(d) && key == "" ==> r == Err(EmptyKey)
      ensures IsApproved(d) && key != "" && !ApprovalAccepted(d, w, key) ==> r == Err(Mismatch)
    {
      if !IsApproved(d) {
        return Err(NotApproved);
      }
      if key == "" {
        return Err(EmptyKey);
      }
      if d.customer != w.customer || d.batchId != w.batchId || d.action != w.action {
        return Err(Mismatch);
      }
      ghost var before := db.tables;
      db.Begin();
      var id := db.InsertDecision(d, Some(key));
      if id.Some? {
        assert !DecisionTaken(db.tables, id.value);
        var ok := db.InsertOrder(w, id.value);
        if ok {
          return Ok((id.value, w, true));
        }
      }
      db.Rollback();
      assert db.tables == before;
      if o :| o in db.tables.orders && db.tables.orders[o].order.customer == d.customer
              && db.tables.orders[o].order.batchId == d.batchId {
        var loaded := Load(db.tables.orders[o]);
        if loaded.Err? {
          return Err(loaded.error);
        }
        return Ok((db.tables.orders[o].decisionId, loaded.value, false));
      }
      return Err(Integrity);
    }
  }

  // ---------- WorkOrderStore ----------

  /** The order a transition or a completion produces, or the error it raises. */
  function Transitioned(t: Tables, orderId: string, status: Status, at: Clock<int>): Result<WorkOrder, DbError> {
    if orderId !in t.orders then Err(NotFound)
    else match Load(t.orders[orderId])
      case Err(e) => Err(e)
      case Ok(w) => (match TransitionTo(w, status, at) case Ok(next) => Ok(next) case Err(e) => Err(Refused(e)))
  }

  function CompletedOrder(t: Tables, orderId: string, receipt: Receipt): Result<WorkOrder, DbError> {
    if orderId !in t.orders then Err(NotFound)
    else match Load(t.orders[orderId])
      case Err(e) => Err(e)
      case Ok(w) => (match Complete(w, receipt) case Ok(next) => Ok(next) case Err(e) => Err(Refused(e)))
  }

  ghost function AfterTransition(t: Tables, orderId: string, status: Status, at: Clock<int>): Tables {
    match Transitioned(t, orderId, status, at)
    case Err(_) => t
    case Ok(w) => t.(orders := t.orders[orderId := t.orders[orderId].(order := w)])
  }

  /** The order is completed and its decision gains the reported quantity and savings, together. */
  ghost function AfterCompletion(t: Tables, orderId: string, receipt: Receipt): Tables {
    match CompletedOrder(t, orderId, receipt)
    case Err(_) => t
    case Ok(w) =>
      var row := t.orders[orderId];
      var withOrder := t.(orders := t.orders[orderId := row.(order := w)]);
      if row.decisionId !in t.decisions then withOrder
      else
        var d := t.decisions[row.decisionId];
        withOrder.(decisions := t.decisions[row.decisionId := d.(decision :=
          d.decision.(actualQty := Some(receipt.qty), actualSavings := Some(receipt.savings)))])
  }

  // ---------- The same, column by column ----------

  predicate Readable(w: WorkOrder) {
    && w.createdAt <= w.updatedAt
    && ((w.status == Completed && w.receipt.Some?) || (w.status != Completed && w.receipt.None?))
  }

  /** The changes of status an order allows without a receipt. */
  predicate Permitted(from: Status, to: Status) {
    || (from == Pending && to == InProgress)
    || (from == Pending && to == Cancelled)
    || (from == InProgress && to == Cancelled)
  }

  /** An order that exists and can be read takes a permitted status at an instant not before its creation; status and
      update time change and nothing else. Every other call changes nothing and says why. */
  ghost predicate TransitionOutcome(t: Tables, u: Tables, orderId: string, status: Status, at: Clock<int>,
                                    r: Result<WorkOrder, DbError>) {
    if orderId !in t.orders then r == Err(NotFound) && u == t
    else
      var w := t.orders[orderId].order;
      if !Readable(w) then r == Err(Corrupt) && u == t
      else if at.Naive? then r == Err(Refused(OrderError.NaiveTimestamp)) && u == t
      else if status == Completed then r == Err(Refused(NeedsReceipt)) && u == t
      else if !Permitted(w.status, status) then r == Err(Refused(IllegalTransition)) && u == t
      else if at.at < w.createdAt then r == Err(Refused(UpdatedBeforeCreated)) && u == t
      else
        var next := WorkOrder(w.orderId, w.batchId, w.customer, w.material, w.action, status, w.createdAt, at.at, None);
        && r == Ok(next) && u.decisions == t.decisions && u.plans == t.plans && u.nextId == t.nextId
        && u.orders == t.orders[orderId := OrderRow(next, t.orders[orderId].decisionId)]
  }

  lemma TransitionMeans(t: Tables, orderId: string, status: Status, at: Clock<int>)
    ensures TransitionOutcome(t, AfterTransition(t, orderId, status, at), orderId, status, at,
                              Transitioned(t, orderId, status, at))
  {
  }

  /** An order in progress takes a receipt not older than itself; its decision takes the receipt's quantity and savings.
      Every other call changes nothing and says why. */
  ghost predicate CompletionOutcome(t: Tables, u: Tables, orderId: string, receipt: Receipt,
                                    r: Result<WorkOrder, DbError>) {
    if orderId !in t.orders then r == Err(NotFound) && u == t
    else
      var (w, id) := (t.orders[orderId].order, t.orders[orderId].decisionId);
      if !Readable(w) then r == Err(Corrupt) && u == t
      else if w.status != InProgress then r == Err(Refused(IllegalTransition)) && u == t
      else if receipt.at < w.createdAt then r == Err(Refused(UpdatedBeforeCreated)) && u == t
      else
        var next := WorkOrder(w.orderId, w.batchId, w.customer, w.material, w.action, Completed, w.createdAt,
                              receipt.at, Some(receipt));
        && r == Ok(next) && u.plans == t.plans && u.nextId == t.nextId
        && u.orders == t.orders[orderId := OrderRow(next, id)]
        && u.decisions.Keys == t.decisions.Keys
        && (forall i :: i in t.decisions && i != id ==> u.decisions[i] == t.decisions[i])
        && (id in t.decisions ==> u.decisions[id] == t.decisions[id].(decision := t.decisions[id].decision.(
              actualQty := Some(receipt.qty), actualSavings := Some(receipt.savings))))
  }

  lemma CompletionMeans(t: Tables, orderId: string, receipt: Receipt)
    ensures CompletionOutcome(t, AfterCompletion(t, orderId, receipt), orderId, receipt,
                              CompletedOrder(t, orderId, receipt))
  {
  }

  class WorkOrderStore {
    const db: SQLiteDatabase

    constructor (db: SQLiteDatabase)
      ensures this.db == db
    {
      this.db := db;
    }

    /** UPDATE of the status and time columns only. */
    method Transition(orderId: string, status: Status, at: Clock<int>) returns (r: Result<WorkOrder, DbError>)
      modifies db
      ensures r == Transitioned(old(db.tables), orderId, status, at)
      ensures db.tables == AfterTransition(old(db.tables), orderId, status, at)
      ensures TransitionOutcome(old(db.tables), db.tables, orderId, status, at, r)
    {
      TransitionMeans(db.tables, orderId, status, at);
      hide TransitionOutcome;
      db.Begin();
      r := Transitioned(db.tables, orderId, status, at);
      if r.Err? {
        db.Rollback();
        return;
      }
      var row := db.tables.orders[orderId];
      db.tables := db.tables.(orders := db.tables.orders[orderId :=
        row.(order := row.order.(status := r.value.status, updatedAt := r.value.updatedAt))]);
    }

    /** Two UPDATEs in one transaction. */
    method Complete(orderId: string, receipt: Receipt) returns (r: Result<WorkOrder, DbError>)
      modifies db
      ensures r == CompletedOrder(old(db.tables), orderId, receipt)
      ensures db.tables == AfterCompletion(old(db.tables), orderId, receipt)
      ensures CompletionOutcome(old(db.tables), db.tables, orderId, receipt, r)
    {
      CompletionMeans(db.tables, orderId, receipt);
      hide CompletionOutcome;
      db.Begin();
      r := CompletedOrder(db.tables, orderId, receipt);
      if r.Err? {
        db.Rollback();
        return;
      }
      var w := r.value;
      var row := db.tables.orders[orderId];
      db.tables := db.tables.(orders := db.tables.orders[orderId :=
        row.(order := row.order.(status := w.status, updatedAt := w.updatedAt, receipt := w.receipt))]);
      var linked := db.tables.orders[orderId].decisionId;
      if linked in db.tables.decisions {
        var d := db.tables.decisions[linked].decision;
        db.tables := db.tables.(decisions := db.tables.decisions[linked := db.tables.decisions[linked].(decision :=
          d.(actualQty := Some(receipt.qty), actualSavings := Some(receipt.savings)))]);
      }
    }
  }

  // ---------- OptimizationPlanStore ----------

  /** Looking an id up in a dictionary of the batches by id finds the last batch that has it. */
  function BatchFor(batches: seq<O.Batch>, id: string): Option<O.Batch> {
    if batches == [] then None
    else if batches[|batches| - 1].batchId == id then Some(batches[|batches| - 1])
    else BatchFor(batches[..|batches| - 1], id)
  }

  function PlanKey(planId: string, batchId: string): string {
    "optimization:" + planId + ":" + batchId
  }

  function Material(b: O.Batch): string {
    if b.materialName == "" then b.batchId else b.materialName
  }

  /** The two rows an assignment stands for. The note also quotes the quantity, which is left out here. */
  function PlanDecision(customer: string, b: O.Batch, x: O.Assignment, planId: string, at: int): Decision {
    Decision(b.batchId, customer, Material(b), at, x.action, Approved, 0.0, None, None,
             Some("optimization plan " + planId))
  }

  function PlanOrder(orderId: string, customer: string, b: O.Batch, x: O.Assignment, at: int): WorkOrder {
    WorkOrder(orderId, b.batchId, customer, Material(b), x.action, Pending, at, at, None)
  }

  /** What stays the same during one execution. */
  datatype Context = Context(planId: string, request: O.Request, at: int)

  ghost predicate AssignmentClashes(t: Tables, c: Context, batchId: string, orderId: string) {
    KeyTaken(t, PlanKey(c.planId, batchId)) || orderId in t.orders || BatchTaken(t, c.request.customer, batchId)
  }

  function WithAssignment(t: Tables, c: Context, b: O.Batch, x: O.Assignment, orderId: string): Tables {
    WithOrder(WithDecision(t, PlanDecision(c.request.customer, b, x, c.planId, c.at),
                           Some(PlanKey(c.planId, b.batchId))),
              PlanOrder(orderId, c.request.customer, b, x, c.at), t.nextId)
  }

  /** The tables after inserting the rows of the assignments in turn, or the first error. */
  ghost function Enact(t: Tables, c: Context, xs: seq<O.Assignment>, ids: seq<string>): Result<Tables, DbError>
    requires |ids| == |xs|
    decreases xs
  {
    if xs == [] then Ok(t)
    else if xs[0].quantity == 0.0 then Enact(t, c, xs[1..], ids[1..])
    else match BatchFor(c.request.batches, xs[0].batchId)
      case None => Err(NotFound)
      case Some(b) =>
        if AssignmentClashes(t, c, b.batchId, ids[0]) then Err(BatchConflict)
        else Enact(WithAssignment(t, c, b, xs[0], ids[0]), c, xs[1..], ids[1..])
  }

  /** The whole outcome of an execution. */
  ghost function Execution(t: Tables, planId: string, operator: string, at: Clock<int>, ids: seq<string>)
    : Result<Tables, DbError>
    requires planId in t.plans ==> |ids| == |t.plans[planId].assignments|
  {
    if at.Naive? then Err(NaiveApproval)
    else if planId !in t.plans then Err(NotFound)
    else
      var plan := t.plans[planId];
      if !ValidPlan(plan) then Err(Corrupt)
      else if plan.status != PendingApproval then Err(AlreadyExecuted)
      else match Enact(t, Context(planId, plan.request, at.at), plan.assignments, ids)
        case Err(e) => Err(e)
        case Ok(u) => Ok(u.(plans := u.plans[planId :=
          plan.(status := Executed, approval := Some(Approval(operator, at.at)))]))
  }

  ghost function AfterExecution(t: Tables, planId: string, operator: string, at: Clock<int>, ids: seq<string>): Tables
    requires planId in t.plans ==> |ids| == |t.plans[planId].assignments|
  {
    match Execution(t, planId, operator, at, ids) case Ok(u) => u case Err(_) => t
  }

  /** Only the status column is stored, so a saved plan has no approval whatever the model held. */
  ghost function AfterSavePlan(t: Tables, planId: string, plan: PlanRow): Tables {
    if planId in t.plans then t else t.(plans := t.plans[planId := plan.(approval := None)])
  }

  class OptimizationPlanStore {
    const db: SQLiteDatabase

    constructor (db: SQLiteDatabase)
      ensures this.db == db
    {
      this.db := db;
    }

    method Save(planId: string, plan: PlanRow) returns (ok: bool)
      modifies db
      ensures ok <==> planId !in old(db.tables).plans
      ensures db.tables == AfterSavePlan(old(db.tables), planId, plan)
      ensures db.tables == if ok then old(db.tables).(plans := old(db.tables).plans[planId := plan.(approval := None)])
                           else old(db.tables)
    {
      ok := planId !in db.tables.plans;
      if ok {
        db.tables := db.tables.(plans := db.tables.plans[planId := plan.(approval := None)]);
      }
    }

    /** `ids` are the UUIDs drawn for the work orders. On any error all three tables are as before. */
    method Execute(planId: string, operator: string, at: Clock<int>, ids: seq<string>)
      returns (r: Result<PlanRow, DbError>)
      requires Constrained(db.tables)
      requires planId in db.tables.plans ==> |ids| == |db.tables.plans[planId].assignments|
      modifies db
      ensures Constrained(db.tables)
      ensures db.tables == AfterExecution(old(db.tables), planId, operator, at, ids)
      ensures match Execution(old(db.tables), planId, operator, at, ids)
        case Err(e) => r == Err(e)
        case Ok(u) => planId in u.plans && r == Ok(u.plans[planId])
      ensures r.Ok? ==>
        at.Aware? && planId in old(db.tables).plans
        && r.value == old(db.tables).plans[planId].(status := Executed, approval := Some(Approval(operator, at.at)))
      ensures r.Err? ==> db.tables == old(db.tables)
      ensures at.Naive? ==> r == Err(NaiveApproval)
      ensures at.Aware? && planId !in old(db.tables).plans ==> r == Err(NotFound)
      ensures at.Aware? && planId in old(db.tables).plans ==>
        var plan := old(db.tables).plans[planId];
        && ((plan.status == Executed && plan.approval.None?) || (plan.status == PendingApproval && plan.approval.Some?)
            <==> r == Err(Corrupt))
        && (plan.status == Executed && plan.approval.Some? <==> r == Err(AlreadyExecuted))
    {
      if at.Naive? {
        return Err(NaiveApproval);
      }
      ghost var before := db.tables;
      db.Begin();
      if planId !in db.tables.plans {
        db.Rollback();
        return Err(NotFound);
      }
      var plan := db.tables.plans[planId];
      if !ValidPlan(plan) {
        db.Rollback();
        return Err(Corrupt);
      }
      if plan.status != PendingApproval {
        db.Rollback();
        return Err(AlreadyExecuted);
      }
      var xs := plan.assignments;
      ghost var c := Context(planId, plan.request, at.at);
      var i := 0;
      while i < |xs|
        invariant 0 <= i <= |xs| && Constrained(db.tables) && db.saved == before
        invariant db.tables.plans == before.plans
        invariant Enact(db.tables, c, xs[i..], ids[i..]) == Enact(before, c, xs, ids)
      {
        var x := xs[i];
        assert xs[i..][1..] == xs[i + 1..] && ids[i..][1..] == ids[i + 1..];
        if x.quantity == 0.0 {
          i := i + 1;
          continue;
        }
        var b := BatchFor(plan.request.batches, x.batchId);
        if b == None {
          db.Rollback();
          return Err(NotFound);
        }
        var id := db.InsertDecision(PlanDecision(plan.request.customer, b.value, x, planId, at.at),
                                    Some(PlanKey(planId, b.value.batchId)));
        if id == None {
          db.Rollback();
          return Err(BatchConflict);
        }
        assert !DecisionTaken(db.tables, id.value);
        var ok := db.InsertOrder(PlanOrder(ids[i], plan.request.customer, b.value, x, at.at), id.value);
        if !ok {
          db.Rollback();
          return Err(BatchConflict);
        }
        i := i + 1;
      }
      var executed := plan.(status := Executed, approval := Some(Approval(operator, at.at)));
      db.tables := db.tables.(plans := db.tables.plans[planId := executed]);
      return Ok(executed);
    }
  }
}
