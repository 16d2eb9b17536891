/** What holds in every reachable state of the three tables, whatever operations succeed, fail or are
    rolled back, in whatever order. */
module StoreRuns {
  import opened Wrappers
  import opened WorkOrders
  import opened Tables
  import opened Stores
  import O = Optimization

  datatype Op =
    | SaveDecision(d: Decision)
    | Approve(d: Decision, w: WorkOrder, key: string)
    | Move(orderId: string, status: Status, at: Clock<int>)
    | Finish(orderId: string, receipt: Receipt)
    | SavePlan(planId: string, plan: PlanRow)
    | ExecutePlan(planId: string, operator: string, at: Clock<int>, ids: seq<string>)

  /** What the callers guarantee: approvals come with a fresh pending order, plans are saved pending,
      and an execution draws one id per assignment. */
  ghost predicate Legal(t: Tables, op: Op) {
    match op
    case Approve(_, w, _) => Valid(w) && w.status == Pending
    case SavePlan(_, plan) => plan.status == PendingApproval
    case ExecutePlan(planId, _, _, ids) => planId in t.plans ==> |ids| == |t.plans[planId].assignments|
    case _ => true
  }

  ghost function Apply(t: Tables, op: Op): Tables
    requires Legal(t, op)
  {
    match op
    case SaveDecision(d) => WithDecision(t, d, None)
    case Approve(d, w, key) => AfterApproval(t, d, w, key)
    case Move(orderId, status, at) => AfterTransition(t, orderId, status, at)
    case Finish(orderId, receipt) => AfterCompletion(t, orderId, receipt)
    case SavePlan(planId, plan) => AfterSavePlan(t, planId, plan)
    case ExecutePlan(planId, operator, at, ids) => AfterExecution(t, planId, operator, at, ids)
  }

  // ---------- The cross-table invariant ----------

  lemma NewDecisionIsUnlinked(t: Tables, d: Decision, key: Option<string>)
    requires Consistent(t) && (key.Some? ==> !KeyTaken(t, key.value))
    ensures Consistent(WithDecision(t, d, key)) && !DecisionTaken(WithDecision(t, d, key), t.nextId)
  {
    var u := WithDecision(t, d, key);
    forall o | o in u.orders ensures Linked(u, o) && u.orders[o].decisionId != t.nextId {
      assert Linked(t, o);
    }
  }

  lemma BothRowsKeepConsistent(t: Tables, d: Decision, w: WorkOrder, key: string)
    requires Consistent(t) && !ApprovalClashes(t, w, key)
    requires IsApproved(d) && d.customer == w.customer && d.batchId == w.batchId && d.action == w.action
    requires w.createdAt <= w.updatedAt && w.status != Completed
    ensures Consistent(WithOrder(WithDecision(t, d, Some(key)), w, t.nextId))
  {
    NewDecisionIsUnlinked(t, d, Some(key));
    var u := WithDecision(t, d, Some(key));
    OrderInsertKeepsConstraints(u, w, t.nextId);
    var v := WithOrder(u, w, t.nextId);
    forall o | o in v.orders ensures Linked(v, o) {
      if o != w.orderId {
        assert Linked(u, o);
      }
    }
  }

  /** Recording an approval keeps the invariant exactly when the order it creates, if it creates one, is not
      already completed: the INSERT has no receipt columns. The webhook only builds pending orders. */
  lemma ApprovalKeepsConsistentIff(t: Tables, d: Decision, w: WorkOrder, key: string)
    requires Consistent(t) && w.createdAt <= w.updatedAt
    ensures Consistent(AfterApproval(t, d, w, key)) <==>
            !(ApprovalAccepted(d, w, key) && !ApprovalClashes(t, w, key)) || w.status != Completed
  {
    if ApprovalAccepted(d, w, key) && !ApprovalClashes(t, w, key) {
      if w.status != Completed {
        BothRowsKeepConsistent(t, d, w, key);
      } else {
        var u := AfterApproval(t, d, w, key);
        assert w.orderId in u.orders && !Valid(u.orders[w.orderId].order);
      }
    }
  }

  /** An approval that carries a completed order does break it. */
  lemma CompletedApprovalBreaks() returns (d: Decision, w: WorkOrder)
    ensures Valid(w) && ApprovalAccepted(d, w, "key")
    ensures Consistent(EMPTY) && !Consistent(AfterApproval(EMPTY, d, w, "key"))
  {
    d := Decision("b", "c", "m", 0, O.ReportLoss, Approved, 0.0, None, None, None);
    w := WorkOrder("o", "b", "c", "m", O.ReportLoss, Completed, 0, 0, Some(Receipt(1.0, 2.0, "x", 0, "manual")));
    ApprovalKeepsConsistentIff(EMPTY, d, w, "key");
  }

  lemma MoveKeepsConsistent(t: Tables, orderId: string, status: Status, at: Clock<int>)
    requires Consistent(t)
    ensures Consistent(AfterTransition(t, orderId, status, at))
  {
    if Transitioned(t, orderId, status, at).Ok? {
      var u := AfterTransition(t, orderId, status, at);
      forall o | o in u.orders ensures Linked(u, o) {
        assert Linked(t, o);
      }
    }
  }

  lemma FinishKeepsConsistent(t: Tables, orderId: string, receipt: Receipt)
    requires Consistent(t)
    ensures Consistent(AfterCompletion(t, orderId, receipt))
  {
    if CompletedOrder(t, orderId, receipt).Ok? {
      var u := AfterCompletion(t, orderId, receipt);
      forall o | o in u.orders ensures Linked(u, o) {
        assert Linked(t, o);
      }
    }
  }

  lemma {:induction false} EnactKeepsConsistent(t: Tables, c: Context, xs: seq<O.Assignment>, ids: seq<string>)
    requires Consistent(t) && |ids| == |xs|
    ensures var r := Enact(t, c, xs, ids); r.Ok? ==> Consistent(r.value) && r.value.plans == t.plans
    decreases xs
  {
    if xs != [] {
      if xs[0].quantity == 0.0 {
        EnactKeepsConsistent(t, c, xs[1..], ids[1..]);
      } else {
        var found := BatchFor(c.request.batches, xs[0].batchId);
        if found.Some? && !AssignmentClashes(t, c, found.value.batchId, ids[0]) {
          var b := found.value;
          BothRowsKeepConsistent(t, PlanDecision(c.request.customer, b, xs[0], c.planId, c.at),
            PlanOrder(ids[0], c.request.customer, b, xs[0], c.at), PlanKey(c.planId, b.batchId));
          EnactKeepsConsistent(WithAssignment(t, c, b, xs[0], ids[0]), c, xs[1..], ids[1..]);
        }
      }
    }
  }

  lemma ExecutionKeepsConsistent(t: Tables, planId: string, operator: string, at: Clock<int>, ids: seq<string>)
    requires Consistent(t) && (planId in t.plans ==> |ids| == |t.plans[planId].assignments|)
    ensures Consistent(AfterExecution(t, planId, operator, at, ids))
  {
    var r := Execution(t, planId, operator, at, ids);
    if r.Ok? {
      var plan := t.plans[planId];
      var c := Context(planId, plan.request, at.at);
      EnactKeepsConsistent(t, c, plan.assignments, ids);
      var u := Enact(t, c, plan.assignments, ids).value;
      forall o | o in r.value.orders ensures Linked(r.value, o) {
        assert Linked(u, o);
      }
    }
  }

  lemma StepKeepsConsistent(t: Tables, op: Op)
    requires Consistent(t) && Legal(t, op)
    ensures Consistent(Apply(t, op))
  {
    match op
    case SaveDecision(d) => NewDecisionIsUnlinked(t, d, None);
    case Approve(d, w, key) => ApprovalKeepsConsistentIff(t, d, w, key);
    case Move(orderId, status, at) => MoveKeepsConsistent(t, orderId, status, at);
    case Finish(orderId, receipt) => FinishKeepsConsistent(t, orderId, receipt);
    case SavePlan(planId, plan) =>
      forall o | o in t.orders ensures Linked(AfterSavePlan(t, planId, plan), o) {
        assert Linked(t, o);
      }
    case ExecutePlan(planId, operator, at, ids) => ExecutionKeepsConsistent(t, planId, operator, at, ids);
  }

  ghost predicate LegalRun(t: Tables, ops: seq<Op>)
    decreases ops
  {
    ops == [] || (Legal(t, ops[0]) && LegalRun(Apply(t, ops[0]), ops[1..]))
  }

  ghost function Run(t: Tables, ops: seq<Op>): Tables
    requires LegalRun(t, ops)
    decreases ops
  {
    if ops == [] then t else Run(Apply(t, ops[0]), ops[1..])
  }

  lemma {:induction false} RunKeepsConsistent(t: Tables, ops: seq<Op>)
    requires Consistent(t) && LegalRun(t, ops)
    ensures Consistent(Run(t, ops))
    decreases ops
  {
    if ops != [] {
      StepKeepsConsistent(t, ops[0]);
      RunKeepsConsistent(Apply(t, ops[0]), ops[1..]);
    }
  }

  /** In every reachable state: each order has one approved decision of its own, for the same customer, batch
      and action; no two orders share a batch; an order has a receipt exactly when it is completed, and its
      decision then holds the receipt's quantity and savings. */
  lemma ReachableIsConsistent(ops: seq<Op>, o: string, p: string)
    requires LegalRun(EMPTY, ops) && o in Run(EMPTY, ops).orders && p in Run(EMPTY, ops).orders
    ensures var t := Run(EMPTY, ops);
      var (row, other) := (t.orders[o], t.orders[p]);
      && row.decisionId in t.decisions
      && var d := t.decisions[row.decisionId].decision;
      && IsApproved(d) && (d.customer, d.batchId, d.action) == (row.order.customer, row.order.batchId, row.order.action)
      && (row.order.status == Completed <==> row.order.receipt.Some?)
      && (row.order.receipt.Some? ==>
            d.actualQty == Some(row.order.receipt.value.qty)
            && d.actualSavings == Some(row.order.receipt.value.savings))
      && (o != p ==> row.decisionId != other.decisionId
                     && (row.order.customer, row.order.batchId) != (other.order.customer, other.order.batchId))
  {
    RunKeepsConsistent(EMPTY, ops);
    assert Linked(Run(EMPTY, ops), o);
  }

  // ---------- Orders change status at most twice ----------

  lemma {:induction false} EnactAddsOnly(t: Tables, c: Context, xs: seq<O.Assignment>, ids: seq<string>)
    requires |ids| == |xs|
    ensures var r := Enact(t, c, xs, ids); r.Ok? ==>
      && (forall o :: o in t.orders ==> o in r.value.orders && r.value.orders[o] == t.orders[o])
      && (forall i :: i in t.decisions && i < t.nextId ==>
            i in r.value.decisions && r.value.decisions[i] == t.decisions[i])
      && t.nextId <= r.value.nextId
    decreases xs
  {
    if xs != [] {
      if xs[0].quantity == 0.0 {
        EnactAddsOnly(t, c, xs[1..], ids[1..]);
      } else {
        var found := BatchFor(c.request.batches, xs[0].batchId);
        if found.Some? && !AssignmentClashes(t, c, found.value.batchId, ids[0]) {
          EnactAddsOnly(WithAssignment(t, c, found.value, xs[0], ids[0]), c, xs[1..], ids[1..]);
        }
      }
    }
  }

  /** An order row survives every operation: it stays as it is or moves one legal step, linked to the same decision. */
  lemma OrderStep(t: Tables, op: Op, o: string)
    requires Consistent(t) && Legal(t, op) && o in t.orders
    ensures var u := Apply(t, op);
      && o in u.orders && u.orders[o].decisionId == t.orders[o].decisionId
      && (u.orders[o].order == t.orders[o].order || Progresses(t.orders[o].order, u.orders[o].order))
  {
    assert Linked(t, o);
    match op
    case ExecutePlan(planId, _, at, ids) =>
      if at.Aware? && planId in t.plans {
        EnactAddsOnly(t, Context(planId, t.plans[planId].request, at.at), t.plans[planId].assignments, ids);
      }
    case Move(orderId, status, at) =>
      if orderId == o {
        ChangesProgress(t.orders[o].order, status, at, Receipt(0.0, 0.0, "", 0, ""));
      }
    case Finish(orderId, receipt) =>
      if orderId == o {
        ChangesProgress(t.orders[o].order, Pending, Naive, receipt);
      }
    case _ =>
  }

  /** The status changes of an order over a run. */
  ghost function StatusChanges(t: Tables, ops: seq<Op>, o: string): nat
    requires LegalRun(t, ops)
    decreases ops
  {
    if ops == [] then 0
    else
      var u := Apply(t, ops[0]);
      (if o in t.orders && o in u.orders && u.orders[o].order.status != t.orders[o].order.status then 1 else 0)
      + StatusChanges(u, ops[1..], o)
  }

  lemma {:induction false} ChangesBounded(t: Tables, ops: seq<Op>, o: string)
    requires Consistent(t) && LegalRun(t, ops)
    ensures o in t.orders ==> StatusChanges(t, ops, o) <= ChangesLeft(t.orders[o].order.status)
    ensures StatusChanges(t, ops, o) <= 2
    decreases ops
  {
    if ops != [] {
      StepKeepsConsistent(t, ops[0]);
      ChangesBounded(Apply(t, ops[0]), ops[1..], o);
      if o in t.orders {
        OrderStep(t, ops[0], o);
      }
    }
  }

  /** Over any run from the empty database an order changes status at most twice. */
  lemma AtMostTwoChanges(ops: seq<Op>, o: string)
    requires LegalRun(EMPTY, ops)
    ensures StatusChanges(EMPTY, ops, o) <= 2
  {
    ChangesBounded(EMPTY, ops, o);
  }

  // ---------- A plan is executed at most once ----------

  ghost predicate Executes(t: Tables, op: Op, planId: string)
    requires Legal(t, op)
  {
    op.ExecutePlan? && op.planId == planId && Execution(t, planId, op.operator, op.at, op.ids).Ok?
  }

  ghost function Executions(t: Tables, ops: seq<Op>, planId: string): nat
    requires LegalRun(t, ops)
    decreases ops
  {
    if ops == [] then 0
    else (if Executes(t, ops[0], planId) then 1 else 0) + Executions(Apply(t, ops[0]), ops[1..], planId)
  }

  ghost predicate AlreadyDone(t: Tables, planId: string) {
    planId in t.plans && t.plans[planId].status == Executed
  }

  lemma DoneStaysDone(t: Tables, op: Op, planId: string)
    requires Consistent(t) && Legal(t, op)
    ensures AlreadyDone(t, planId) ==> AlreadyDone(Apply(t, op), planId) && !Executes(t, op, planId)
    ensures Executes(t, op, planId) ==> AlreadyDone(Apply(t, op), planId)
  {
    if op.ExecutePlan? && op.at.Aware? && op.planId in t.plans {
      EnactKeepsConsistent(t, Context(op.planId, t.plans[op.planId].request, op.at.at),
                           t.plans[op.planId].assignments, op.ids);
    }
  }

  /** A plan is executed at most once, ever. */
  lemma {:induction false} ExecutedOnce(t: Tables, ops: seq<Op>, planId: string)
    requires Consistent(t) && LegalRun(t, ops)
    ensures Executions(t, ops, planId) <= if AlreadyDone(t, planId) then 0 else 1
    decreases ops
  {
    if ops != [] {
      StepKeepsConsistent(t, ops[0]);
      DoneStaysDone(t, ops[0], planId);
      ExecutedOnce(Apply(t, ops[0]), ops[1..], planId);
    }
  }
}
