/** Work orders and their legal status changes. */
module WorkOrders {
  import opened Wrappers
  import opened Optimization

  datatype Status = Pending | InProgress | Completed | Cancelled

  datatype Receipt = Receipt(qty: real, savings: real, operator: string, at: int, source: string)

  /** The five completion columns are one optional receipt once the model's validator has run. */
  datatype WorkOrder = WorkOrder(
    orderId: string, batchId: string, customer: string, material: string, action: Action,
    status: Status, createdAt: int, updatedAt: int, receipt: Option<Receipt>)

  datatype OrderError = NaiveTimestamp | NeedsReceipt | IllegalTransition | UpdatedBeforeCreated

  function Transitions(from: Status): set<Status> {
    match from
    case Pending => {InProgress, Cancelled}
    case InProgress => {Completed, Cancelled}
    case Completed => {}
    case Cancelled => {}
  }

  /** `_validate_timestamps`: an order carries a receipt exactly when it is completed. */
  predicate Valid(w: WorkOrder) {
    w.createdAt <= w.updatedAt && (w.status == Completed <==> w.receipt.Some?)
  }

  function TransitionTo(w: WorkOrder, status: Status, at: Clock<int>): (r: Result<WorkOrder, OrderError>) {
    if at.Naive? then Err(NaiveTimestamp)
    else if status == Completed then Err(NeedsReceipt)
    else if status !in Transitions(w.status) then Err(IllegalTransition)
    else if at.at < w.createdAt then Err(UpdatedBeforeCreated)
    else Ok(w.(status := status, updatedAt := at.at))
  }

  function Complete(w: WorkOrder, receipt: Receipt): (r: Result<WorkOrder, OrderError>) {
    if Completed !in Transitions(w.status) then Err(IllegalTransition)
    else if receipt.at < w.createdAt then Err(UpdatedBeforeCreated)
    else Ok(w.(status := Completed, updatedAt := receipt.at, receipt := Some(receipt)))
  }

  /** Status changes still possible: every change uses up at least one. */
  function ChangesLeft(s: Status): nat {
    match s
    case Pending => 2
    case InProgress => 1
    case _ => 0
  }

  /** What a change may alter: validity is kept and the order comes closer to its end;
      who, what and since when never change. */
  ghost predicate Progresses(before: WorkOrder, after: WorkOrder) {
    && Valid(after)
    && ChangesLeft(after.status) < ChangesLeft(before.status)
    && after == before.(status := after.status, updatedAt := after.updatedAt, receipt := after.receipt)
    && after.status in Transitions(before.status)
  }

  lemma ChangesProgress(w: WorkOrder, status: Status, at: Clock<int>, receipt: Receipt)
    requires Valid(w)
    ensures var r := TransitionTo(w, status, at); r.Ok? ==> Progresses(w, r.value) && r.value.receipt == None
    ensures var r := Complete(w, receipt); r.Ok? ==> Progresses(w, r.value) && r.value.receipt == Some(receipt)
    ensures Complete(w, receipt).Ok? <==> w.status == InProgress && w.createdAt <= receipt.at
  {
  }

  // ---------- Decisions ----------

  datatype Outcome = Approved | Snoozed | Revised | Rejected

  datatype Decision = Decision(
    batchId: string, customer: string, material: string, decidedAt: int, action: Action, outcome: Outcome,
    savingsEstimate: real, actualSavings: Option<real>, actualQty: Option<real>, notes: Option<string>)

  predicate IsApproved(d: Decision) {
    d.outcome == Approved || d.outcome == Revised
  }
}
