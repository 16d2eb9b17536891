/** The three tables of decisions, work orders and optimization plans, with the constraints the schema
    declares, and the transactions that write them. */
module Tables {
  import opened Wrappers
  import opened WorkOrders
  import O = Optimization

  /** A decision row: `key` is the nullable idempotency key. */
  datatype DecisionRow = DecisionRow(decision: Decision, key: Option<string>)

  /** A work-order row: the order and the decision it references. */
  datatype OrderRow = OrderRow(order: WorkOrder, decisionId: int)

  datatype PlanStatus = PendingApproval | Executed

  datatype Approval = Approval(operator: string, at: int)

  /** A plan as the model holds it and as its row is stored. */
  datatype PlanRow = PlanRow(
    request: O.Request, assignments: seq<O.Assignment>, status: PlanStatus, createdAt: int, approval: Option<Approval>)

  /** `_approval_is_complete`: executed plans, and only those, carry an approval. */
  predicate ValidPlan(p: PlanRow) {
    p.status == Executed <==> p.approval.Some?
  }

  /** `nextId` is the AUTOINCREMENT counter of the decisions. */
  datatype Tables = Tables(
    decisions: map<int, DecisionRow>, orders: map<string, OrderRow>, plans: map<string, PlanRow>, nextId: int)

  const EMPTY: Tables := Tables(map[], map[], map[], 1)

  // ---------- Constraints ----------

  ghost predicate KeyTaken(t: Tables, key: string) {
    exists i :: i in t.decisions && t.decisions[i].key == Some(key)
  }

  ghost predicate BatchTaken(t: Tables, customer: string, batchId: string) {
    exists o :: o in t.orders && t.orders[o].order.customer == customer && t.orders[o].order.batchId == batchId
  }

  ghost predicate DecisionTaken(t: Tables, id: int) {
    exists o :: o in t.orders && t.orders[o].decisionId == id
  }

  /** UNIQUE and FOREIGN KEY constraints, which the database enforces on every statement. */
  ghost predicate Constrained(t: Tables) {
    && (forall i :: i in t.decisions ==> 1 <= i < t.nextId)
    && (forall i, j | i in t.decisions && j in t.decisions && i != j ::
          t.decisions[i].key.Some? ==> t.decisions[i].key != t.decisions[j].key)
    && (forall o :: o in t.orders ==> t.orders[o].order.orderId == o && t.orders[o].decisionId in t.decisions)
    && (forall o, p | o in t.orders && p in t.orders && o != p ::
          && t.orders[o].decisionId != t.orders[p].decisionId
          && (t.orders[o].order.customer != t.orders[p].order.customer
              || t.orders[o].order.batchId != t.orders[p].order.batchId))
    && t.nextId >= 1
  }

  // ---------- The cross-table invariant ----------

  /** An order and its decision tell the same story. */
  ghost predicate Linked(t: Tables, o: string)
    requires o in t.orders && t.orders[o].decisionId in t.decisions
  {
    var w := t.orders[o].order;
    var d := t.decisions[t.orders[o].decisionId].decision;
    && IsApproved(d) && d.customer == w.customer && d.batchId == w.batchId && d.action == w.action
    && Valid(w)
    && (w.status == Completed ==> d.actualQty == Some(w.receipt.value.qty))
    && (w.status == Completed ==> d.actualSavings == Some(w.receipt.value.savings))
  }

  ghost predicate Consistent(t: Tables) {
    && Constrained(t)
    && (forall o :: o in t.orders ==> Linked(t, o))
    && (forall p :: p in t.plans ==> ValidPlan(t.plans[p]))
  }

  // ---------- Statements ----------

  datatype DbError =
    | Integrity                       // sqlite3.IntegrityError
    | NotFound                        // KeyError
    | Corrupt                         // a stored row the model rejects
    | Refused(error: OrderError)      // ValueError of the order model
    | NaiveApproval | AlreadyExecuted | BatchConflict
    | NotApproved | EmptyKey | Mismatch

  function WithDecision(t: Tables, d: Decision, key: Option<string>): Tables {
    t.(decisions := t.decisions[t.nextId := DecisionRow(d, key)], nextId := t.nextId + 1)
  }

  /** The receipt columns are not part of the INSERT, so they start out NULL. */
  function WithOrder(t: Tables, w: WorkOrder, decisionId: int): Tables {
    t.(orders := t.orders[w.orderId := OrderRow(w.(receipt := None), decisionId)])
  }

  /** One connection. Between BEGIN and COMMIT the statements write `tables`; ROLLBACK restores `saved`. */
  class SQLiteDatabase {
    var tables: Tables
    var saved: Tables

    constructor ()
      ensures tables == EMPTY
    {
      tables := EMPTY;
      saved := EMPTY;
    }

    method Begin()
      modifies this`saved
      ensures saved == tables
    {
      saved := tables;
    }

    method Rollback()
      modifies this`tables
      ensures tables == saved
    {
      tables := saved;
    }

    method InsertDecision(d: Decision, key: Option<string>) returns (id: Option<int>)
      requires Constrained(tables)
      modifies this`tables
      ensures Constrained(tables)
      ensures id.None? <==> key.Some? && KeyTaken(old(tables), key.value)
      ensures id.None? ==> tables == old(tables)
      ensures id.Some? ==> id.value == old(tables).nextId && tables == WithDecision(old(tables), d, key)
    {
      if key.Some? && exists i :: i in tables.decisions && tables.decisions[i].key == Some(key.value) {
        return None;
      }
      id := Some(tables.nextId);
      tables := WithDecision(tables, d, key);
    }

    method InsertOrder(w: WorkOrder, decisionId: int) returns (ok: bool)
      requires Constrained(tables)
      modifies this`tables
      ensures Constrained(tables)
      ensures ok <==> w.orderId !in old(tables).orders && decisionId in old(tables).decisions
                      && !DecisionTaken(old(tables), decisionId) && !BatchTaken(old(tables), w.customer, w.batchId)
      ensures tables == if ok then WithOrder(old(tables), w, decisionId) else old(tables)
    {
      ok := w.orderId !in tables.orders && decisionId in tables.decisions
        && !(exists o :: o in tables.orders && tables.orders[o].decisionId == decisionId)
        && !(exists o :: o in tables.orders && tables.orders[o].order.customer == w.customer
                         && tables.orders[o].order.batchId == w.batchId);
      if ok {
        ghost var before := tables;
        tables := WithOrder(tables, w, decisionId);
        OrderInsertKeepsConstraints(before, w, decisionId);
      }
    }
  }

  lemma OrderInsertKeepsConstraints(t: Tables, w: WorkOrder, decisionId: int)
    requires Constrained(t) && decisionId in t.decisions
    requires !DecisionTaken(t, decisionId) && !BatchTaken(t, w.customer, w.batchId)
    ensures Constrained(WithOrder(t, w, decisionId))
  {
    forall o | o in t.orders
      ensures t.orders[o].decisionId != decisionId
      ensures t.orders[o].order.customer != w.customer || t.orders[o].order.batchId != w.batchId
    {
    }
  }
}
