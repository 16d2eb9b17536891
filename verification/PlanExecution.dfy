/** Executing an optimization plan: all or nothing, and exactly when nothing is in the way. */
module PlanExecution {
  import opened Wrappers
  import opened WorkOrders
  import opened Tables
  import opened Stores
  import O = Optimization
  import B = OptimizationBounds

  /** The positions of the assignments that allocate something. */
  ghost predicate Live(xs: seq<O.Assignment>, i: int) {
    0 <= i < |xs| && xs[i].quantity != 0.0
  }

  ghost predicate Known(c: Context, xs: seq<O.Assignment>) {
    forall i :: Live(xs, i) ==> BatchFor(c.request.batches, xs[i].batchId).Some?
  }

  /** No live assignment meets a row that is already there. */
  ghost predicate Unobstructed(t: Tables, c: Context, xs: seq<O.Assignment>, ids: seq<string>)
    requires |ids| == |xs|
  {
    forall i :: Live(xs, i) ==> !AssignmentClashes(t, c, xs[i].batchId, ids[i])
  }

  /** No two live assignments are for the same batch or drew the same id. */
  ghost predicate PairwiseDistinct(xs: seq<O.Assignment>, ids: seq<string>)
    requires |ids| == |xs|
  {
    forall i, j :: Live(xs, i) && Live(xs, j) && i < j ==> xs[i].batchId != xs[j].batchId && ids[i] != ids[j]
  }

  lemma {:induction false} BatchForFinds(batches: seq<O.Batch>, id: string)
    ensures BatchFor(batches, id).Some? <==> exists b :: b in batches && b.batchId == id
    ensures BatchFor(batches, id).Some? ==>
      BatchFor(batches, id).value in batches && BatchFor(batches, id).value.batchId == id
  {
    if batches != [] {
      assert batches == batches[..|batches| - 1] + [batches[|batches| - 1]];
      BatchForFinds(batches[..|batches| - 1], id);
    }
  }

  /** Plan keys of different batches of one plan differ. */
  lemma PlanKeyInjective(planId: string, a: string, b: string)
    requires PlanKey(planId, a) == PlanKey(planId, b)
    ensures a == b
  {
    var p := "optimization:" + planId + ":";
    assert PlanKey(planId, a)[|p|..] == a && PlanKey(planId, b)[|p|..] == b;
  }

  lemma KeysAfterAssignment(t: Tables, c: Context, b: O.Batch, x: O.Assignment, orderId: string, batchId: string)
    requires Constrained(t)
    ensures KeyTaken(WithAssignment(t, c, b, x, orderId), PlanKey(c.planId, batchId)) <==>
            KeyTaken(t, PlanKey(c.planId, batchId)) || batchId == b.batchId
  {
    var u := WithAssignment(t, c, b, x, orderId);
    var key := PlanKey(c.planId, batchId);
    assert t.nextId !in t.decisions && u.decisions[t.nextId].key == Some(PlanKey(c.planId, b.batchId));
    if KeyTaken(t, key) {
      var i :| i in t.decisions && t.decisions[i].key == Some(key);
      assert u.decisions[i] == t.decisions[i];
    }
    if KeyTaken(u, key) && !KeyTaken(t, key) {
      var i :| i in u.decisions && u.decisions[i].key == Some(key);
      assert i == t.nextId;
      PlanKeyInjective(c.planId, batchId, b.batchId);
    }
  }

  lemma BatchesAfterAssignment(t: Tables, c: Context, b: O.Batch, x: O.Assignment, orderId: string, batchId: string)
    requires orderId !in t.orders
    ensures BatchTaken(WithAssignment(t, c, b, x, orderId), c.request.customer, batchId) <==>
            BatchTaken(t, c.request.customer, batchId) || batchId == b.batchId
  {
    var u := WithAssignment(t, c, b, x, orderId);
    assert u.orders[orderId].order.customer == c.request.customer && u.orders[orderId].order.batchId == b.batchId;
    if BatchTaken(t, c.request.customer, batchId) {
      var o :| o in t.orders && t.orders[o].order.customer == c.request.customer
               && t.orders[o].order.batchId == batchId;
      assert u.orders[o] == t.orders[o];
    }
  }

  /** What one assignment's rows obstruct afterwards: their own batch and id, and nothing more. */
  lemma ClashesAfterAssignment(t: Tables, c: Context, b: O.Batch, x: O.Assignment, orderId: string, batchId: string,
                               id: string)
    requires Constrained(t) && orderId !in t.orders
    ensures AssignmentClashes(WithAssignment(t, c, b, x, orderId), c, batchId, id) <==>
            AssignmentClashes(t, c, batchId, id) || batchId == b.batchId || id == orderId
  {
    KeysAfterAssignment(t, c, b, x, orderId, batchId);
    BatchesAfterAssignment(t, c, b, x, orderId, batchId);
  }

  lemma AssignmentKeepsConstraints(t: Tables, c: Context, b: O.Batch, x: O.Assignment, orderId: string)
    requires Constrained(t) && !AssignmentClashes(t, c, b.batchId, orderId)
    ensures Constrained(WithAssignment(t, c, b, x, orderId))
  {
    var u := WithDecision(t, PlanDecision(c.request.customer, b, x, c.planId, c.at),
                           Some(PlanKey(c.planId, b.batchId)));
    assert Constrained(u) && !DecisionTaken(u, t.nextId);
    OrderInsertKeepsConstraints(u, PlanOrder(orderId, c.request.customer, b, x, c.at), t.nextId);
  }

  /** The rows go in exactly when every live assignment names a batch of the request, none meets an existing
      row, and no two are for one batch or share an id. */
  ghost predicate Enactable(t: Tables, c: Context, xs: seq<O.Assignment>, ids: seq<string>)
    requires |ids| == |xs|
  {
    Known(c, xs) && Unobstructed(t, c, xs, ids) && PairwiseDistinct(xs, ids)
  }

  lemma EnactableTail(t: Tables, c: Context, xs: seq<O.Assignment>, ids: seq<string>)
    requires |ids| == |xs| && xs != [] && xs[0].quantity == 0.0
    ensures Enactable(t, c, xs, ids) <==> Enactable(t, c, xs[1..], ids[1..])
  {
    forall i ensures Live(xs[1..], i) <==> Live(xs, i + 1) && 0 <= i {
    }
    if Enactable(t, c, xs[1..], ids[1..]) {
      forall i | Live(xs, i)
        ensures BatchFor(c.request.batches, xs[i].batchId).Some? && !AssignmentClashes(t, c, xs[i].batchId, ids[i])
      {
        assert Live(xs[1..], i - 1);
      }
      forall i, j | Live(xs, i) && Live(xs, j) && i < j ensures xs[i].batchId != xs[j].batchId && ids[i] != ids[j] {
        assert Live(xs[1..], i - 1) && Live(xs[1..], j - 1);
      }
    }
    if Enactable(t, c, xs, ids) {
      forall i | Live(xs[1..], i)
        ensures BatchFor(c.request.batches, xs[1..][i].batchId).Some?
        ensures !AssignmentClashes(t, c, xs[1..][i].batchId, ids[1..][i])
      {
        assert Live(xs, i + 1);
      }
      forall i, j | Live(xs[1..], i) && Live(xs[1..], j) && i < j
        ensures xs[1..][i].batchId != xs[1..][j].batchId && ids[1..][i] != ids[1..][j]
      {
        assert Live(xs, i + 1) && Live(xs, j + 1);
      }
    }
  }

  lemma EnactableHead(t: Tables, c: Context, xs: seq<O.Assignment>, ids: seq<string>, b: O.Batch)
    requires Constrained(t) && |ids| == |xs| && xs != [] && xs[0].quantity != 0.0
    requires BatchFor(c.request.batches, xs[0].batchId) == Some(b) && b.batchId == xs[0].batchId
    requires !AssignmentClashes(t, c, b.batchId, ids[0])
    ensures Enactable(t, c, xs, ids) <==> Enactable(WithAssignment(t, c, b, xs[0], ids[0]), c, xs[1..], ids[1..])
  {
    var u := WithAssignment(t, c, b, xs[0], ids[0]);
    assert Live(xs, 0);
    forall i | Live(xs, i) && i > 0
      ensures Live(xs[1..], i - 1)
      ensures AssignmentClashes(u, c, xs[i].batchId, ids[i]) <==>
              AssignmentClashes(t, c, xs[i].batchId, ids[i]) || xs[i].batchId == xs[0].batchId || ids[i] == ids[0]
    {
      ClashesAfterAssignment(t, c, b, xs[0], ids[0], xs[i].batchId, ids[i]);
    }
    if Enactable(t, c, xs, ids) {
      forall i | Live(xs[1..], i)
        ensures BatchFor(c.request.batches, xs[1..][i].batchId).Some?
        ensures !AssignmentClashes(u, c, xs[1..][i].batchId, ids[1..][i])
      {
        assert Live(xs, i + 1);
      }
      forall i, j | Live(xs[1..], i) && Live(xs[1..], j) && i < j
        ensures xs[1..][i].batchId != xs[1..][j].batchId && ids[1..][i] != ids[1..][j]
      {
        assert Live(xs, i + 1) && Live(xs, j + 1);
      }
    }
    if Enactable(u, c, xs[1..], ids[1..]) {
      forall i | Live(xs, i)
        ensures BatchFor(c.request.batches, xs[i].batchId).Some? && !AssignmentClashes(t, c, xs[i].batchId, ids[i])
      {
        if i > 0 {
          assert xs[1..][i - 1] == xs[i] && ids[1..][i - 1] == ids[i];
        }
      }
      forall i, j | Live(xs, i) && Live(xs, j) && i < j ensures xs[i].batchId != xs[j].batchId && ids[i] != ids[j] {
        assert Live(xs[1..], j - 1) && xs[1..][j - 1] == xs[j] && ids[1..][j - 1] == ids[j];
        if i > 0 {
          assert Live(xs[1..], i - 1) && xs[1..][i - 1] == xs[i] && ids[1..][i - 1] == ids[i];
        }
      }
    }
  }

  lemma {:induction false} EnactSucceedsIff(t: Tables, c: Context, xs: seq<O.Assignment>, ids: seq<string>)
    requires Constrained(t) && |ids| == |xs|
    ensures Enact(t, c, xs, ids).Ok? <==> Enactable(t, c, xs, ids)
    decreases xs
  {
    if xs != [] {
      if xs[0].quantity == 0.0 {
        EnactSucceedsIff(t, c, xs[1..], ids[1..]);
        EnactableTail(t, c, xs, ids);
      } else {
        assert Live(xs, 0);
        BatchForFinds(c.request.batches, xs[0].batchId);
        var found := BatchFor(c.request.batches, xs[0].batchId);
        if found.Some? && !AssignmentClashes(t, c, found.value.batchId, ids[0]) {
          var b := found.value;
          EnactableHead(t, c, xs, ids, b);
          AssignmentKeepsConstraints(t, c, b, xs[0], ids[0]);
          EnactSucceedsIff(WithAssignment(t, c, b, xs[0], ids[0]), c, xs[1..], ids[1..]);
        }
      }
    }
  }

  /** Whether executing a plan succeeds can be read off the tables beforehand. */
  lemma ExecutionSucceedsIff(t: Tables, planId: string, operator: string, at: Clock<int>, ids: seq<string>)
    requires Consistent(t) && (planId in t.plans ==> |ids| == |t.plans[planId].assignments|)
    ensures Execution(t, planId, operator, at, ids).Ok? <==>
      && at.Aware? && planId in t.plans && t.plans[planId].status == PendingApproval
      && Enactable(t, Context(planId, t.plans[planId].request, at.at), t.plans[planId].assignments, ids)
  {
    if at.Aware? && planId in t.plans {
      EnactSucceedsIff(t, Context(planId, t.plans[planId].request, at.at), t.plans[planId].assignments, ids);
    }
  }

  // ---------- What an execution adds ----------

  ghost function LiveIds(xs: seq<O.Assignment>, ids: seq<string>): set<string>
    requires |ids| == |xs|
  {
    set i | 0 <= i < |xs| && xs[i].quantity != 0.0 :: ids[i]
  }

  ghost function LiveCount(xs: seq<O.Assignment>): nat {
    if xs == [] then 0 else (if xs[0].quantity != 0.0 then 1 else 0) + LiveCount(xs[1..])
  }

  /** The assignment has its decision and, linked to it, its pending order. */
  ghost predicate PlacedFor(u: Tables, c: Context, b: O.Batch, x: O.Assignment, orderId: string) {
    && b in c.request.batches && b.batchId == x.batchId
    && orderId in u.orders && u.orders[orderId].decisionId in u.decisions
    && var material := if b.materialName == "" then b.batchId else b.materialName;
    && u.orders[orderId].order ==
       WorkOrder(orderId, x.batchId, c.request.customer, material, x.action, Pending, c.at, c.at, None)
    && u.decisions[u.orders[orderId].decisionId] ==
       DecisionRow(Decision(x.batchId, c.request.customer, material, c.at, x.action, Approved, 0.0, None, None,
                            Some("optimization plan " + c.planId)),
                   Some("optimization:" + c.planId + ":" + x.batchId))
  }

  ghost predicate Placed(u: Tables, c: Context, x: O.Assignment, orderId: string) {
    exists b :: PlacedFor(u, c, b, x, orderId)
  }

  /** Rows of `t` are still in `u`, unchanged. */
  ghost predicate Keeps(t: Tables, u: Tables) {
    && (forall o :: o in t.orders ==> o in u.orders && u.orders[o] == t.orders[o])
    && (forall i :: i in t.decisions ==> i in u.decisions && u.decisions[i] == t.decisions[i])
    && u.plans == t.plans
  }

  lemma PlacedStays(t: Tables, u: Tables, c: Context, x: O.Assignment, orderId: string)
    requires Placed(t, c, x, orderId) && Keeps(t, u)
    ensures Placed(u, c, x, orderId)
  {
    var b :| PlacedFor(t, c, b, x, orderId);
    assert PlacedFor(u, c, b, x, orderId);
  }

  lemma InsertGrows<K, V>(m: map<K, V>, k: K, v: V)
    requires k !in m
    ensures m[k := v].Keys == m.Keys + {k} && |m[k := v]| == |m| + 1
    ensures forall j :: j in m ==> m[k := v][j] == m[j]
  {
    assert |m[k := v].Keys| == |m.Keys| + 1;
  }

  lemma OneAssignmentKeeps(t: Tables, c: Context, b: O.Batch, x: O.Assignment, orderId: string)
    requires Constrained(t) && orderId !in t.orders
    ensures var u := WithAssignment(t, c, b, x, orderId);
      && Keeps(t, u) && u.orders.Keys == t.orders.Keys + {orderId} && |u.decisions| == |t.decisions| + 1
  {
    var u := WithAssignment(t, c, b, x, orderId);
    assert t.nextId !in t.decisions;
    InsertGrows(t.decisions, t.nextId, u.decisions[t.nextId]);
    InsertGrows(t.orders, orderId, u.orders[orderId]);
    assert u.decisions == t.decisions[t.nextId := u.decisions[t.nextId]];
    assert u.orders == t.orders[orderId := u.orders[orderId]];
  }

  lemma OneAssignmentPlaced(t: Tables, c: Context, b: O.Batch, x: O.Assignment, orderId: string)
    requires b in c.request.batches && b.batchId == x.batchId
    ensures Placed(WithAssignment(t, c, b, x, orderId), c, x, orderId)
  {
    assert PlacedFor(WithAssignment(t, c, b, x, orderId), c, b, x, orderId);
  }

  lemma LiveIdsHead(xs: seq<O.Assignment>, ids: seq<string>)
    requires |ids| == |xs| && xs != []
    ensures LiveIds(xs, ids) == (if xs[0].quantity != 0.0 then {ids[0]} else {}) + LiveIds(xs[1..], ids[1..])
  {
    forall i | 0 < i < |xs| && xs[i].quantity != 0.0 ensures ids[i] in LiveIds(xs[1..], ids[1..]) {
      assert xs[1..][i - 1] == xs[i] && ids[1..][i - 1] == ids[i];
    }
    forall i | 0 <= i < |xs| - 1 && xs[1..][i].quantity != 0.0 ensures ids[1..][i] in LiveIds(xs, ids) {
      assert xs[i + 1] == xs[1..][i] && ids[i + 1] == ids[1..][i];
    }
  }

  ghost predicate AllPlaced(u: Tables, c: Context, xs: seq<O.Assignment>, ids: seq<string>)
    requires |ids| == |xs|
  {
    forall i :: Live(xs, i) ==> Placed(u, c, xs[i], ids[i])
  }

  lemma AllPlacedHead(u: Tables, c: Context, xs: seq<O.Assignment>, ids: seq<string>)
    requires |ids| == |xs| && xs != [] && AllPlaced(u, c, xs[1..], ids[1..])
    requires xs[0].quantity != 0.0 ==> Placed(u, c, xs[0], ids[0])
    ensures AllPlaced(u, c, xs, ids)
  {
    forall i | Live(xs, i) ensures Placed(u, c, xs[i], ids[i]) {
      if i > 0 {
        assert Live(xs[1..], i - 1) && xs[1..][i - 1] == xs[i] && ids[1..][i - 1] == ids[i];
      }
    }
  }

  /** `u` is `t` with the rows of the live assignments and nothing else. */
  ghost predicate Adds(t: Tables, u: Tables, c: Context, xs: seq<O.Assignment>, ids: seq<string>)
    requires |ids| == |xs|
  {
    && Keeps(t, u) && u.orders.Keys == t.orders.Keys + LiveIds(xs, ids)
    && |u.decisions| == |t.decisions| + LiveCount(xs)
    && AllPlaced(u, c, xs, ids)
  }

  lemma KeepsIsTransitive(t: Tables, v: Tables, u: Tables)
    requires Keeps(t, v) && Keeps(v, u)
    ensures Keeps(t, u)
  {
  }

  lemma HeadPlaced(v: Tables, u: Tables, c: Context, xs: seq<O.Assignment>, ids: seq<string>)
    requires |ids| == |xs| && xs != [] && Keeps(v, u)
    requires Placed(v, c, xs[0], ids[0]) && AllPlaced(u, c, xs[1..], ids[1..])
    ensures AllPlaced(u, c, xs, ids)
  {
    PlacedStays(v, u, c, xs[0], ids[0]);
    AllPlacedHead(u, c, xs, ids);
  }

  lemma AddsHead(t: Tables, v: Tables, u: Tables, c: Context, xs: seq<O.Assignment>, ids: seq<string>)
    requires |ids| == |xs| && xs != [] && xs[0].quantity != 0.0
    requires Keeps(t, v) && v.orders.Keys == t.orders.Keys + {ids[0]} && |v.decisions| == |t.decisions| + 1
    requires Placed(v, c, xs[0], ids[0]) && Adds(v, u, c, xs[1..], ids[1..])
    ensures Adds(t, u, c, xs, ids)
  {
    assert Keeps(t, u) by {
      KeepsIsTransitive(t, v, u);
    }
    assert AllPlaced(u, c, xs, ids) by {
      HeadPlaced(v, u, c, xs, ids);
    }
    assert u.orders.Keys == t.orders.Keys + LiveIds(xs, ids) by {
      LiveIdsHead(xs, ids);
    }
    assert LiveCount(xs) == 1 + LiveCount(xs[1..]);
  }

  lemma NothingAdded(t: Tables, c: Context)
    ensures Adds(t, t, c, [], [])
  {
  }

  lemma AddsSkip(t: Tables, u: Tables, c: Context, xs: seq<O.Assignment>, ids: seq<string>)
    requires |ids| == |xs| && xs != [] && xs[0].quantity == 0.0 && Adds(t, u, c, xs[1..], ids[1..])
    ensures Adds(t, u, c, xs, ids)
  {
    LiveIdsHead(xs, ids);
    AllPlacedHead(u, c, xs, ids);
  }

  lemma {:induction false} EnactAdds(t: Tables, c: Context, xs: seq<O.Assignment>, ids: seq<string>)
    requires Constrained(t) && |ids| == |xs| && Enact(t, c, xs, ids).Ok?
    ensures Adds(t, Enact(t, c, xs, ids).value, c, xs, ids)
    decreases xs
  {
    hide Adds, Keeps, Placed;
    if xs == [] {
      NothingAdded(t, c);
    } else if xs[0].quantity == 0.0 {
      EnactAdds(t, c, xs[1..], ids[1..]);
      AddsSkip(t, Enact(t, c, xs, ids).value, c, xs, ids);
    } else {
      BatchForFinds(c.request.batches, xs[0].batchId);
      var b := BatchFor(c.request.batches, xs[0].batchId).value;
      var v := WithAssignment(t, c, b, xs[0], ids[0]);
      AssignmentKeepsConstraints(t, c, b, xs[0], ids[0]);
      OneAssignmentKeeps(t, c, b, xs[0], ids[0]);
      OneAssignmentPlaced(t, c, b, xs[0], ids[0]);
      EnactAdds(v, c, xs[1..], ids[1..]);
      AddsHead(t, v, Enact(t, c, xs, ids).value, c, xs, ids);
    }
  }

  /** Execution is all or nothing. On success every assignment with a quantity gains one decision and one
      pending order linked to it, nothing else is added or changed, and the plan is executed; on any error
      the three tables are as before. */
  lemma AllOrNothing(t: Tables, planId: string, operator: string, at: Clock<int>, ids: seq<string>)
    requires Consistent(t) && (planId in t.plans ==> |ids| == |t.plans[planId].assignments|)
    ensures var r := Execution(t, planId, operator, at, ids);
      var u := AfterExecution(t, planId, operator, at, ids);
      if r.Err? then u == t
      else
        var plan := t.plans[planId];
        var c := Context(planId, plan.request, at.at);
        && Keeps(t, u.(plans := t.plans))
        && u.plans == t.plans[planId := plan.(status := Executed, approval := Some(Approval(operator, at.at)))]
        && u.orders.Keys == t.orders.Keys + LiveIds(plan.assignments, ids)
        && |u.decisions| == |t.decisions| + LiveCount(plan.assignments)
        && AllPlaced(u, c, plan.assignments, ids)
  {
    if Execution(t, planId, operator, at, ids).Ok? {
      var plan := t.plans[planId];
      var c := Context(planId, plan.request, at.at);
      EnactAdds(t, c, plan.assignments, ids);
      var v := Enact(t, c, plan.assignments, ids).value;
      forall i | Live(plan.assignments, i)
        ensures Placed(AfterExecution(t, planId, operator, at, ids), c, plan.assignments[i], ids[i])
      {
        PlacedDespitePlans(v, AfterExecution(t, planId, operator, at, ids), c, plan.assignments[i], ids[i]);
      }
    }
  }

  lemma PlacedDespitePlans(t: Tables, u: Tables, c: Context, x: O.Assignment, orderId: string)
    requires Placed(t, c, x, orderId) && u == t.(plans := u.plans)
    ensures Placed(u, c, x, orderId)
  {
    var b :| PlacedFor(t, c, b, x, orderId);
    assert PlacedFor(u, c, b, x, orderId);
  }

  // ---------- Plans the API builds ----------

  /** In a plan built by the allocator every assignment names a batch of its request, and with distinct batch
      ids (as the repositories guarantee) no batch twice: the lookup never fails and only rows written by
      others can obstruct an execution. */
  lemma BaselinePlanIsEnactable(t: Tables, c: Context, ids: seq<string>)
    requires O.AllValid(c.request.batches) && O.Assignable(c.request)
    requires forall i, j :: 0 <= i < j < |c.request.batches| ==>
      c.request.batches[i].batchId != c.request.batches[j].batchId
    requires |ids| == |O.Allocated(c.request).assignments|
    requires forall i, j :: 0 <= i < j < |ids| ==> ids[i] != ids[j]
    ensures Known(c, O.Allocated(c.request).assignments)
    ensures Enactable(t, c, O.Allocated(c.request).assignments, ids) <==>
            Unobstructed(t, c, O.Allocated(c.request).assignments, ids)
  {
    var xs := O.Allocated(c.request).assignments;
    var queue := O.ByUrgency(c.request.batches);
    B.PlanIsFeasible(c.request);
    O.ByUrgencyMembers(c.request.batches);
    forall i | 0 <= i < |xs| ensures BatchFor(c.request.batches, xs[i].batchId).Some? {
      BatchForFinds(c.request.batches, xs[i].batchId);
      assert queue[i] in c.request.batches;
    }
    DistinctInAnyOrder(queue, c.request.batches);
  }

  lemma DistinctInAnyOrder(a: seq<O.Batch>, b: seq<O.Batch>)
    requires multiset(a) == multiset(b)
    requires forall i, j :: 0 <= i < j < |b| ==> b[i].batchId != b[j].batchId
    ensures forall i, j :: 0 <= i < j < |a| ==> a[i].batchId != a[j].batchId
  {
    forall i, j | 0 <= i < j < |a| ensures a[i].batchId != a[j].batchId {
      assert a[i] in multiset(b) && a[j] in multiset(b);
      var k :| 0 <= k < |b| && b[k] == a[i];
      var l :| 0 <= l < |b| && b[l] == a[j];
      OccursOnce(b, k);
      OnceMeansDistinct(a, i, j);
    }
  }

  lemma OnceMeansDistinct(a: seq<O.Batch>, i: nat, j: nat)
    requires i < j < |a| && multiset(a)[a[i]] == 1
    ensures a[i] != a[j]
  {
    assert a == a[..j] + ([a[j]] + a[j + 1..]);
    assert a[..j][i] == a[i];
    assert a[i] in multiset(a[..j]);
    assert multiset(a) == multiset(a[..j]) + multiset([a[j]]) + multiset(a[j + 1..]);
  }

  lemma OccursOnce(b: seq<O.Batch>, k: nat)
    requires k < |b| && forall i, j :: 0 <= i < j < |b| ==> b[i].batchId != b[j].batchId
    ensures multiset(b)[b[k]] == 1
  {
    assert b == b[..k] + ([b[k]] + b[k + 1..]);
    assert b[k] !in b[..k] && b[k] !in b[k + 1..];
    assert b[k] !in multiset(b[..k]) && b[k] !in multiset(b[k + 1..]);
    assert multiset(b) == multiset(b[..k]) + multiset([b[k]]) + multiset(b[k + 1..]);
  }
}
