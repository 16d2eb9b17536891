/** The cross-batch allocator and its startup gate. Quantities are exact reals: floating-point rounding
    is not modelled. */
module Optimization {
  import opened Wrappers
  import opened TextOrder
  import opened StableSort

  datatype Action = Transform | DiscountClearance | EmployeeCanteen | TransferWarehouse | ReportLoss

  datatype Batch = Batch(batchId: string, materialName: string, daysLeft: int, stock: real, allowed: seq<Action>)

  datatype Request = Request(customer: string, batches: seq<Batch>, capacity: map<Action, real>)

  datatype Assignment = Assignment(batchId: string, action: Action, quantity: real)

  datatype Plan = Plan(assignments: seq<Assignment>, coverage: real)

  /** `NegativeAllocation` is the validation error of an assignment below zero. */
  datatype PlanError = NegativeAllocation | NoCases | BadThreshold

  /** The field constraints of a request. */
  ghost predicate ValidBatch(b: Batch) {
    0.0 <= b.stock && b.allowed != []
  }

  ghost predicate AllValid(batches: seq<Batch>) {
    forall b :: b in batches ==> ValidBatch(b)
  }

  // ---------- Urgency order ----------

  predicate MoreUrgent(a: Batch, b: Batch) {
    a.daysLeft < b.daysLeft || (a.daysLeft == b.daysLeft && Less(a.batchId, b.batchId))
  }

  function ByUrgency(batches: seq<Batch>): seq<Batch> {
    Sort(batches, MoreUrgent)
  }

  lemma UrgencyIsWeakOrder()
    ensures WeakOrder(MoreUrgent)
  {
    forall x: Batch, y: Batch, z: Batch
      ensures !MoreUrgent(x, x)
      ensures MoreUrgent(x, y) && MoreUrgent(y, z) ==> MoreUrgent(x, z)
      ensures !MoreUrgent(x, y) && !MoreUrgent(y, z) ==> !MoreUrgent(x, z)
    {
      LessIsTotal(x.batchId, x.batchId);
      LessIsTotal(x.batchId, y.batchId);
      LessIsTotal(y.batchId, z.batchId);
      LessIsTotal(x.batchId, z.batchId);
      if Less(x.batchId, y.batchId) && Less(y.batchId, z.batchId) {
        LessIsTransitive(x.batchId, y.batchId, z.batchId);
      }
      if Less(z.batchId, y.batchId) && Less(y.batchId, x.batchId) {
        LessIsTransitive(z.batchId, y.batchId, x.batchId);
      }
      if Less(x.batchId, z.batchId) && Less(z.batchId, y.batchId) {
        LessIsTransitive(x.batchId, z.batchId, y.batchId);
      }
    }
  }

  lemma ByUrgencyMembers(batches: seq<Batch>)
    ensures multiset(ByUrgency(batches)) == multiset(batches) && |ByUrgency(batches)| == |batches|
    ensures forall b :: b in ByUrgency(batches) <==> b in batches
    ensures Sorted(ByUrgency(batches), MoreUrgent)
  {
    var lt := MoreUrgent;
    SortMembers(batches, lt);
    UrgencyIsWeakOrder();
    SortSorts(batches, lt);
    forall b ensures b in ByUrgency(batches) <==> b in batches {
      assert b in ByUrgency(batches) <==> b in multiset(ByUrgency(batches));
    }
  }

  // ---------- The allocation as a function of the batches still to come ----------

  function Get(remaining: map<Action, real>, a: Action): real {
    if a in remaining then remaining[a] else 0.0
  }

  /** The first of the allowed actions with the most capacity left. */
  function Widest(allowed: seq<Action>, remaining: map<Action, real>): (best: Action)
    requires allowed != []
    ensures best in allowed
    ensures forall a :: a in allowed ==> Get(remaining, a) <= Get(remaining, best)
  {
    if |allowed| == 1 then allowed[0]
    else
      var rest := Widest(allowed[1..], remaining);
      assert forall a :: a in allowed ==> a == allowed[0] || a in allowed[1..];
      if Get(remaining, rest) <= Get(remaining, allowed[0]) then allowed[0] else rest
  }

  function Min(x: real, y: real): real {
    if x <= y then x else y
  }

  /** The assignment of the next batch. */
  function Assign(b: Batch, remaining: map<Action, real>): Assignment
    requires ValidBatch(b)
  {
    var action := Widest(b.allowed, remaining);
    Assignment(b.batchId, action, Min(b.stock, Get(remaining, action)))
  }

  function Spend(remaining: map<Action, real>, x: Assignment): map<Action, real> {
    remaining[x.action := Get(remaining, x.action) - x.quantity]
  }

  /** The assignments of a queue of batches, whatever their sign. */
  function Greedy(batches: seq<Batch>, remaining: map<Action, real>): seq<Assignment>
    requires AllValid(batches)
    decreases batches
  {
    if batches == [] then []
    else
      var x := Assign(batches[0], remaining);
      [x] + Greedy(batches[1..], Spend(remaining, x))
  }

  /** The capacity left after the first assignments. */
  function Remaining(batches: seq<Batch>, remaining: map<Action, real>): map<Action, real>
    requires AllValid(batches)
    decreases batches
  {
    if batches == [] then remaining
    else Remaining(batches[1..], Spend(remaining, Assign(batches[0], remaining)))
  }

  function Total(xs: seq<Assignment>): real {
    if xs == [] then 0.0 else xs[0].quantity + Total(xs[1..])
  }

  function TotalStock(batches: seq<Batch>): real {
    if batches == [] then 0.0 else batches[0].stock + TotalStock(batches[1..])
  }

  predicate NonNegative(xs: seq<Assignment>) {
    forall x :: x in xs ==> 0.0 <= x.quantity
  }

  lemma {:induction false} GreedyExtends(batches: seq<Batch>, b: Batch, remaining: map<Action, real>)
    requires AllValid(batches) && ValidBatch(b)
    ensures AllValid(batches + [b])
    ensures Greedy(batches + [b], remaining) ==
            Greedy(batches, remaining) + [Assign(b, Remaining(batches, remaining))]
    ensures Remaining(batches + [b], remaining) ==
            Spend(Remaining(batches, remaining), Assign(b, Remaining(batches, remaining)))
    decreases batches
  {
    assert forall x :: x in batches + [b] ==> x in batches || x == b;
    if batches != [] {
      assert (batches + [b])[1..] == batches[1..] + [b];
      GreedyExtends(batches[1..], b, Spend(remaining, Assign(batches[0], remaining)));
    } else {
      assert [b][1..] == [];
      assert batches + [b] == [b];
    }
  }

  lemma {:induction false} TotalSplit(xs: seq<Assignment>, ys: seq<Assignment>)
    ensures Total(xs + ys) == Total(xs) + Total(ys)
  {
    if xs == [] {
      assert xs + ys == ys;
    } else {
      assert (xs + ys)[1..] == xs[1..] + ys;
      TotalSplit(xs[1..], ys);
    }
  }

  lemma {:induction false} StockSplit(xs: seq<Batch>, ys: seq<Batch>)
    ensures TotalStock(xs + ys) == TotalStock(xs) + TotalStock(ys)
  {
    if xs == [] {
      assert xs + ys == ys;
    } else {
      assert (xs + ys)[1..] == xs[1..] + ys;
      StockSplit(xs[1..], ys);
    }
  }

  // ---------- The method ----------

  /** The plan the allocator returns when it returns one. */
  function Allocated(request: Request): Plan
    requires AllValid(request.batches)
  {
    ByUrgencyMembers(request.batches);
    var xs := Greedy(ByUrgency(request.batches), request.capacity);
    Plan(xs, Share(Total(xs), TotalStock(request.batches)))
  }

  function Share(placed: real, total: real): real {
    if total == 0.0 then 1.0 else placed / total
  }

  /** Whether every quantity is one an assignment may hold. */
  predicate Assignable(request: Request)
    requires AllValid(request.batches)
  {
    NonNegative(Allocated(request).assignments)
  }

  /** What the loop of the allocator has done after the first `i` batches. */
  ghost predicate Progress(queue: seq<Batch>, i: nat, capacity: map<Action, real>, remaining: map<Action, real>,
                           assignments: seq<Assignment>, placed: real)
  {
    && i <= |queue| && AllValid(queue[..i])
    && assignments == Greedy(queue[..i], capacity)
    && remaining == Remaining(queue[..i], capacity)
    && placed == Total(assignments) && NonNegative(assignments)
  }

  /** The assignment of a batch depends only on the batches before it. */
  lemma AssignedInTurn(queue: seq<Batch>, i: nat, capacity: map<Action, real>)
    requires AllValid(queue) && i < |queue|
    ensures AllValid(queue[..i]) && ValidBatch(queue[i]) && |Greedy(queue, capacity)| == |queue|
    ensures Greedy(queue, capacity)[i] == Assign(queue[i], Remaining(queue[..i], capacity))
  {
    assert queue[i] in queue;
    assert queue[..i] + queue[i..] == queue;
    GreedyPrefix(queue[..i], queue[i..], capacity);
    GreedyLength(queue[..i], capacity);
    GreedyLength(queue, capacity);
  }

  lemma Advance(queue: seq<Batch>, i: nat, capacity: map<Action, real>, remaining: map<Action, real>,
                assignments: seq<Assignment>, placed: real)
    requires AllValid(queue) && Progress(queue, i, capacity, remaining, assignments, placed) && i < |queue|
    ensures ValidBatch(queue[i])
    ensures var x := Assign(queue[i], remaining);
      if 0.0 <= x.quantity
      then Progress(queue, i + 1, capacity, Spend(remaining, x), assignments + [x], placed + x.quantity)
      else !NonNegative(Greedy(queue, capacity))
  {
    AssignedInTurn(queue, i, capacity);
    var x := Assign(queue[i], remaining);
    assert x in Greedy(queue, capacity);
    if 0.0 <= x.quantity {
      GreedyExtends(queue[..i], queue[i], capacity);
      assert queue[..i] + [queue[i]] == queue[..i + 1];
      TotalSplit(assignments, [x]);
      assert Total([x]) == x.quantity;
    }
  }

  lemma Begin(queue: seq<Batch>, capacity: map<Action, real>)
    requires AllValid(queue)
    ensures Progress(queue, 0, capacity, capacity, [], 0.0)
  {
  }

  lemma {:induction false} GreedyLength(batches: seq<Batch>, remaining: map<Action, real>)
    requires AllValid(batches)
    ensures |Greedy(batches, remaining)| == |batches|
    decreases batches
  {
    if batches != [] {
      GreedyLength(batches[1..], Spend(remaining, Assign(batches[0], remaining)));
    }
  }

  // ---------- What a plan is, told from the request alone ----------

  /** Fewer days left come first, and the smaller id among batches with equally many. */
  predicate NotAfter(a: Batch, b: Batch) {
    a.daysLeft < b.daysLeft || (a.daysLeft == b.daysLeft && AtMost(a.batchId, b.batchId))
  }

  /** The assignments are of the batches of the request, each of one allowed action within its stock, in the order of
      expiry. */
  ghost predicate ServesByExpiry(batches: seq<Batch>, queue: seq<Batch>, xs: seq<Assignment>) {
    && multiset(queue) == multiset(batches) && |xs| == |queue|
    && (forall i, j :: 0 <= i < j < |queue| ==> NotAfter(queue[i], queue[j]))
    && (forall i :: 0 <= i < |queue| ==>
          && xs[i].batchId == queue[i].batchId && xs[i].action in queue[i].allowed
          && xs[i].quantity <= queue[i].stock)
  }

  ghost predicate ByExpiry(batches: seq<Batch>, plan: Plan) {
    exists queue :: ServesByExpiry(batches, queue, plan.assignments)
  }

  /** The covered share of the stock, or all of it if there is none. */
  ghost predicate Covers(batches: seq<Batch>, plan: Plan) {
    if TotalStock(batches) == 0.0 then plan.coverage == 1.0
    else plan.coverage * TotalStock(batches) == Total(plan.assignments)
  }

  lemma PlanServesByExpiry(request: Request)
    requires AllValid(request.batches)
    ensures ServesByExpiry(request.batches, ByUrgency(request.batches), Allocated(request).assignments)
    ensures ByExpiry(request.batches, Allocated(request)) && Covers(request.batches, Allocated(request))
  {
    var queue := ByUrgency(request.batches);
    var xs := Allocated(request).assignments;
    ByUrgencyMembers(request.batches);
    GreedyLength(queue, request.capacity);
    forall i, j | 0 <= i < j < |queue|
      ensures NotAfter(queue[i], queue[j])
    {
      assert !MoreUrgent(queue[j], queue[i]);
    }
    forall i | 0 <= i < |queue|
      ensures xs[i].batchId == queue[i].batchId && xs[i].action in queue[i].allowed
      ensures xs[i].quantity <= queue[i].stock
    {
      AssignedInTurn(queue, i, request.capacity);
    }
    PlanCovers(request);
    hide Greedy, Total, TotalStock, Covers, Share;
  }

  lemma PlanCovers(request: Request)
    requires AllValid(request.batches)
    ensures Covers(request.batches, Allocated(request))
  {
    ShareOfTotal(Total(Allocated(request).assignments), TotalStock(request.batches));
    hide Share, Greedy, ByUrgency, Total, TotalStock;
  }

  lemma ShareOfTotal(placed: real, total: real)
    ensures total != 0.0 ==> Share(placed, total) * total == placed
    ensures total == 0.0 ==> Share(placed, total) == 1.0
  {
  }

  lemma End(request: Request, remaining: map<Action, real>, assignments: seq<Assignment>, placed: real)
    requires AllValid(request.batches) && AllValid(ByUrgency(request.batches))
    requires var queue := ByUrgency(request.batches);
      Progress(queue, |queue|, request.capacity, remaining, assignments, placed)
    ensures Assignable(request)
    ensures Allocated(request) == Plan(assignments, Share(placed, TotalStock(request.batches)))
    ensures ByExpiry(request.batches, Allocated(request)) && Covers(request.batches, Allocated(request))
  {
    var queue := ByUrgency(request.batches);
    assert queue[..|queue|] == queue;
    PlanServesByExpiry(request);
  }

  lemma Stuck(request: Request)
    requires AllValid(request.batches) && AllValid(ByUrgency(request.batches))
    requires !NonNegative(Greedy(ByUrgency(request.batches), request.capacity))
    ensures !Assignable(request)
  {
  }

  method PriorityBaseline(request: Request) returns (r: Result<Plan, PlanError>)
    requires AllValid(request.batches)
    ensures r == if Assignable(request) then Ok(Allocated(request)) else Err(NegativeAllocation)
    ensures r.Ok? ==> ByExpiry(request.batches, r.value) && Covers(request.batches, r.value)
  {
    hide Progress, Greedy, Total, NonNegative, Remaining, ByUrgency, TotalStock, Share;
    hide ByExpiry, Covers, Allocated, Assignable;
    var remaining := request.capacity;
    var assignments: seq<Assignment> := [];
    var placed := 0.0;
    var total := TotalStock(request.batches);
    var queue := ByUrgency(request.batches);
    ByUrgencyMembers(request.batches);
    Begin(queue, request.capacity);
    var i := 0;
    while i < |queue|
      invariant 0 <= i <= |queue| && Progress(queue, i, request.capacity, remaining, assignments, placed)
    {
      Advance(queue, i, request.capacity, remaining, assignments, placed);
      var b := queue[i];
      var action := Widest(b.allowed, remaining);
      var quantity := Min(b.stock, Get(remaining, action));
      if quantity < 0.0 {
        Stuck(request);
        return Err(NegativeAllocation);
      }
      remaining := remaining[action := Get(remaining, action) - quantity];
      placed := placed + quantity;
      assignments := assignments + [Assignment(b.batchId, action, quantity)];
      i := i + 1;
    }
    End(request, remaining, assignments, placed);
    return Ok(Plan(assignments, Share(placed, total)));
  }

  /** The assignments of a prefix of the queue are a prefix of the assignments. */
  lemma {:induction false} GreedyPrefix(first: seq<Batch>, rest: seq<Batch>, remaining: map<Action, real>)
    requires AllValid(first) && AllValid(first + rest)
    ensures AllValid(rest)
    ensures Greedy(first + rest, remaining) ==
            Greedy(first, remaining) + Greedy(rest, Remaining(first, remaining))
    ensures Remaining(first + rest, remaining) == Remaining(rest, Remaining(first, remaining))
    decreases first
  {
    assert forall b :: b in rest ==> b in first + rest;
    if first == [] {
      assert first + rest == rest;
    } else {
      assert (first + rest)[1..] == first[1..] + rest;
      GreedyPrefix(first[1..], rest, Spend(remaining, Assign(first[0], remaining)));
    }
  }
}
