/** What the allocator guarantees: when it fails, what a plan may use, how far it can be from any
    other plan, and that it does not depend on the order of its input. */
module OptimizationBounds {
  import opened Optimization
  import opened StableSort
  import opened TextOrder

  // ---------- Failure ----------

  ghost predicate SomeActionOpen(b: Batch, capacity: map<Action, real>) {
    exists a :: a in b.allowed && 0.0 <= Get(capacity, a)
  }

  lemma {:induction false} NonNegativeIffOpen(batches: seq<Batch>, remaining: map<Action, real>)
    requires AllValid(batches)
    ensures NonNegative(Greedy(batches, remaining)) <==> forall b :: b in batches ==> SomeActionOpen(b, remaining)
    decreases batches
  {
    if batches != [] {
      var b := batches[0];
      assert batches == [b] + batches[1..];
      assert ValidBatch(b);
      var x := Assign(b, remaining);
      var next := Spend(remaining, x);
      assert 0.0 <= x.quantity <==> SomeActionOpen(b, remaining);
      NonNegativeIffOpen(batches[1..], next);
      if 0.0 <= x.quantity {
        assert forall a :: 0.0 <= Get(next, a) <==> 0.0 <= Get(remaining, a);
        assert forall c :: SomeActionOpen(c, next) <==> SomeActionOpen(c, remaining);
      }
      assert Greedy(batches, remaining) == [x] + Greedy(batches[1..], next);
    }
  }

  /** The allocator fails exactly when some batch may only use actions of negative capacity,
      so never on the non-negative capacities the API accepts. */
  lemma FailsIffAllClosed(request: Request)
    requires AllValid(request.batches)
    ensures Assignable(request) <==> forall b :: b in request.batches ==> SomeActionOpen(b, request.capacity)
    ensures (forall a :: 0.0 <= Get(request.capacity, a)) ==> Assignable(request)
  {
    ByUrgencyMembers(request.batches);
    NonNegativeIffOpen(ByUrgency(request.batches), request.capacity);
    if forall a :: 0.0 <= Get(request.capacity, a) {
      forall b | b in request.batches ensures SomeActionOpen(b, request.capacity) {
        assert b.allowed[0] in b.allowed;
      }
    }
  }

  /** A capacity below zero can make a request fail that the request model accepts. */
  lemma NegativeCapacityCanFail() returns (request: Request)
    ensures AllValid(request.batches) && !Assignable(request)
  {
    var b := Batch("b", "", 1, 10.0, [Transform]);
    request := Request("customer", [b], map[Transform := -1.0]);
    assert b in request.batches;
    FailsIffAllClosed(request);
  }

  // ---------- Capacity accounting ----------

  /** The quantity placed on one action. */
  ghost function Used(xs: seq<Assignment>, a: Action): real {
    if xs == [] then 0.0 else (if xs[0].action == a then xs[0].quantity else 0.0) + Used(xs[1..], a)
  }

  /** Nothing is lost or used twice: use and remaining capacity add up, action by action. */
  lemma {:induction false} UsePlusRemaining(batches: seq<Batch>, capacity: map<Action, real>, a: Action)
    requires AllValid(batches)
    ensures Used(Greedy(batches, capacity), a) + Get(Remaining(batches, capacity), a) == Get(capacity, a)
    decreases batches
  {
    if batches != [] {
      UsePlusRemaining(batches[1..], Spend(capacity, Assign(batches[0], capacity)), a);
    }
  }

  lemma {:induction false} UsedSplit(xs: seq<Assignment>, ys: seq<Assignment>, a: Action)
    ensures Used(xs + ys, a) == Used(xs, a) + Used(ys, a)
  {
    if xs == [] {
      assert xs + ys == ys;
    } else {
      assert (xs + ys)[1..] == xs[1..] + ys;
      UsedSplit(xs[1..], ys, a);
    }
  }

  ghost function Cap(capacity: map<Action, real>, a: Action): real {
    if 0.0 <= Get(capacity, a) then Get(capacity, a) else 0.0
  }

  /** A plan for the batches in order: one allowed action each, at most the stock, within capacity. */
  ghost predicate Feasible(batches: seq<Batch>, xs: seq<Assignment>, capacity: map<Action, real>) {
    && |xs| == |batches|
    && (forall i :: 0 <= i < |xs| ==> xs[i].batchId == batches[i].batchId && xs[i].action in batches[i].allowed
                                      && 0.0 <= xs[i].quantity <= batches[i].stock)
    && (forall a :: Used(xs, a) <= Cap(capacity, a))
  }

  lemma {:induction false} RemainingStaysOpen(batches: seq<Batch>, capacity: map<Action, real>, a: Action)
    requires AllValid(batches) && NonNegative(Greedy(batches, capacity)) && 0.0 <= Get(capacity, a)
    ensures 0.0 <= Get(Remaining(batches, capacity), a)
    decreases batches
  {
    if batches != [] {
      var x := Assign(batches[0], capacity);
      assert Greedy(batches, capacity)[0] == x;
      assert Greedy(batches, capacity)[1..] == Greedy(batches[1..], Spend(capacity, x));
      RemainingStaysOpen(batches[1..], Spend(capacity, x), a);
    }
  }

  lemma {:induction false} ClosedStaysUnused(batches: seq<Batch>, capacity: map<Action, real>, a: Action)
    requires AllValid(batches) && NonNegative(Greedy(batches, capacity)) && Get(capacity, a) < 0.0
    ensures Used(Greedy(batches, capacity), a) == 0.0
    ensures forall x :: x in Greedy(batches, capacity) ==> x.action != a
    decreases batches
  {
    if batches != [] {
      var x := Assign(batches[0], capacity);
      assert Greedy(batches, capacity)[0] == x;
      assert x.action != a;
      assert Greedy(batches, capacity)[1..] == Greedy(batches[1..], Spend(capacity, x));
      ClosedStaysUnused(batches[1..], Spend(capacity, x), a);
    }
  }

  /** A plan the allocator returns is feasible, and gives every batch exactly one assignment. */
  lemma PlanIsFeasible(request: Request)
    requires AllValid(request.batches) && Assignable(request)
    ensures Feasible(ByUrgency(request.batches), Allocated(request).assignments, request.capacity)
  {
    var queue := ByUrgency(request.batches);
    var xs := Allocated(request).assignments;
    ByUrgencyMembers(request.batches);
    GreedyLength(queue, request.capacity);
    forall i | 0 <= i < |xs|
      ensures xs[i].batchId == queue[i].batchId
      ensures xs[i].action in queue[i].allowed && 0.0 <= xs[i].quantity <= queue[i].stock
    {
      AssignedInTurn(queue, i, request.capacity);
      assert xs[i] in xs;
    }
    forall a ensures Used(xs, a) <= Cap(request.capacity, a) {
      UsePlusRemaining(queue, request.capacity, a);
      if 0.0 <= Get(request.capacity, a) {
        RemainingStaysOpen(queue, request.capacity, a);
      } else {
        ClosedStaysUnused(queue, request.capacity, a);
      }
    }
  }

  // ---------- At least half of any other plan ----------

  /** How much the rival plan places on action `a` beyond what the greedy plan gives the same batches. */
  ghost function Excess(xs: seq<Assignment>, rival: seq<Assignment>, a: Action): real
    requires |xs| == |rival|
  {
    if xs == [] then 0.0
    else
      var n := |xs| - 1;
      Excess(xs[..n], rival[..n], a)
      + if rival[n].action == a && xs[n].quantity < rival[n].quantity then rival[n].quantity - xs[n].quantity else 0.0
  }

  ghost function TotalExcess(xs: seq<Assignment>, rival: seq<Assignment>): real
    requires |xs| == |rival|
  {
    Excess(xs, rival, Transform) + Excess(xs, rival, DiscountClearance) + Excess(xs, rival, EmployeeCanteen)
    + Excess(xs, rival, TransferWarehouse) + Excess(xs, rival, ReportLoss)
  }

  lemma {:induction false} RivalIsGreedyPlusExcess(xs: seq<Assignment>, rival: seq<Assignment>)
    requires |xs| == |rival|
    ensures Total(rival) <= Total(xs) + TotalExcess(xs, rival)
  {
    if xs != [] {
      var n := |xs| - 1;
      RivalIsGreedyPlusExcess(xs[..n], rival[..n]);
      assert xs == xs[..n] + [xs[n]] && rival == rival[..n] + [rival[n]];
      TotalSplit(xs[..n], [xs[n]]);
      TotalSplit(rival[..n], [rival[n]]);
    }
  }

  lemma {:induction false} TotalByAction(xs: seq<Assignment>)
    ensures Total(xs) == Used(xs, Transform) + Used(xs, DiscountClearance) + Used(xs, EmployeeCanteen)
                         + Used(xs, TransferWarehouse) + Used(xs, ReportLoss)
  {
    if xs != [] {
      TotalByAction(xs[1..]);
    }
  }

  /** When the rival first gets more for a batch, the greedy plan had already used up, together with that
      batch's own share, the whole capacity of the rival's action. */
  ghost predicate ExcessPaidFor(xs: seq<Assignment>, rival: seq<Assignment>, a: Action, cap: real)
    requires |xs| == |rival|
  {
    Excess(xs, rival, a) == 0.0 || Excess(xs, rival, a) + cap <= Used(rival, a) + Used(xs, a)
  }

  /** One more batch: where the rival gets more, the allocator had at most its own share left on that action. */
  lemma PaidForOneMore(xs: seq<Assignment>, rival: seq<Assignment>, x: Assignment, r: Assignment, a: Action,
                       cap: real, left: real)
    requires |xs| == |rival| && ExcessPaidFor(xs, rival, a, cap)
    requires Used(xs, a) + left == cap && 0.0 <= x.quantity && 0.0 <= r.quantity && 0.0 <= Used(rival, a)
    requires r.action == a && x.quantity < r.quantity ==> left <= x.quantity
    ensures ExcessPaidFor(xs + [x], rival + [r], a, cap)
  {
    UsedSplit(xs, [x], a);
    UsedSplit(rival, [r], a);
    assert Used([x], a) == (if x.action == a then x.quantity else 0.0) + Used([], a);
    assert Used([r], a) == (if r.action == a then r.quantity else 0.0) + Used([], a);
    assert (xs + [x])[..|xs|] == xs && (rival + [r])[..|xs|] == rival;
  }

  /** The rival gives each batch an allowed action and at most its stock. */
  ghost predicate Allowed(queue: seq<Batch>, rival: seq<Assignment>) {
    && |rival| == |queue|
    && forall i :: 0 <= i < |rival| ==>
      rival[i].action in queue[i].allowed && 0.0 <= rival[i].quantity <= queue[i].stock
  }

  lemma LastShare(queue: seq<Batch>, r: Assignment, capacity: map<Action, real>)
    requires AllValid(queue) && queue != [] && AllValid(queue[..|queue| - 1])
    requires r.action in queue[|queue| - 1].allowed && r.quantity <= queue[|queue| - 1].stock
    ensures var x := Assign(queue[|queue| - 1], Remaining(queue[..|queue| - 1], capacity));
      x.quantity < r.quantity ==> Get(Remaining(queue[..|queue| - 1], capacity), r.action) <= x.quantity
  {
  }

  lemma {:induction false} ExcessIsPaidFor(queue: seq<Batch>, rival: seq<Assignment>, capacity: map<Action, real>,
                                           a: Action)
    requires AllValid(queue) && NonNegative(Greedy(queue, capacity)) && Allowed(queue, rival)
    ensures |Greedy(queue, capacity)| == |queue|
    ensures ExcessPaidFor(Greedy(queue, capacity), rival, a, Get(capacity, a))
  {
    hide Assign, Remaining;
    GreedyLength(queue, capacity);
    if queue != [] {
      var n := |queue| - 1;
      var xs := Greedy(queue, capacity);
      AssignedInTurn(queue, n, capacity);
      assert queue == queue[..n] + [queue[n]];
      GreedyExtends(queue[..n], queue[n], capacity);
      GreedyLength(queue[..n], capacity);
      var before := Greedy(queue[..n], capacity);
      assert xs == before + [xs[n]] && rival == rival[..n] + [rival[n]];
      assert forall x :: x in before ==> x in xs;
      assert forall r :: r in rival[..n] ==> r in rival;
      ExcessIsPaidFor(queue[..n], rival[..n], capacity, a);
      UsePlusRemaining(queue[..n], capacity, a);
      UsedIsNonNegative(rival[..n], a);
      LastShare(queue, rival[n], capacity);
      assert xs[n] in xs;
      PaidForOneMore(before, rival[..n], xs[n], rival[n], a, Get(capacity, a), Get(Remaining(queue[..n], capacity), a));
    }
  }

  lemma {:induction false} UsedIsNonNegative(xs: seq<Assignment>, a: Action)
    requires NonNegative(xs)
    ensures 0.0 <= Used(xs, a)
  {
    if xs != [] {
      assert forall x :: x in xs[1..] ==> x in xs;
      UsedIsNonNegative(xs[1..], a);
    }
  }

  lemma {:induction false} NoExcessWithoutUse(xs: seq<Assignment>, rival: seq<Assignment>, a: Action)
    requires |xs| == |rival| && NonNegative(xs) && NonNegative(rival) && Used(rival, a) <= 0.0
    ensures Excess(xs, rival, a) == 0.0
  {
    if xs != [] {
      var n := |xs| - 1;
      assert rival == rival[..n] + [rival[n]];
      UsedSplit(rival[..n], [rival[n]], a);
      assert rival[n] in rival && xs[n] in xs;
      UsedIsNonNegative(rival[..n], a);
      NoExcessWithoutUse(xs[..n], rival[..n], a);
    }
  }

  lemma ExcessAtMostUse(queue: seq<Batch>, rival: seq<Assignment>, capacity: map<Action, real>, a: Action)
    requires AllValid(queue) && NonNegative(Greedy(queue, capacity)) && Feasible(queue, rival, capacity)
    ensures |Greedy(queue, capacity)| == |queue|
    ensures Excess(Greedy(queue, capacity), rival, a) <= Used(Greedy(queue, capacity), a)
  {
    GreedyLength(queue, capacity);
    UsedIsNonNegative(Greedy(queue, capacity), a);
    if 0.0 <= Get(capacity, a) {
      ExcessIsPaidFor(queue, rival, capacity, a);
    } else {
      NoExcessWithoutUse(Greedy(queue, capacity), rival, a);
    }
  }

  /** For the `n` most urgent batches, for every `n`: no feasible plan places more than twice what the
      allocator places on them. */
  lemma GreedyIsHalfOptimal(request: Request, n: nat, rival: seq<Assignment>)
    requires AllValid(request.batches) && Assignable(request) && n <= |request.batches|
    requires |ByUrgency(request.batches)| == |request.batches|
    requires Feasible(ByUrgency(request.batches)[..n], rival, request.capacity)
    ensures |Allocated(request).assignments| == |request.batches|
    ensures Total(rival) <= 2.0 * Total(Allocated(request).assignments[..n])
  {
    var queue := ByUrgency(request.batches);
    ByUrgencyMembers(request.batches);
    var first := queue[..n];
    assert first + queue[n..] == queue;
    GreedyPrefix(first, queue[n..], request.capacity);
    GreedyLength(first, request.capacity);
    GreedyLength(queue, request.capacity);
    var all := Greedy(queue, request.capacity);
    var xs := Greedy(first, request.capacity);
    assert all[..n] == xs;
    assert forall x :: x in xs ==> x in all;
    forall a ensures Excess(xs, rival, a) <= Used(xs, a) {
      ExcessAtMostUse(first, rival, request.capacity, a);
    }
    RivalIsGreedyPlusExcess(xs, rival);
    TotalByAction(xs);
  }

  /** The factor two is reached: a tie sends the first batch to the only action the second may use. */
  lemma HalfIsReached() returns (request: Request, rival: seq<Assignment>)
    ensures AllValid(request.batches) && Assignable(request)
    ensures Feasible(ByUrgency(request.batches), rival, request.capacity)
    ensures Total(rival) == 2.0 * Total(Allocated(request).assignments) > 0.0
  {
    var a := Batch("a", "", 1, 10.0, [Transform, ReportLoss]);
    var b := Batch("b", "", 2, 10.0, [Transform]);
    var capacity := map[Transform := 10.0, ReportLoss := 10.0];
    request := Request("customer", [a, b], capacity);
    rival := [Assignment("a", ReportLoss, 10.0), Assignment("b", Transform, 10.0)];
    var lt := MoreUrgent;
    assert [a, b][1..] == [b] && [b][1..] == [];
    assert Sort([b], lt) == Insert(b, [], lt) == [b];
    assert ByUrgency([a, b]) == [a, b];
    var afterA := Spend(capacity, Assign(a, capacity));
    assert [Transform, ReportLoss][1..] == [ReportLoss];
    assert Assign(a, capacity) == Assignment("a", Transform, 10.0);
    assert Assign(b, afterA) == Assignment("b", Transform, 0.0);
    assert Greedy([b], afterA) == [Assignment("b", Transform, 0.0)];
    assert Allocated(request).assignments == [Assignment("a", Transform, 10.0), Assignment("b", Transform, 0.0)];
    assert rival[1..] == [rival[1]] && [rival[1]][1..] == [];
    forall c ensures Used(rival, c) <= Cap(capacity, c) {
      assert Used(rival, c) == (if c == ReportLoss then 10.0 else 0.0) + Used([rival[1]], c);
    }
    var xs := Allocated(request).assignments;
    assert xs[1..] == [xs[1]] && [xs[1]][1..] == [];
    assert Total(xs) == 10.0 + Total([xs[1]]) == 10.0;
    assert Total(rival) == 10.0 + Total([rival[1]]) == 20.0;
  }

  // ---------- Order independence ----------

  ghost predicate DistinctIds(batches: seq<Batch>) {
    forall b, c :: b in batches && c in batches && b.batchId == c.batchId ==> b == c
  }

  /** Plans do not depend on the order in which the batches were loaded. */
  lemma InputOrderIrrelevant(request: Request, shuffled: seq<Batch>)
    requires AllValid(request.batches) && DistinctIds(request.batches)
    requires multiset(shuffled) == multiset(request.batches)
    ensures AllValid(shuffled) && Allocated(request.(batches := shuffled)) == Allocated(request)
  {
    forall b ensures b in shuffled <==> b in request.batches {
      assert b in shuffled <==> b in multiset(shuffled);
    }
    ByUrgencyMembers(request.batches);
    ByUrgencyMembers(shuffled);
    UrgencyIsWeakOrder();
    forall b, c | b in ByUrgency(shuffled) && c in ByUrgency(shuffled) && b != c
      ensures MoreUrgent(b, c) || MoreUrgent(c, b)
    {
      LessIsTotal(b.batchId, c.batchId);
    }
    SortedUnique(ByUrgency(shuffled), ByUrgency(request.batches), MoreUrgent);
    StockOfMembers(shuffled, request.batches);
  }

  lemma TakeOut(b: seq<Batch>, i: nat)
    requires i < |b|
    ensures multiset(b[..i] + b[i + 1..]) == multiset(b) - multiset{b[i]}
  {
    assert b == b[..i] + ([b[i]] + b[i + 1..]);
  }

  lemma StockWithout(b: seq<Batch>, i: nat)
    requires i < |b|
    ensures TotalStock(b) == b[i].stock + TotalStock(b[..i] + b[i + 1..])
  {
    assert TotalStock([b[i]]) == b[i].stock;
    hide TotalStock;
    assert b == b[..i] + ([b[i]] + b[i + 1..]);
    StockSplit(b[..i], [b[i]] + b[i + 1..]);
    StockSplit([b[i]], b[i + 1..]);
    StockSplit(b[..i], b[i + 1..]);
  }

  lemma {:induction false} StockOfMembers(a: seq<Batch>, b: seq<Batch>)
    requires multiset(a) == multiset(b)
    ensures TotalStock(a) == TotalStock(b)
  {
    if a == [] {
      assert |multiset(b)| == 0;
      assert b == [];
    } else {
      assert TotalStock(a) == a[0].stock + TotalStock(a[1..]);
      hide TotalStock;
      assert a[0] in multiset(b);
      var i :| 0 <= i < |b| && b[i] == a[0];
      TakeOut(b, i);
      StockWithout(b, i);
      assert a == [a[0]] + a[1..];
      assert multiset(a[1..]) == multiset(a) - multiset{a[0]};
      StockOfMembers(a[1..], b[..i] + b[i + 1..]);
    }
  }

  // ---------- One shared action ----------

  ghost predicate OnlyAction(batches: seq<Batch>, a: Action) {
    forall b, c :: b in batches && c in b.allowed ==> c == a
  }

  lemma {:induction false} SharedActionTotal(batches: seq<Batch>, remaining: map<Action, real>, a: Action)
    requires AllValid(batches) && OnlyAction(batches, a) && 0.0 <= Get(remaining, a)
    ensures Total(Greedy(batches, remaining)) == Min(TotalStock(batches), Get(remaining, a))
    decreases batches
  {
    if batches != [] {
      assert batches[0] in batches;
      var x := Assign(batches[0], remaining);
      assert forall b :: b in batches[1..] ==> b in batches;
      StockIsNonNegative(batches[1..]);
      SharedActionTotal(batches[1..], Spend(remaining, x), a);
    }
  }

  /** Once the shared action is used up nobody gets anything. */
  lemma {:induction false} NothingLeftNothingGiven(batches: seq<Batch>, remaining: map<Action, real>, a: Action, j: nat)
    requires AllValid(batches) && OnlyAction(batches, a) && Get(remaining, a) == 0.0
    requires j < |batches| == |Greedy(batches, remaining)|
    ensures Greedy(batches, remaining)[j].quantity == 0.0
    decreases batches
  {
    assert batches[0] in batches && forall b :: b in batches[1..] ==> b in batches;
    if j > 0 {
      var next := Spend(remaining, Assign(batches[0], remaining));
      GreedyLength(batches[1..], next);
      NothingLeftNothingGiven(batches[1..], next, a, j - 1);
    }
  }

  lemma {:induction false} ShortMeansUsedUp(batches: seq<Batch>, remaining: map<Action, real>, a: Action, i: nat,
                                            j: nat)
    requires AllValid(batches) && OnlyAction(batches, a) && 0.0 <= Get(remaining, a)
    requires i < j < |batches| == |Greedy(batches, remaining)|
    requires Greedy(batches, remaining)[i].quantity < batches[i].stock
    ensures Greedy(batches, remaining)[j].quantity == 0.0
    decreases batches
  {
    assert batches[0] in batches && forall b :: b in batches[1..] ==> b in batches;
    var next := Spend(remaining, Assign(batches[0], remaining));
    GreedyLength(batches[1..], next);
    if i == 0 {
      NothingLeftNothingGiven(batches[1..], next, a, j - 1);
    } else {
      ShortMeansUsedUp(batches[1..], next, a, i - 1, j - 1);
    }
  }

  ghost predicate UrgentFirst(queue: seq<Batch>, xs: seq<Assignment>)
    requires |xs| == |queue|
  {
    forall i, j | 0 <= i < |queue| && 0 <= j < |queue| && queue[i].daysLeft < queue[j].daysLeft ::
      xs[i].quantity < queue[i].stock ==> xs[j].quantity == 0.0
  }

  /** With one action to share, a batch gets less than its stock only if nobody after it gets anything, in particular no
      batch with more days left. */
  lemma SharedActionUrgentFirst(request: Request, a: Action)
    requires AllValid(request.batches) && OnlyAction(request.batches, a) && 0.0 <= Get(request.capacity, a)
    ensures exists queue :: ServesByExpiry(request.batches, queue, Allocated(request).assignments)
                            && UrgentFirst(queue, Allocated(request).assignments)
  {
    var (queue, xs) := (ByUrgency(request.batches), Allocated(request).assignments);
    ByUrgencyMembers(request.batches);
    PlanServesByExpiry(request);
    forall i, j | 0 <= i < |queue| && 0 <= j < |queue| && queue[i].daysLeft < queue[j].daysLeft
                  && xs[i].quantity < queue[i].stock
      ensures xs[j].quantity == 0.0
    {
      assert j < i ==> NotAfter(queue[j], queue[i]);
      ShortMeansUsedUp(queue, request.capacity, a, i, j);
    }
  }

  // ---------- Each choice, told from the choices before it ----------

  /** What the assignments so far leave of an action. */
  ghost function LeftOf(request: Request, xs: seq<Assignment>, a: Action): real {
    Get(request.capacity, a) - Used(xs, a)
  }

  /** The `i`-th batch gets the first of its allowed actions with the most capacity left, and as much of it as there is
      and it needs. */
  ghost predicate Chosen(request: Request, b: Batch, xs: seq<Assignment>, x: Assignment) {
    && x.quantity == Min(b.stock, LeftOf(request, xs, x.action))
    && exists k :: 0 <= k < |b.allowed| && b.allowed[k] == x.action
         && (forall l :: 0 <= l < k ==> LeftOf(request, xs, b.allowed[l]) < LeftOf(request, xs, x.action))
         && (forall l :: k < l < |b.allowed| ==> LeftOf(request, xs, b.allowed[l]) <= LeftOf(request, xs, x.action))
  }

  predicate IsFirstWidest(allowed: seq<Action>, remaining: map<Action, real>, k: nat)
    requires k < |allowed|
  {
    && (forall l :: 0 <= l < k ==> Get(remaining, allowed[l]) < Get(remaining, allowed[k]))
    && (forall l :: k < l < |allowed| ==> Get(remaining, allowed[l]) <= Get(remaining, allowed[k]))
  }

  lemma {:induction false} WidestIsFirst(allowed: seq<Action>, remaining: map<Action, real>)
    requires allowed != []
    ensures exists k :: 0 <= k < |allowed| && IsFirstWidest(allowed, remaining, k)
                        && allowed[k] == Widest(allowed, remaining)
  {
    var rest := allowed[1..];
    if rest == [] {
      assert IsFirstWidest(allowed, remaining, 0);
    } else {
      WidestIsFirst(rest, remaining);
      var k :| 0 <= k < |rest| && IsFirstWidest(rest, remaining, k) && rest[k] == Widest(rest, remaining);
      WidestOfTail(allowed, remaining, k);
    }
  }

  lemma WidestOfTail(allowed: seq<Action>, remaining: map<Action, real>, k: nat)
    requires allowed != [] && k < |allowed[1..]| && IsFirstWidest(allowed[1..], remaining, k)
    ensures if Get(remaining, allowed[1..][k]) <= Get(remaining, allowed[0]) then IsFirstWidest(allowed, remaining, 0)
            else IsFirstWidest(allowed, remaining, k + 1)
  {
    hide Get;
    forall l | 0 < l < |allowed|
      ensures allowed[l] == allowed[1..][l - 1]
    {
    }
  }

  lemma EachChoiceIsGreedy(request: Request, i: nat)
    requires AllValid(request.batches)
    requires i < |ByUrgency(request.batches)|
    ensures i < |Allocated(request).assignments|
    ensures Chosen(request, ByUrgency(request.batches)[i], Allocated(request).assignments[..i],
                   Allocated(request).assignments[i])
  {
    var (queue, xs) := (ByUrgency(request.batches), Allocated(request).assignments);
    ByUrgencyMembers(request.batches);
    AssignedInTurn(queue, i, request.capacity);
    var remaining := Remaining(queue[..i], request.capacity);
    assert queue[..i] + queue[i..] == queue;
    GreedyPrefix(queue[..i], queue[i..], request.capacity);
    GreedyLength(queue[..i], request.capacity);
    assert xs[..i] == Greedy(queue[..i], request.capacity);
    forall a
      ensures LeftOf(request, xs[..i], a) == Get(remaining, a)
    {
      UsePlusRemaining(queue[..i], request.capacity, a);
    }
    AssignChooses(request, queue[i], xs[..i], remaining);
    hide Used, Greedy, Remaining, Chosen, ByUrgency, Assign;
  }

  lemma AssignChooses(request: Request, b: Batch, xs: seq<Assignment>, remaining: map<Action, real>)
    requires ValidBatch(b) && forall a :: LeftOf(request, xs, a) == Get(remaining, a)
    ensures Chosen(request, b, xs, Assign(b, remaining))
  {
    WidestIsFirst(b.allowed, remaining);
    hide LeftOf, Get;
  }

  lemma {:induction false} StockIsNonNegative(batches: seq<Batch>)
    requires AllValid(batches)
    ensures 0.0 <= TotalStock(batches)
  {
    if batches != [] {
      assert batches[0] in batches;
      assert forall b :: b in batches[1..] ==> b in batches;
      StockIsNonNegative(batches[1..]);
    }
  }

  /** With one action to share, capacity is filled strictly in order of expiry: the `n` most urgent
      batches together get all their stock, or all the capacity. */
  lemma SharedActionFillsInOrder(request: Request, a: Action, n: nat)
    requires AllValid(request.batches) && OnlyAction(request.batches, a) && 0.0 <= Get(request.capacity, a)
    requires n <= |request.batches| == |ByUrgency(request.batches)|
    ensures |Allocated(request).assignments| == |request.batches|
    ensures Total(Allocated(request).assignments[..n])
            == Min(TotalStock(ByUrgency(request.batches)[..n]), Get(request.capacity, a))
  {
    var queue := ByUrgency(request.batches);
    ByUrgencyMembers(request.batches);
    assert queue[..n] + queue[n..] == queue;
    assert forall b :: b in queue[..n] ==> b in queue;
    GreedyPrefix(queue[..n], queue[n..], request.capacity);
    GreedyLength(queue[..n], request.capacity);
    GreedyLength(queue, request.capacity);
    assert Greedy(queue, request.capacity)[..n] == Greedy(queue[..n], request.capacity);
    SharedActionTotal(queue[..n], request.capacity, a);
  }
}
