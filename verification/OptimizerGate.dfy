/** The gate the allocator must pass at startup. */
module OptimizerGate {
  import opened Wrappers
  import opened Optimization
  import opened OptimizationBounds

  datatype Gate = Gate(
    passed: bool, caseCount: nat, deterministic: bool, capacitySafe: bool, assignmentComplete: bool,
    minimumCoverage: real, observedMinimum: real)

  ghost predicate ValidCases(cases: seq<Request>) {
    forall c :: c in cases ==> AllValid(c.batches)
  }

  /** The sum per action, as the gate's dictionary accumulates it. */
  method SumByAction(xs: seq<Assignment>) returns (used: map<Action, real>)
    ensures used.Keys == set x | x in xs :: x.action
    ensures forall a :: a in used ==> used[a] == Used(xs, a)
  {
    used := map[];
    var i := 0;
    while i < |xs|
      invariant 0 <= i <= |xs|
      invariant used.Keys == set x | x in xs[..i] :: x.action
      invariant forall a :: Used(xs[..i], a) == Get(used, a)
    {
      var x := xs[i];
      assert xs[..i + 1] == xs[..i] + [x];
      ghost var before := used;
      used := used[x.action := Get(used, x.action) + x.quantity];
      forall a ensures Used(xs[..i + 1], a) == Get(used, a) {
        UsedSplit(xs[..i], [x], a);
        assert Used([x], a) == (if x.action == a then x.quantity else 0.0) + Used([], a);
        assert Used(xs[..i], a) == Get(before, a);
      }
      i := i + 1;
    }
    assert xs[..i] == xs;
  }

  lemma {:induction false} TotalAtMostStock(batches: seq<Batch>, xs: seq<Assignment>)
    requires |xs| == |batches|
    requires forall i :: 0 <= i < |xs| ==> 0.0 <= xs[i].quantity <= batches[i].stock
    ensures 0.0 <= Total(xs) <= TotalStock(batches)
  {
    if xs != [] {
      TotalAtMostStock(batches[1..], xs[1..]);
    }
  }

  /** A returned plan covers a share of the stock between none and all of it. */
  lemma CoverageInRange(request: Request)
    requires AllValid(request.batches) && Assignable(request)
    ensures 0.0 <= Allocated(request).coverage <= 1.0
  {
    PlanIsFeasible(request);
    ByUrgencyMembers(request.batches);
    TotalAtMostStock(ByUrgency(request.batches), Allocated(request).assignments);
    StockOfMembers(ByUrgency(request.batches), request.batches);
    ShareInRange(Total(Allocated(request).assignments), TotalStock(request.batches));
  }

  lemma ShareInRange(part: real, whole: real)
    requires 0.0 <= part <= whole
    ensures whole != 0.0 ==> 0.0 <= part / whole <= 1.0
  {
  }

  /** No action of negative capacity is ever assigned, so the gate's capacity test cannot fail. */
  lemma UseWithinCapacity(request: Request, a: Action)
    requires AllValid(request.batches) && Assignable(request)
    requires exists x :: x in Allocated(request).assignments && x.action == a
    ensures Used(Allocated(request).assignments, a) <= Get(request.capacity, a)
  {
    PlanIsFeasible(request);
    ByUrgencyMembers(request.batches);
    if Get(request.capacity, a) < 0.0 {
      ClosedStaysUnused(ByUrgency(request.batches), request.capacity, a);
    }
  }

  lemma SameIds(queue: seq<Batch>, xs: seq<Assignment>)
    requires |xs| == |queue| && forall i :: 0 <= i < |xs| ==> xs[i].batchId == queue[i].batchId
    ensures (set x | x in xs :: x.batchId) == (set b | b in queue :: b.batchId)
  {
    forall b | b in queue ensures exists x :: x in xs && x.batchId == b.batchId {
      var i :| 0 <= i < |queue| && queue[i] == b;
      assert xs[i] in xs;
    }
    forall x | x in xs ensures exists b :: b in queue && b.batchId == x.batchId {
      var i :| 0 <= i < |xs| && xs[i] == x;
      assert queue[i] in queue;
    }
  }

  /** Every batch of the case appears in the plan, and nothing else does. */
  lemma PlanCoversBatches(request: Request)
    requires AllValid(request.batches) && Assignable(request)
    ensures (set x | x in Allocated(request).assignments :: x.batchId) == set b | b in request.batches :: b.batchId
  {
    PlanIsFeasible(request);
    ByUrgencyMembers(request.batches);
    SameIds(ByUrgency(request.batches), Allocated(request).assignments);
  }

  /** The smallest coverage of the cases. */
  ghost predicate IsMinimum(least: real, cases: seq<Request>)
    requires ValidCases(cases)
  {
    && (forall c :: c in cases ==> least <= Allocated(c).coverage)
    && (exists c :: c in cases && least == Allocated(c).coverage)
  }

  datatype Findings = Findings(coverage: real, deterministic: bool, complete: bool, capacitySafe: bool)

  /** One case: every test but the coverage is met by every plan. */
  method Inspect(c: Request) returns (r: Result<Findings, PlanError>)
    requires AllValid(c.batches)
    ensures r ==
      if Assignable(c) then Ok(Findings(Allocated(c).coverage, true, true, true)) else Err(NegativeAllocation)
  {
    var first := PriorityBaseline(c);
    if first.Err? {
      return Err(first.error);
    }
    var again := PriorityBaseline(c);
    var plan := first.value;
    PlanCoversBatches(c);
    var complete := (set x | x in plan.assignments :: x.batchId) == (set b | b in c.batches :: b.batchId);
    var used := SumByAction(plan.assignments);
    forall a | a in used ensures used[a] <= Get(c.capacity, a) {
      UseWithinCapacity(c, a);
    }
    var safe := forall a :: a in used ==> used[a] <= Get(c.capacity, a);
    return Ok(Findings(plan.coverage, first == again, complete, safe));
  }

  /** The gate passes exactly when the minimum coverage meets the threshold: determinism, completeness and
      capacity safety hold for every case the allocator can plan. */
  method EvaluateOptimizer(cases: seq<Request>, threshold: real) returns (r: Result<Gate, PlanError>)
    requires ValidCases(cases)
    ensures cases == [] ==> r == Err(NoCases)
    ensures cases != [] && !(forall c :: c in cases ==> Assignable(c)) ==> r == Err(NegativeAllocation)
    ensures cases != [] && (forall c :: c in cases ==> Assignable(c)) ==>
      if 0.0 <= threshold <= 1.0
      then r.Ok? && IsMinimum(r.value.observedMinimum, cases)
           && r.value == Gate(threshold <= r.value.observedMinimum, |cases|, true, true, true,
                              threshold, r.value.observedMinimum)
      else r == Err(BadThreshold)
  {
    if cases == [] {
      return Err(NoCases);
    }
    var deterministic, capacitySafe, complete := true, true, true;
    var rates: seq<real> := [];
    var i := 0;
    while i < |cases|
      invariant 0 <= i <= |cases| && |rates| == i
      invariant forall j :: 0 <= j < i ==> Assignable(cases[j]) && rates[j] == Allocated(cases[j]).coverage
      invariant deterministic && capacitySafe && complete
    {
      var found := Inspect(cases[i]);
      if found.Err? {
        return Err(found.error);
      }
      rates := rates + [found.value.coverage];
      deterministic := deterministic && found.value.deterministic;
      complete := complete && found.value.complete;
      capacitySafe := capacitySafe && found.value.capacitySafe;
      i := i + 1;
    }
    assert forall c :: c in cases ==> Assignable(c);
    var observed := Smallest(rates);
    MinimumOfRates(cases, rates, observed);
    var passed := deterministic && capacitySafe && complete && threshold <= observed;
    if !(0.0 <= threshold <= 1.0) {
      return Err(BadThreshold);
    }
    return Ok(Gate(passed, |cases|, deterministic, capacitySafe, complete, threshold, observed));
  }

  lemma MinimumOfRates(cases: seq<Request>, rates: seq<real>, least: real)
    requires ValidCases(cases) && |rates| == |cases|
    requires forall j :: 0 <= j < |cases| ==> rates[j] == Allocated(cases[j]).coverage
    requires least in rates && forall x :: x in rates ==> least <= x
    ensures IsMinimum(least, cases)
  {
    var j :| 0 <= j < |rates| && rates[j] == least;
    assert cases[j] in cases;
    forall c | c in cases ensures least <= Allocated(c).coverage {
      var k :| 0 <= k < |cases| && cases[k] == c;
      assert rates[k] in rates;
    }
  }

  /** Python's `min` of a non-empty list. */
  function Smallest(xs: seq<real>): (least: real)
    requires xs != []
    ensures least in xs && forall x :: x in xs ==> least <= x
  {
    if |xs| == 1 then xs[0]
    else
      var rest := Smallest(xs[1..]);
      assert forall x :: x in xs ==> x == xs[0] || x in xs[1..];
      if rest < xs[0] then rest else xs[0]
  }
}
