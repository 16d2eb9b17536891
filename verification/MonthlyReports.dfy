/** Loading a month of decisions and reducing it to the numbers of the monthly report. */
module MonthlyReports {
  import opened Wrappers
  import opened Counting
  import opened StableSort
  import opened Optimization
  import opened WorkOrders
  import opened Months

  datatype Tally = Tally(action: Action, approvedCount: nat, savings: real)

  datatype Report = Report(
    month: string, totalCount: nat, approvedCount: nat, executedCount: nat, verifiedCount: nat, approvalRate: real,
    estimate: real, executedEstimate: real, actual: real, topActions: seq<Tally>, caseStudies: seq<Decision>,
    baseline: real, fee: real, roi: real)

  datatype ReportError = MonthMismatch | NegativeBaseline

  // ---------- The decision model and its sums ----------

  function OrZero(x: Option<real>): real {
    if x.Some? then x.value else 0.0
  }

  function Saved(d: Decision): real {
    OrZero(d.actualSavings)
  }

  function Estimated(d: Decision): real {
    d.savingsEstimate
  }

  predicate IsExecuted(d: Decision) {
    d.actualQty.Some?
  }

  predicate IsVerified(d: Decision) {
    d.actualSavings.Some?
  }

  function OfAction(action: Action): Decision -> bool {
    (d: Decision) => d.action == action
  }

  /** The savings fields are `NonNegativeFloat`s. */
  ghost predicate Valued(decisions: seq<Decision>) {
    forall d :: d in decisions ==> 0.0 <= d.savingsEstimate && 0.0 <= Saved(d)
  }

  function Where(s: seq<Decision>, p: Decision -> bool): seq<Decision> {
    if s == [] then [] else Where(s[..|s| - 1], p) + if p(s[|s| - 1]) then [s[|s| - 1]] else []
  }

  function Sum(s: seq<Decision>, f: Decision -> real): real {
    if s == [] then 0.0 else Sum(s[..|s| - 1], f) + f(s[|s| - 1])
  }

  lemma {:induction false} WhereMembers(s: seq<Decision>, p: Decision -> bool)
    ensures forall d :: d in Where(s, p) <==> d in s && p(d)
    ensures |Where(s, p)| <= |s|
  {
    if s != [] {
      WhereMembers(s[..|s| - 1], p);
      assert s == s[..|s| - 1] + [s[|s| - 1]];
    }
  }

  lemma WhereSnoc(s: seq<Decision>, d: Decision, p: Decision -> bool, f: Decision -> real)
    ensures Where(s + [d], p) == Where(s, p) + if p(d) then [d] else []
    ensures Sum(s + [d], f) == Sum(s, f) + f(d)
  {
    assert (s + [d])[..|s|] == s;
  }

  lemma {:induction false} SumConcat(s: seq<Decision>, t: seq<Decision>, f: Decision -> real)
    ensures Sum(s + t, f) == Sum(s, f) + Sum(t, f)
  {
    if t == [] {
      assert s + t == s;
    } else {
      assert (s + t)[..|s + t| - 1] == s + t[..|t| - 1];
      SumConcat(s, t[..|t| - 1], f);
    }
  }

  lemma {:induction false} SumNonNegative(s: seq<Decision>, f: Decision -> real)
    requires forall d :: d in s ==> 0.0 <= f(d)
    ensures 0.0 <= Sum(s, f)
  {
    if s != [] {
      SumNonNegative(s[..|s| - 1], f);
    }
  }

  /** Decisions without a receipt save nothing, so leaving them out of the sum changes nothing. */
  lemma {:induction false} OnlyVerifiedSave(s: seq<Decision>)
    ensures Sum(Where(s, IsVerified), Saved) == Sum(s, Saved)
  {
    if s != [] {
      OnlyVerifiedSave(s[..|s| - 1]);
      var (front, d) := (s[..|s| - 1], s[|s| - 1]);
      assert s == front + [d];
      WhereSnoc(front, d, IsVerified, Saved);
      WhereSnoc(Where(front, IsVerified), d, IsVerified, Saved);
      assert Where(front, IsVerified) + [] == Where(front, IsVerified);
    }
  }

  // ---------- Tallies ----------

  function TallyOf(s: seq<Decision>, action: Action): Tally {
    Tally(action, |Where(s, OfAction(action))|, Sum(Where(s, OfAction(action)), Saved))
  }

  function Tallies(s: seq<Decision>, actions: seq<Action>): (r: seq<Tally>) {
    seq(|actions|, i requires 0 <= i < |actions| => TallyOf(s, actions[i]))
  }

  function Count(tallies: seq<Tally>): nat {
    if tallies == [] then 0 else tallies[0].approvedCount + Count(tallies[1..])
  }

  function Total(tallies: seq<Tally>): real {
    if tallies == [] then 0.0 else tallies[0].savings + Total(tallies[1..])
  }

  /** The actions in the order of their first decision: the key order of the grouping dict. */
  function Actions(s: seq<Decision>): seq<Action> {
    if s == [] then []
    else
      var before := Actions(s[..|s| - 1]);
      if s[|s| - 1].action in before then before else before + [s[|s| - 1].action]
  }

  ghost predicate Distinct<T>(s: seq<T>) {
    forall i, j :: 0 <= i < j < |s| ==> s[i] != s[j]
  }

  lemma {:induction false} ActionsOnce(s: seq<Decision>)
    ensures Distinct(Actions(s))
    ensures forall a :: a in Actions(s) <==> exists d :: d in s && d.action == a
  {
    if s != [] {
      ActionsOnce(s[..|s| - 1]);
      assert s == s[..|s| - 1] + [s[|s| - 1]];
      forall a | a in Actions(s)
        ensures exists d :: d in s && d.action == a
      {
        if a in Actions(s[..|s| - 1]) {
          var d :| d in s[..|s| - 1] && d.action == a;
          assert d in s;
        } else {
          assert s[|s| - 1] in s;
        }
      }
    }
  }

  lemma TallyGrows(s: seq<Decision>, d: Decision, action: Action)
    ensures TallyOf(s + [d], action) ==
            if d.action == action
            then Tally(action, TallyOf(s, action).approvedCount + 1, TallyOf(s, action).savings + Saved(d))
            else TallyOf(s, action)
  {
    hide Where, Sum;
    var group := Where(s, OfAction(action));
    WhereSnoc(s, d, OfAction(action), Saved);
    WhereSnoc(group, d, OfAction(action), Saved);
    assert group + [] == group;
  }

  lemma TalliesSplit(s: seq<Decision>, actions: seq<Action>)
    requires actions != []
    ensures Count(Tallies(s, actions)) == TallyOf(s, actions[0]).approvedCount + Count(Tallies(s, actions[1..]))
    ensures Total(Tallies(s, actions)) == TallyOf(s, actions[0]).savings + Total(Tallies(s, actions[1..]))
  {
    assert Tallies(s, actions)[1..] == Tallies(s, actions[1..]);
  }

  /** Another decision adds itself to the tally of its action alone. */
  lemma {:induction false} OneMoreTallied(s: seq<Decision>, d: Decision, actions: seq<Action>)
    requires Distinct(actions)
    ensures Count(Tallies(s + [d], actions)) == Count(Tallies(s, actions)) + if d.action in actions then 1 else 0
    ensures Total(Tallies(s + [d], actions)) ==
      Total(Tallies(s, actions)) + if d.action in actions then Saved(d) else 0.0
  {
    if actions != [] {
      OneMoreTallied(s, d, actions[1..]);
      TallyGrows(s, d, actions[0]);
      TalliesSplit(s, actions);
      TalliesSplit(s + [d], actions);
      assert d.action in actions <==> d.action == actions[0] || d.action in actions[1..];
      assert actions[0] !in actions[1..];
    }
  }

  lemma {:induction false} NothingTallied(actions: seq<Action>)
    ensures Count(Tallies([], actions)) == 0 && Total(Tallies([], actions)) == 0.0
  {
    if actions != [] {
      NothingTallied(actions[1..]);
      assert Tallies([], actions)[1..] == Tallies([], actions[1..]);
    }
  }

  /** The tallies of all occurring actions account for every decision and every saving. */
  lemma {:induction false} TalliesAddUp(s: seq<Decision>, actions: seq<Action>)
    requires Distinct(actions) && forall d :: d in s ==> d.action in actions
    ensures Count(Tallies(s, actions)) == |s|
    ensures Total(Tallies(s, actions)) == Sum(s, Saved)
  {
    if s == [] {
      NothingTallied(actions);
    } else {
      var (front, d) := (s[..|s| - 1], s[|s| - 1]);
      assert s == front + [d];
      TalliesAddUp(front, actions);
      OneMoreTallied(front, d, actions);
    }
  }

  predicate MoreTotal(x: Tally, y: Tally) {
    x.savings > y.savings
  }

  predicate MoreSaved(d: Decision, e: Decision) {
    Saved(d) > Saved(e)
  }

  lemma {:induction false} InsertTotals(x: Tally, s: seq<Tally>)
    ensures Count(Insert(x, s, MoreTotal)) == x.approvedCount + Count(s)
    ensures Total(Insert(x, s, MoreTotal)) == x.savings + Total(s)
  {
    if s != [] && MoreTotal(s[0], x) {
      InsertTotals(x, s[1..]);
      assert Insert(x, s, MoreTotal)[1..] == Insert(x, s[1..], MoreTotal);
    } else {
      assert ([x] + s)[1..] == s;
    }
  }

  lemma {:induction false} SortTotals(s: seq<Tally>)
    ensures Count(Sort(s, MoreTotal)) == Count(s) && Total(Sort(s, MoreTotal)) == Total(s)
  {
    if s != [] {
      SortTotals(s[1..]);
      InsertTotals(s[0], Sort(s[1..], MoreTotal));
    }
  }

  function AllActions(): set<Action> {
    {Transform, DiscountClearance, EmployeeCanteen, TransferWarehouse, ReportLoss}
  }

  lemma {:induction false} DistinctSetSize(s: seq<Action>)
    requires Distinct(s)
    ensures |s| == |set a | a in s|
  {
    if s != [] {
      var front := s[..|s| - 1];
      DistinctSetSize(front);
      assert (set a | a in s) == (set a | a in front) + {s[|s| - 1]};
    }
  }

  /** There are five kinds of action, so a cut after five tallies cuts nothing. */
  lemma AtMostFive(s: seq<Action>)
    requires Distinct(s)
    ensures |s| <= 5
  {
    DistinctSetSize(s);
    forall a | a in s
      ensures a in AllActions()
    {
      match a case Transform => case _ =>
    }
    SubsetSize((set a | a in s), AllActions());
  }

  // ---------- The report ----------

  /** Pricing tiers of the annual baseline loss. */
  function MonthlyFee(baseline: real): (fee: real)
    ensures fee > 0.0
  {
    (if baseline < 1_000_000.0 then 80_000.0 else if baseline < 3_000_000.0 then 150_000.0 else 300_000.0) / 12.0
  }

  function UpTo<T>(s: seq<T>, n: nat): seq<T> {
    if |s| <= n then s else s[..n]
  }

  function Ratio(part: nat, whole: nat): real {
    if whole == 0 then 0.0 else part as real / whole as real
  }

  /** The report's month must be spelled without the newline that the window's pattern lets through. */
  predicate IsMonthName(month: string) {
    |month| == 7 && ParseMonth(month).Ok?
  }

  function ReportOf(decisions: seq<Decision>, month: string, baseline: real): Report {
    var approved := Where(decisions, IsApproved);
    var verified := Where(approved, IsVerified);
    var executed := Where(approved, IsExecuted);
    Report(month, |decisions|, |approved|, |executed|, |verified|, Ratio(|approved|, |decisions|),
           Sum(approved, Estimated), Sum(executed, Estimated), Sum(verified, Saved),
           UpTo(Sort(Tallies(approved, Actions(approved)), MoreTotal), 5), UpTo(Sort(verified, MoreSaved), 3),
           baseline, MonthlyFee(baseline), Sum(verified, Saved) / MonthlyFee(baseline))
  }

  /** The grouping of the decisions: the actions in order, and the decisions of each. */
  ghost predicate Grouped(s: seq<Decision>, keys: seq<Action>, groups: map<Action, seq<Decision>>) {
    && keys == Actions(s) && (forall a :: a in groups <==> a in keys)
    && (forall a :: Where(s, OfAction(a)) == if a in groups then groups[a] else [])
  }

  lemma NothingGrouped()
    ensures Grouped([], [], map[])
  {
  }

  lemma ActionsSnoc(s: seq<Decision>, d: Decision)
    ensures Actions(s + [d]) == if d.action in Actions(s) then Actions(s) else Actions(s) + [d.action]
  {
    assert (s + [d])[..|s|] == s;
  }

  lemma WhereActionSnoc(s: seq<Decision>, d: Decision, a: Action)
    ensures Where(s + [d], OfAction(a)) == if a == d.action then Where(s, OfAction(a)) + [d] else Where(s, OfAction(a))
  {
    WhereSnoc(s, d, OfAction(a), Saved);
    hide Where;
    assert Where(s, OfAction(a)) + [] == Where(s, OfAction(a));
  }

  /** One more decision goes to the end of its group, or begins a group. */
  lemma GroupedSnoc(s: seq<Decision>, d: Decision, keys: seq<Action>, groups: map<Action, seq<Decision>>)
    requires Grouped(s, keys, groups)
    ensures if d.action in groups then Grouped(s + [d], keys, groups[d.action := groups[d.action] + [d]])
            else Grouped(s + [d], keys + [d.action], groups[d.action := [d]])
  {
    hide Where, Actions, OfAction;
    ActionsSnoc(s, d);
    forall a
      ensures Where(s + [d], OfAction(a)) ==
        if a == d.action then Where(s, OfAction(a)) + [d] else Where(s, OfAction(a))
    {
      WhereActionSnoc(s, d, a);
    }
    assert [] + [d] == [d];
  }

  /** Groups the approved decisions by action in one pass. */
  method GroupByAction(approved: seq<Decision>) returns (keys: seq<Action>, groups: map<Action, seq<Decision>>)
    ensures keys == Actions(approved) && groups.Keys == set a | a in keys
    ensures forall a :: a in groups ==> groups[a] == Where(approved, OfAction(a))
  {
    keys, groups := [], map[];
    NothingGrouped();
    for i := 0 to |approved|
      invariant Grouped(approved[..i], keys, groups)
    {
      hide Grouped;
      var d := approved[i];
      assert approved[..i + 1] == approved[..i] + [d];
      GroupedSnoc(approved[..i], d, keys, groups);
      if d.action in groups {
        groups := groups[d.action := groups[d.action] + [d]];
      } else {
        keys := keys + [d.action];
        groups := groups[d.action := [d]];
      }
    }
    assert approved[..|approved|] == approved;
  }

  method SumUp(s: seq<Decision>, f: Decision -> real) returns (sum: real)
    ensures sum == Sum(s, f)
  {
    sum := 0.0;
    for i := 0 to |s|
      invariant sum == Sum(s[..i], f)
    {
      sum := sum + f(s[i]);
      assert s[..i + 1][..i] == s[..i];
    }
    assert s[..|s|] == s;
  }

  method TallyGroups(ghost approved: seq<Decision>, keys: seq<Action>, groups: map<Action, seq<Decision>>)
      returns (tallies: seq<Tally>)
    requires forall a :: a in keys ==> a in groups && groups[a] == Where(approved, OfAction(a))
    ensures tallies == Tallies(approved, keys)
  {
    tallies := [];
    for i := 0 to |keys|
      invariant tallies == Tallies(approved, keys[..i])
    {
      var savings := SumUp(groups[keys[i]], Saved);
      tallies := tallies + [Tally(keys[i], |groups[keys[i]]|, savings)];
      assert keys[..i + 1][..i] == keys[..i];
    }
    assert keys[..|keys|] == keys;
  }

  method AggregateMonthlyReport(decisions: seq<Decision>, month: string, baseline: real)
      returns (r: Result<Report, ReportError>)
    requires Valued(decisions)
    ensures r == if !IsMonthName(month) then Err(MonthMismatch)
                 else if baseline < 0.0 then Err(NegativeBaseline)
                 else Ok(ReportOf(decisions, month, baseline))
  {
    if !IsMonthName(month) {
      return Err(MonthMismatch);
    }
    var approved := Where(decisions, IsApproved);
    var executed := Where(approved, IsExecuted);
    var verified := Where(approved, IsVerified);
    var rate := if |decisions| != 0 then |approved| as real / |decisions| as real else 0.0;
    var estimate := SumUp(approved, Estimated);
    var executedEstimate := SumUp(executed, Estimated);
    var actual := SumUp(verified, Saved);
    var keys, groups := GroupByAction(approved);
    var tallies := TallyGroups(approved, keys, groups);
    var fee := MonthlyFee(baseline);
    var roi := actual / fee;
    if baseline < 0.0 {
      return Err(NegativeBaseline);
    }
    return Ok(Report(month, |decisions|, |approved|, |executed|, |verified|, rate, estimate, executedEstimate, actual,
                     UpTo(Sort(tallies, MoreTotal), 5), UpTo(Sort(verified, MoreSaved), 3), baseline, fee, roi));
  }

  lemma RatioInRange(part: nat, whole: nat)
    requires part <= whole
    ensures 0.0 <= Ratio(part, whole) <= 1.0
  {
    if whole != 0 {
      var (x, y) := (part as real, whole as real);
      assert x / y * y == x;
    }
  }

  lemma QuotientIsNonNegative(x: real, y: real)
    requires 0.0 <= x && 0.0 < y
    ensures 0.0 <= x / y
  {
    assert x / y * y == x;
  }

  lemma ApprovedIsValued(decisions: seq<Decision>, p: Decision -> bool)
    requires Valued(decisions)
    ensures Valued(Where(decisions, p)) && |Where(decisions, p)| <= |decisions|
    ensures 0.0 <= Sum(Where(decisions, p), Estimated) && 0.0 <= Sum(Where(decisions, p), Saved)
  {
    WhereMembers(decisions, p);
    SumNonNegative(Where(decisions, p), Estimated);
    SumNonNegative(Where(decisions, p), Saved);
  }

  /** The report passes the field constraints of its model. */
  lemma ReportIsWellFormed(decisions: seq<Decision>, month: string, baseline: real)
    requires Valued(decisions) && 0.0 <= baseline
    ensures var r := ReportOf(decisions, month, baseline);
            && r.verifiedCount <= r.approvedCount <= r.totalCount && r.executedCount <= r.approvedCount
            && 0.0 <= r.approvalRate <= 1.0 && 0.0 <= r.estimate && 0.0 <= r.executedEstimate
            && 0.0 <= r.actual && 0.0 <= r.roi
    ensures forall t :: t in ReportOf(decisions, month, baseline).topActions ==> 0.0 <= t.savings
  {
    hide Where, Sum, Ratio, Sort, UpTo, Tallies, Actions, MonthlyFee;
    var approved := Where(decisions, IsApproved);
    ApprovedIsValued(decisions, IsApproved);
    ApprovedIsValued(approved, IsVerified);
    ApprovedIsValued(approved, IsExecuted);
    RatioInRange(|approved|, |decisions|);
    QuotientIsNonNegative(Sum(Where(approved, IsVerified), Saved), MonthlyFee(baseline));
    TopActionsLoseNothing(decisions, month, baseline);
    forall t | t in ReportOf(decisions, month, baseline).topActions
      ensures 0.0 <= t.savings
    {
      ApprovedIsValued(approved, OfAction(t.action));
    }
  }

  /** A report's month is the plain name of one. */
  lemma MonthNames(month: string)
    ensures IsMonthName(month) <==> exists index :: 0 <= index < 120_000 && month == MonthText(index)
  {
    if IsMonthName(month) {
      OnlyMonthTextsParse(month);
    }
    if index :| 0 <= index < 120_000 && month == MonthText(index) {
      WindowOfMonth(x => x, index);
    }
  }

  predicate CountsAsApproved(d: Decision) {
    d.outcome == Approved || d.outcome == Revised
  }

  /** The figures of a report, decision by decision: each counts only if it was approved, its estimate as executed only
      with a quantity, its savings only with a receipt. */
  lemma ReportGrows(decisions: seq<Decision>, d: Decision, month: string, baseline: real)
    ensures var (r, u) := (ReportOf(decisions, month, baseline), ReportOf(decisions + [d], month, baseline));
      var approved := CountsAsApproved(d);
      && u.totalCount == r.totalCount + 1
      && u.approvedCount == r.approvedCount + (if approved then 1 else 0)
      && u.executedCount == r.executedCount + (if approved && d.actualQty.Some? then 1 else 0)
      && u.verifiedCount == r.verifiedCount + (if approved && d.actualSavings.Some? then 1 else 0)
      && u.estimate == r.estimate + (if approved then d.savingsEstimate else 0.0)
      && u.executedEstimate == r.executedEstimate
           + (if approved && d.actualQty.Some? then d.savingsEstimate else 0.0)
      && u.actual == r.actual + (if approved && d.actualSavings.Some? then d.actualSavings.value else 0.0)
  {
    var approved := Where(decisions, IsApproved);
    var (executed, verified) := (Where(approved, IsExecuted), Where(approved, IsVerified));
    WhereSnoc(decisions, d, IsApproved, Estimated);
    WhereSnoc(approved, d, IsExecuted, Estimated);
    WhereSnoc(approved, d, IsVerified, Saved);
    WhereSnoc(executed, d, IsExecuted, Estimated);
    WhereSnoc(verified, d, IsVerified, Saved);
    assert approved + [] == approved && executed + [] == executed && verified + [] == verified;
    hide Where, Sum, Tallies, Actions, Sort, UpTo, MonthlyFee, Ratio;
  }

  lemma EmptyReport(month: string, baseline: real)
    ensures var r := ReportOf([], month, baseline);
      && r.totalCount == r.approvedCount == r.executedCount == r.verifiedCount == 0
      && r.estimate == r.executedEstimate == r.actual == 0.0
  {
  }

  predicate IsShare(rate: real, part: nat, whole: nat) {
    rate * (whole as real) == part as real && (whole == 0 ==> rate == 0.0)
  }

  predicate IsReturn(roi: real, fee: real, actual: real) {
    fee > 0.0 && roi * fee == actual
  }

  predicate IsMonthlyFee(fee: real, baseline: real) {
    fee * 12.0 == if 3_000_000.0 <= baseline then 300_000.0 else if 1_000_000.0 <= baseline then 150_000.0 else 80_000.0
  }

  /** Its ratios: the approval rate, the price of a month by the tier of the yearly loss, and the return on it. */
  lemma ReportRatios(decisions: seq<Decision>, month: string, baseline: real)
    ensures var r := ReportOf(decisions, month, baseline);
      && r.month == month && r.baseline == baseline && IsShare(r.approvalRate, r.approvedCount, r.totalCount)
      && IsMonthlyFee(r.fee, baseline) && IsReturn(r.roi, r.fee, r.actual)
  {
    var approved := Where(decisions, IsApproved);
    WhereMembers(decisions, IsApproved);
    hide Where, Sum, Tallies, Actions, Sort, UpTo, Ratio, MonthlyFee, IsShare, IsReturn, IsMonthlyFee;
    RatioTimes(|approved|, |decisions|);
    FeeByTier(baseline);
    QuotientTimes(Sum(Where(approved, IsVerified), Saved), MonthlyFee(baseline));
  }

  lemma FeeByTier(baseline: real)
    ensures IsMonthlyFee(MonthlyFee(baseline), baseline)
  {
  }

  lemma RatioTimes(part: nat, whole: nat)
    requires part <= whole
    ensures IsShare(Ratio(part, whole), part, whole)
  {
  }

  lemma QuotientTimes(x: real, y: real)
    requires y > 0.0
    ensures IsReturn(x / y, y, x)
  {
  }

  /** The top actions account for every approved decision and for all verified savings; each action occurs once,
      with its own count and sum, the most profitable first. */
  lemma TopActionsLoseNothing(decisions: seq<Decision>, month: string, baseline: real)
    ensures var r := ReportOf(decisions, month, baseline);
            Count(r.topActions) == r.approvedCount && Total(r.topActions) == r.actual
    ensures var r := ReportOf(decisions, month, baseline);
            Sorted(r.topActions, MoreTotal) && Distinct(r.topActions)
    ensures var (r, approved) := (ReportOf(decisions, month, baseline), Where(decisions, IsApproved));
            forall t :: t in r.topActions <==> t == TallyOf(approved, t.action) && 0 < t.approvedCount
  {
    var approved := Where(decisions, IsApproved);
    var actions := Actions(approved);
    var tallies := Tallies(approved, actions);
    ActionsOnce(approved);
    TalliesAddUp(approved, actions);
    OnlyVerifiedSave(approved);
    AtMostFive(actions);
    SortTotals(tallies);
    SortMembers(tallies, MoreTotal);
    SortSorts(tallies, MoreTotal);
    DistinctAfterSort(tallies);
    forall t
      ensures t in Sort(tallies, MoreTotal) <==> t == TallyOf(approved, t.action) && 0 < t.approvedCount
    {
      TalliedIff(approved, t);
      assert t in multiset(tallies) <==> t in multiset(Sort(tallies, MoreTotal));
    }
  }

  /** No action shown saved more than one shown before it. */
  lemma TopActionsBestFirst(decisions: seq<Decision>, month: string, baseline: real, i: nat, j: nat)
    requires i < j < |ReportOf(decisions, month, baseline).topActions|
    ensures var top := ReportOf(decisions, month, baseline).topActions; top[j].savings <= top[i].savings
  {
    TopActionsLoseNothing(decisions, month, baseline);
    hide ReportOf;
    var top := ReportOf(decisions, month, baseline).topActions;
    assert !MoreTotal(top[j], top[i]);
  }

  lemma TalliedIff(s: seq<Decision>, t: Tally)
    ensures t in Tallies(s, Actions(s)) <==> t == TallyOf(s, t.action) && 0 < t.approvedCount
  {
    ActionsOnce(s);
    var group := Where(s, OfAction(t.action));
    forall d
      ensures d in group <==> d in s && d.action == t.action
    {
      WhereMembers(s, OfAction(t.action));
    }
    var tallies := Tallies(s, Actions(s));
    if t in tallies {
      var i :| 0 <= i < |tallies| && tallies[i] == t;
      assert t.action == Actions(s)[i] && t.action in Actions(s);
      var d :| d in s && d.action == t.action;
      assert d in group;
    } else if group != [] {
      assert group[0] in group;
      assert t.action in Actions(s);
      var i :| 0 <= i < |Actions(s)| && Actions(s)[i] == t.action;
      assert tallies[i] == TallyOf(s, t.action);
    }
  }

  lemma DistinctAfterSort(tallies: seq<Tally>)
    requires forall i, j :: 0 <= i < j < |tallies| ==> tallies[i] != tallies[j]
    ensures Distinct(Sort(tallies, MoreTotal))
  {
    SortMembers(tallies, MoreTotal);
    DistinctIffOnce(tallies);
    DistinctIffOnce(Sort(tallies, MoreTotal));
  }

  lemma {:induction false} DistinctIffOnce(s: seq<Tally>)
    ensures Distinct(s) <==> forall x :: x in s ==> multiset(s)[x] == 1
  {
    if s != [] {
      var (front, last) := (s[..|s| - 1], s[|s| - 1]);
      DistinctIffOnce(front);
      assert s == front + [last];
      assert multiset(s) == multiset(front) + multiset{last};
      assert Distinct(s) <==> Distinct(front) && last !in front by {
        if Distinct(front) && last !in front {
          forall i, j | 0 <= i < j < |s|
            ensures s[i] != s[j]
          {
            if j == |s| - 1 {
              assert s[i] == front[i] && front[i] in front;
            }
          }
        }
      }
      if forall x :: x in s ==> multiset(s)[x] == 1 {
        assert multiset(s)[last] == 1;
        assert forall x :: x in front ==> x in s && x in multiset(front);
      }
    }
  }

  /** The case studies are verified receipts, and no verified decision left out saved more than one shown. */
  lemma CaseStudiesAreTheBest(decisions: seq<Decision>, month: string, baseline: real)
    ensures var r := ReportOf(decisions, month, baseline);
            |r.caseStudies| == if r.verifiedCount < 3 then r.verifiedCount else 3
    ensures exists rest :: multiset(ReportOf(decisions, month, baseline).caseStudies + rest) ==
                             multiset(Where(Where(decisions, IsApproved), IsVerified)) &&
                           forall d, e :: d in ReportOf(decisions, month, baseline).caseStudies && e in rest ==>
                                            Saved(e) <= Saved(d)
  {
    hide Where, Sum, Ratio, Sort, Tallies, Actions, MonthlyFee;
    var verified := Where(Where(decisions, IsApproved), IsVerified);
    var sorted := Sort(verified, MoreSaved);
    SortMembers(verified, MoreSaved);
    SortSorts(verified, MoreSaved);
    var shown := UpTo(sorted, 3);
    var rest := sorted[|shown|..];
    assert shown + rest == sorted;
    assert forall d, e :: d in shown && e in rest ==> Saved(e) <= Saved(d);
  }

  // ---------- load_decisions and spans of months ----------

  predicate DecidedBefore(d: Decision, e: Decision) {
    d.decidedAt < e.decidedAt
  }

  predicate Within(d: Decision, customer: string, start: int, end: int) {
    d.customer == customer && start <= d.decidedAt < end
  }

  /** `list_for_period`: the window in time order, ties in insertion order. */
  function ListForPeriod(table: seq<Decision>, customer: string, start: int, end: int): seq<Decision> {
    if table == [] then []
    else
      var rest := ListForPeriod(table[1..], customer, start, end);
      if Within(table[0], customer, start, end) then Insert(table[0], rest, DecidedBefore) else rest
  }

  function LoadDecisions(table: seq<Decision>, zone: Zone, customer: string, month: string)
    : Result<seq<Decision>, MonthError>
  {
    match Window(zone, month)
    case Ok((start, end)) => Ok(ListForPeriod(table, customer, start, end))
    case Err(e) => Err(e)
  }

  function Inside(customer: string, start: int, end: int): Decision -> bool {
    (d: Decision) => Within(d, customer, start, end)
  }

  /** The list holds exactly the decisions of the window, as often as the table does, in time order. */
  lemma {:induction false} ListForPeriodIsTheWindow(table: seq<Decision>, customer: string, start: int, end: int)
    ensures Sorted(ListForPeriod(table, customer, start, end), DecidedBefore)
    ensures multiset(ListForPeriod(table, customer, start, end)) == multiset(Where(table, Inside(customer, start, end)))
  {
    if table != [] {
      ListForPeriodIsTheWindow(table[1..], customer, start, end);
      var rest := ListForPeriod(table[1..], customer, start, end);
      var p := Inside(customer, start, end);
      InsertKeepsSorted(table[0], rest, DecidedBefore);
      InsertMembers(table[0], rest, DecidedBefore);
      assert table == [table[0]] + table[1..];
      WhereConcat([table[0]], table[1..], p);
      WhereSnoc([], table[0], p, Saved);
      assert [] + [table[0]] == [table[0]];
      assert Where([], p) == [];
      hide Where, Insert, Sorted, Sum;
    }
  }

  lemma {:induction false} InsertLeft(d: Decision, early: seq<Decision>, late: seq<Decision>, cut: int)
    requires d.decidedAt < cut && forall e :: e in late ==> cut <= e.decidedAt
    ensures Insert(d, early + late, DecidedBefore) == Insert(d, early, DecidedBefore) + late
  {
    if early == [] {
      assert early + late == late;
    } else {
      assert (early + late)[1..] == early[1..] + late;
      if early[0].decidedAt < d.decidedAt {
        InsertLeft(d, early[1..], late, cut);
      }
    }
  }

  lemma {:induction false} InsertRight(d: Decision, early: seq<Decision>, late: seq<Decision>, cut: int)
    requires cut <= d.decidedAt && forall e :: e in early ==> e.decidedAt < cut
    ensures Insert(d, early + late, DecidedBefore) == early + Insert(d, late, DecidedBefore)
  {
    if early == [] {
      assert early + late == late;
    } else {
      assert (early + late)[1..] == early[1..] + late;
      assert early[0] in early;
      InsertRight(d, early[1..], late, cut);
    }
  }

  lemma {:induction false} PeriodMembers(table: seq<Decision>, customer: string, start: int, end: int)
    ensures forall d :: d in ListForPeriod(table, customer, start, end) <==>
      d in table && Within(d, customer, start, end)
  {
    if table != [] {
      PeriodMembers(table[1..], customer, start, end);
      var rest := ListForPeriod(table[1..], customer, start, end);
      assert table == [table[0]] + table[1..];
      InsertMembers(table[0], rest, DecidedBefore);
      forall d
        ensures d in Insert(table[0], rest, DecidedBefore) <==> d == table[0] || d in rest
      {
        assert d in multiset(Insert(table[0], rest, DecidedBefore)) <==> d == table[0] || d in multiset(rest);
      }
    }
  }

  /** A period cut in two is listed as its first part followed by its second. */
  lemma {:induction false} PeriodSplits(table: seq<Decision>, customer: string, start: int, cut: int, end: int)
    requires start <= cut <= end
    ensures ListForPeriod(table, customer, start, end) ==
            ListForPeriod(table, customer, start, cut) + ListForPeriod(table, customer, cut, end)
  {
    if table != [] {
      var (d, rest) := (table[0], table[1..]);
      PeriodSplits(rest, customer, start, cut, end);
      PeriodMembers(rest, customer, start, cut);
      PeriodMembers(rest, customer, cut, end);
      var (early, late) := (ListForPeriod(rest, customer, start, cut), ListForPeriod(rest, customer, cut, end));
      if d.decidedAt < cut {
        InsertLeft(d, early, late, cut);
      } else {
        InsertRight(d, early, late, cut);
      }
    }
  }

  /** The monthly lists of the months `lo`, ..., `hi - 1`, one after the other. */
  function MonthByMonth(table: seq<Decision>, zone: Zone, customer: string, lo: int, hi: int): seq<Decision>
    requires lo <= hi
    decreases hi - lo
  {
    if lo == hi then []
    else MonthByMonth(table, zone, customer, lo, hi - 1) + ListForPeriod(table, customer, zone(hi - 1), zone(hi))
  }

  lemma {:induction false} NothingInNoTime(table: seq<Decision>, customer: string, t: int)
    ensures ListForPeriod(table, customer, t, t) == []
  {
    if table != [] {
      NothingInNoTime(table[1..], customer, t);
    }
  }

  /** Months tile time: listing month after month is listing the whole span. */
  lemma {:induction false} MonthsTile(table: seq<Decision>, zone: Zone, customer: string, lo: int, hi: int)
    requires Increasing(zone) && lo <= hi
    ensures MonthByMonth(table, zone, customer, lo, hi) == ListForPeriod(table, customer, zone(lo), zone(hi))
    decreases hi - lo
  {
    if lo == hi {
      NothingInNoTime(table, customer, zone(lo));
    } else {
      MonthsTile(table, zone, customer, lo, hi - 1);
      PeriodSplits(table, customer, zone(lo), zone(hi - 1), zone(hi));
    }
  }

  function VerifiedSavings(decisions: seq<Decision>): real {
    Sum(Where(Where(decisions, IsApproved), IsVerified), Saved)
  }

  /** The verified savings shown by the reports of the months `lo`, ..., `hi - 1`, each made from its own load. */
  function ReportedSavings(table: seq<Decision>, zone: Zone, customer: string, baseline: real, lo: int, hi: int): real
    requires 0 <= lo <= hi
    decreases hi - lo
  {
    if lo == hi then 0.0
    else
      ReportedSavings(table, zone, customer, baseline, lo, hi - 1) +
      match LoadDecisions(table, zone, customer, MonthText(hi - 1))
      case Ok(decisions) => ReportOf(decisions, MonthText(hi - 1), baseline).actual
      case Err(_) => 0.0
  }

  lemma {:induction false} WhereConcat(s: seq<Decision>, t: seq<Decision>, p: Decision -> bool)
    ensures Where(s + t, p) == Where(s, p) + Where(t, p)
  {
    if t == [] {
      assert s + t == s;
    } else {
      assert (s + t)[..|s + t| - 1] == s + t[..|t| - 1];
      WhereConcat(s, t[..|t| - 1], p);
    }
  }

  lemma SavingsAdd(s: seq<Decision>, t: seq<Decision>)
    ensures VerifiedSavings(s + t) == VerifiedSavings(s) + VerifiedSavings(t)
  {
    WhereConcat(s, t, IsApproved);
    WhereConcat(Where(s, IsApproved), Where(t, IsApproved), IsVerified);
    SumConcat(Where(Where(s, IsApproved), IsVerified), Where(Where(t, IsApproved), IsVerified), Saved);
  }

  /** What the report of month `m` shows, read from its own load. */
  lemma MonthShows(table: seq<Decision>, zone: Zone, customer: string, baseline: real, m: int)
    requires 12 <= m < 119_999
    ensures LoadDecisions(table, zone, customer, MonthText(m)) ==
      Ok(ListForPeriod(table, customer, zone(m), zone(m + 1)))
    ensures ReportOf(ListForPeriod(table, customer, zone(m), zone(m + 1)), MonthText(m), baseline).actual
            == VerifiedSavings(ListForPeriod(table, customer, zone(m), zone(m + 1)))
  {
    WindowOfMonth(zone, m);
    hide ListForPeriod, Window, MonthText, Where, Sum, Ratio, Tallies, Actions, MonthlyFee, Sort, UpTo;
  }

  /** Consecutive monthly reports together show exactly the verified savings of the whole span. */
  lemma {:induction false} ReportsAddUp(table: seq<Decision>, zone: Zone, customer: string, baseline: real,
                                         lo: int, hi: int)
    requires Increasing(zone) && 12 <= lo <= hi <= 119_999
    ensures ReportedSavings(table, zone, customer, baseline, lo, hi) ==
            VerifiedSavings(ListForPeriod(table, customer, zone(lo), zone(hi)))
    decreases hi - lo
  {
    if lo == hi {
      NothingInNoTime(table, customer, zone(lo));
      assert VerifiedSavings([]) == 0.0;
    } else {
      ReportsAddUp(table, zone, customer, baseline, lo, hi - 1);
      MonthShows(table, zone, customer, baseline, hi - 1);
      StartsRise(zone, lo, hi);
      PeriodSplits(table, customer, zone(lo), zone(hi - 1), zone(hi));
      SavingsAdd(ListForPeriod(table, customer, zone(lo), zone(hi - 1)),
                 ListForPeriod(table, customer, zone(hi - 1), zone(hi)));
      hide ListForPeriod, LoadDecisions, MonthText, VerifiedSavings, ReportOf, Increasing;
    }
  }

  lemma StartsRise(zone: Zone, lo: int, hi: int)
    requires Increasing(zone) && lo < hi
    ensures zone(lo) <= zone(hi - 1) <= zone(hi)
  {
  }
}
