/** One scan: classify the batches, ask the engine about every alert with bounded concurrency, merge. */
module ScanRunner {
  import opened Wrappers

  type Batch = string
  type Suggestion = string
  type Card = string

  /** What classification makes of a batch, and what the engine and the card renderer make of an alert. */
  datatype Alert = Alert(batchId: string, severity: int)

  datatype Outcome =
    | Suggested(suggestion: Suggestion, card: Card)
    | EngineFailed(message: string)

  datatype ScanError = ScanError(batchId: string, message: string)

  datatype ScanResult = ScanResult(
    totalBatches: nat, alerts: seq<Alert>, suggestions: seq<Suggestion>, cards: seq<Card>, errors: seq<ScanError>)

  datatype RunError = EngineRequired

  // ---------- The jobs under the semaphore ----------

  datatype Job = Waiting | InFlight | Finished(outcome: Outcome)

  /** A job takes a permit and calls the engine, or its engine call returns and gives the permit back. */
  datatype Step = Acquire(i: nat) | Return(i: nat)

  ghost predicate IsInFlight(jobs: seq<Job>, i: int) {
    0 <= i < |jobs| && jobs[i].InFlight?
  }

  function CountInFlight(jobs: seq<Job>): nat {
    if jobs == [] then 0
    else CountInFlight(jobs[..|jobs| - 1]) + if jobs[|jobs| - 1].InFlight? then 1 else 0
  }

  ghost predicate Enabled(jobs: seq<Job>, s: Step, permits: nat) {
    match s
    case Acquire(i) => i < |jobs| && jobs[i].Waiting? && CountInFlight(jobs) < permits
    case Return(i) => i < |jobs| && jobs[i].InFlight?
  }

  ghost function Take(jobs: seq<Job>, s: Step, outcomes: seq<Outcome>): seq<Job>
    requires s.i < |jobs| == |outcomes|
  {
    jobs[s.i := if s.Acquire? then InFlight else Finished(outcomes[s.i])]
  }

  /** Permits are never overdrawn and finished jobs hold their own outcome. */
  ghost predicate Inv(jobs: seq<Job>, outcomes: seq<Outcome>, permits: nat) {
    && |jobs| == |outcomes| && CountInFlight(jobs) <= permits
    && forall i :: 0 <= i < |jobs| && jobs[i].Finished? ==> jobs[i].outcome == outcomes[i]
  }

  function StepsLeft(jobs: seq<Job>): nat {
    if jobs == [] then 0
    else
      StepsLeft(jobs[..|jobs| - 1])
      + match jobs[|jobs| - 1] case Waiting => 2 case InFlight => 1 case Finished(_) => 0
  }

  lemma {:induction false} CountsAfterUpdate(jobs: seq<Job>, i: nat, job: Job)
    requires i < |jobs|
    ensures CountInFlight(jobs[i := job]) == CountInFlight(jobs)
            - (if jobs[i].InFlight? then 1 else 0) + (if job.InFlight? then 1 else 0)
    ensures StepsLeft(jobs[i := job]) == StepsLeft(jobs)
            - (match jobs[i] case Waiting => 2 case InFlight => 1 case Finished(_) => 0)
            + (match job case Waiting => 2 case InFlight => 1 case Finished(_) => 0)
  {
    var n := |jobs| - 1;
    if i == n {
      assert jobs[i := job][..n] == jobs[..n];
    } else {
      assert jobs[i := job][..n] == jobs[..n][i := job];
      CountsAfterUpdate(jobs[..n], i, job);
    }
  }

  /** Every step keeps the bound and brings the scan closer to its end. */
  lemma StepKeepsInv(jobs: seq<Job>, s: Step, outcomes: seq<Outcome>, permits: nat)
    requires Inv(jobs, outcomes, permits) && Enabled(jobs, s, permits)
    ensures Inv(Take(jobs, s, outcomes), outcomes, permits)
    ensures StepsLeft(Take(jobs, s, outcomes)) == StepsLeft(jobs) - 1
  {
    CountsAfterUpdate(jobs, s.i, if s.Acquire? then InFlight else Finished(outcomes[s.i]));
  }

  lemma {:induction false} FreeWhenNoneInFlight(jobs: seq<Job>)
    requires forall i :: 0 <= i < |jobs| ==> !jobs[i].InFlight?
    ensures CountInFlight(jobs) == 0
  {
    if jobs != [] {
      FreeWhenNoneInFlight(jobs[..|jobs| - 1]);
    }
  }

  ghost predicate AllFinished(jobs: seq<Job>) {
    forall i :: 0 <= i < |jobs| ==> jobs[i].Finished?
  }

  /** The scan never gets stuck: until every job is finished, some step is enabled. */
  lemma NeverStuck(jobs: seq<Job>, permits: nat)
    requires permits > 0 && !AllFinished(jobs)
    ensures exists s: Step :: Enabled(jobs, s, permits)
  {
    if i :| IsInFlight(jobs, i) {
      assert Enabled(jobs, Return(i), permits);
    } else {
      forall i | 0 <= i < |jobs| ensures !jobs[i].InFlight? {
        assert !IsInFlight(jobs, i);
      }
      FreeWhenNoneInFlight(jobs);
      var i :| 0 <= i < |jobs| && !jobs[i].Finished?;
      assert Enabled(jobs, Acquire(i), permits);
    }
  }

  ghost predicate Fires(jobs: seq<Job>, steps: seq<Step>, outcomes: seq<Outcome>, permits: nat)
    requires |jobs| == |outcomes|
    decreases steps
  {
    steps == [] ||
    (Enabled(jobs, steps[0], permits) && Fires(Take(jobs, steps[0], outcomes), steps[1..], outcomes, permits))
  }

  ghost function After(jobs: seq<Job>, steps: seq<Step>, outcomes: seq<Outcome>, permits: nat): seq<Job>
    requires |jobs| == |outcomes| && Fires(jobs, steps, outcomes, permits)
    decreases steps
  {
    if steps == [] then jobs else After(Take(jobs, steps[0], outcomes), steps[1..], outcomes, permits)
  }

  lemma {:induction false} RunKeepsInv(jobs: seq<Job>, steps: seq<Step>, outcomes: seq<Outcome>, permits: nat)
    requires Inv(jobs, outcomes, permits) && Fires(jobs, steps, outcomes, permits)
    ensures Inv(After(jobs, steps, outcomes, permits), outcomes, permits)
    ensures StepsLeft(After(jobs, steps, outcomes, permits)) == StepsLeft(jobs) - |steps|
    decreases steps
  {
    if steps != [] {
      StepKeepsInv(jobs, steps[0], outcomes, permits);
      RunKeepsInv(Take(jobs, steps[0], outcomes), steps[1..], outcomes, permits);
    }
  }

  function Start(n: nat): seq<Job> {
    seq(n, _ => Waiting)
  }

  lemma {:induction false} StartCounts(n: nat)
    ensures CountInFlight(Start(n)) == 0 && StepsLeft(Start(n)) == 2 * n
  {
    if n > 0 {
      assert Start(n)[..n - 1] == Start(n - 1);
      StartCounts(n - 1);
    }
  }

  lemma {:induction false} NothingLeft(jobs: seq<Job>)
    ensures StepsLeft(jobs) == 0 <==> AllFinished(jobs)
  {
    if jobs != [] {
      NothingLeft(jobs[..|jobs| - 1]);
      assert AllFinished(jobs) <==> AllFinished(jobs[..|jobs| - 1]) && jobs[|jobs| - 1].Finished?;
    }
  }

  /** In every schedule at most `permits` engine calls are in flight; exactly when two steps per alert have
      been taken all jobs are finished, and then the outcomes do not depend on the schedule. */
  lemma EveryScheduleAgrees(outcomes: seq<Outcome>, steps: seq<Step>, permits: nat)
    requires permits > 0 && Fires(Start(|outcomes|), steps, outcomes, permits)
    ensures var jobs := After(Start(|outcomes|), steps, outcomes, permits);
      && CountInFlight(jobs) <= permits && |steps| <= 2 * |outcomes|
      && (|steps| == 2 * |outcomes| <==> AllFinished(jobs))
      && (AllFinished(jobs) ==> jobs == seq(|outcomes|, i requires 0 <= i < |outcomes| => Finished(outcomes[i])))
  {
    StartCounts(|outcomes|);
    RunKeepsInv(Start(|outcomes|), steps, outcomes, permits);
    NothingLeft(After(Start(|outcomes|), steps, outcomes, permits));
  }

  /** `asyncio.gather`: the event loop takes enabled steps in any order until none is left. */
  method Gather(outcomes: seq<Outcome>, permits: nat) returns (results: seq<Outcome>)
    requires permits > 0
    ensures results == outcomes
  {
    var jobs := Start(|outcomes|);
    StartCounts(|outcomes|);
    while exists i :: 0 <= i < |jobs| && !jobs[i].Finished?
      invariant Inv(jobs, outcomes, permits)
      decreases StepsLeft(jobs)
    {
      NeverStuck(jobs, permits);
      ghost var some: Step :| Enabled(jobs, some, permits);
      assert some.i < |jobs|;
      var i: nat :| i < |jobs| && (jobs[i].InFlight? || (jobs[i].Waiting? && CountInFlight(jobs) < permits));
      var s := if jobs[i].InFlight? then Return(i) else Acquire(i);
      StepKeepsInv(jobs, s, outcomes, permits);
      jobs := jobs[i := if s.Acquire? then InFlight else Finished(outcomes[i])];
    }
    results := seq(|jobs|, i requires 0 <= i < |jobs| && jobs[i].Finished? => jobs[i].outcome);
  }

  // ---------- Merging ----------

  function Suggestions(outcomes: seq<Outcome>): seq<Suggestion> {
    if outcomes == [] then []
    else
      var last := outcomes[|outcomes| - 1];
      Suggestions(outcomes[..|outcomes| - 1]) + if last.Suggested? then [last.suggestion] else []
  }

  function Cards(outcomes: seq<Outcome>): seq<Card> {
    if outcomes == [] then []
    else
      var last := outcomes[|outcomes| - 1];
      Cards(outcomes[..|outcomes| - 1]) + if last.Suggested? then [last.card] else []
  }

  function Errors(alerts: seq<Alert>, outcomes: seq<Outcome>): seq<ScanError>
    requires |alerts| == |outcomes|
  {
    if outcomes == [] then []
    else
      var n := |outcomes| - 1;
      Errors(alerts[..n], outcomes[..n])
      + if outcomes[n].EngineFailed? then [ScanError(alerts[n].batchId, outcomes[n].message)] else []
  }

  function Alerts(batches: seq<Batch>, classify: Batch -> Option<Alert>): seq<Alert> {
    if batches == [] then []
    else
      var last := batches[|batches| - 1];
      Alerts(batches[..|batches| - 1], classify) + match classify(last) case Some(a) => [a] case None => []
  }

  /** Position among the alerts: how many earlier batches raised one. */
  function AlertRank(batches: seq<Batch>, classify: Batch -> Option<Alert>, i: nat): nat
    requires i <= |batches|
  {
    if i == 0 then 0 else AlertRank(batches, classify, i - 1) + if classify(batches[i - 1]).Some? then 1 else 0
  }

  lemma {:induction false} RankOfPrefix(batches: seq<Batch>, classify: Batch -> Option<Alert>, n: nat, i: nat)
    requires i <= n <= |batches|
    ensures AlertRank(batches[..n], classify, i) == AlertRank(batches, classify, i)
  {
    if i > 0 {
      RankOfPrefix(batches, classify, n, i - 1);
    }
  }

  /** The alerts are those of the batches that raise one, in the order of the batches, and no others. */
  lemma {:induction false} AlertsAt(batches: seq<Batch>, classify: Batch -> Option<Alert>)
    ensures |Alerts(batches, classify)| == AlertRank(batches, classify, |batches|)
    ensures forall i :: 0 <= i < |batches| && classify(batches[i]).Some? ==>
      AlertRank(batches, classify, i) < |Alerts(batches, classify)|
      && Some(Alerts(batches, classify)[AlertRank(batches, classify, i)]) == classify(batches[i])
  {
    if batches != [] {
      var n := |batches| - 1;
      AlertsAt(batches[..n], classify);
      RankOfPrefix(batches, classify, n, n);
      forall i | 0 <= i < |batches| && classify(batches[i]).Some?
        ensures AlertRank(batches, classify, i) < |Alerts(batches, classify)|
        ensures Some(Alerts(batches, classify)[AlertRank(batches, classify, i)]) == classify(batches[i])
      {
        if i < n {
          RankOfPrefix(batches, classify, n, i);
          assert batches[..n][i] == batches[i];
        }
      }
    }
  }

  /** The result a scan must give whatever the schedule. */
  function Expected(batches: seq<Batch>, classify: Batch -> Option<Alert>, ask: Alert -> Outcome): ScanResult {
    var alerts := Alerts(batches, classify);
    var outcomes := seq(|alerts|, i requires 0 <= i < |alerts| => ask(alerts[i]));
    ScanResult(|batches|, alerts, Suggestions(outcomes), Cards(outcomes), Errors(alerts, outcomes))
  }

  /** Position `i` of the alerts among the suggestions: how many earlier alerts got one. */
  function Rank(outcomes: seq<Outcome>, i: nat): nat
    requires i <= |outcomes|
  {
    |Suggestions(outcomes[..i])|
  }

  /** Every alert ends as a suggestion with its card or as an error. */
  lemma {:induction false} PartitionSizes(alerts: seq<Alert>, outcomes: seq<Outcome>)
    requires |alerts| == |outcomes|
    ensures |Suggestions(outcomes)| + |Errors(alerts, outcomes)| == |alerts|
    ensures |Cards(outcomes)| == |Suggestions(outcomes)|
  {
    if outcomes != [] {
      PartitionSizes(alerts[..|outcomes| - 1], outcomes[..|outcomes| - 1]);
    }
  }

  /** The alert at position `i` is found at its rank among the suggestions, with its card at the same place,
      or at its rank among the errors: both lists are in alert order. */
  lemma {:induction false} PartitionAt(alerts: seq<Alert>, outcomes: seq<Outcome>, i: nat)
    requires |alerts| == |outcomes| && i < |outcomes|
    ensures |Cards(outcomes)| == |Suggestions(outcomes)| && Rank(outcomes, i) <= i
    ensures outcomes[i].Suggested? ==>
      Rank(outcomes, i) < |Suggestions(outcomes)|
      && Suggestions(outcomes)[Rank(outcomes, i)] == outcomes[i].suggestion
      && Cards(outcomes)[Rank(outcomes, i)] == outcomes[i].card
    ensures outcomes[i].EngineFailed? ==>
      i - Rank(outcomes, i) < |Errors(alerts, outcomes)|
      && Errors(alerts, outcomes)[i - Rank(outcomes, i)] == ScanError(alerts[i].batchId, outcomes[i].message)
  {
    var n := |outcomes| - 1;
    PartitionSizes(alerts, outcomes);
    PartitionSizes(alerts[..n], outcomes[..n]);
    if i < n {
      assert outcomes[..n][..i] == outcomes[..i];
      PartitionAt(alerts[..n], outcomes[..n], i);
    }
  }

  class SuggestionStore {
    var saved: seq<Suggestion>

    constructor ()
      ensures saved == []
    {
      saved := [];
    }

    method Save(s: Suggestion)
      modifies this
      ensures saved == old(saved) + [s]
    {
      saved := saved + [s];
    }
  }

  /** The loop over the gathered outcomes, in alert order. */
  method Merge(alerts: seq<Alert>, outcomes: seq<Outcome>, store: SuggestionStore)
    returns (suggestions: seq<Suggestion>, cards: seq<Card>, errors: seq<ScanError>)
    requires |alerts| == |outcomes|
    modifies store
    ensures suggestions == Suggestions(outcomes) && cards == Cards(outcomes) && errors == Errors(alerts, outcomes)
    ensures store.saved == old(store.saved) + suggestions
  {
    suggestions, cards, errors := [], [], [];
    var j := 0;
    while j < |outcomes|
      invariant 0 <= j <= |outcomes|
      invariant suggestions == Suggestions(outcomes[..j]) && cards == Cards(outcomes[..j])
      invariant errors == Errors(alerts[..j], outcomes[..j])
      invariant store.saved == old(store.saved) + suggestions
    {
      assert outcomes[..j + 1][..j] == outcomes[..j] && alerts[..j + 1][..j] == alerts[..j];
      match outcomes[j] {
        case EngineFailed(message) =>
          errors := errors + [ScanError(alerts[j].batchId, message)];
        case Suggested(suggestion, card) =>
          suggestions := suggestions + [suggestion];
          cards := cards + [card];
          store.Save(suggestion);
      }
      j := j + 1;
    }
    assert outcomes[..j] == outcomes && alerts[..j] == alerts;
  }

  /** One scan. `ask` is what the engine and the renderer answer for an alert; `engine` says whether there
      is one. The schedule shows in neither the result nor the store. */
  method RunForCustomer(batches: seq<Batch>, classify: Batch -> Option<Alert>, ask: Alert -> Outcome, engine: bool,
                        skip: bool, permits: nat, store: SuggestionStore)
    returns (r: Result<ScanResult, RunError>)
    requires permits > 0
    modifies store
    ensures !skip && !engine ==> r == Err(EngineRequired) && store.saved == old(store.saved)
    ensures skip ==> r == Ok(ScanResult(|batches|, Alerts(batches, classify), [], [], []))
    ensures skip ==> store.saved == old(store.saved)
    ensures !skip && engine ==> r == Ok(Expected(batches, classify, ask))
    ensures r.Ok? ==> r.value.totalBatches == |batches| && r.value.alerts == Alerts(batches, classify)
    ensures !skip && engine ==> store.saved == old(store.saved) + Expected(batches, classify, ask).suggestions
  {
    if !skip && !engine {
      return Err(EngineRequired);
    }
    var alerts: seq<Alert> := [];
    var i := 0;
    while i < |batches|
      invariant 0 <= i <= |batches| && alerts == Alerts(batches[..i], classify)
    {
      assert batches[..i + 1][..i] == batches[..i];
      var alert := classify(batches[i]);
      if alert.Some? {
        alerts := alerts + [alert.value];
      }
      i := i + 1;
    }
    assert batches[..i] == batches;
    if skip {
      return Ok(ScanResult(|batches|, alerts, [], [], []));
    }
    var outcomes := Gather(seq(|alerts|, i requires 0 <= i < |alerts| => ask(alerts[i])), permits);
    var suggestions, cards, errors := Merge(alerts, outcomes, store);
    return Ok(ScanResult(|batches|, alerts, suggestions, cards, errors));
  }
}
