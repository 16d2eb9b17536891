/** Many requests on many keys at once, each interleaving its claim, effect, release and complete with
    all the others, and stopping for ever at any point. */
module ExactlyOnce {
  import opened Wrappers
  import opened Idempotency

  type Pid = nat

  /** How far a request has come. `Claimed` holds the claim, `Failed` has seen its effect raise,
      `Succeeded` has its effect behind it. */
  datatype Progress =
    | Claimed
    | EffectFailed
    | Succeeded(response: Response)
    | Done

  /** `alive` is false once the process has crashed, or left by an exception outside the guarded block. */
  datatype Request = Request(key: string, kind: string, progress: Progress, alive: bool)

  /** `effects` lists the keys whose effect succeeded, `replies` what was answered to whom. */
  datatype State = State(
    records: Records, requests: map<Pid, Request>, effects: seq<string>, replies: seq<(string, Response)>)

  datatype Step =
    | Claim(p: Pid, key: string, kind: string)
    | EffectSucceeds(p: Pid, response: Response)
    | Ignore(p: Pid, response: Response)          // a request answered without any effect
    | EffectFails(p: Pid)
    | Release(p: Pid)
    | Complete(p: Pid)
    | Crash(p: Pid)

  ghost predicate Running(s: State, p: Pid) {
    p in s.requests && s.requests[p].alive
  }

  ghost predicate Enabled(s: State, step: Step) {
    match step
    case Claim(p, key, kind) => p !in s.requests && key != "" && kind != ""
    case EffectSucceeds(p, _) => Running(s, p) && s.requests[p].progress == Claimed
    case Ignore(p, _) => Running(s, p) && s.requests[p].progress == Claimed
    case EffectFails(p) => Running(s, p) && s.requests[p].progress == Claimed
    case Release(p) => Running(s, p) && s.requests[p].progress == EffectFailed
    case Complete(p) => Running(s, p) && s.requests[p].progress.Succeeded?
    case Crash(p) => Running(s, p) && s.requests[p].progress != Done
  }

  ghost function SetProgress(s: State, p: Pid, progress: Progress): map<Pid, Request>
    requires p in s.requests
  {
    s.requests[p := s.requests[p].(progress := progress)]
  }

  ghost function Take(s: State, step: Step): State
    requires Enabled(s, step)
  {
    match step
    case Claim(p, key, kind) =>
      if key !in s.records then
        s.(records := AfterClaim(s.records, key, kind), requests := s.requests[p := Request(key, kind, Claimed, true)])
      else
        var done := s.requests[p := Request(key, kind, Done, true)];
        (match s.records[key].response
         case Some(r) => s.(requests := done, replies := s.replies + [(key, r)])
         case None => s.(requests := done))
    case EffectSucceeds(p, r) =>
      s.(requests := SetProgress(s, p, Succeeded(r)), effects := s.effects + [s.requests[p].key])
    case Ignore(p, r) => s.(requests := SetProgress(s, p, Succeeded(r)))
    case EffectFails(p) => s.(requests := SetProgress(s, p, EffectFailed))
    case Release(p) =>
      s.(records := AfterRelease(s.records, s.requests[p].key), requests := SetProgress(s, p, Done))
    case Complete(p) =>
      var (key, r) := (s.requests[p].key, s.requests[p].progress.response);
      s.(records := AfterComplete(s.records, key, r), requests := SetProgress(s, p, Done),
         replies := if Processing(s.records, key) then s.replies + [(key, r)] else s.replies)
    case Crash(p) => s.(requests := s.requests[p := s.requests[p].(alive := false)])
  }

  // ---------- The invariant ----------

  /** The request that claimed a key and has not finished, alive or crashed. */
  ghost predicate Owns(s: State, p: Pid, key: string) {
    p in s.requests && s.requests[p].key == key && s.requests[p].progress != Done
  }

  ghost function Count(xs: seq<string>, key: string): nat {
    if xs == [] then 0 else Count(xs[..|xs| - 1], key) + if xs[|xs| - 1] == key then 1 else 0
  }

  /** A key in processing has exactly one owner; any other key has none. */
  ghost predicate Owned(s: State, key: string) {
    && (forall p, q :: Owns(s, p, key) && Owns(s, q, key) ==> p == q)
    && (Processing(s.records, key) <==> exists p :: Owns(s, p, key))
  }

  /** Effects happen only under a claim that never goes away afterwards. */
  ghost predicate EffectsGuarded(s: State, key: string) {
    && Count(s.effects, key) <= 1
    && (key !in s.records ==> Count(s.effects, key) == 0)
    && (forall p :: Owns(s, p, key) && !s.requests[p].progress.Succeeded? ==> Count(s.effects, key) == 0)
  }

  /** Whoever got an answer got the one the record holds. */
  ghost predicate RepliesAgree(s: State) {
    forall i :: 0 <= i < |s.replies| ==> CompletedWith(s.records, s.replies[i].0, s.replies[i].1)
  }

  ghost predicate Inv(s: State) {
    (forall key :: Owned(s, key) && EffectsGuarded(s, key)) && RepliesAgree(s)
  }

  const START: State := State(map[], map[], [], [])

  lemma CountAppend(xs: seq<string>, x: string, key: string)
    ensures Count(xs + [x], key) == Count(xs, key) + if x == key then 1 else 0
  {
    assert (xs + [x])[..|xs|] == xs;
  }

  ghost function KeyOf(s: State, step: Step): string
    requires Enabled(s, step)
  {
    if step.Claim? then step.key else s.requests[step.p].key
  }

  /** Whether the acting request owns its key after the step. */
  ghost predicate StillOwns(s: State, step: Step)
    requires Enabled(s, step)
  {
    if step.Claim? then step.key !in s.records else !step.Release? && !step.Complete?
  }

  /** A step changes the ownership of no request but its own. */
  lemma OwnersAfterStep(s: State, step: Step, q: Pid, key: string)
    requires Enabled(s, step)
    ensures Owns(Take(s, step), q, key) <==>
            if q == step.p then key == KeyOf(s, step) && StillOwns(s, step) else Owns(s, q, key)
  {
  }

  lemma StepKeepsOwned(s: State, step: Step, key: string)
    requires Inv(s) && Enabled(s, step)
    ensures Owned(Take(s, step), key)
  {
    var t := Take(s, step);
    assert Owned(s, key);
    forall q ensures Owns(t, q, key) <==>
      if q == step.p then key == KeyOf(s, step) && StillOwns(s, step) else Owns(s, q, key)
    {
      OwnersAfterStep(s, step, q, key);
    }
    if key == KeyOf(s, step) {
      if !step.Claim? {
        assert Owns(s, step.p, key);
      }
      if StillOwns(s, step) {
        assert Owns(t, step.p, key);
      }
    }
    if q :| Owns(s, q, key) && q != step.p {
      assert Owns(t, q, key);
    }
  }

  lemma StepKeepsEffectsGuarded(s: State, step: Step, key: string)
    requires Inv(s) && Enabled(s, step)
    ensures EffectsGuarded(Take(s, step), key)
  {
    var t := Take(s, step);
    assert Owned(s, key) && EffectsGuarded(s, key);
    if step.EffectSucceeds? {
      CountAppend(s.effects, s.requests[step.p].key, key);
    }
    if !step.Claim? && KeyOf(s, step) == key {
      assert Owns(s, step.p, key);
    }
    forall q | Owns(t, q, key) && !t.requests[q].progress.Succeeded? ensures Count(t.effects, key) == 0 {
      OwnersAfterStep(s, step, q, key);
      if q != step.p {
        assert Owns(s, q, key);
      }
    }
  }

  lemma StepKeepsReplies(s: State, step: Step)
    requires Inv(s) && Enabled(s, step)
    ensures RepliesAgree(Take(s, step))
  {
    var t := Take(s, step);
    forall i | 0 <= i < |t.replies| ensures CompletedWith(t.records, t.replies[i].0, t.replies[i].1) {
      if i < |s.replies| {
        assert t.replies[i] == s.replies[i];
        assert CompletedWith(s.records, s.replies[i].0, s.replies[i].1);
      }
    }
  }

  lemma StepKeepsInv(s: State, step: Step)
    requires Inv(s) && Enabled(s, step)
    ensures Inv(Take(s, step))
  {
    forall key ensures Owned(Take(s, step), key) && EffectsGuarded(Take(s, step), key) {
      StepKeepsOwned(s, step, key);
      StepKeepsEffectsGuarded(s, step, key);
    }
    StepKeepsReplies(s, step);
  }

  // ---------- Runs ----------

  ghost predicate Fires(s: State, steps: seq<Step>)
    decreases steps
  {
    steps == [] || (Enabled(s, steps[0]) && Fires(Take(s, steps[0]), steps[1..]))
  }

  ghost function After(s: State, steps: seq<Step>): State
    requires Fires(s, steps)
    decreases steps
  {
    if steps == [] then s else After(Take(s, steps[0]), steps[1..])
  }

  lemma {:induction false} RunKeepsInv(s: State, steps: seq<Step>)
    requires Inv(s) && Fires(s, steps)
    ensures Inv(After(s, steps))
    decreases steps
  {
    if steps != [] {
      StepKeepsInv(s, steps[0]);
      RunKeepsInv(Take(s, steps[0]), steps[1..]);
    }
  }

  /** However requests interleave and crash, the effect of a key succeeds at most once. */
  lemma EffectAtMostOnce(steps: seq<Step>, key: string)
    requires Fires(START, steps)
    ensures Count(After(START, steps).effects, key) <= 1
  {
    RunKeepsInv(START, steps);
    assert EffectsGuarded(After(START, steps), key);
  }

  /** A completed record stays, with its response, through every further step. */
  lemma {:induction false} CompletedIsForever(s: State, steps: seq<Step>, key: string, response: Response)
    requires Fires(s, steps) && CompletedWith(s.records, key, response)
    ensures CompletedWith(After(s, steps).records, key, response)
    decreases steps
  {
    if steps != [] {
      CompletedIsForever(Take(s, steps[0]), steps[1..], key, response);
    }
  }

  lemma {:induction false} RepliesStay(s: State, steps: seq<Step>)
    requires Fires(s, steps)
    ensures |s.replies| <= |After(s, steps).replies| && After(s, steps).replies[..|s.replies|] == s.replies
    decreases steps
  {
    if steps != [] {
      var t := Take(s, steps[0]);
      RepliesStay(t, steps[1..]);
      assert t.replies[..|s.replies|] == s.replies;
    }
  }

  /** All answers ever given for a key, first or replayed, are the same response. */
  lemma RepliesNeverDiffer(steps: seq<Step>, i: nat, j: nat)
    requires Fires(START, steps)
    requires i < |After(START, steps).replies| && j < |After(START, steps).replies|
    requires After(START, steps).replies[i].0 == After(START, steps).replies[j].0
    ensures After(START, steps).replies[i].1 == After(START, steps).replies[j].1
  {
    RunKeepsInv(START, steps);
  }

  /** Once a key was answered, every later request for it replays that answer and runs nothing. */
  lemma LaterRequestsReplay(before: seq<Step>, after: seq<Step>, i: nat, p: Pid, kind: string)
    requires Fires(START, before) && i < |After(START, before).replies|
    requires Fires(After(START, before), after)
    requires var (key, _) := After(START, before).replies[i];
      Enabled(After(After(START, before), after), Claim(p, key, kind))
    ensures var (key, response) := After(START, before).replies[i];
      var s := After(After(START, before), after);
      var t := Take(s, Claim(p, key, kind));
      t.replies == s.replies + [(key, response)] && t.requests[p].progress == Done && t.records == s.records
  {
    RunKeepsInv(START, before);
    var s := After(START, before);
    CompletedIsForever(s, after, s.replies[i].0, s.replies[i].1);
  }

  /** `complete` never finds its claim gone: the KeyError of the store cannot be reached by these clients. */
  lemma ClaimStillActive(steps: seq<Step>, p: Pid)
    requires Fires(START, steps) && Running(After(START, steps), p) && After(START, steps).requests[p].progress != Done
    ensures Processing(After(START, steps).records, After(START, steps).requests[p].key)
  {
    RunKeepsInv(START, steps);
    var s := After(START, steps);
    assert Owns(s, p, s.requests[p].key) && Owned(s, s.requests[p].key);
  }

  /** A key whose effect failed and was released can be claimed again; a key whose owner crashed cannot. */
  lemma RetryOnlyAfterRelease(steps: seq<Step>, p: Pid)
    requires Fires(START, steps) && p in After(START, steps).requests
    ensures var s := After(START, steps);
      && (Enabled(s, Release(p)) ==> s.requests[p].key !in Take(s, Release(p)).records)
      && (!s.requests[p].alive && s.requests[p].progress != Done ==> Processing(s.records, s.requests[p].key))
  {
    RunKeepsInv(START, steps);
    var s := After(START, steps);
    assert Owned(s, s.requests[p].key);
    if s.requests[p].progress != Done {
      assert Owns(s, p, s.requests[p].key);
    }
  }

  // ---------- Keys that stay in processing for ever ----------

  ghost predicate Reachable(s: State) {
    exists steps :: Fires(START, steps) && After(START, steps) == s
  }

  /** The request that claimed the key has crashed. */
  ghost predicate DeadOwner(s: State, p: Pid, key: string) {
    Owns(s, p, key) && !s.requests[p].alive
  }

  /** A crashed owner takes no more steps and nobody takes the claim from it. */
  lemma {:induction false} DeadOwnerStays(s: State, steps: seq<Step>, p: Pid, key: string)
    requires Inv(s) && Fires(s, steps) && DeadOwner(s, p, key)
    ensures DeadOwner(After(s, steps), p, key) && Processing(After(s, steps).records, key)
    decreases steps
  {
    if steps == [] {
      assert Owned(s, key);
    } else {
      OwnersAfterStep(s, steps[0], p, key);
      StepKeepsInv(s, steps[0]);
      DeadOwnerStays(Take(s, steps[0]), steps[1..], p, key);
    }
  }

  /** A live owner can bring its request to an end, which ends the processing of the key. */
  lemma LiveOwnerCanEnd(s: State, p: Pid, key: string) returns (steps: seq<Step>)
    requires Inv(s) && Owns(s, p, key) && s.requests[p].alive
    ensures Fires(s, steps) && !Processing(After(s, steps).records, key)
  {
    assert Owned(s, key);
    match s.requests[p].progress
    case Claimed =>
      var failed := Take(s, EffectFails(p));
      assert Enabled(failed, Release(p));
      RunOfOne(failed, Release(p));
      steps := [EffectFails(p)] + [Release(p)];
      assert steps[0] == EffectFails(p) && steps[1..] == [Release(p)];
      hide Take;
      assert After(s, steps) == After(failed, [Release(p)]);
    case EffectFailed =>
      steps := [Release(p)];
      RunOfOne(s, Release(p));
    case Succeeded(_) =>
      steps := [Complete(p)];
      RunOfOne(s, Complete(p));
  }

  lemma RunOfOne(s: State, step: Step)
    requires Enabled(s, step)
    ensures Fires(s, [step]) && After(s, [step]) == Take(s, step)
  {
    assert [step][1..] == [];
    hide Take;
    assert After(Take(s, step), []) == Take(s, step);
  }

  /** In a reachable state a key in processing stays so whatever happens from then on exactly if the request that
      claimed it has crashed. */
  lemma StuckIffOwnerDead(s: State, key: string)
    requires Reachable(s) && Processing(s.records, key)
    ensures (forall steps :: Fires(s, steps) ==> Processing(After(s, steps).records, key)) <==>
      exists p :: DeadOwner(s, p, key)
  {
    var past :| Fires(START, past) && After(START, past) == s;
    RunKeepsInv(START, past);
    if p :| DeadOwner(s, p, key) {
      forall steps | Fires(s, steps)
        ensures Processing(After(s, steps).records, key)
      {
        DeadOwnerStays(s, steps, p, key);
      }
    } else {
      assert Owned(s, key);
      var p :| Owns(s, p, key);
      assert !DeadOwner(s, p, key);
      var steps := LiveOwnerCanEnd(s, p, key);
    }
  }

  /** A request for a key in processing is refused: no reply, no effect, no change of the records. */
  lemma BusyIsRefused(s: State, p: Pid, key: string, kind: string)
    requires Enabled(s, Claim(p, key, kind)) && Processing(s.records, key)
    ensures var t := Take(s, Claim(p, key, kind));
      t == s.(requests := t.requests) && t.requests == s.requests[p := Request(key, kind, Done, true)]
  {
  }

  /** So the retries of a crashed request are refused for ever. */
  lemma RetriesOfTheDeadAreRefused(s: State, p: Pid, key: string, steps: seq<Step>, retry: Pid, kind: string)
    requires Reachable(s) && DeadOwner(s, p, key)
    requires Fires(s, steps) && Enabled(After(s, steps), Claim(retry, key, kind))
    ensures var t := After(s, steps);
      var u := Take(t, Claim(retry, key, kind));
      u.replies == t.replies && u.effects == t.effects && u.records == t.records && u.requests[retry].progress == Done
  {
    var past :| Fires(START, past) && After(START, past) == s;
    RunKeepsInv(START, past);
    DeadOwnerStays(s, steps, p, key);
    BusyIsRefused(After(s, steps), retry, key, kind);
  }
}
