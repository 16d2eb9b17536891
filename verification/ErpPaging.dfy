/** Loading a customer's batches from a paginated ERP service with bounded retries. */
module ErpPaging {
  import opened Wrappers
  import opened Counting

  datatype Batch = Batch(id: string, stock: real)

  /** An item that passes the batch model's validation, or one that does not. */
  datatype Item = Good(batch: Batch) | Malformed

  datatype Page = Page(items: seq<Item>, next: Option<string>)

  datatype Response = Delivered(page: Page) | Recoverable | Permanent

  datatype LoadError = RetriesExhausted | PermanentFailure | RepeatedCursor | MalformedItem | DuplicateBatch

  /** The service: what it answers to a cursor at its n-th call is outside our control. */
  class ErpClient {
    const respond: (Option<string>, nat) -> Response
    var calls: nat

    constructor (respond: (Option<string>, nat) -> Response)
      ensures this.respond == respond && calls == 0
    {
      this.respond, calls := respond, 0;
    }

    method Fetch(cursor: Option<string>) returns (r: Response)
      modifies this
      ensures r == respond(cursor, old(calls)) && calls == old(calls) + 1
    {
      r := respond(cursor, calls);
      calls := calls + 1;
    }
  }

  /** Every cursor the service ever hands out is one of `universe`. */
  ghost predicate CursorsFrom(client: ErpClient, universe: set<string>) {
    forall c, n {:trigger client.respond(c, n)} ::
      client.respond(c, n).Delivered? && client.respond(c, n).page.next.Some? ==>
        client.respond(c, n).page.next.value in universe
  }

  lemma NextIsKnown(client: ErpClient, universe: set<string>, leg: Leg)
    requires CursorsFrom(client, universe) && client.respond(leg.cursor, leg.call) == Delivered(leg.page)
    ensures leg.page.next.Some? ==> leg.page.next.value in universe
  {
  }

  /** The wait after attempt `n`: it doubles each time. */
  function Wait(delay: real, n: nat): real {
    if n == 0 then delay else 2.0 * Wait(delay, n - 1)
  }

  /** The total of the first `n` waits. */
  function Waited(delay: real, n: nat): real {
    if n == 0 then 0.0 else Waited(delay, n - 1) + Wait(delay, n - 1)
  }

  lemma {:induction false} WaitsInClosedForm(delay: real, n: nat)
    ensures Wait(delay, n) == delay * (Pow2(n) as real)
    ensures Waited(delay, n) == delay * (Pow2(n) as real - 1.0)
  {
    if n > 0 {
      WaitsInClosedForm(delay, n - 1);
      assert Pow2(n) as real == 2.0 * (Pow2(n - 1) as real);
    }
  }

  lemma {:induction false} WaitsGrow(delay: real, m: nat, n: nat)
    requires 0.0 <= delay && m <= n
    ensures 0.0 <= Wait(delay, n) && 0.0 <= Waited(delay, m) <= Waited(delay, n)
  {
    if n > 0 {
      WaitsGrow(delay, if m < n then m else m - 1, n - 1);
    }
  }

  /** The client's answer behind the outcome of a fetch. */
  function Answer(r: Result<Page, LoadError>): Response {
    match r
    case Ok(page) => Delivered(page)
    case Err(e) => if e == PermanentFailure then Permanent else Recoverable
  }

  /** A fetch at `cursor` that failed before call `upTo` was answered so: at once by a permanent failure, or by
      recoverable ones to the last `maxRetries + 1` calls. */
  ghost predicate GaveUp(client: ErpClient, since: nat, upTo: nat, cursor: Option<string>, maxRetries: nat,
                         e: LoadError) {
    && (e == PermanentFailure ==> since < upTo && client.respond(cursor, upTo - 1) == Permanent)
    && (e == RetriesExhausted ==>
          && since + maxRetries + 1 <= upTo
          && forall k :: upTo - (maxRetries + 1) <= k < upTo ==> client.respond(cursor, k) == Recoverable)
  }

  // ---------- Chains of pages ----------

  /** A page, the cursor it was asked for with, and the number of the client call that delivered it. */
  datatype Leg = Leg(cursor: Option<string>, page: Page, call: nat)

  /** The first page is asked for without a cursor, each later one by its predecessor's, no cursor twice. */
  ghost predicate Chain(trail: seq<Leg>) {
    && (trail != [] ==> trail[0].cursor == None)
    && (forall k :: 0 < k < |trail| ==> Follows(trail, k))
    && (forall j, k :: 0 <= j < k < |trail| ==> trail[j].cursor != trail[k].cursor)
  }

  ghost predicate Follows(trail: seq<Leg>, k: int)
    requires 0 < k < |trail|
  {
    trail[k].cursor.Some? && trail[k].cursor == trail[k - 1].page.next
  }

  /** Each page was delivered, in this order, by one of the calls `since`, ..., `upTo - 1`. */
  ghost predicate DeliveredBy(client: ErpClient, since: nat, upTo: nat, trail: seq<Leg>) {
    && (forall k :: 0 <= k < |trail| ==> since <= trail[k].call < upTo)
    && (forall j, k :: 0 <= j < k < |trail| ==> trail[j].call < trail[k].call)
    && (forall k :: 0 <= k < |trail| ==> client.respond(trail[k].cursor, trail[k].call) == Delivered(trail[k].page))
  }

  predicate Clean(items: seq<Item>) {
    Malformed !in items
  }

  function Goods(items: seq<Item>): (r: seq<Batch>)
    requires Clean(items)
  {
    seq(|items|, i requires 0 <= i < |items| => items[i].batch)
  }

  ghost predicate AllGood(trail: seq<Leg>) {
    forall k :: 0 <= k < |trail| ==> Clean(trail[k].page.items)
  }

  ghost function Batches(trail: seq<Leg>): seq<Batch>
    requires AllGood(trail)
  {
    if trail == [] then [] else Batches(trail[..|trail| - 1]) + Goods(trail[|trail| - 1].page.items)
  }

  /** Where the batches of page `k` begin: after the items of the pages before it. */
  function Offset(trail: seq<Leg>, k: nat): nat
    requires k <= |trail|
  {
    if k == 0 then 0 else Offset(trail, k - 1) + |trail[k - 1].page.items|
  }

  lemma {:induction false} OffsetOfPrefix(trail: seq<Leg>, n: nat, k: nat)
    requires k <= n <= |trail|
    ensures Offset(trail[..n], k) == Offset(trail, k)
  {
    if k > 0 {
      OffsetOfPrefix(trail, n, k - 1);
    }
  }

  /** Item `i` of page `k` is the batch at its place. */
  ghost predicate StandsAt(trail: seq<Leg>, k: nat, batches: seq<Batch>)
    requires k < |trail|
  {
    var items := trail[k].page.items;
    Offset(trail, k) + |items| <= |batches|
    && forall i :: 0 <= i < |items| ==> items[i] == Good(batches[Offset(trail, k) + i])
  }

  /** The batches of a chain are the items of its pages in order, and no others. */
  lemma {:induction false} BatchesAt(trail: seq<Leg>)
    requires AllGood(trail)
    ensures |Batches(trail)| == Offset(trail, |trail|)
    ensures forall k :: 0 <= k < |trail| ==> StandsAt(trail, k, Batches(trail))
  {
    if trail != [] {
      var n := |trail| - 1;
      BatchesAt(trail[..n]);
      OffsetOfPrefix(trail, n, n);
      var (front, all, last) := (Batches(trail[..n]), Batches(trail), trail[n].page.items);
      assert all == front + Goods(last);
      forall k | 0 <= k < |trail|
        ensures StandsAt(trail, k, all)
      {
        if k < n {
          OffsetOfPrefix(trail, n, k);
          assert StandsAt(trail[..n], k, front);
        } else {
          assert Clean(last) && forall i :: 0 <= i < |last| ==> last[i] in last;
        }
      }
    }
  }

  predicate DistinctIds(batches: seq<Batch>) {
    forall i, j :: 0 <= i < j < |batches| ==> batches[i].id != batches[j].id
  }

  /** How a load can end, and after which chain. */
  ghost predicate Explains(r: Result<seq<Batch>, LoadError>, trail: seq<Leg>) {
    match r
    case Ok(batches) =>
      Complete(trail) && batches == Batches(trail)
      && forall i, j :: 0 <= i < j < |batches| ==> batches[i].id != batches[j].id
    case Err(DuplicateBatch) =>
      Complete(trail) && exists i, j :: 0 <= i < j < |Batches(trail)| && Batches(trail)[i].id == Batches(trail)[j].id
    case Err(MalformedItem) =>
      trail != [] && AllGood(trail[..|trail| - 1]) && Malformed in trail[|trail| - 1].page.items
    case Err(RepeatedCursor) =>
      trail != [] && AllGood(trail) && var next := trail[|trail| - 1].page.next;
      next.Some? && exists k :: 0 <= k < |trail| && trail[k].cursor == next
    case Err(_) =>
      AllGood(trail) && (trail == [] || Fresh(trail))
  }

  /** The cursor the chain goes on with: none at the start. */
  ghost function Pending(trail: seq<Leg>): Option<string> {
    if trail == [] then None else trail[|trail| - 1].page.next
  }

  /** The chain ends with a page that names no next cursor. */
  ghost predicate Complete(trail: seq<Leg>) {
    trail != [] && AllGood(trail) && trail[|trail| - 1].page.next == None
  }

  /** The last page names a cursor not used before. */
  ghost predicate Fresh(trail: seq<Leg>)
    requires trail != []
  {
    var next := trail[|trail| - 1].page.next;
    next.Some? && forall k :: 0 <= k < |trail| ==> trail[k].cursor != next
  }

  /** The cursors named by the pages of a chain. */
  ghost function Named(trail: seq<Leg>): set<string> {
    set k | 0 <= k < |trail| && trail[k].page.next.Some? :: trail[k].page.next.value
  }

  lemma NamedNext(trail: seq<Leg>, leg: Leg)
    ensures Named(trail + [leg]) == Named(trail) + if leg.page.next.Some? then {leg.page.next.value} else {}
  {
    var longer := trail + [leg];
    forall c | c in Named(trail)
      ensures c in Named(longer)
    {
      var k :| 0 <= k < |trail| && trail[k].page.next == Some(c);
      assert longer[k] == trail[k];
    }
    assert longer[|trail|] == leg;
  }

  /** Asking for the next page extends a chain whose last page names a cursor not used yet. */
  lemma ChainNext(trail: seq<Leg>, leg: Leg)
    requires Chain(trail) && leg.cursor == (if trail == [] then None else trail[|trail| - 1].page.next)
    requires trail != [] ==> Fresh(trail)
    ensures Chain(trail + [leg])
  {
    var longer := trail + [leg];
    forall k | 0 < k < |longer|
      ensures Follows(longer, k)
    {
      assert longer[k - 1] == trail[k - 1];
      if k < |trail| {
        assert Follows(trail, k);
      }
    }
  }

  /** A cursor that no page has named before is fresh. */
  lemma UnnamedIsFresh(trail: seq<Leg>, leg: Leg)
    requires Chain(trail + [leg]) && leg.page.next.Some? && leg.page.next.value !in Named(trail)
    ensures Fresh(trail + [leg])
  {
    var longer := trail + [leg];
    forall k | 0 <= k < |longer|
      ensures longer[k].cursor != leg.page.next
    {
      if k > 0 {
        assert Follows(longer, k);
        assert longer[k - 1] == trail[k - 1];
        assert trail[k - 1].page.next.value in Named(trail);
      }
    }
  }

  /** A cursor named before was also followed before, since the chain went on after it. */
  lemma NamedWasUsed(trail: seq<Leg>, leg: Leg)
    requires Chain(trail + [leg]) && leg.page.next.Some? && leg.page.next.value in Named(trail)
    ensures exists k :: 0 <= k < |trail + [leg]| && (trail + [leg])[k].cursor == leg.page.next
  {
    var k :| 0 <= k < |trail| && trail[k].page.next == leg.page.next;
    var longer := trail + [leg];
    assert longer[k] == trail[k];
    assert Follows(longer, k + 1);
  }

  lemma DeliveredNext(client: ErpClient, since: nat, upTo: nat, trail: seq<Leg>, leg: Leg)
    requires DeliveredBy(client, since, upTo, trail) && since <= upTo <= leg.call
    requires client.respond(leg.cursor, leg.call) == Delivered(leg.page)
    ensures DeliveredBy(client, since, leg.call + 1, trail + [leg])
  {
  }

  lemma GoodNext(trail: seq<Leg>, leg: Leg)
    requires AllGood(trail)
    ensures AllGood((trail + [leg])[..|trail|])
    ensures Clean(leg.page.items) ==> AllGood(trail + [leg])
    ensures Clean(leg.page.items) ==> Batches(trail + [leg]) == Batches(trail) + Goods(leg.page.items)
  {
    assert (trail + [leg])[..|trail|] == trail;
  }

  /** What holds when the page after `trail` is about to be asked for with `cursor`. */
  ghost predicate Following(client: ErpClient, since: nat, upTo: nat, trail: seq<Leg>, cursor: Option<string>,
                            universe: set<string>) {
    && Chain(trail) && AllGood(trail) && (trail != [] ==> Fresh(trail))
    && cursor == Pending(trail)
    && since <= upTo && DeliveredBy(client, since, upTo, trail)
    && Named(trail) <= universe && |Named(trail)| == |trail| <= |universe|
  }

  /** Taking a page: its items must validate, and then its next cursor must not have been named before. */
  function Checked(page: Page, seen: set<string>): Result<Page, LoadError> {
    if !Clean(page.items) then Err(MalformedItem)
    else if page.next.Some? && page.next.value in seen then Err(RepeatedCursor)
    else Ok(page)
  }

  /** What one more page brings: an error with its explanation, or a longer chain to follow, or its end. */
  ghost predicate Taken(client: ErpClient, since: nat, upTo: nat, trail: seq<Leg>, longer: seq<Leg>,
                        r: Result<Page, LoadError>, universe: set<string>) {
    && Chain(longer) && DeliveredBy(client, since, upTo, longer) && |longer| <= |universe| + 1
    && match r
       case Err(e) => Explains(Err(e), longer)
       case Ok(page) =>
         && Clean(page.items) && AllGood(trail) && AllGood(longer) && |longer| == |trail| + 1
         && Batches(longer) == Batches(trail) + Goods(page.items)
         && (page.next.None? ==> Complete(longer))
         && (page.next.Some? ==> Following(client, since, upTo, longer, page.next, universe))
         && page.next == Pending(longer)
         && (page.next.Some? ==> |longer| <= |universe|)
         && (page.next.Some? ==> Named(longer) == Named(trail) + {page.next.value})
  }

  lemma Turn(client: ErpClient, since: nat, upTo: nat, trail: seq<Leg>, leg: Leg, universe: set<string>)
    requires Following(client, since, upTo, trail, leg.cursor, universe) && CursorsFrom(client, universe)
    requires upTo <= leg.call && client.respond(leg.cursor, leg.call) == Delivered(leg.page)
    ensures Taken(client, since, leg.call + 1, trail, trail + [leg], Checked(leg.page, Named(trail)), universe)
  {
    hide Chain, DeliveredBy, Named, CursorsFrom, Batches, Fresh, AllGood;
    assert (trail + [leg])[|trail + [leg]| - 1] == leg;
    ChainNext(trail, leg);
    NamedNext(trail, leg);
    DeliveredNext(client, since, upTo, trail, leg);
    GoodNext(trail, leg);
    NextIsKnown(client, universe, leg);
    if leg.page.next.Some? {
      if leg.page.next.value in Named(trail) {
        NamedWasUsed(trail, leg);
      } else {
        UnnamedIsFresh(trail, leg);
        SubsetSize(Named(trail + [leg]), universe);
      }
    }
  }

  lemma NothingTaken(client: ErpClient, since: nat, upTo: nat, later: nat, trail: seq<Leg>, cursor: Option<string>,
                     e: LoadError, universe: set<string>)
    requires Following(client, since, upTo, trail, cursor, universe) && upTo <= later
    requires e in {PermanentFailure, RetriesExhausted}
    ensures Taken(client, since, later, trail, trail, Err(e), universe)
  {
  }

  /** The chain after an attempt to take the page at `cursor`, the last client call being number `last`. */
  ghost function Longer(trail: seq<Leg>, cursor: Option<string>, fetched: Result<Page, LoadError>, last: nat)
    : seq<Leg> {
    if fetched.Ok? then trail + [Leg(cursor, fetched.value, last)] else trail
  }

  function Outcome(fetched: Result<Page, LoadError>, seen: set<string>): Result<Page, LoadError> {
    if fetched.Ok? then Checked(fetched.value, seen) else fetched
  }

  lemma Resolved(client: ErpClient, since: nat, before: nat, last: nat, trail: seq<Leg>, cursor: Option<string>,
                 seen: set<string>, fetched: Result<Page, LoadError>, universe: set<string>)
    requires seen == Named(trail)
    requires Following(client, since, before, trail, cursor, universe) && CursorsFrom(client, universe)
    requires before <= last && client.respond(cursor, last) == Answer(fetched)
    requires fetched.Err? ==> fetched.error in {PermanentFailure, RetriesExhausted}
    ensures Taken(client, since, last + 1, trail, Longer(trail, cursor, fetched, last), Outcome(fetched, seen),
                  universe)
  {
    hide Chain, DeliveredBy, Explains, Following, Named, Batches, Complete;
    if fetched.Err? {
      NothingTaken(client, since, before, last + 1, trail, cursor, fetched.error, universe);
    } else {
      Turn(client, since, before, trail, Leg(cursor, fetched.value, last), universe);
    }
  }

  lemma Start(client: ErpClient, now: nat, universe: set<string>, maxRetries: nat, most: real)
    ensures Following(client, now, now, [], None, universe) && Named([]) == {} && Batches([]) == []
    ensures WithinBudget(0, 0.0, 0, maxRetries, most)
  {
  }

  lemma End(trail: seq<Leg>)
    requires Complete(trail)
    ensures AllGood(trail)
    ensures Explains(if DistinctIds(Batches(trail)) then Ok(Batches(trail)) else Err(DuplicateBatch), trail)
  {
  }

  function CallLimit(pages: nat, each: nat): nat {
    if pages == 0 then 0 else CallLimit(pages - 1, each) + each
  }

  function WaitLimit(pages: nat, each: real): real {
    if pages == 0 then 0.0 else WaitLimit(pages - 1, each) + each
  }

  lemma {:induction false} LimitsAreProducts(pages: nat, calls: nat, wait: real)
    ensures CallLimit(pages, calls) == pages * calls
    ensures WaitLimit(pages, wait) == pages as real * wait
  {
    if pages > 0 {
      LimitsAreProducts(pages - 1, calls, wait);
    }
  }

  /** What `pages` pages may have cost. */
  ghost predicate WithinBudget(calls: int, wait: real, pages: nat, maxRetries: nat, most: real) {
    0 <= calls <= CallLimit(pages, maxRetries + 1) && wait <= WaitLimit(pages, most)
  }

  /** One more fetch stays within the budget of one more page. */
  lemma SpendOne(calls: int, wait: real, pages: nat, maxRetries: nat, most: real, attempts: nat, slept: real)
    requires WithinBudget(calls, wait, pages, maxRetries, most)
    requires attempts <= maxRetries + 1 && slept <= most
    ensures WithinBudget(calls + attempts, wait + slept, pages + 1, maxRetries, most)
  {
  }

  lemma {:induction false} BudgetGrows(calls: int, wait: real, pages: nat, more: nat, maxRetries: nat, most: real)
    requires WithinBudget(calls, wait, pages, maxRetries, most) && pages <= more && 0.0 <= most
    ensures WithinBudget(calls, wait, more, maxRetries, most)
    decreases more
  {
    if pages < more {
      BudgetGrows(calls, wait, pages, more - 1, maxRetries, most);
    }
  }

  /** The budget in closed form. */
  lemma BudgetInClosedForm(calls: int, wait: real, pages: nat, maxRetries: nat, delay: real)
    ensures WithinBudget(calls, wait, pages, maxRetries, Waited(delay, maxRetries)) <==>
      0 <= calls <= pages * (maxRetries + 1) && wait <= pages as real * (delay * (Pow2(maxRetries) as real - 1.0))
  {
    WaitsInClosedForm(delay, maxRetries);
    LimitsAreProducts(pages, maxRetries + 1, Waited(delay, maxRetries));
  }

  class PagedErpRepository {
    const client: ErpClient
    const maxRetries: nat
    const delay: real
    /** Time spent in `sleep`. */
    var slept: real

    constructor (client: ErpClient, maxRetries: nat, delay: real)
      requires 0.0 <= delay
      ensures this.client == client && this.maxRetries == maxRetries && this.delay == delay && slept == 0.0
    {
      this.client, this.maxRetries, this.delay, slept := client, maxRetries, delay, 0.0;
    }

    /** At most `maxRetries + 1` calls and `delay * (2^maxRetries - 1)` of waiting; gives up on the spot
        for a permanent failure, and for a recoverable one only after the last attempt. */
    method FetchWithRetry(cursor: Option<string>) returns (r: Result<Page, LoadError>, ghost attempts: nat)
      requires 0.0 <= delay
      modifies this, client
      ensures 1 <= attempts <= maxRetries + 1 && client.calls == old(client.calls) + attempts
      ensures forall k :: old(client.calls) <= k < client.calls - 1 ==> client.respond(cursor, k) == Recoverable
      ensures client.respond(cursor, client.calls - 1) == Answer(r)
      ensures r.Err? ==> r.error == PermanentFailure || (r.error == RetriesExhausted && attempts == maxRetries + 1)
      ensures slept == old(slept) + Waited(delay, attempts - 1) <= old(slept) + Waited(delay, maxRetries)
    {
      attempts := 0;
      var tries := 0;
      ghost var before := client.calls;
      while true
        invariant tries == attempts <= maxRetries && client.calls == before + attempts
        invariant slept == old(slept) + Waited(delay, attempts)
        invariant forall k :: before <= k < before + attempts ==> client.respond(cursor, k) == Recoverable
        decreases maxRetries - attempts
      {
        WaitsGrow(delay, attempts, maxRetries);
        var attempt := tries;
        var response := client.Fetch(cursor);
        attempts, tries := attempts + 1, tries + 1;
        match response {
          case Delivered(page) => return Ok(page), attempts;
          case Permanent => return Err(PermanentFailure), attempts;
          case Recoverable =>
            if attempt == maxRetries {
              return Err(RetriesExhausted), attempts;
            }
            WaitsInClosedForm(delay, attempt);
            slept := slept + delay * (Pow2(attempt) as real);
        }
      }
    }

    /** A fetch, seen by a load that began at client call `since` with `start` of sleep behind it. */
    method FetchWithinBudget(cursor: Option<string>, ghost since: nat, ghost start: real, ghost pages: nat,
                             ghost limit: nat)
        returns (r: Result<Page, LoadError>)
      requires 0.0 <= delay && pages < limit
      requires WithinBudget(client.calls - since, slept - start, pages, maxRetries, Waited(delay, maxRetries))
      modifies this, client
      ensures old(client.calls) < client.calls && client.respond(cursor, client.calls - 1) == Answer(r)
      ensures r.Err? ==> r.error in {PermanentFailure, RetriesExhausted}
      ensures r.Err? ==> GaveUp(client, old(client.calls), client.calls, cursor, maxRetries, r.error)
      ensures WithinBudget(client.calls - since, slept - start, pages + 1, maxRetries, Waited(delay, maxRetries))
      ensures WithinBudget(client.calls - since, slept - start, limit, maxRetries, Waited(delay, maxRetries))
    {
      ghost var most := Waited(delay, maxRetries);
      ghost var calls, wait, before := client.calls - since, slept - start, slept;
      WaitsGrow(delay, 0, maxRetries);
      ghost var attempts: nat;
      r, attempts := FetchWithRetry(cursor);
      SpendOne(calls, wait, pages, maxRetries, most, attempts, slept - before);
      assert wait + (slept - before) == slept - start;
      BudgetGrows(client.calls - since, slept - start, pages + 1, limit, maxRetries, most);
    }

    /** Follows the cursors page by page; `trail` is what was fetched. Whatever the service answers, the call
        ends after at most `|universe| + 1` pages; success is the pages' batches in order, without duplicates. */
    method LoadBatches(ghost universe: set<string>)
        returns (r: Result<seq<Batch>, LoadError>, ghost trail: seq<Leg>)
      requires 0.0 <= delay && CursorsFrom(client, universe)
      modifies this, client
      ensures Chain(trail) && DeliveredBy(client, old(client.calls), client.calls, trail) && |trail| <= |universe| + 1
      ensures Explains(r, trail)
      ensures r.Err? ==> GaveUp(client, old(client.calls), client.calls, Pending(trail), maxRetries, r.error)
      ensures WithinBudget(client.calls - old(client.calls), slept - old(slept), |universe| + 1, maxRetries,
                           Waited(delay, maxRetries))
    {
      hide Chain, DeliveredBy, Explains, Following, WithinBudget, Named, Batches, Complete;
      var cursor: Option<string> := None;
      var batches: seq<Batch> := [];
      var seen: set<string> := {};
      trail := [];
      Start(client, client.calls, universe, maxRetries, Waited(delay, maxRetries));
      while true
        invariant Following(client, old(client.calls), client.calls, trail, cursor, universe) && |trail| <= |universe|
        invariant old(client.calls) <= client.calls && cursor == Pending(trail)
        invariant seen == Named(trail) && AllGood(trail) && batches == Batches(trail)
        invariant WithinBudget(client.calls - old(client.calls), slept - old(slept), |trail|, maxRetries,
                               Waited(delay, maxRetries))
        decreases |universe| - |trail|
      {
        ghost var before := client.calls;
        var fetched := FetchWithinBudget(cursor, old(client.calls), old(slept), |trail|, |universe| + 1);
        Resolved(client, old(client.calls), before, client.calls - 1, trail, cursor, seen, fetched, universe);
        trail := Longer(trail, cursor, fetched, client.calls - 1);
        var taken := Outcome(fetched, seen);
        if taken.Err? {
          return Err(taken.error), trail;
        }
        batches := batches + Goods(taken.value.items);
        cursor := taken.value.next;
        if cursor.None? {
          break;
        }
        seen := seen + {cursor.value};
      }
      End(trail);
      r := if DistinctIds(batches) then Ok(batches) else Err(DuplicateBatch);
    }
  }
}
