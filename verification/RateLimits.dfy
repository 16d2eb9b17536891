/** The two request limiters. Clock readings are integer ticks. */
module RateLimits {

  // ---------- Sliding window: the full-history rule ----------

  /** The events of a nondecreasing history that lie in the window ending at `now`. */
  function InWindow(history: seq<int>, now: int, window: int): seq<int> {
    if history == [] then []
    else
      var last := history[|history| - 1];
      InWindow(history[..|history| - 1], now, window) + if now - window < last <= now then [last] else []
  }

  predicate Allows(history: seq<int>, now: int, limit: int, window: int) {
    |InWindow(history, now, window)| < limit
  }

  ghost predicate Nondecreasing(times: seq<int>) {
    forall i, j :: 0 <= i < j < |times| ==> times[i] <= times[j]
  }

  /** Any `limit + 1` consecutive allowed events span at least the window. */
  ghost predicate Spaced(history: seq<int>, limit: int, window: int) {
    forall i, j :: 0 <= i < j < |history| && j == i + limit ==> window <= history[j] - history[i]
  }

  /** The window of a sorted history is its tail after the events at or before the cutoff. */
  lemma {:induction false} WindowIsTail(history: seq<int>, dropped: nat, now: int, window: int)
    requires Nondecreasing(history) && dropped <= |history|
    requires forall i :: 0 <= i < dropped ==> history[i] <= now - window
    requires dropped < |history| ==> now - window < history[dropped]
    requires forall i :: 0 <= i < |history| ==> history[i] <= now
    ensures InWindow(history, now, window) == history[dropped..]
  {
    if history != [] {
      var n := |history| - 1;
      if dropped <= n {
        WindowIsTail(history[..n], dropped, now, window);
        assert history[dropped] <= history[n];
        assert history[dropped..] == history[..n][dropped..] + [history[n]];
      } else {
        WindowIsTail(history[..n], n, now, window);
        assert history[..n][n..] == [] == history[dropped..];
      }
    }
  }

  /** The history after one more request. */
  function Next(history: seq<int>, now: int, limit: int, window: int): seq<int> {
    if Allows(history, now, limit, window) then history + [now] else history
  }

  /** The allowed events of a series of requests, by the full-history rule. */
  function History(times: seq<int>, limit: int, window: int): seq<int> {
    if times == [] then []
    else Next(History(times[..|times| - 1], limit, window), times[|times| - 1], limit, window)
  }

  lemma CutIndex(history: seq<int>, cutoff: int) returns (dropped: nat)
    requires Nondecreasing(history)
    ensures dropped <= |history| && (forall i :: 0 <= i < dropped ==> history[i] <= cutoff)
    ensures dropped < |history| ==> cutoff < history[dropped]
  {
    dropped := 0;
    while dropped < |history| && history[dropped] <= cutoff
      invariant dropped <= |history| && forall i :: 0 <= i < dropped ==> history[i] <= cutoff
    {
      dropped := dropped + 1;
    }
  }

  lemma {:induction false} HistoryIsSorted(times: seq<int>, limit: int, window: int)
    requires Nondecreasing(times)
    ensures var h := History(times, limit, window);
      Nondecreasing(h) && forall i :: 0 <= i < |h| ==> times != [] && h[i] <= times[|times| - 1]
  {
    if times != [] {
      var n := |times| - 1;
      HistoryIsSorted(times[..n], limit, window);
      assert n > 0 ==> times[n - 1] <= times[n];
    }
  }

  /** Over any nondecreasing series of requests the allowed ones are spaced: no window of the given length,
      open at its start, ever holds more than `limit` of them. */
  lemma {:induction false} AllowedAreSpaced(times: seq<int>, limit: int, window: int)
    requires Nondecreasing(times)
    ensures Spaced(History(times, limit, window), limit, window)
  {
    if times != [] {
      var n := |times| - 1;
      var (before, now) := (History(times[..n], limit, window), times[n]);
      AllowedAreSpaced(times[..n], limit, window);
      HistoryIsSorted(times[..n], limit, window);
      assert n > 0 ==> times[n - 1] <= times[n];
      if Allows(before, now, limit, window) && 0 < limit <= |before| {
        var dropped := CutIndex(before, now - window);
        WindowIsTail(before, dropped, now, window);
        assert before[|before| - limit] <= now - window;
      }
    }
  }

  /** Room for one more: fewer than `limit` events were ever allowed, or the `limit`-th last one has left the window. */
  predicate RoomFor(past: seq<int>, now: int, limit: int, window: int) {
    limit > 0 && (|past| < limit || past[|past| - limit] <= now - window)
  }

  lemma RoomIff(past: seq<int>, now: int, limit: int, window: int)
    requires Nondecreasing(past) && forall i :: 0 <= i < |past| ==> past[i] <= now
    ensures Allows(past, now, limit, window) <==> RoomFor(past, now, limit, window)
  {
    var dropped := CutIndex(past, now - window);
    WindowIsTail(past, dropped, now, window);
    if 0 < limit <= |past| {
      assert dropped <= |past| - limit ==> past[dropped] <= past[|past| - limit];
    }
  }

  /** Over a nondecreasing series of requests exactly those are refused at which `limit` events allowed before lie in
      the window; every other one is allowed and remembered. */
  lemma RefusedOnlyWhenFull(times: seq<int>, limit: int, window: int)
    requires Nondecreasing(times) && times != [] && limit > 0
    ensures var (now, past) := (times[|times| - 1], History(times[..|times| - 1], limit, window));
      var full := limit <= |past| && forall i :: |past| - limit <= i < |past| ==> now - window < past[i] <= now;
      History(times, limit, window) == if full then past else past + [now]
  {
    var n := |times| - 1;
    var (now, past) := (times[n], History(times[..n], limit, window));
    HistoryIsSorted(times[..n], limit, window);
    assert n > 0 ==> times[n - 1] <= now;
    RoomIff(past, now, limit, window);
    if limit <= |past| {
      assert past[|past| - limit] in past[|past| - limit..];
    }
  }

  // ---------- Sliding window: the deque ----------

  /** A deque is the history of its key without a first part that has left the window for good. */
  ghost predicate Pruned(queue: seq<int>, past: seq<int>, latest: int, window: int) {
    && Nondecreasing(past) && (forall i :: 0 <= i < |past| ==> past[i] <= latest)
    && |queue| <= |past| && queue == past[|past| - |queue|..]
    && forall i :: 0 <= i < |past| - |queue| ==> past[i] <= latest - window
  }

  /** Drops expired events from the left end until the oldest one left lies in the window. */
  method PopExpired(events: seq<int>, ghost past: seq<int>, now: int, window: int) returns (queue: seq<int>)
    requires Pruned(events, past, now, window)
    ensures Pruned(queue, past, now, window) && queue == InWindow(past, now, window)
  {
    queue := events;
    ghost var dropped := |past| - |queue|;
    while queue != [] && queue[0] <= now - window
      invariant 0 <= dropped <= |past| && queue == past[dropped..]
      invariant forall i :: 0 <= i < dropped ==> past[i] <= now - window
      decreases |queue|
    {
      queue := queue[1..];
      dropped := dropped + 1;
    }
    WindowIsTail(past, dropped, now, window);
  }

  lemma PrunedLater(queue: seq<int>, past: seq<int>, latest: int, now: int, window: int)
    requires Pruned(queue, past, latest, window) && latest <= now
    ensures Pruned(queue, past, now, window)
  {
  }

  lemma PrunedAppend(queue: seq<int>, past: seq<int>, now: int, window: int)
    requires Pruned(queue, past, now, window)
    ensures Pruned(queue + [now], past + [now], now, window)
  {
    var (q, h) := (queue + [now], past + [now]);
    assert h[|h| - |q|..] == past[|past| - |queue|..] + [now];
  }

  /** After popping, the length of the deque decides as the history does, and the deque stays a tail of it. */
  lemma LengthDecides(queue: seq<int>, past: seq<int>, now: int, limit: int, window: int)
    requires Pruned(queue, past, now, window) && queue == InWindow(past, now, window)
    ensures |queue| < limit <==> Allows(past, now, limit, window)
    ensures |queue| < limit <==> RoomFor(past, now, limit, window)
    ensures Next(past, now, limit, window) == if |queue| < limit then past + [now] else past
    ensures Pruned(if |queue| < limit then queue + [now] else queue, Next(past, now, limit, window), now, window)
  {
    RoomIff(past, now, limit, window);
    if |queue| < limit {
      PrunedAppend(queue, past, now, window);
    }
  }

  /** Every key's deque is a tail of its history. */
  ghost predicate Tracks(events: map<string, seq<int>>, history: map<string, seq<int>>, latest: int, window: int) {
    history.Keys == events.Keys && forall k :: k in events ==> Pruned(events[k], history[k], latest, window)
  }

  /** One key changes, and the clock moves on for all. */
  lemma TracksNext(events: map<string, seq<int>>, history: map<string, seq<int>>, latest: int, window: int, key: string,
                   queue: seq<int>, past: seq<int>, now: int)
    requires Tracks(events, history, latest, window) && (history != map[] ==> latest <= now)
    requires Pruned(queue, past, now, window)
    ensures Tracks(events[key := queue], history[key := past], now, window)
  {
    hide Pruned;
    forall k | k in events
      ensures Pruned(events[k], history[k], now, window)
    {
      PrunedLater(events[k], history[k], latest, now, window);
    }
  }

  /** What a request finds: the deque of its key, or an empty one. */
  lemma TracksKey(events: map<string, seq<int>>, history: map<string, seq<int>>, latest: int, window: int, key: string,
                  now: int)
    requires Tracks(events, history, latest, window) && (history != map[] ==> latest <= now)
    ensures Pruned(if key in events then events[key] else [], if key in history then history[key] else [], now, window)
  {
    if key in events {
      PrunedLater(events[key], history[key], latest, now, window);
    }
  }

  class SlidingWindowRateLimiter {
    const limit: int
    const window: int
    var events: map<string, seq<int>>
    /** Every allowed event per key, and the latest clock reading. */
    ghost var history: map<string, seq<int>>
    ghost var latest: int

    ghost function Past(key: string): seq<int>
      reads this
    {
      if key in history then history[key] else []
    }

    ghost predicate Valid()
      reads this
    {
      Tracks(events, history, latest, window)
    }

    constructor (limit: int, window: int)
      ensures Valid() && this.limit == limit && this.window == window && history == map[]
    {
      this.limit, this.window := limit, window;
      events, history, latest := map[], map[], 0;
    }

    /** For nondecreasing clock readings the pruned deque decides as the full history would. */
    method Allow(key: string, now: int) returns (allowed: bool)
      requires Valid() && (history != map[] ==> latest <= now)
      modifies this
      ensures Valid() && latest == now
      ensures allowed == Allows(old(Past(key)), now, limit, window)
      ensures Past(key) == Next(old(Past(key)), now, limit, window)
      ensures allowed <==> RoomFor(old(Past(key)), now, limit, window)
      ensures history == old(history)[key := if allowed then old(Past(key)) + [now] else old(Past(key))]
    {
      hide RoomFor, Pruned, InWindow, Allows, Next, Nondecreasing, Tracks;
      ghost var past := Past(key);
      var queue := if key in events then events[key] else [];
      TracksKey(events, history, latest, window, key, now);
      queue := PopExpired(queue, past, now, window);
      LengthDecides(queue, past, now, limit, window);
      allowed := |queue| < limit;
      if allowed {
        queue := queue + [now];
      }
      TracksNext(events, history, latest, window, key, queue, Next(past, now, limit, window), now);
      events := events[key := queue];
      history := history[key := Next(past, now, limit, window)];
      latest := now;
    }
  }

  // ---------- Fixed windows ----------

  /** The start of the aligned window an instant falls in. */
  function WindowStart(now: int, window: int): int
    requires window > 0
  {
    now - now % window
  }

  /** `(rate_key, window_started_at)` to `request_count`. */
  type Counters = map<(string, int), nat>

  /** DELETE of the windows before `start`. */
  function FromWindow(counters: Counters, start: int): Counters {
    map k | k in counters && !(k.1 < start) :: counters[k]
  }

  /** Older windows are deleted; then a counter is inserted at one, or counted up while it is below the limit. The
      request is allowed exactly if one of the two wrote a row. */
  function AfterRequest(counters: Counters, key: string, now: int, limit: int, window: int): (Counters, bool)
    requires window > 0
  {
    var start := WindowStart(now, window);
    var kept := FromWindow(counters, start);
    if (key, start) !in kept then (kept[(key, start) := 1], true)
    else if kept[(key, start)] < limit then (kept[(key, start) := kept[(key, start)] + 1], true)
    else (kept, false)
  }

  class PostgresRateLimiter {
    const limit: int
    const window: int
    var counters: Counters
    /** Every request so far and whether it was allowed. */
    ghost var requests: seq<Request>
    ghost var verdicts: seq<bool>

    /** The table is what the requests have made of it. */
    ghost predicate Valid()
      reads this
    {
      limit > 0 && window > 0 && Serve(requests, limit, window) == (counters, verdicts)
    }

    constructor (limit: int, window: int)
      requires limit > 0 && window > 0
      ensures Valid() && this.limit == limit && this.window == window && requests == []
    {
      this.limit, this.window, counters := limit, window, map[];
      requests, verdicts := [], [];
    }

    /** As long as the clock readings do not decrease, a request is allowed exactly if fewer than `limit` requests of
        its key were allowed in the same aligned window, and the table holds these numbers and no older window. */
    method Allow(key: string, now: int) returns (allowed: bool)
      requires Valid()
      modifies this
      ensures Valid()
      ensures requests == old(requests) + [Request(key, now)] && verdicts == old(verdicts) + [allowed]
      ensures InOrder(requests) ==>
        (allowed <==> Granted(old(requests), old(verdicts), key, WindowStart(now, window), window) < limit)
      ensures forall k :: k in counters ==> WindowStart(now, window) <= k.1
      ensures InOrder(requests) ==>
        forall k :: k in counters ==> counters[k] == Granted(requests, verdicts, k.0, k.1, window)
    {
      ghost var before := counters;
      ghost var request := Request(key, now);
      var start := WindowStart(now, window);
      counters := FromWindow(counters, start);
      if (key, start) !in counters {
        counters := counters[(key, start) := 1];
        allowed := true;
      } else {
        allowed := counters[(key, start)] < limit;
        if allowed {
          counters := counters[(key, start) := counters[(key, start)] + 1];
        }
      }
      assert AfterRequest(before, key, now, limit, window) == (counters, allowed);
      hide AfterRequest, Granted, FromWindow, Serve, InOrder, WindowStart;
      VerdictMeans(requests, verdicts, before, request, limit, window);
      requests, verdicts := requests + [request], verdicts + [allowed];
    }
  }

  datatype Request = Request(key: string, now: int)

  ghost predicate InOrder(requests: seq<Request>) {
    forall i, j :: 0 <= i < j < |requests| ==> requests[i].now <= requests[j].now
  }

  /** The table and the verdicts after a series of requests. */
  function Serve(requests: seq<Request>, limit: int, window: int): (r: (Counters, seq<bool>))
    requires window > 0
    ensures |r.1| == |requests|
  {
    if requests == [] then (map[], [])
    else
      var n := |requests| - 1;
      var (counters, verdicts) := Serve(requests[..n], limit, window);
      var (after, allowed) := AfterRequest(counters, requests[n].key, requests[n].now, limit, window);
      (after, verdicts + [allowed])
  }

  /** How many requests of the key fell in the aligned window. */
  ghost function Requested(requests: seq<Request>, key: string, start: int, window: int): nat
    requires window > 0
  {
    if requests == [] then 0
    else
      var n := |requests| - 1;
      Requested(requests[..n], key, start, window)
      + if requests[n].key == key && WindowStart(requests[n].now, window) == start then 1 else 0
  }

  /** How many of them were allowed. */
  ghost function Granted(requests: seq<Request>, verdicts: seq<bool>, key: string, start: int, window: int): nat
    requires window > 0 && |verdicts| == |requests|
  {
    if requests == [] then 0
    else
      var n := |requests| - 1;
      Granted(requests[..n], verdicts[..n], key, start, window)
      + if verdicts[n] && requests[n].key == key && WindowStart(requests[n].now, window) == start then 1 else 0
  }

  ghost function AtMostLimit(n: nat, limit: nat): nat {
    if n <= limit then n else limit
  }

  lemma WindowsFollowClock(a: int, b: int, window: int)
    requires window > 0 && a <= b
    ensures WindowStart(a, window) <= a < WindowStart(a, window) + window
    ensures WindowStart(a, window) <= WindowStart(b, window)
    ensures WindowStart(a, window) == WindowStart(b, window)
      || WindowStart(a, window) + window <= WindowStart(b, window)
  {
    assert WindowStart(a, window) == window * (a / window);
    assert WindowStart(b, window) == window * (b / window);
    if a / window < b / window {
      assert window * (a / window) + window <= window * (b / window) by {
        Multiples(window, a / window, b / window);
      }
    } else {
      assert a / window == b / window by {
        if b / window < a / window {
          Multiples(window, b / window, a / window);
        }
      }
    }
  }

  lemma {:induction false} Multiples(w: int, p: int, q: int)
    requires w > 0 && p < q
    ensures w * p + w <= w * q
    decreases q - p
  {
    if p + 1 == q {
      assert w * (p + 1) == w * p + w;
    } else {
      Multiples(w, p, q - 1);
      assert w * q == w * (q - 1) + w;
    }
  }

  /** What the table holds: the current window's counts, capped by the limit, and nothing older. */
  ghost predicate Counted(requests: seq<Request>, counters: Counters, key: string, start: int, limit: nat, window: int)
    requires window > 0
  {
    var n := Requested(requests, key, start, window);
    && ((key, start) in counters ==> counters[(key, start)] == AtMostLimit(n, limit) && n > 0)
    && (requests != [] && WindowStart(requests[|requests| - 1].now, window) <= start && n > 0 ==>
          (key, start) in counters)
  }

  lemma {:induction false} NoLaterWindow(requests: seq<Request>, key: string, start: int, window: int, now: int)
    requires window > 0 && WindowStart(now, window) < start
    requires forall i :: 0 <= i < |requests| ==> requests[i].now <= now
    ensures Requested(requests, key, start, window) == 0
  {
    if requests != [] {
      var n := |requests| - 1;
      WindowsFollowClock(requests[n].now, now, window);
      NoLaterWindow(requests[..n], key, start, window, now);
    }
  }

  /** A request of the key in the window counts, and is allowed while the count is below the limit. */
  lemma SameWindow(requests: seq<Request>, limit: nat, window: int)
    requires limit > 0 && window > 0 && requests != [] && InOrder(requests)
    requires var n := |requests| - 1;
      var (key, start) := (requests[n].key, WindowStart(requests[n].now, window));
      Counted(requests[..n], Serve(requests[..n], limit, window).0, key, start, limit, window)
    ensures var n := |requests| - 1;
      var (key, start) := (requests[n].key, WindowStart(requests[n].now, window));
      var (after, allowed) := AfterRequest(Serve(requests[..n], limit, window).0, key, requests[n].now, limit, window);
      && Counted(requests, after, key, start, limit, window)
      && (allowed <==> Requested(requests[..n], key, start, window) < limit)
  {
    var n := |requests| - 1;
    if n > 0 {
      WindowsFollowClock(requests[n - 1].now, requests[n].now, window);
    }
  }

  /** A request of another key or window leaves the count alone, and may delete it once its window is over. */
  lemma OtherWindow(requests: seq<Request>, key: string, start: int, limit: nat, window: int)
    requires limit > 0 && window > 0 && requests != [] && InOrder(requests)
    requires requests[|requests| - 1].key != key || WindowStart(requests[|requests| - 1].now, window) != start
    requires var n := |requests| - 1;
      Counted(requests[..n], Serve(requests[..n], limit, window).0, key, start, limit, window)
    ensures var n := |requests| - 1;
      var before := Serve(requests[..n], limit, window).0;
      Counted(requests, AfterRequest(before, requests[n].key, requests[n].now, limit, window).0, key, start, limit,
              window)
  {
    var n := |requests| - 1;
    if n > 0 {
      WindowsFollowClock(requests[n - 1].now, requests[n].now, window);
    }
  }

  /** For nondecreasing clock readings, and although old windows are deleted on every request, each key is
      allowed exactly its first `limit` requests in each aligned window. */
  lemma {:induction false} FirstLimitAllowed(requests: seq<Request>, key: string, start: int, limit: nat, window: int)
    requires limit > 0 && window > 0 && InOrder(requests)
    ensures var (counters, verdicts) := Serve(requests, limit, window);
      && Counted(requests, counters, key, start, limit, window)
      && Granted(requests, verdicts, key, start, window) == AtMostLimit(Requested(requests, key, start, window), limit)
  {
    if requests != [] {
      var n := |requests| - 1;
      FirstLimitAllowed(requests[..n], key, start, limit, window);
      if requests[n].key == key && WindowStart(requests[n].now, window) == start {
        SameWindow(requests, limit, window);
      } else {
        OtherWindow(requests, key, start, limit, window);
      }
      hide AfterRequest, Counted;
      var (counters, verdicts) := Serve(requests[..n], limit, window);
      var (_, allowed) := AfterRequest(counters, requests[n].key, requests[n].now, limit, window);
      assert (verdicts + [allowed])[..n] == verdicts;
    }
  }

  lemma ServeNext(requests: seq<Request>, r: Request, limit: int, window: int)
    requires window > 0
    ensures var (counters, verdicts) := Serve(requests, limit, window);
      var (after, allowed) := AfterRequest(counters, r.key, r.now, limit, window);
      Serve(requests + [r], limit, window) == (after, verdicts + [allowed])
  {
    assert (requests + [r])[..|requests|] == requests;
  }

  /** The verdict on the next request, told from the verdicts before it. */
  lemma AllowedIffBelowLimit(requests: seq<Request>, r: Request, limit: nat, window: int)
    requires limit > 0 && window > 0 && InOrder(requests + [r])
    ensures var (counters, verdicts) := Serve(requests, limit, window);
      AfterRequest(counters, r.key, r.now, limit, window).1 <==>
        Granted(requests, verdicts, r.key, WindowStart(r.now, window), window) < limit
  {
    var all := requests + [r];
    assert all[..|requests|] == requests;
    FirstLimitAllowed(requests, r.key, WindowStart(r.now, window), limit, window);
    SameWindow(all, limit, window);
  }

  /** What the table holds are the allowed requests of each key and window. */
  lemma CountersAreGrants(requests: seq<Request>, limit: nat, window: int)
    requires limit > 0 && window > 0 && InOrder(requests)
    ensures var (counters, verdicts) := Serve(requests, limit, window);
      forall k :: k in counters ==> counters[k] == Granted(requests, verdicts, k.0, k.1, window)
  {
    var (counters, verdicts) := Serve(requests, limit, window);
    forall k | k in counters
      ensures counters[k] == Granted(requests, verdicts, k.0, k.1, window)
    {
      FirstLimitAllowed(requests, k.0, k.1, limit, window);
    }
  }

  /** What one request does to the table, told from the history alone. */
  lemma VerdictMeans(requests: seq<Request>, verdicts: seq<bool>, before: Counters, r: Request, limit: nat, window: int)
    requires limit > 0 && window > 0 && Serve(requests, limit, window) == (before, verdicts)
    ensures var (after, allowed) := AfterRequest(before, r.key, r.now, limit, window);
      && Serve(requests + [r], limit, window) == (after, verdicts + [allowed])
      && (forall k :: k in after ==> WindowStart(r.now, window) <= k.1)
      && (InOrder(requests + [r]) ==>
            (allowed <==> Granted(requests, verdicts, r.key, WindowStart(r.now, window), window) < limit))
      && (InOrder(requests + [r]) ==>
            forall k :: k in after ==> after[k] == Granted(requests + [r], verdicts + [allowed], k.0, k.1, window))
  {
    ServeNext(requests, r, limit, window);
    hide Serve, Granted;
    if InOrder(requests + [r]) {
      AllowedIffBelowLimit(requests, r, limit, window);
      CountersAreGrants(requests + [r], limit, window);
    }
  }

  // ---------- At most twice the limit in any window ----------

  /** How many requests of the key were allowed in `[from, from + window)`. */
  ghost function GrantedFrom(requests: seq<Request>, verdicts: seq<bool>, key: string, from: int, window: int): nat
    requires |verdicts| == |requests|
  {
    if requests == [] then 0
    else
      var n := |requests| - 1;
      GrantedFrom(requests[..n], verdicts[..n], key, from, window)
      + if verdicts[n] && requests[n].key == key && from <= requests[n].now < from + window then 1 else 0
  }

  lemma {:induction false} TwoWindowsCover(requests: seq<Request>, verdicts: seq<bool>, key: string, from: int,
                                           window: int)
    requires window > 0 && |verdicts| == |requests|
    ensures GrantedFrom(requests, verdicts, key, from, window) <=
            Granted(requests, verdicts, key, WindowStart(from, window), window)
            + Granted(requests, verdicts, key, WindowStart(from, window) + window, window)
  {
    if requests != [] {
      var n := |requests| - 1;
      TwoWindowsCover(requests[..n], verdicts[..n], key, from, window);
      if from <= requests[n].now < from + window {
        WindowsFollowClock(from, requests[n].now, window);
        WindowsFollowClock(requests[n].now, from + window, window);
        NextWindow(from, window);
      }
    }
  }

  lemma NextWindow(from: int, window: int)
    requires window > 0
    ensures WindowStart(from + window, window) == WindowStart(from, window) + window
  {
    assert (from + window) % window == from % window by {
      assert from + window == window * (from / window + 1) + from % window;
      ModUnique(from + window, window, from / window + 1, from % window);
    }
  }

  lemma ModUnique(x: int, w: int, q: int, r: int)
    requires w > 0 && x == w * q + r && 0 <= r < w
    ensures x % w == r
  {
    var p := x / w;
    assert x == w * p + x % w;
    if p < q {
      Multiples(w, p, q);
    } else if q < p {
      Multiples(w, q, p);
    }
  }

  /** No interval as long as a window holds more than twice the limit of allowed requests. */
  lemma AtMostTwiceTheLimit(requests: seq<Request>, key: string, from: int, limit: nat, window: int)
    requires limit > 0 && window > 0 && InOrder(requests)
    ensures GrantedFrom(requests, Serve(requests, limit, window).1, key, from, window) <= 2 * limit
  {
    var verdicts := Serve(requests, limit, window).1;
    TwoWindowsCover(requests, verdicts, key, from, window);
    FirstLimitAllowed(requests, key, WindowStart(from, window), limit, window);
    FirstLimitAllowed(requests, key, WindowStart(from, window) + window, limit, window);
  }
}
