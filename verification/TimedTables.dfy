/** Tables that hold an instant as text, and the three ways the stores query them:
    the decisions of a period, the latest suggestion at or before an instant, and the audit
    events older than a cutoff. Every query compares texts; the lemmas say what it means
    for instants. */
module TimedTables {
  import opened Wrappers
  import opened TextOrder
  import opened StableSort
  import opened Timestamps

  /** A row as stored: the columns an equality test selects on, the instant as text, the rest. */
  datatype Row<K, T> = Row(key: K, at: string, payload: T)

  /** The record a row stands for. */
  datatype Event<K, T> = Event(key: K, at: Utc, payload: T)

  datatype QueryError = NaiveTimestamp

  function Filter<T>(s: seq<T>, p: T -> bool): seq<T> {
    if s == [] then [] else (if p(s[0]) then [s[0]] else []) + Filter(s[1..], p)
  }

  lemma {:induction false} FilterMembers<T>(s: seq<T>, p: T -> bool)
    ensures forall x :: x in Filter(s, p) <==> x in s && p(x)
  {
    if s != [] {
      FilterMembers(s[1..], p);
      assert s == [s[0]] + s[1..];
    }
  }

  ghost predicate AllValid<K, T>(events: seq<Event<K, T>>) {
    forall e :: e in events ==> Valid(e.at)
  }

  function Stored<K, T>(e: Event<K, T>): Row<K, T>
    requires Valid(e.at)
  {
    Row(e.key, IsoFormat(e.at), e.payload)
  }

  /** The table after inserting the events in order. */
  function Table<K, T>(events: seq<Event<K, T>>): seq<Row<K, T>>
    requires AllValid(events)
  {
    if events == [] then [] else [Stored(events[0])] + Table(events[1..])
  }

  /** `_decision_from_row`, `_event_from_row`: reading rows back fails on a text that is no instant. */
  function Loaded<K, T>(rows: seq<Row<K, T>>): Option<seq<Event<K, T>>> {
    if rows == [] then Some([])
    else match (FromIsoFormat(rows[0].at), Loaded(rows[1..]))
      case (Some(at), Some(rest)) => Some([Event(rows[0].key, at, rows[0].payload)] + rest)
      case _ => None
  }

  lemma LoadedCons<K, T>(e: Event<K, T>, rows: seq<Row<K, T>>, rest: seq<Event<K, T>>)
    requires Valid(e.at) && Loaded(rows) == Some(rest)
    ensures Loaded([Stored(e)] + rows) == Some([e] + rest)
  {
    FromIsoFormatInverse(e.at);
    hide FromIsoFormat, IsoFormat, Valid;
    assert ([Stored(e)] + rows)[1..] == rows;
  }

  lemma {:induction false} LoadedTable<K, T>(events: seq<Event<K, T>>)
    requires AllValid(events)
    ensures Loaded(Table(events)) == Some(events)
  {
    if events != [] {
      LoadedTable(events[1..]);
      LoadedCons(events[0], Table(events[1..]), events[1..]);
      assert events == [events[0]] + events[1..];
      hide Loaded, Stored, Valid;
    }
  }

  // ---------- Commuting text queries with the encoding ----------

  /** A condition on rows and the condition on events it stands for. */
  ghost predicate Means<K(!new), T(!new)>(p: Row<K, T> -> bool, q: Event<K, T> -> bool) {
    forall e: Event<K, T> :: Valid(e.at) ==> p(Stored(e)) == q(e)
  }

  ghost predicate OrderMeans<K(!new), T(!new)>(lt: (Row<K, T>, Row<K, T>) -> bool,
                                               before: (Event<K, T>, Event<K, T>) -> bool)
  {
    forall d: Event<K, T>, e: Event<K, T> :: Valid(d.at) && Valid(e.at) ==> lt(Stored(d), Stored(e)) == before(d, e)
  }

  lemma {:induction false} FilterTable<K(!new), T(!new)>(events: seq<Event<K, T>>, p: Row<K, T> -> bool,
                                                         q: Event<K, T> -> bool)
    requires AllValid(events) && Means(p, q)
    ensures AllValid(Filter(events, q))
    ensures Filter(Table(events), p) == Table(Filter(events, q))
  {
    FilterMembers(events, q);
    if events != [] {
      FilterTable(events[1..], p, q);
      assert Table(events)[1..] == Table(events[1..]);
      if q(events[0]) {
        assert Filter(events, q)[1..] == Filter(events[1..], q);
      } else {
        assert Filter(events, q) == Filter(events[1..], q);
      }
    }
  }

  lemma {:induction false} InsertTable<K(!new), T(!new)>(
    e: Event<K, T>, events: seq<Event<K, T>>,
    lt: (Row<K, T>, Row<K, T>) -> bool, before: (Event<K, T>, Event<K, T>) -> bool)
    requires Valid(e.at) && AllValid(events) && OrderMeans(lt, before)
    ensures AllValid(Insert(e, events, before))
    ensures Insert(Stored(e), Table(events), lt) == Table(Insert(e, events, before))
  {
    InsertMembers(e, events, before);
    forall x | x in Insert(e, events, before) ensures Valid(x.at) {
      assert x in multiset(Insert(e, events, before));
    }
    if events != [] {
      assert Table(events)[1..] == Table(events[1..]);
      if before(events[0], e) {
        InsertTable(e, events[1..], lt, before);
        assert Insert(e, events, before)[1..] == Insert(e, events[1..], before);
      } else {
        assert Insert(e, events, before)[1..] == events;
      }
    }
  }

  lemma {:induction false} SortTable<K(!new), T(!new)>(
    events: seq<Event<K, T>>, lt: (Row<K, T>, Row<K, T>) -> bool, before: (Event<K, T>, Event<K, T>) -> bool)
    requires AllValid(events) && OrderMeans(lt, before)
    ensures AllValid(Sort(events, before))
    ensures Sort(Table(events), lt) == Table(Sort(events, before))
  {
    if events != [] {
      SortTable(events[1..], lt, before);
      assert Table(events)[1..] == Table(events[1..]);
      InsertTable(events[0], Sort(events[1..], before), lt, before);
    }
  }

  predicate TextBefore<K, T>(d: Row<K, T>, e: Row<K, T>) {
    Less(d.at, e.at)
  }

  predicate TextAfter<K, T>(d: Row<K, T>, e: Row<K, T>) {
    Less(e.at, d.at)
  }

  predicate Earlier<K, T>(d: Event<K, T>, e: Event<K, T>) {
    Valid(d.at) && Valid(e.at) && Micros(d.at) < Micros(e.at)
  }

  predicate Later<K, T>(d: Event<K, T>, e: Event<K, T>) {
    Valid(d.at) && Valid(e.at) && Micros(e.at) < Micros(d.at)
  }

  lemma TextBeforeMeansEarlier<K(!new), T(!new)>()
    ensures OrderMeans<K, T>(TextBefore, Earlier)
    ensures OrderMeans<K, T>(TextAfter, Later)
  {
    forall d: Event<K, T>, e: Event<K, T> | Valid(d.at) && Valid(e.at)
      ensures TextBefore(Stored(d), Stored(e)) == Earlier(d, e)
    {
      TextOrderIsTimeOrder(d.at, e.at);
    }
  }

  // ---------- DecisionStore.list_for_period ----------

  function InTextWindow<K(==), T>(key: K, lo: string, hi: string): Row<K, T> -> bool {
    (r: Row<K, T>) => r.key == key && AtMost(lo, r.at) && Less(r.at, hi)
  }

  /** The rows of a key with a text from the start's up to the end's, in text order; ties keep insertion order. */
  function ListForPeriod<K(==), T>(rows: seq<Row<K, T>>, key: K, start: Clock<Utc>, end: Clock<Utc>)
    : Result<seq<Row<K, T>>, QueryError>
    requires start.Aware? ==> Valid(start.at)
    requires end.Aware? ==> Valid(end.at)
  {
    if start.Naive? || end.Naive? then Err(NaiveTimestamp)
    else
      var (lo, hi) := (IsoFormat(start.at), IsoFormat(end.at));
      Ok(Sort(Filter(rows, InTextWindow(key, lo, hi)),
              TextBefore))
  }

  ghost function InInstants<K, T>(key: K, start: int, end: int): Event<K, T> -> bool {
    (e: Event<K, T>) => Valid(e.at) && e.key == key && start <= Micros(e.at) < end
  }

  /** The events of `key` from `start` up to but not including `end`, in insertion order. */
  ghost function InPeriod<K, T>(events: seq<Event<K, T>>, key: K, start: int, end: int): seq<Event<K, T>> {
    Filter(events, InInstants(key, start, end))
  }

  /** The text window, read back, is the window of instants in time order. */
  lemma ListForPeriodMeansInstants<K(!new), T(!new)>(events: seq<Event<K, T>>, key: K, start: Utc, end: Utc)
    requires AllValid(events) && Valid(start) && Valid(end)
    ensures var found := ListForPeriod(Table(events), key, Aware(start), Aware(end));
            found.Ok? && Loaded(found.value) == Some(Sort(InPeriod(events, key, Micros(start), Micros(end)),
                                                          Earlier))
  {
    var (lo, hi) := (IsoFormat(start), IsoFormat(end));
    var p := InTextWindow<K, T>(key, lo, hi);
    var q := InInstants<K, T>(key, Micros(start), Micros(end));
    forall e: Event<K, T> | Valid(e.at) ensures p(Stored(e)) == q(e) {
      TextOrderIsTimeOrder(e.at, start);
      TextOrderIsTimeOrder(e.at, end);
    }
    FilterTable(events, p, q);
    TextBeforeMeansEarlier<K, T>();
    var inPeriod := InPeriod(events, key, Micros(start), Micros(end));
    assert Filter(events, q) == inPeriod;
    SortTable(inPeriod, TextBefore, Earlier);
    LoadedTable(Sort(inPeriod, Earlier));
  }

  // ---------- SuggestionStore._latest ----------

  function UpToText<K(==), T>(key: K, at: Option<Utc>): Row<K, T> -> bool
    requires at.Some? ==> Valid(at.value)
  {
    (r: Row<K, T>) => r.key == key && (at.Some? ==> AtMost(r.at, IsoFormat(at.value)))
  }

  /** The row of a key with the greatest text, or the greatest one that does not exceed that of `at`. */
  function Latest<K(==), T>(rows: seq<Row<K, T>>, key: K, at: Option<Utc>): Option<Row<K, T>>
    requires at.Some? ==> Valid(at.value)
  {
    var found := Sort(Filter(rows, UpToText(key, at)),
                      TextAfter);
    if found == [] then None else Some(found[0])
  }

  ghost predicate Candidate<K, T>(e: Event<K, T>, key: K, at: Option<Utc>) {
    Valid(e.at) && e.key == key && (at.Some? && Valid(at.value) ==> Micros(e.at) <= Micros(at.value))
  }

  ghost predicate IsLatest<K, T>(e: Event<K, T>, events: seq<Event<K, T>>, key: K, at: Option<Utc>) {
    && e in events && Candidate(e, key, at)
    && forall d :: d in events && Candidate(d, key, at) ==> Micros(d.at) <= Micros(e.at)
  }

  ghost function CandidateFor<K, T>(key: K, at: Option<Utc>): Event<K, T> -> bool {
    (e: Event<K, T>) => Candidate(e, key, at)
  }

  /** The candidates, latest first. */
  ghost function Candidates<K(!new), T(!new)>(events: seq<Event<K, T>>, key: K, at: Option<Utc>): seq<Event<K, T>> {
    Sort(Matching(events, key, at), Later)
  }

  ghost function Matching<K, T>(events: seq<Event<K, T>>, key: K, at: Option<Utc>): seq<Event<K, T>> {
    Filter(events, CandidateFor(key, at))
  }

  lemma {:induction false} MatchingMembers<K(!new), T(!new)>(events: seq<Event<K, T>>, key: K, at: Option<Utc>)
    ensures forall e :: e in Matching(events, key, at) <==> e in events && Candidate(e, key, at)
  {
    if events != [] {
      MatchingMembers(events[1..], key, at);
      assert events == [events[0]] + events[1..];
      assert CandidateFor<K, T>(key, at)(events[0]) == Candidate(events[0], key, at);
      assert Matching(events, key, at) ==
             (if Candidate(events[0], key, at) then [events[0]] else []) + Matching(events[1..], key, at);
    }
  }

  lemma LatestOfTable<K(!new), T(!new)>(events: seq<Event<K, T>>, key: K, at: Option<Utc>)
    requires AllValid(events) && (at.Some? ==> Valid(at.value))
    ensures AllValid(Candidates(events, key, at))
    ensures var c := Candidates(events, key, at);
            Latest(Table(events), key, at) == if c == [] then None else Some(Stored(c[0]))
  {
    var p := UpToText<K, T>(key, at);
    var q := CandidateFor<K, T>(key, at);
    forall e: Event<K, T> | Valid(e.at) ensures p(Stored(e)) == q(e) {
      if at.Some? {
        TextOrderIsTimeOrder(at.value, e.at);
      }
    }
    FilterTable(events, p, q);
    TextBeforeMeansEarlier<K, T>();
    assert Filter(events, q) == Matching(events, key, at);
    SortTable(Filter(events, q), TextAfter, Later);
  }

  lemma CandidateMembers<K(!new), T(!new)>(events: seq<Event<K, T>>, key: K, at: Option<Utc>)
    ensures forall e :: e in Candidates(events, key, at) <==> e in events && Candidate(e, key, at)
  {
    var found := Matching(events, key, at);
    MatchingMembers(events, key, at);
    SortMembers(found, Later);
    forall e ensures e in Candidates(events, key, at) <==> e in found {
      assert e in Candidates(events, key, at) <==> e in multiset(Candidates(events, key, at));
      assert e in found <==> e in multiset(found);
    }
  }

  lemma FirstCandidateIsLatest<K(!new), T(!new)>(events: seq<Event<K, T>>, key: K, at: Option<Utc>)
    requires AllValid(events) && Candidates(events, key, at) != []
    ensures IsLatest(Candidates(events, key, at)[0], events, key, at)
  {
    CandidateMembers(events, key, at);
    MatchingMembers(events, key, at);
    LaterIsWeakOnValid(Matching(events, key, at));
    var c := Candidates(events, key, at);
    assert c[0] in c;
    forall d | d in events && Candidate(d, key, at) ensures Micros(d.at) <= Micros(c[0].at) {
      assert d in c;
    }
  }

  /** The lookup finds a candidate with the greatest instant, and nothing exactly when there is none. */
  lemma LatestMeansInstants<K(!new), T(!new)>(events: seq<Event<K, T>>, key: K, at: Option<Utc>)
    requires AllValid(events) && (at.Some? ==> Valid(at.value))
    ensures Latest(Table(events), key, at) == None <==> forall e :: e in events ==> !Candidate(e, key, at)
    ensures Latest(Table(events), key, at).Some? ==>
              exists e :: IsLatest(e, events, key, at) && Latest(Table(events), key, at) == Some(Stored(e))
  {
    LatestOfTable(events, key, at);
    CandidateMembers(events, key, at);
    if Candidates(events, key, at) != [] {
      FirstCandidateIsLatest(events, key, at);
      assert Candidates(events, key, at)[0] in Candidates(events, key, at);
    }
  }

  /** On rows that hold instants the descending sort puts a latest one first. */
  lemma {:induction false} LaterIsWeakOnValid<K, T>(events: seq<Event<K, T>>)
    requires AllValid(events)
    ensures var sorted := Sort(events, Later);
            forall e :: e in sorted ==> Valid(e.at) && Micros(e.at) <= Micros(sorted[0].at)
  {
    var later := Later;
    if events != [] {
      LaterIsWeakOnValid(events[1..]);
      var rest := Sort(events[1..], later);
      SortMembers(events[1..], later);
      forall e | e in rest ensures Valid(e.at) {
        assert e in multiset(events[1..]);
      }
      var s := Insert(events[0], rest, later);
      assert s == Sort(events, later);
      InsertMembers(events[0], rest, later);
      forall e | e in s ensures Valid(e.at) && Micros(e.at) <= Micros(s[0].at) {
        assert e in multiset(s);
        assert e == events[0] || e in rest;
      }
    }
  }

  // ---------- SecurityAuditStore ----------

  datatype Audit = Audit(eventId: string, subject: string, reason: string)

  /** The append-only archive: only retention cleanup removes rows. */
  class SecurityAuditStore {
    var rows: seq<Row<Option<string>, Audit>>

    constructor ()
      ensures rows == []
    {
      rows := [];
    }

    /** A second event with the same primary key is an integrity error and changes nothing. */
    method Record(event: Event<Option<string>, Audit>) returns (inserted: bool)
      requires Valid(event.at)
      modifies this
      ensures inserted <==> forall r :: r in old(rows) ==> r.payload.eventId != event.payload.eventId
      ensures rows == if inserted then old(rows) + [Stored(event)] else old(rows)
    {
      inserted := forall r :: r in rows ==> r.payload.eventId != event.payload.eventId;
      if inserted {
        rows := rows + [Stored(event)];
      }
    }

    /** Deletes the rows whose text is smaller than the cutoff's; returns their number. */
    method PurgeBefore(cutoff: Clock<Utc>) returns (removed: Result<nat, QueryError>)
      requires cutoff.Aware? ==> Valid(cutoff.at)
      modifies this
      ensures cutoff.Naive? ==> removed == Err(NaiveTimestamp) && rows == old(rows)
      ensures cutoff.Aware? ==> removed.Ok? && rows == Kept(old(rows), cutoff.at)
                                && removed.value == |old(rows)| - |rows|
    {
      if cutoff.Naive? {
        return Err(NaiveTimestamp);
      }
      KeptLength(rows, cutoff.at);
      var kept := Kept(rows, cutoff.at);
      removed := Ok(|rows| - |kept|);
      rows := kept;
    }
  }

  function FromText<K, T>(cutoff: Utc): Row<K, T> -> bool
    requires Valid(cutoff)
  {
    (r: Row<K, T>) => !Less(r.at, IsoFormat(cutoff))
  }

  ghost function FromInstant<K, T>(cutoff: int): Event<K, T> -> bool {
    (e: Event<K, T>) => Valid(e.at) && cutoff <= Micros(e.at)
  }

  function Kept<K, T>(rows: seq<Row<K, T>>, cutoff: Utc): seq<Row<K, T>>
    requires Valid(cutoff)
  {
    Filter(rows, FromText(cutoff))
  }

  lemma KeptLength<K, T>(rows: seq<Row<K, T>>, cutoff: Utc)
    requires Valid(cutoff)
    ensures |Kept(rows, cutoff)| <= |rows|
  {
    FilterLength(rows, FromText(cutoff));
  }

  lemma {:induction false} FilterLength<T>(s: seq<T>, p: T -> bool)
    ensures |Filter(s, p)| <= |s|
  {
    if s != [] {
      FilterLength(s[1..], p);
    }
  }

  /** A purge keeps exactly the events at or after the cutoff, in their order. */
  lemma PurgeMeansInstants<K(!new), T(!new)>(events: seq<Event<K, T>>, cutoff: Utc)
    requires AllValid(events) && Valid(cutoff)
    ensures Loaded(Kept(Table(events), cutoff)) ==
            Some(Filter(events, FromInstant(Micros(cutoff))))
  {
    var p := FromText<K, T>(cutoff);
    var q := FromInstant<K, T>(Micros(cutoff));
    forall e: Event<K, T> | Valid(e.at) ensures p(Stored(e)) == q(e) {
      TextOrderIsTimeOrder(e.at, cutoff);
    }
    FilterTable(events, p, q);
    LoadedTable(Filter(events, q));
  }
}
