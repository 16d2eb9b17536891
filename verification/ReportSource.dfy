/** The decisions a report is made from are those the store's query on texts returns. */
module ReportSource {
  import opened Wrappers
  import opened StableSort
  import opened Timestamps
  import W = WorkOrders
  import T = TimedTables
  import R = MonthlyReports

  type Stored = T.Event<string, W.Decision>

  /** A decision is stored under its customer and the instant it was made. */
  ghost predicate Faithful(events: seq<Stored>) {
    T.AllValid(events) && forall e :: e in events ==> e.payload.customer == e.key && e.payload.decidedAt == Micros(e.at)
  }

  function Decisions(events: seq<Stored>): seq<W.Decision> {
    if events == [] then [] else [events[0].payload] + Decisions(events[1..])
  }

  lemma {:induction false} InsertDecisions(e: Stored, events: seq<Stored>)
    requires Faithful([e]) && Faithful(events)
    ensures Decisions(Insert(e, events, T.Earlier))
            == Insert(e.payload, Decisions(events), R.DecidedBefore)
  {
    assert e in [e];
    if events != [] && T.Earlier(events[0], e) {
      InsertDecisions(e, events[1..]);
      assert Decisions(events)[1..] == Decisions(events[1..]);
    } else if events != [] {
      assert events[0] in events;
      assert ([e] + events)[1..] == events;
    }
  }

  lemma FilterFront(events: seq<Stored>, customer: string, start: int, end: int)
    requires Faithful(events) && events != []
    ensures T.InPeriod(events, customer, start, end) ==
            (if R.Within(events[0].payload, customer, start, end) then [events[0]] else [])
            + T.InPeriod(events[1..], customer, start, end)
  {
    assert events[0] in events;
  }

  lemma {:induction false} PeriodIsPart(events: seq<Stored>, customer: string, start: int, end: int)
    requires Faithful(events)
    ensures forall e :: e in T.InPeriod(events, customer, start, end) ==> e in events
  {
    if events != [] {
      PeriodIsPart(events[1..], customer, start, end);
      FilterFront(events, customer, start, end);
    }
  }

  lemma SortedStaysFaithful(events: seq<Stored>, customer: string, start: int, end: int)
    requires Faithful(events)
    ensures Faithful(Sort(T.InPeriod(events, customer, start, end), T.Earlier))
  {
    var found := T.InPeriod(events, customer, start, end);
    var sorted := Sort(found, T.Earlier);
    PeriodIsPart(events, customer, start, end);
    SortMembers(found, T.Earlier);
    forall e | e in sorted
      ensures e in events
    {
      assert e in multiset(sorted) && e in multiset(found);
    }
  }

  lemma {:induction false} PeriodOfDecisions(events: seq<Stored>, customer: string, start: int, end: int)
    requires Faithful(events)
    ensures Decisions(Sort(T.InPeriod(events, customer, start, end), T.Earlier))
            == R.ListForPeriod(Decisions(events), customer, start, end)
  {
    if events != [] {
      var rest := T.InPeriod(events[1..], customer, start, end);
      PeriodOfDecisions(events[1..], customer, start, end);
      FilterFront(events, customer, start, end);
      assert Decisions(events)[1..] == Decisions(events[1..]);
      if R.Within(events[0].payload, customer, start, end) {
        assert ([events[0]] + rest)[1..] == rest;
        assert events[0] in events;
        SortedStaysFaithful(events[1..], customer, start, end);
        InsertDecisions(events[0], Sort(rest, T.Earlier));
      } else {
        assert [] + rest == rest;
      }
    }
  }

  /** What the store's query on texts returns, read back, is the list of the period that the reports are built on. */
  lemma TextQueryFeedsReports(events: seq<Stored>, customer: string, start: Utc, end: Utc)
    requires Faithful(events) && Valid(start) && Valid(end)
    ensures var found := T.ListForPeriod(T.Table(events), customer, Aware(start), Aware(end));
            found.Ok? && T.Loaded(found.value).Some?
            && Decisions(T.Loaded(found.value).value)
               == R.ListForPeriod(Decisions(events), customer, Micros(start), Micros(end))
  {
    T.ListForPeriodMeansInstants(events, customer, start, end);
    PeriodOfDecisions(events, customer, Micros(start), Micros(end));
  }
}
