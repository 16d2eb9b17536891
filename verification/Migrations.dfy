/** Versioned schema migrations. The schema is the series of statements that built it; any statement of
    any run may fail, or the process may die there, and the database then rolls the open transaction back. */
module Migrations {
  import opened Wrappers

  datatype Migration = Migration(version: int, name: string, statements: seq<string>)

  /** The durable content: is there a marker table, which (version, name) markers does it hold in order of
      insertion, and which statements have been executed. */
  datatype Schema = Schema(tracked: bool, markers: seq<(int, string)>, executed: seq<string>)

  const EMPTY: Schema := Schema(false, [], [])

  datatype MigrationError = NotIncreasing | Interrupted

  predicate Applied(s: Schema, version: int) {
    exists i :: 0 <= i < |s.markers| && s.markers[i].0 == version
  }

  /** One connection. `working` is the open transaction's view; `patience` is how many more statements the
      environment lets through before one fails. */
  class Connection {
    var durable: Schema
    var working: Schema
    var patience: nat

    constructor (durable: Schema, patience: nat)
      ensures this.durable == durable && working == durable && this.patience == patience
    {
      this.durable, this.working, this.patience := durable, durable, patience;
    }

    /** BEGIN IMMEDIATE, or any statement without lasting effect. */
    method Touch() returns (ok: bool)
      modifies this`patience
      ensures ok <==> old(patience) > 0
      ensures patience == if ok then old(patience) - 1 else 0
    {
      ok := patience > 0;
      if ok {
        patience := patience - 1;
      }
    }

    method Execute(statement: string) returns (ok: bool)
      modifies this`patience, this`working
      ensures ok <==> old(patience) > 0
      ensures working == if ok then old(working).(executed := old(working).executed + [statement]) else old(working)
    {
      ok := Touch();
      if ok {
        working := working.(executed := working.executed + [statement]);
      }
    }

    method InsertMarker(version: int, name: string) returns (ok: bool)
      modifies this`patience, this`working
      ensures ok <==> old(patience) > 0
      ensures working == if ok then old(working).(markers := old(working).markers + [(version, name)]) else old(working)
    {
      ok := Touch();
      if ok {
        working := working.(markers := working.markers + [(version, name)]);
      }
    }

    method Commit() returns (ok: bool)
      modifies this
      ensures ok <==> old(patience) > 0
      ensures ok ==> durable == old(working) && working == old(working)
      ensures !ok ==> durable == old(durable) && working == old(working)
    {
      ok := Touch();
      if ok {
        durable := working;
      }
    }

    method Rollback()
      modifies this`working
      ensures working == durable
    {
      working := durable;
    }
  }

  // ---------- The state after the first migrations of a list ----------

  function Bodies(migrations: seq<Migration>): seq<string> {
    if migrations == [] then [] else Bodies(migrations[..|migrations| - 1]) + migrations[|migrations| - 1].statements
  }

  function Markers(migrations: seq<Migration>): seq<(int, string)> {
    if migrations == [] then []
    else
      var last := migrations[|migrations| - 1];
      Markers(migrations[..|migrations| - 1]) + [(last.version, last.name)]
  }

  /** Where the body of migration `i` begins: after the statements of those before it. */
  function Offset(migrations: seq<Migration>, i: nat): nat
    requires i <= |migrations|
  {
    if i == 0 then 0 else Offset(migrations, i - 1) + |migrations[i - 1].statements|
  }

  lemma {:induction false} OffsetOfPrefix(migrations: seq<Migration>, n: nat, i: nat)
    requires i <= n <= |migrations|
    ensures Offset(migrations[..n], i) == Offset(migrations, i)
  {
    if i > 0 {
      OffsetOfPrefix(migrations, n, i - 1);
    }
  }

  /** The body of migration `i` stands in its place among the executed statements. */
  ghost predicate StandsAt(migrations: seq<Migration>, i: nat, executed: seq<string>)
    requires i < |migrations|
  {
    var (from, body) := (Offset(migrations, i), migrations[i].statements);
    from + |body| <= |executed| && executed[from..from + |body|] == body
  }

  /** What has been executed: the statements of every migration in its place, and no others. */
  lemma {:induction false} BodiesAt(migrations: seq<Migration>)
    ensures |Bodies(migrations)| == Offset(migrations, |migrations|)
    ensures forall i :: 0 <= i < |migrations| ==> StandsAt(migrations, i, Bodies(migrations))
  {
    if migrations != [] {
      var n := |migrations| - 1;
      var (front, all) := (Bodies(migrations[..n]), Bodies(migrations));
      BodiesAt(migrations[..n]);
      OffsetOfPrefix(migrations, n, n);
      forall i | 0 <= i < |migrations|
        ensures StandsAt(migrations, i, all)
      {
        if i < n {
          OffsetOfPrefix(migrations, n, i);
          assert StandsAt(migrations[..n], i, front);
          var (from, to) := (Offset(migrations, i), Offset(migrations, i) + |migrations[i].statements|);
          assert all[from..to] == front[from..to];
        }
      }
    }
  }

  /** Exactly these migrations have been applied, each body once, in order. */
  function Built(migrations: seq<Migration>): Schema {
    Schema(true, Markers(migrations), Bodies(migrations))
  }

  ghost predicate Increasing(migrations: seq<Migration>) {
    && (forall i :: 0 <= i < |migrations| ==> 0 < migrations[i].version)
    && (forall i, j :: 0 <= i < j < |migrations| ==> migrations[i].version < migrations[j].version)
  }

  /** A state any series of interrupted runs can leave: nothing at all, or a prefix of the release list. */
  ghost predicate Partial(s: Schema, release: seq<Migration>, applied: nat) {
    applied <= |release| && (s == Built(release[..applied]) || (applied == 0 && s == EMPTY))
  }

  lemma {:induction false} MarkersAt(migrations: seq<Migration>)
    ensures |Markers(migrations)| == |migrations|
    ensures forall i :: 0 <= i < |migrations| ==> Markers(migrations)[i] == (migrations[i].version, migrations[i].name)
  {
    if migrations != [] {
      MarkersAt(migrations[..|migrations| - 1]);
    }
  }

  /** The marker test tells exactly whether a migration is among those applied. */
  lemma AppliedIffBefore(release: seq<Migration>, applied: nat, i: nat)
    requires Increasing(release) && applied <= |release| && i < |release|
    ensures Applied(Built(release[..applied]), release[i].version) <==> i < applied
  {
    MarkersAt(release[..applied]);
    var s := Built(release[..applied]);
    if i < applied {
      assert s.markers[i].0 == release[i].version;
    }
    if Applied(s, release[i].version) {
      var j :| 0 <= j < |s.markers| && s.markers[j].0 == release[i].version;
      assert release[..applied][j] == release[j];
    }
  }

  // ---------- run_migrations ----------

  /** A committed transaction of one migration: skipped when its marker is there. */
  function AfterMigration(s: Schema, m: Migration): Schema {
    if Applied(s, m.version) then s
    else s.(markers := s.markers + [(m.version, m.name)], executed := s.executed + m.statements)
  }

  /** The transaction of one migration: body and marker are committed together or not at all. */
  method Migrate(c: Connection, m: Migration) returns (ok: bool)
    requires c.working == c.durable
    modifies c
    ensures c.working == c.durable
    ensures c.durable == if ok then AfterMigration(old(c.durable), m) else old(c.durable)
    ensures c.durable == if !ok || Applied(old(c.durable), m.version) then old(c.durable)
                         else Schema(old(c.durable).tracked, old(c.durable).markers + [(m.version, m.name)],
                                     old(c.durable).executed + m.statements)
  {
    ghost var before := c.durable;
    ok := c.Touch();
    if !ok {
      return;
    }
    if Applied(c.working, m.version) {
      ok := c.Commit();
      c.Rollback();
      return;
    }
    var i := 0;
    while i < |m.statements|
      invariant 0 <= i <= |m.statements| && c.durable == before
      invariant c.working == before.(executed := before.executed + m.statements[..i])
    {
      ok := c.Execute(m.statements[i]);
      if !ok {
        c.Rollback();
        return;
      }
      assert m.statements[..i + 1] == m.statements[..i] + [m.statements[i]];
      i := i + 1;
    }
    assert m.statements[..i] == m.statements;
    ok := c.InsertMarker(m.version, m.name);
    if ok {
      ok := c.Commit();
    }
    if !ok {
      c.Rollback();
    }
  }

  /** How far the loop gets from index `i` before the version check stops it. */
  function GoodFrom(migrations: seq<Migration>, i: nat, previous: int): (n: nat)
    requires i <= |migrations|
    ensures i <= n <= |migrations|
    decreases |migrations| - i
  {
    if i == |migrations| || migrations[i].version <= previous then i
    else GoodFrom(migrations, i + 1, migrations[i].version)
  }

  /** The part of a list in front of the first version that does not increase is a prefix of the release. */
  ghost predicate Compatible(migrations: seq<Migration>, release: seq<Migration>) {
    migrations[..GoodFrom(migrations, 0, 0)] <= release
  }

  lemma {:induction false} IncreasingIsGood(migrations: seq<Migration>, i: nat)
    requires Increasing(migrations) && i <= |migrations|
    ensures GoodFrom(migrations, i, if i == 0 then 0 else migrations[i - 1].version) == |migrations|
    decreases |migrations| - i
  {
    if i < |migrations| {
      IncreasingIsGood(migrations, i + 1);
    }
  }

  lemma ApplyNext(release: seq<Migration>, applied: nat, i: nat)
    requires Increasing(release) && i <= applied <= |release| && i < |release|
    ensures AfterMigration(Built(release[..applied]), release[i])
            == Built(release[..if i == applied then i + 1 else applied])
  {
    AppliedIffBefore(release, applied, i);
    if i == applied {
      assert release[..i + 1][..i] == release[..i];
    }
  }

  /** Run from any partial state of a release. Whatever the list and wherever the run stops, it leaves
      a partial state at least as far; it succeeds only with the whole list applied. */
  method RunMigrations(c: Connection, migrations: seq<Migration>, ghost release: seq<Migration>, ghost applied: nat)
    returns (r: Result<int, MigrationError>, ghost reached: nat)
    requires c.working == c.durable && Increasing(release) && Compatible(migrations, release)
    requires Partial(c.durable, release, applied)
    modifies c
    ensures c.working == c.durable && applied <= reached && Partial(c.durable, release, reached)
    ensures reached <= if applied < |migrations| then |migrations| else applied
    ensures r.Ok? ==> c.durable == Built(release[..reached]) && |migrations| <= reached
    ensures r.Ok? ==> GoodFrom(migrations, 0, 0) == |migrations|
    ensures r.Ok? ==> r.value == if reached == 0 then 0 else release[reached - 1].version
    ensures r == Err(NotIncreasing) ==> GoodFrom(migrations, 0, 0) < |migrations|
  {
    hide Applied, AfterMigration, Highest;
    reached := applied;
    ghost var good := GoodFrom(migrations, 0, 0);
    var ok := c.Touch();
    if ok {
      ok := c.Touch();
      if ok {
        c.working := c.working.(tracked := true);
        ok := c.Commit();
      }
    }
    if !ok {
      c.Rollback();
      return Err(Interrupted), reached;
    }
    assert release[..0] == [] && Built([]) == Schema(true, [], []);
    var previous := 0;
    var i := 0;
    while i < |migrations|
      invariant 0 <= i <= good && c.working == c.durable
      invariant reached <= |release| && c.durable == Built(release[..reached])
      invariant reached == if applied < i then i else applied
      invariant GoodFrom(migrations, i, previous) == good
    {
      var m := migrations[i];
      if m.version <= previous {
        return Err(NotIncreasing), reached;
      }
      previous := m.version;
      assert m == migrations[..good][i] == release[i];
      ApplyNext(release, reached, i);
      ok := Migrate(c, m);
      if !ok {
        return Err(Interrupted), reached;
      }
      if i == reached {
        reached := i + 1;
      }
      i := i + 1;
    }
    MaxVersion(release, reached);
    ok := c.Touch();
    if !ok {
      return Err(Interrupted), reached;
    }
    return Ok(Highest(c.durable.markers)), reached;
  }

  /** The highest version marked, or zero. */
  function Highest(markers: seq<(int, string)>): int {
    if markers == [] then 0
    else
      var rest := Highest(markers[..|markers| - 1]);
      if rest <= markers[|markers| - 1].0 then markers[|markers| - 1].0 else rest
  }

  lemma {:induction false} MaxVersion(release: seq<Migration>, applied: nat)
    requires Increasing(release) && applied <= |release|
    ensures Highest(Markers(release[..applied])) == if applied == 0 then 0 else release[applied - 1].version
  {
    if applied > 0 {
      assert release[..applied][..applied - 1] == release[..applied - 1];
      MaxVersion(release, applied - 1);
    }
  }

  // ---------- Path independence ----------

  /** One start of the program: the list it ships and how far its environment lets it get. */
  datatype Start = Start(migrations: seq<Migration>, patience: nat)

  /** Any series of starts, each with a shorter or longer prefix of the final list and each cut short
      anywhere, followed by one start with the whole list that succeeds, gives what one clean start gives:
      every body executed exactly once, in order, and every marker present. */
  method RunReleases(starts: seq<Start>, release: seq<Migration>, patience: nat)
    returns (final: Schema, r: Result<int, MigrationError>)
    requires Increasing(release) && forall i :: 0 <= i < |starts| ==> Compatible(starts[i].migrations, release)
    ensures r.Ok? ==> final == Built(release)
    ensures r.Ok? ==> r.value == if release == [] then 0 else release[|release| - 1].version
    ensures r.Err? ==> r.error == Interrupted
    ensures exists applied :: Partial(final, release, applied)
  {
    var durable := EMPTY;
    ghost var applied := 0;
    var i := 0;
    while i < |starts|
      invariant 0 <= i <= |starts| && Partial(durable, release, applied)
    {
      var c := new Connection(durable, starts[i].patience);
      var _, reached := RunMigrations(c, starts[i].migrations, release, applied);
      durable, applied := c.durable, reached;
      i := i + 1;
    }
    var last := new Connection(durable, patience);
    ghost var reached;
    assert release[..|release|] == release;
    IncreasingIsGood(release, 0);
    r, reached := RunMigrations(last, release, release, applied);
    assert Partial(last.durable, release, reached);
    final := last.durable;
  }

  // ---------- Several programs starting at once ----------

  /** A program in its migration loop, about to open the transaction of migration `next`. */
  datatype Runner = Runner(migrations: seq<Migration>, next: nat)

  datatype Fleet = Fleet(schema: Schema, runners: map<nat, Runner>)

  /** `BEGIN IMMEDIATE` admits one writer, so transactions of different programs follow one another. */
  datatype Step =
    | Launch(p: nat, migrations: seq<Migration>)   // the marker table is there, the loop begins
    | Advance(p: nat)                              // one migration committed or skipped
    | Die(p: nat)                                  // failed or crashed: its open transaction is rolled back

  ghost predicate Enabled(f: Fleet, s: Step, release: seq<Migration>) {
    match s
    case Launch(p, migrations) => p !in f.runners && migrations <= release
    case Advance(p) => p in f.runners && f.runners[p].next < |f.runners[p].migrations|
    case Die(p) => p in f.runners
  }

  ghost function Take(f: Fleet, s: Step): Fleet
    requires s.Advance? ==> s.p in f.runners && f.runners[s.p].next < |f.runners[s.p].migrations|
  {
    match s
    case Launch(p, migrations) => Fleet(f.schema.(tracked := true), f.runners[p := Runner(migrations, 0)])
    case Advance(p) =>
      var r := f.runners[p];
      Fleet(AfterMigration(f.schema, r.migrations[r.next]), f.runners[p := r.(next := r.next + 1)])
    case Die(p) => f.(runners := f.runners - {p})
  }

  /** The schema is a prefix of the release, and every program finds all it has passed applied. */
  ghost predicate FleetInv(f: Fleet, release: seq<Migration>, applied: nat) {
    && Partial(f.schema, release, applied)
    && (forall p :: p in f.runners ==>
          f.runners[p].migrations <= release && f.runners[p].next <= applied
            && f.runners[p].next <= |f.runners[p].migrations|)
    && (f.runners != map[] ==> f.schema == Built(release[..applied]))
  }

  lemma FleetStep(f: Fleet, s: Step, release: seq<Migration>, applied: nat) returns (reached: nat)
    requires Increasing(release) && FleetInv(f, release, applied) && Enabled(f, s, release)
    ensures applied <= reached && FleetInv(Take(f, s), release, reached)
  {
    reached := applied;
    assert release[..0] == [] && Built([]) == Schema(true, [], []);
    if s.Advance? {
      var r := f.runners[s.p];
      ApplyNext(release, applied, r.next);
      if r.next == applied {
        reached := applied + 1;
      }
    }
  }

  ghost predicate Fires(f: Fleet, steps: seq<Step>, release: seq<Migration>)
    decreases steps
  {
    steps == [] || (Enabled(f, steps[0], release) && Fires(Take(f, steps[0]), steps[1..], release))
  }

  ghost function After(f: Fleet, steps: seq<Step>, release: seq<Migration>): Fleet
    requires Fires(f, steps, release)
    decreases steps
  {
    if steps == [] then f else After(Take(f, steps[0]), steps[1..], release)
  }

  lemma {:induction false} FleetRun(f: Fleet, steps: seq<Step>, release: seq<Migration>, applied: nat)
      returns (reached: nat)
    requires Increasing(release) && FleetInv(f, release, applied) && Fires(f, steps, release)
    ensures applied <= reached && FleetInv(After(f, steps, release), release, reached)
    decreases steps
  {
    reached := applied;
    if steps != [] {
      reached := FleetStep(f, steps[0], release, applied);
      reached := FleetRun(Take(f, steps[0]), steps[1..], release, reached);
    }
  }

  /** However programs with prefixes of one release start, overlap and die, as soon as one of them gets
      through the whole list the schema is the clean one, each body executed exactly once. */
  lemma OverlappingStartsAgree(steps: seq<Step>, release: seq<Migration>, p: nat)
    requires Increasing(release) && Fires(Fleet(EMPTY, map[]), steps, release)
    requires var f := After(Fleet(EMPTY, map[]), steps, release);
      p in f.runners && f.runners[p] == Runner(release, |release|)
    ensures After(Fleet(EMPTY, map[]), steps, release).schema == Built(release)
  {
    var reached := FleetRun(Fleet(EMPTY, map[]), steps, release, 0);
    assert release[..|release|] == release;
  }
}
