/** The versioned migration runner and its rollback. */
module Migrations {
  import opened Prelude
  import opened MigrationFiles

  // ----- running -----

  /** The widest version the INTEGER column takes. */
  const MAX_INTEGER := 2_147_483_647

  /** The schema and the schema_migrations table. */
  datatype Db<S> = Db(schema: S, applied: set<nat>)

  /** What a script does to a schema, or that it fails. */
  type Scripts<!S> = string -> S -> Option<S>

  /** What can go wrong besides the script: the transaction is rolled back, or it commits and the reply is lost. */
  datatype Fault = Clean | RolledBack | LostReply

  datatype Ran = Ran(ok: bool, versions: seq<nat>)

  ghost function Attempt<S(!new)>(scripts: Scripts<S>, f: File, fault: Fault, d: Db<S>): Effect<Db<S>, Ran> {
    if f.version in d.applied then Effect(d, Ran(true, []))
    else if fault.RolledBack? || MAX_INTEGER < f.version || scripts(f.name)(d.schema).None? then Effect(d, Ran(false, []))
    else Effect(Db(scripts(f.name)(d.schema).value, d.applied + {f.version}), Ran(fault.Clean?, [f.version]))
  }

  /** One run over the files; it stops at the first error. */
  ghost function RunOver<S(!new)>(scripts: Scripts<S>, files: seq<File>, faults: nat -> Fault, d: Db<S>): Effect<Db<S>, Ran> {
    if files == [] then Effect(d, Ran(true, [])) else
      var e := RunOver(scripts, files[..|files| - 1], faults, d);
      if !e.outcome.ok then e else
        var f := files[|files| - 1];
        var last := Attempt(scripts, f, faults(f.version), e.world);
        Effect(last.world, Ran(last.outcome.ok, e.outcome.versions + last.outcome.versions))
  }

  ghost function CleanRun<S(!new)>(scripts: Scripts<S>, files: seq<File>, d: Db<S>): Effect<Db<S>, Ran> {
    RunOver(scripts, files, v => Clean, d)
  }

  lemma OneFileMore<S(!new)>(scripts: Scripts<S>, files: seq<File>, i: nat, faults: nat -> Fault, d: Db<S>)
    requires i < |files| && RunOver(scripts, files[..i], faults, d).outcome.ok
    ensures var e := RunOver(scripts, files[..i], faults, d);
      var last := Attempt(scripts, files[i], faults(files[i].version), e.world);
      RunOver(scripts, files[..i + 1], faults, d)
      == Effect(last.world, Ran(last.outcome.ok, e.outcome.versions + last.outcome.versions))
  {
    assert files[..i + 1][..i] == files[..i];
  }

  /** A failing file ends the run with whatever was committed. */
  lemma {:induction false} StopsHere<S(!new)>(scripts: Scripts<S>, files: seq<File>, i: nat, faults: nat -> Fault, d: Db<S>)
    requires i < |files| && !RunOver(scripts, files[..i + 1], faults, d).outcome.ok
    ensures RunOver(scripts, files, faults, d) == RunOver(scripts, files[..i + 1], faults, d)
    decreases |files|
  {
    if i + 1 < |files| {
      var init := files[..|files| - 1];
      assert init[..i + 1] == files[..i + 1];
      StopsHere(scripts, init, i, faults, d);
    } else {
      assert files[..i + 1] == files;
    }
  }

  // ----- resuming -----

  function Versions(files: seq<File>): set<nat> {
    set f | f in files :: f.version
  }

  lemma VersionsTake(files: seq<File>)
    requires files != []
    ensures Versions(files) == Versions(files[..|files| - 1]) + {files[|files| - 1].version}
  {
    assert files == files[..|files| - 1] + [files[|files| - 1]];
  }

  /** A successful run records exactly the versions of its files. */
  lemma {:induction false} RunRecords<S(!new)>(scripts: Scripts<S>, files: seq<File>, faults: nat -> Fault, d: Db<S>)
    requires RunOver(scripts, files, faults, d).outcome.ok
    ensures RunOver(scripts, files, faults, d).world.applied == d.applied + Versions(files)
    decreases |files|
  {
    if files != [] {
      RunRecords(scripts, files[..|files| - 1], faults, d);
      VersionsTake(files);
    }
  }

  /**
   However a run ends, it leaves exactly the state, and has run exactly the scripts, of a clean run over the first
   k files; if it succeeds these are all of them.
   */
  lemma {:induction false} EveryRunStopsAtAPrefix<S(!new)>(scripts: Scripts<S>, files: seq<File>, faults: nat -> Fault, d: Db<S>)
    returns (k: nat)
    ensures k <= |files| && (RunOver(scripts, files, faults, d).outcome.ok ==> k == |files|)
    ensures CleanRun(scripts, files[..k], d).outcome == Ran(true, RunOver(scripts, files, faults, d).outcome.versions)
    ensures CleanRun(scripts, files[..k], d).world == RunOver(scripts, files, faults, d).world
    decreases |files|
  {
    k := 0;
    if files != [] {
      var n := |files| - 1;
      var e, f := RunOver(scripts, files[..n], faults, d), files[n];
      k := EveryRunStopsAtAPrefix(scripts, files[..n], faults, d);
      assert files[..n][..k] == files[..k];
      if e.outcome.ok {
        var last := Attempt(scripts, f, faults(f.version), e.world);
        assert files[..n + 1] == files;
        OneFileMore(scripts, files, n, faults, d);
        assert e.outcome.versions + [] == e.outcome.versions;
        if last.outcome.ok || last.outcome.versions != [] {
          OneFileMore(scripts, files, n, v => Clean, d);
          k := |files|;
        }
      }
    }
  }

  /** When every version is recorded a run does nothing. */
  lemma {:induction false} AllApplied<S(!new)>(scripts: Scripts<S>, files: seq<File>, d: Db<S>)
    requires Versions(files) <= d.applied
    ensures CleanRun(scripts, files, d) == Effect(d, Ran(true, []))
    decreases |files|
  {
    if files != [] {
      VersionsTake(files);
      AllApplied(scripts, files[..|files| - 1], d);
      var none: seq<nat> := [];
      assert none + [] == none;
    }
  }

  /** Running all files again from the state of any prefix continues as if it had never stopped. */
  lemma {:induction false} ResumeFromPrefix<S(!new)>(scripts: Scripts<S>, files: seq<File>, k: nat, d: Db<S>)
    requires k <= |files| && CleanRun(scripts, files[..k], d).outcome.ok
    ensures var stopped, full := CleanRun(scripts, files[..k], d), CleanRun(scripts, files, d);
      var resumed := CleanRun(scripts, files, stopped.world);
      && resumed.world == full.world && resumed.outcome.ok == full.outcome.ok
      && stopped.outcome.versions + resumed.outcome.versions == full.outcome.versions
    decreases |files|
  {
    var stopped := CleanRun(scripts, files[..k], d);
    RunRecords(scripts, files[..k], v => Clean, d);
    if k == |files| {
      assert files[..k] == files;
      AllApplied(scripts, files, stopped.world);
    } else {
      var init := files[..|files| - 1];
      assert init[..k] == files[..k];
      ResumeFromPrefix(scripts, init, k, d);
    }
  }

  /** The state after any number of faulty runs, and every script they committed. */
  ghost function AfterFaults<S(!new)>(scripts: Scripts<S>, files: seq<File>, runs: seq<nat -> Fault>, d: Db<S>)
    : Effect<Db<S>, seq<nat>>
    decreases |runs|
  {
    if runs == [] then Effect(d, []) else
      var first := RunOver(scripts, files, runs[0], d);
      var rest := AfterFaults(scripts, files, runs[1..], first.world);
      Effect(rest.world, first.outcome.versions + rest.outcome)
  }

  /**
   Resumability: after any number of interrupted runs, a clean run ends exactly where one clean run would have
   ended, and altogether the same scripts have run in the same order.
   */
  lemma {:induction false} InterruptionsLeaveNoTrace<S(!new)>(scripts: Scripts<S>, files: seq<File>, runs: seq<nat -> Fault>, d: Db<S>)
    ensures var before := AfterFaults(scripts, files, runs, d);
      var last, once := CleanRun(scripts, files, before.world), CleanRun(scripts, files, d);
      && last.world == once.world && last.outcome.ok == once.outcome.ok
      && before.outcome + last.outcome.versions == once.outcome.versions
    decreases |runs|
  {
    if runs != [] {
      var first := RunOver(scripts, files, runs[0], d);
      var k := EveryRunStopsAtAPrefix(scripts, files, runs[0], d);
      ResumeFromPrefix(scripts, files, k, d);
      InterruptionsLeaveNoTrace(scripts, files, runs[1..], first.world);
    }
  }

  /** A run after a successful run changes nothing and runs no script. */
  lemma SecondRunIsNoOp<S(!new)>(scripts: Scripts<S>, files: seq<File>, d: Db<S>)
    requires CleanRun(scripts, files, d).outcome.ok
    ensures var done := CleanRun(scripts, files, d).world;
      CleanRun(scripts, files, done) == Effect(done, Ran(true, []))
  {
    RunRecords(scripts, files, v => Clean, d);
    AllApplied(scripts, files, CleanRun(scripts, files, d).world);
  }

  ghost predicate Increasing(vs: seq<nat>) {
    forall i, j :: 0 <= i < j < |vs| ==> vs[i] < vs[j]
  }

  lemma IncreasingAppend(vs: seq<nat>, v: nat)
    requires Increasing(vs) && forall u :: u in vs ==> u < v
    ensures Increasing(vs + [v])
  {
    forall i | 0 <= i < |vs|
      ensures vs[i] < v
    {
      assert vs[i] in vs;
    }
  }

  /** Any run over sorted files runs pending versions only, each at most once, in ascending order. */
  lemma {:induction false} PendingRunAscending<S(!new)>(scripts: Scripts<S>, files: seq<File>, faults: nat -> Fault, d: Db<S>)
    requires Ascending(files)
    ensures var vs := RunOver(scripts, files, faults, d).outcome.versions;
      Increasing(vs) && forall v :: v in vs ==> v in Versions(files) - d.applied
    decreases |files|
  {
    if files != [] {
      var init, f := files[..|files| - 1], files[|files| - 1];
      PendingRunAscending(scripts, init, faults, d);
      VersionsTake(files);
      var e := RunOver(scripts, init, faults, d);
      if e.outcome.ok && f.version in e.world.applied {
        assert e.outcome.versions + [] == e.outcome.versions;
      } else if e.outcome.ok {
        RunRecords(scripts, init, faults, d);
        forall v | v in e.outcome.versions
          ensures v < f.version
        {
          var g :| g in init && g.version == v;
          assert v != f.version;
        }
        assert e.outcome.versions + [] == e.outcome.versions;
        IncreasingAppend(e.outcome.versions, f.version);
      }
    }
  }

  /** A successful run leaves no version pending. */
  lemma {:induction false} PendingAllRun<S(!new)>(scripts: Scripts<S>, files: seq<File>, faults: nat -> Fault, d: Db<S>, v: nat)
    requires RunOver(scripts, files, faults, d).outcome.ok && v in Versions(files) - d.applied
    ensures v in RunOver(scripts, files, faults, d).outcome.versions
    decreases |files|
  {
    var init, f := files[..|files| - 1], files[|files| - 1];
    VersionsTake(files);
    RunRecords(scripts, init, faults, d);
    if v in Versions(init) {
      PendingAllRun(scripts, init, faults, d, v);
    }
  }

  /** A successful run over sorted files runs exactly the pending versions, each once, in ascending order. */
  lemma PendingRunOnceAscending<S(!new)>(scripts: Scripts<S>, files: seq<File>, faults: nat -> Fault, d: Db<S>)
    requires Ascending(files) && RunOver(scripts, files, faults, d).outcome.ok
    ensures var vs := RunOver(scripts, files, faults, d).outcome.versions;
      Increasing(vs) && forall v :: v in vs <==> v in Versions(files) - d.applied
  {
    PendingRunAscending(scripts, files, faults, d);
    forall v | v in Versions(files) - d.applied
      ensures v in RunOver(scripts, files, faults, d).outcome.versions
    {
      PendingAllRun(scripts, files, faults, d, v);
    }
  }

  // ----- rolling back -----

  predicate IsHighest(v: nat, versions: set<nat>) {
    v in versions && forall u :: u in versions ==> u <= v
  }

  lemma {:induction false} HighestExists(versions: set<nat>)
    requires versions != {}
    ensures exists v :: IsHighest(v, versions)
    decreases versions
  {
    var x :| x in versions;
    var rest := versions - {x};
    if rest == {} {
      assert versions == {x};
      assert IsHighest(x, versions);
    } else {
      HighestExists(rest);
      var y :| IsHighest(y, rest);
      assert IsHighest(if x <= y then y else x, versions) by {
        assert forall u :: u in versions ==> u in rest || u == x;
      }
    }
  }

  function Highest(versions: set<nat>): (v: nat)
    requires versions != {}
    ensures IsHighest(v, versions)
  {
    HighestExists(versions);
    var v :| IsHighest(v, versions);
    v
  }

  /** The first down file of a version. */
  function DownFor(downs: seq<File>, version: nat): Option<File> {
    if downs == [] then None
    else if downs[0].version == version then Some(downs[0]) else DownFor(downs[1..], version)
  }

  ghost function RollbackOver<S(!new)>(scripts: Scripts<S>, downs: seq<File>, fault: Fault, d: Db<S>): Effect<Db<S>, bool> {
    if d.applied == {} then Effect(d, false) else
      var v := Highest(d.applied);
      var down := DownFor(downs, v);
      if down.None? || fault.RolledBack? || scripts(down.value.name)(d.schema).None? then Effect(d, false)
      else Effect(Db(scripts(down.value.name)(d.schema).value, d.applied - {v}), fault.Clean?)
  }

  /** One rollback call for each fault. */
  ghost function Rollbacks<S(!new)>(scripts: Scripts<S>, downs: seq<File>, faults: seq<Fault>, d: Db<S>): Db<S>
    decreases |faults|
  {
    if faults == [] then d else
      var n := |faults| - 1;
      RollbackOver(scripts, downs, faults[n], Rollbacks(scripts, downs, faults[..n], d)).world
  }

  /** How many of n migrations the calls take back: each call that commits takes one, whatever its caller is told. */
  function Undone(faults: seq<Fault>, n: nat): (k: nat)
    ensures k <= n
  {
    if faults == [] then 0 else
      var k := Undone(faults[..|faults| - 1], n);
      if faults[|faults| - 1].RolledBack? || k == n then k else k + 1
  }

  /** The down script of f takes back whatever its up script does. */
  ghost predicate Reversible<S(!new)>(scripts: Scripts<S>, downs: seq<File>, f: File) {
    var down := DownFor(downs, f.version);
    down.Some? && forall s: S :: scripts(f.name)(s).Some? ==> scripts(down.value.name)(scripts(f.name)(s).value) == Some(s)
  }

  ghost predicate Distinct(files: seq<File>) {
    forall i, j :: 0 <= i < j < |files| ==> files[i].version < files[j].version
  }

  /** One rollback with an inverse down script takes back the last file, unless its transaction is rolled back. */
  lemma OneRollback<S(!new)>(scripts: Scripts<S>, files: seq<File>, downs: seq<File>, m: nat, fault: Fault, s: S)
    requires 0 < m <= |files| && Distinct(files) && Reversible(scripts, downs, files[m - 1])
    requires CleanRun(scripts, files[..m], Db(s, {})).outcome.ok
    ensures CleanRun(scripts, files[..m - 1], Db(s, {})).outcome.ok
    ensures RollbackOver(scripts, downs, fault, CleanRun(scripts, files[..m], Db(s, {})).world)
         == Effect(CleanRun(scripts, files[..if fault.RolledBack? then m else m - 1], Db(s, {})).world, fault.Clean?)
  {
    var d, f := Db(s, {}), files[m - 1];
    assert files[..m][..m - 1] == files[..m - 1];
    var shorter, longer := CleanRun(scripts, files[..m - 1], d), CleanRun(scripts, files[..m], d);
    RunRecords(scripts, files[..m - 1], v => Clean, d);
    RunRecords(scripts, files[..m], v => Clean, d);
    VersionsTake(files[..m]);
    forall g | g in files[..m - 1]
      ensures g.version < f.version
    {
      var i :| 0 <= i < m - 1 && files[..m - 1][i] == g;
    }
    assert f.version !in shorter.world.applied;
    assert Highest(longer.world.applied) == f.version;
    assert longer.world.applied - {f.version} == shorter.world.applied;
  }

  /** With nothing recorded a rollback does nothing. */
  lemma NothingToRollBack<S(!new)>(scripts: Scripts<S>, files: seq<File>, downs: seq<File>, fault: Fault, s: S)
    ensures RollbackOver(scripts, downs, fault, CleanRun(scripts, files[..0], Db(s, {})).world)
         == Effect(CleanRun(scripts, files[..0], Db(s, {})).world, false)
  {
    assert files[..0] == [];
  }

  /**
   Round trip: after a full migration from empty and any number of rollback calls, failed and lost ones among them,
   exactly the first n-k migrations are left, where k calls committed; migrating again restores the full state.
   */
  lemma {:induction false} RollbackRoundTrip<S(!new)>(scripts: Scripts<S>, files: seq<File>, downs: seq<File>,
                                                      faults: seq<Fault>, s: S)
    requires Distinct(files) && (forall f :: f in files ==> Reversible(scripts, downs, f))
    requires CleanRun(scripts, files, Db(s, {})).outcome.ok
    ensures var full, left := CleanRun(scripts, files, Db(s, {})).world, |files| - Undone(faults, |files|);
      var back := Rollbacks(scripts, downs, faults, full);
      && CleanRun(scripts, files[..left], Db(s, {})).outcome.ok
      && back == CleanRun(scripts, files[..left], Db(s, {})).world
      && CleanRun(scripts, files, back).world == full && CleanRun(scripts, files, back).outcome.ok
    decreases |faults|
  {
    if faults == [] {
      assert files[..|files|] == files;
    } else {
      var n := |faults| - 1;
      var m := |files| - Undone(faults[..n], |files|);
      RollbackRoundTrip(scripts, files, downs, faults[..n], s);
      if m == 0 {
        NothingToRollBack(scripts, files, downs, faults[n], s);
      } else {
        OneRollback(scripts, files, downs, m, faults[n], s);
      }
    }
    ResumeFromPrefix(scripts, files, |files| - Undone(faults, |files|), Db(s, {}));
  }

  /** A rollback either leaves everything or takes back everything; told success, it has taken back. */
  lemma RollbackAllOrNothing<S(!new)>(scripts: Scripts<S>, downs: seq<File>, fault: Fault, d: Db<S>)
    ensures var e, clean := RollbackOver(scripts, downs, fault, d), RollbackOver(scripts, downs, Clean, d);
      && (e.world == d || e.world == clean.world)
      && (e.outcome ==> clean.outcome && e.world == clean.world)
  {
  }

  /** A call whose commit succeeds but whose reply is lost, tried again, takes back two migrations. */
  lemma LostReplyUndoesTwo<S(!new)>(scripts: Scripts<S>, files: seq<File>, downs: seq<File>, s: S)
    requires Distinct(files) && (forall f :: f in files ==> Reversible(scripts, downs, f)) && 2 <= |files|
    requires CleanRun(scripts, files, Db(s, {})).outcome.ok
    ensures var full := CleanRun(scripts, files, Db(s, {})).world;
      && !RollbackOver(scripts, downs, LostReply, full).outcome
      && Rollbacks(scripts, downs, [LostReply, Clean], full) == CleanRun(scripts, files[..|files| - 2], Db(s, {})).world
  {
    var calls := [LostReply, Clean];
    assert calls[..1] == [LostReply] && [LostReply][..0] == [];
    assert Undone(calls[..1][..0], |files|) == 0;
    assert Undone(calls[..1], |files|) == 1;
    RollbackRoundTrip(scripts, files, downs, calls, s);
    assert files[..|files|] == files;
    OneRollback(scripts, files, downs, |files|, LostReply, s);
  }

  // ----- the runner -----

  class Migrator<S(!new)> {
    const scripts: Scripts<S>
    var schema: S
    var applied: set<nat>

    constructor (scripts: Scripts<S>, schema: S)
      ensures State() == Db(schema, {}) && this.scripts == scripts
    {
      this.scripts, this.schema, applied := scripts, schema, {};
    }

    function State(): Db<S>
      reads this
    {
      Db(schema, applied)
    }

    method RunMigrations(files: seq<File>, faults: nat -> Fault) returns (ok: bool, versions: seq<nat>)
      modifies this
      ensures Effect(State(), Ran(ok, versions)) == RunOver(scripts, files, faults, old(State()))
    {
      ok, versions := true, [];
      assert files[..0] == [];
      for i := 0 to |files|
        invariant ok
        invariant Effect(State(), Ran(true, versions)) == RunOver(scripts, files[..i], faults, old(State()))
      {
        var f := files[i];
        OneFileMore(scripts, files, i, faults, old(State()));
        assert versions + [] == versions;
        if f.version in applied {
          continue;
        }
        var outcome := scripts(f.name)(schema);
        var fault := faults(f.version);
        if outcome.None? || MAX_INTEGER < f.version || fault.RolledBack? {
          StopsHere(scripts, files, i, faults, old(State()));
          return false, versions;
        }
        schema, applied, versions := outcome.value, applied + {f.version}, versions + [f.version];
        if fault.LostReply? {
          StopsHere(scripts, files, i, faults, old(State()));
          return false, versions;
        }
      }
      assert files[..|files|] == files;
    }

    /** Loads the up files and runs the pending ones: each pending version once, ascending; all of them if it succeeds. */
    method Migrate(entries: seq<DirEntry>, faults: nat -> Fault)
      returns (ok: bool, versions: seq<nat>, ghost files: seq<File>)
      modifies this
      ensures Ascending(files) && Increasing(versions)
      ensures forall v :: v in versions ==> v in Versions(files) - old(applied)
      ensures !Loadable(entries, UP) ==> !ok && State() == old(State()) && versions == []
      ensures Loadable(entries, UP) ==>
        multiset(files) == multiset(Found(entries, UP))
        && Effect(State(), Ran(ok, versions)) == RunOver(scripts, files, faults, old(State()))
      ensures ok ==> forall v :: v in Versions(files) ==> v in versions || v in old(applied)
    {
      var loaded := LoadMigrationFiles(entries, UP);
      if loaded.None? {
        return false, [], [];
      }
      ok, versions := RunMigrations(loaded.value, faults);
      files := loaded.value;
      PendingRunAscending(scripts, files, faults, old(State()));
      if ok {
        PendingRunOnceAscending(scripts, files, faults, old(State()));
      }
    }

    /** Reverses the highest recorded version with its first down file. */
    method RollbackLastMigration(downs: seq<File>, fault: Fault) returns (ok: bool)
      modifies this
      ensures Effect(State(), ok) == RollbackOver(scripts, downs, fault, old(State()))
    {
      if applied == {} {
        return false;
      }
      var version := Highest(applied);
      var i := 0;
      while i < |downs| && downs[i].version != version
        invariant 0 <= i <= |downs|
        invariant DownFor(downs, version) == DownFor(downs[i..], version)
      {
        i := i + 1;
      }
      if i == |downs| {
        return false;
      }
      var outcome := scripts(downs[i].name)(schema);
      if outcome.None? || fault.RolledBack? {
        return false;
      }
      schema, applied := outcome.value, applied - {version};
      ok := fault.Clean?;
    }

    /** Loads the down files and reverses the last migration. */
    method Rollback(entries: seq<DirEntry>, fault: Fault) returns (ok: bool, ghost files: seq<File>)
      modifies this
      ensures !Loadable(entries, DOWN) ==> !ok && State() == old(State())
      ensures Loadable(entries, DOWN) ==>
        Ascending(files) && multiset(files) == multiset(Found(entries, DOWN))
        && Effect(State(), ok) == RollbackOver(scripts, files, fault, old(State()))
    {
      var loaded := LoadMigrationFiles(entries, DOWN);
      if loaded.None? {
        return false, [];
      }
      ok := RollbackLastMigration(loaded.value, fault);
      files := loaded.value;
    }
  }

  // ----- what a run and a rollback come to -----

  /** All scripts one after the other, as long as each succeeds. */
  ghost function Composed<S(!new)>(scripts: Scripts<S>, files: seq<File>, s: S): Option<S> {
    if files == [] then Some(s) else
      var before := Composed(scripts, files[..|files| - 1], s);
      if before.None? then None else scripts(files[|files| - 1].name)(before.value)
  }

  ghost predicate ColumnFits(files: seq<File>) {
    forall f :: f in files ==> f.version <= 2_147_483_647
  }

  lemma LastIsNew<S(!new)>(scripts: Scripts<S>, files: seq<File>, d: Db<S>)
    requires Distinct(files) && files != [] && CleanRun(scripts, files[..|files| - 1], d).outcome.ok
    ensures var init, f := files[..|files| - 1], files[|files| - 1];
      f.version in CleanRun(scripts, init, d).world.applied <==> f.version in d.applied
  {
    var init, f := files[..|files| - 1], files[|files| - 1];
    RunRecords(scripts, init, v => Clean, d);
    forall g | g in init
      ensures g.version < f.version
    {
      var i :| 0 <= i < |init| && init[i] == g;
      assert files[i] == g;
    }
  }

  lemma ColumnFitsLast(files: seq<File>)
    requires files != []
    ensures ColumnFits(files) <==> ColumnFits(files[..|files| - 1]) && files[|files| - 1].version <= 2_147_483_647
  {
    assert files == files[..|files| - 1] + [files[|files| - 1]];
  }

  /**
   A clean run from empty succeeds iff every script does in turn and every version fits its column; it is then their
   composition.
   */
  lemma {:induction false} CleanRunComposes<S(!new)>(scripts: Scripts<S>, files: seq<File>, s: S)
    requires Distinct(files)
    ensures var e := CleanRun(scripts, files, Db(s, {}));
      && (e.outcome.ok <==> Composed(scripts, files, s).Some? && ColumnFits(files))
      && (e.outcome.ok ==> e.world == Db(Composed(scripts, files, s).value, Versions(files)))
    decreases |files|
  {
    if files != [] {
      var init, f := files[..|files| - 1], files[|files| - 1];
      CleanRunComposes(scripts, init, s);
      VersionsTake(files);
      ColumnFitsLast(files);
      if CleanRun(scripts, init, Db(s, {})).outcome.ok {
        LastIsNew(scripts, files, Db(s, {}));
      }
    }
  }

  /** No pending file meets a fault. */
  ghost predicate Faultless(files: seq<File>, faults: nat -> Fault, applied: set<nat>) {
    forall f :: f in files && f.version !in applied ==> faults(f.version) == Clean
  }

  lemma FaultlessLast(files: seq<File>, faults: nat -> Fault, applied: set<nat>)
    requires files != []
    ensures var init, f := files[..|files| - 1], files[|files| - 1];
      Faultless(files, faults, applied)
      <==> Faultless(init, faults, applied) && (f.version !in applied ==> faults(f.version) == Clean)
  {
    assert files == files[..|files| - 1] + [files[|files| - 1]];
  }

  /** With faults a run succeeds iff it would without and no pending file meets one. */
  lemma {:induction false} SucceedsIff<S(!new)>(scripts: Scripts<S>, files: seq<File>, faults: nat -> Fault, d: Db<S>)
    requires Distinct(files)
    ensures RunOver(scripts, files, faults, d).outcome.ok
       <==> CleanRun(scripts, files, d).outcome.ok && Faultless(files, faults, d.applied)
    ensures RunOver(scripts, files, faults, d).outcome.ok ==> RunOver(scripts, files, faults, d) == CleanRun(scripts, files, d)
    decreases |files|
  {
    if files != [] {
      SucceedsIff(scripts, files[..|files| - 1], faults, d);
      FaultlessLast(files, faults, d.applied);
      if CleanRun(scripts, files[..|files| - 1], d).outcome.ok {
        LastIsNew(scripts, files, d);
      }
    }
  }

  /** A fault on the next pending file: rolled back leaves what was there, a lost reply leaves the file applied. */
  lemma FaultStops<S(!new)>(scripts: Scripts<S>, files: seq<File>, n: nat, faults: nat -> Fault, d: Db<S>)
    requires n < |files| && RunOver(scripts, files[..n], faults, d).outcome.ok
    requires files[n].version !in RunOver(scripts, files[..n], faults, d).world.applied
    ensures var before, f, e := RunOver(scripts, files[..n], faults, d).world, files[n], RunOver(scripts, files, faults, d);
      var after := scripts(f.name)(before.schema);
      && (faults(f.version) == RolledBack || after.None? || f.version > 2_147_483_647 ==> !e.outcome.ok && e.world == before)
      && (faults(f.version) == LostReply && after.Some? && f.version <= 2_147_483_647
          ==> !e.outcome.ok && e.world == Db(after.value, before.applied + {f.version}))
  {
    OneFileMore(scripts, files, n, faults, d);
    if !RunOver(scripts, files[..n + 1], faults, d).outcome.ok {
      StopsHere(scripts, files, n, faults, d);
    }
  }

  /** The i-th down file is the first of this version. */
  ghost predicate FirstOf(downs: seq<File>, i: nat, version: nat) {
    i < |downs| && downs[i].version == version && forall j :: 0 <= j < i ==> downs[j].version != version
  }

  lemma {:induction false} DownForFirst(downs: seq<File>, version: nat)
    ensures DownFor(downs, version).None? <==> forall d :: d in downs ==> d.version != version
    ensures forall i: nat :: FirstOf(downs, i, version) ==> DownFor(downs, version) == Some(downs[i])
    decreases |downs|
  {
    if downs != [] {
      DownForFirst(downs[1..], version);
      assert downs == [downs[0]] + downs[1..];
      forall i: nat | FirstOf(downs, i, version)
        ensures DownFor(downs, version) == Some(downs[i])
      {
        if i > 0 {
          assert downs[0].version != version;
          assert FirstOf(downs[1..], i - 1, version);
        }
      }
    }
  }

  /** The highest recorded version goes, by the first down file of that version, unless that or the transaction fails. */
  lemma RollbackAnswer<S(!new)>(scripts: Scripts<S>, downs: seq<File>, fault: Fault, d: Db<S>, top: nat, i: nat)
    requires top in d.applied && (forall v :: v in d.applied ==> v <= top) && FirstOf(downs, i, top)
    ensures var undone := scripts(downs[i].name)(d.schema);
      RollbackOver(scripts, downs, fault, d)
      == if fault == RolledBack || undone.None? then Effect(d, false)
         else Effect(Db(undone.value, d.applied - {top}), fault == Clean)
  {
    DownForFirst(downs, top);
    assert Highest(d.applied) == top;
  }

  /** Nothing recorded, or no down file of the highest version: nothing changes. */
  lemma RollbackRefused<S(!new)>(scripts: Scripts<S>, downs: seq<File>, fault: Fault, d: Db<S>)
    requires forall f, v :: f in downs && f.version == v && v in d.applied ==> exists u :: u in d.applied && v < u
    ensures RollbackOver(scripts, downs, fault, d) == Effect(d, false)
  {
    if d.applied != {} {
      DownForFirst(downs, Highest(d.applied));
    }
  }
}
