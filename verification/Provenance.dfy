/** Where every record comes from, over all runs. */
module Provenance {
  import opened Prelude
  import opened Tables
  import opened Worlds
  import opened Runs
  import opened Changes
  import opened Consistency

  /** An accepted attempt of that student at that session with enough signals. */
  predicate Backs(db: Db, a: Attempt, k: RecordKey) {
    && a.session == k.session && a.student == k.student && a.Accepted()
    && a.college in db.colleges && db.colleges[a.college].Required() <= a.Signals()
  }

  /** The record names an attempt of its college that backs it. */
  ghost predicate BackedBy(db: Db, k: RecordKey, row: Record) {
    exists a :: a in db.attempts && Some(a.id) == row.attempt && a.college == row.college && Backs(db, a, k)
  }

  ghost predicate PresentBacked(db: Db) {
    forall k :: k in db.records && db.records[k].status.Present? ==>
      BackedBy(db, k, db.records[k])
  }

  ghost predicate AbsentEnded(db: Db) {
    forall k :: k in db.records && k.session in db.sessions && db.records[k].status.Absent? ==>
      db.sessions[k.session].endedAt.Some?
  }

  predicate Signed(db: Db, o: Override, k: RecordKey) {
    && o.record == k && k.session in db.sessions && db.sessions[k.session].section in db.sections
    && o.overriddenBy == db.sections[db.sessions[k.session].section].teacher
  }

  ghost predicate OverriddenSigned(db: Db) {
    forall k :: k in db.records && (db.records[k].status.OverriddenPresent? || db.records[k].status.OverriddenAbsent?) ==>
      exists o :: o in db.overrides && Signed(db, o, k)
  }

  /** The attempt a record names is an accepted one of that student at that session. */
  ghost predicate Resolves(db: Db, k: RecordKey, row: Record) {
    row.attempt.Some? ==>
      exists a :: a in db.attempts && a.id == row.attempt.value && a.session == k.session && a.student == k.student && a.Accepted()
  }

  ghost predicate AttemptsResolve(db: Db) {
    forall k :: k in db.records ==> Resolves(db, k, db.records[k])
  }

  ghost predicate Sourced(db: Db) {
    PresentBacked(db) && AbsentEnded(db) && OverriddenSigned(db) && AttemptsResolve(db)
  }

  lemma BackingStays(db: Db, c: Change, a: Attempt, k: RecordKey)
    requires Legal(db, c) && a in db.attempts && Backs(db, a, k)
    ensures a in Apply(db, c).attempts && Backs(Apply(db, c), a, k)
  {
  }

  /** Only an accepted attempt makes a record present. */
  lemma PresentBefore(db: Db, c: Change, k: RecordKey)
    requires Legal(db, c) && k in Apply(db, c).records && Apply(db, c).records[k].status.Present?
    requires !(c.Log? && c.attempt.Accepted() && k == RecordKey(c.attempt.session, c.attempt.student))
    ensures k in db.records && db.records[k] == Apply(db, c).records[k]
  {
  }

  lemma ApplyPresentBacked(db: Db, c: Change)
    requires Linked(db) && Legal(db, c) && PresentBacked(db)
    ensures PresentBacked(Apply(db, c))
  {
    var db' := Apply(db, c);
    forall k | k in db'.records && db'.records[k].status.Present?
      ensures BackedBy(db', k, db'.records[k])
    {
      if c.Log? && c.attempt.Accepted() && k == RecordKey(c.attempt.session, c.attempt.student) {
        assert c.attempt in db'.attempts && Backs(db', c.attempt, k);
      } else {
        PresentBefore(db, c, k);
        var row := db.records[k];
        var a :| a in db.attempts && Some(a.id) == row.attempt && a.college == row.college && Backs(db, a, k);
        BackingStays(db, c, a, k);
      }
    }
  }

  lemma CloseAbsentEnded(db: Db, c: Change)
    requires Legal(db, c) && c.Close? && AbsentEnded(db)
    ensures AbsentEnded(Apply(db, c))
  {
  }

  /** Only a closing makes a record absent. */
  lemma AbsentBefore(db: Db, c: Change, k: RecordKey)
    requires Legal(db, c) && !c.Close? && k in Apply(db, c).records && Apply(db, c).records[k].status.Absent?
    ensures k in db.records && db.records[k] == Apply(db, c).records[k]
  {
  }

  lemma EndedStays(db: Db, c: Change, s: SessionId)
    requires Legal(db, c) && s in db.sessions && db.sessions[s].endedAt.Some?
    ensures s in Apply(db, c).sessions && Apply(db, c).sessions[s].endedAt.Some?
  {
  }

  lemma ApplyAbsentEnded(db: Db, c: Change)
    requires Linked(db) && Legal(db, c) && AbsentEnded(db)
    ensures AbsentEnded(Apply(db, c))
  {
    var db' := Apply(db, c);
    if c.Close? {
      CloseAbsentEnded(db, c);
    } else {
      forall k | k in db'.records && k.session in db'.sessions && db'.records[k].status.Absent?
        ensures db'.sessions[k.session].endedAt.Some?
      {
        AbsentBefore(db, c, k);
        EndedStays(db, c, k.session);
      }
    }
  }

  lemma SignatureStays(db: Db, c: Change, o: Override, k: RecordKey)
    requires Linked(db) && Legal(db, c) && o in db.overrides && Signed(db, o, k)
    ensures o in Apply(db, c).overrides && Signed(Apply(db, c), o, k)
  {
  }

  /** Only an override makes a record overridden. */
  lemma OverriddenBefore(db: Db, c: Change, k: RecordKey)
    requires Legal(db, c) && k in Apply(db, c).records && !(c.Amend? && c.key == k)
    requires !Apply(db, c).records[k].status.Present? && !Apply(db, c).records[k].status.Absent?
    ensures k in db.records && db.records[k] == Apply(db, c).records[k]
  {
  }

  lemma ApplyOverriddenSigned(db: Db, c: Change)
    requires Linked(db) && Legal(db, c) && OverriddenSigned(db)
    ensures OverriddenSigned(Apply(db, c))
  {
    var db' := Apply(db, c);
    forall k | k in db'.records && (db'.records[k].status.OverriddenPresent? || db'.records[k].status.OverriddenAbsent?)
      ensures exists o :: o in db'.overrides && Signed(db', o, k)
    {
      if c.Amend? && k == c.key {
        assert c.entry in db'.overrides && Signed(db', c.entry, k);
      } else {
        OverriddenBefore(db, c, k);
        var o :| o in db.overrides && Signed(db, o, k);
        SignatureStays(db, c, o, k);
      }
    }
  }

  /** Only an accepted attempt changes what a record names. */
  lemma NamedBefore(db: Db, c: Change, k: RecordKey)
    requires Legal(db, c) && k in Apply(db, c).records && Apply(db, c).records[k].attempt.Some?
    requires !(c.Log? && c.attempt.Accepted() && k == RecordKey(c.attempt.session, c.attempt.student))
    ensures k in db.records && db.records[k].attempt == Apply(db, c).records[k].attempt
  {
  }

  lemma AttemptsGrow(db: Db, c: Change)
    requires Legal(db, c)
    ensures forall a :: a in db.attempts ==> a in Apply(db, c).attempts
  {
  }

  lemma ApplyAttemptsResolve(db: Db, c: Change)
    requires Legal(db, c) && AttemptsResolve(db)
    ensures AttemptsResolve(Apply(db, c))
  {
    var db' := Apply(db, c);
    forall k | k in db'.records && db'.records[k].attempt.Some?
      ensures Resolves(db', k, db'.records[k])
    {
      if c.Log? && c.attempt.Accepted() && k == RecordKey(c.attempt.session, c.attempt.student) {
        assert c.attempt in db'.attempts;
      } else {
        NamedBefore(db, c, k);
        assert Resolves(db, k, db.records[k]);
        AttemptsGrow(db, c);
      }
    }
  }

  /** Every run: present needs an accepted attempt, absent a closed session, overridden the teacher's signature. */
  lemma {:induction false} EveryRecordHasASource(metric: Metric, acts: seq<Action>)
    ensures Sourced(Run(Genesis(metric), acts).db)
    decreases |acts|
  {
    if acts != [] {
      var w, a := Run(Genesis(metric), acts[..|acts| - 1]), acts[|acts| - 1];
      EveryRecordHasASource(metric, acts[..|acts| - 1]);
      RunConsistent(metric, acts[..|acts| - 1]);
      StepChanges(w, a);
      ApplyPresentBacked(w.db, ChangeOf(w, a));
      ApplyAbsentEnded(w.db, ChangeOf(w, a));
      ApplyOverriddenSigned(w.db, ChangeOf(w, a));
      ApplyAttemptsResolve(w.db, ChangeOf(w, a));
    }
  }

  lemma LogKeepsAbsence(db: Db, c: Change, k: RecordKey)
    requires Linked(db) && AbsentEnded(db) && Legal(db, c) && (c.Log? || c.Nothing?)
    requires k in db.records && db.records[k].status.Absent?
    ensures k in Apply(db, c).records && Apply(db, c).records[k] == db.records[k]
  {
  }

  /** A check-in never overwrites an absence. */
  lemma CheckinNeverReplacesAbsence(metric: Metric, acts: seq<Action>, a: Action, k: RecordKey)
    requires a.Checkin? && k in Run(Genesis(metric), acts).db.records && Run(Genesis(metric), acts).db.records[k].status.Absent?
    ensures var w := Run(Genesis(metric), acts);
      k in Step(w, a).db.records && Step(w, a).db.records[k] == w.db.records[k]
  {
    var w := Run(Genesis(metric), acts);
    EveryRecordHasASource(metric, acts);
    RunConsistent(metric, acts);
    StepChanges(w, a);
    LogKeepsAbsence(w.db, ChangeOf(w, a), k);
  }

  /** A college that asks for more than three signals never records a presence. */
  lemma ImpossiblePolicy(metric: Metric, acts: seq<Action>, k: RecordKey)
    ensures var db := Run(Genesis(metric), acts).db;
      k in db.records && db.records[k].college in db.colleges && db.colleges[db.records[k].college].Required() > 3
      ==> !db.records[k].status.Present?
  {
    EveryRecordHasASource(metric, acts);
  }

  // ----- how often a student can be accepted -----

  ghost function AcceptedCount(log: seq<Attempt>, k: RecordKey): nat {
    if log == [] then 0 else
      var a := log[|log| - 1];
      AcceptedCount(log[..|log| - 1], k) + (if a.Accepted() && a.session == k.session && a.student == k.student then 1 else 0)
  }

  ghost function OverrideCount(log: seq<Override>, k: RecordKey): nat {
    if log == [] then 0 else OverrideCount(log[..|log| - 1], k) + (if log[|log| - 1].record == k then 1 else 0)
  }

  ghost predicate IsPresent(db: Db, k: RecordKey) {
    k in db.records && db.records[k].status.Present?
  }

  ghost predicate AcceptancesPaidFor(db: Db, k: RecordKey) {
    AcceptedCount(db.attempts, k) <= OverrideCount(db.overrides, k) + (if IsPresent(db, k) then 1 else 0)
  }

  lemma NotPresentYet(db: Db, a: Attempt)
    requires Linked(db) && Legal(db, Log(a))
    ensures !IsPresent(db, RecordKey(a.session, a.student))
  {
  }

  lemma LogAcceptances(db: Db, a: Attempt, k: RecordKey)
    requires Linked(db) && Legal(db, Log(a)) && AcceptancesPaidFor(db, k)
    ensures AcceptancesPaidFor(Apply(db, Log(a)), k)
  {
    var db' := Apply(db, Log(a));
    assert (db.attempts + [a])[..|db.attempts|] == db.attempts;
    assert db'.overrides == db.overrides;
    if a.Accepted() && a.session == k.session && a.student == k.student {
      NotPresentYet(db, a);
      assert k == RecordKey(a.session, a.student) && IsPresent(db', k);
    } else {
      assert IsPresent(db', k) <==> IsPresent(db, k);
    }
  }

  lemma AmendAcceptances(db: Db, c: Change, k: RecordKey)
    requires Legal(db, c) && c.Amend? && AcceptancesPaidFor(db, k)
    ensures AcceptancesPaidFor(Apply(db, c), k)
  {
    assert (db.overrides + [c.entry])[..|db.overrides|] == db.overrides;
  }

  lemma OtherAcceptances(db: Db, c: Change, k: RecordKey)
    requires Legal(db, c) && !c.Log? && !c.Amend? && AcceptancesPaidFor(db, k)
    ensures AcceptancesPaidFor(Apply(db, c), k)
  {
    var db' := Apply(db, c);
    assert db'.attempts == db.attempts && db'.overrides == db.overrides;
    assert IsPresent(db, k) ==> IsPresent(db', k);
  }

  lemma ApplyAcceptances(db: Db, c: Change, k: RecordKey)
    requires Linked(db) && Legal(db, c) && AcceptancesPaidFor(db, k)
    ensures AcceptancesPaidFor(Apply(db, c), k)
  {
    if c.Log? {
      LogAcceptances(db, c.attempt, k);
    } else if c.Amend? {
      AmendAcceptances(db, c, k);
    } else {
      OtherAcceptances(db, c, k);
    }
  }

  /** Every run: a student is accepted at most once plus once for each override of that record. */
  lemma {:induction false} AcceptedAtMostOncePerOverride(metric: Metric, acts: seq<Action>, k: RecordKey)
    ensures var db := Run(Genesis(metric), acts).db;
      AcceptancesPaidFor(db, k) && AcceptedCount(db.attempts, k) <= 1 + OverrideCount(db.overrides, k)
    decreases |acts|
  {
    if acts != [] {
      var w, a := Run(Genesis(metric), acts[..|acts| - 1]), acts[|acts| - 1];
      AcceptedAtMostOncePerOverride(metric, acts[..|acts| - 1], k);
      RunConsistent(metric, acts[..|acts| - 1]);
      StepChanges(w, a);
      ApplyAcceptances(w.db, ChangeOf(w, a), k);
    }
  }
}
