/** What the tables keep in every run: references resolve within the college, one open session a section. */
module Consistency {
  import opened Tables
  import opened Worlds
  import opened SessionService
  import opened Runs
  import opened Changes

  /** Every row's references exist, and a row of a session or section carries its college. */
  ghost predicate Linked(db: Db) {
    && (forall x :: x in db.sections ==>
          db.sections[x].college in db.colleges && db.sections[x].course in db.courses && db.sections[x].teacher in db.users)
    && (forall s :: s in db.sessions ==>
          && db.sessions[s].section in db.sections && db.sections[db.sessions[s].section].college == db.sessions[s].college
          && db.sessions[s].startedBy in db.users)
    && (forall k :: k in db.records ==>
          k.session in db.sessions && k.student in db.users && db.records[k].college == db.sessions[k.session].college)
    && (forall p :: p in db.aggregates ==>
          p.section in db.sections && p.student in db.users && db.aggregates[p].college == db.sections[p.section].college)
    && (forall p :: p in db.enrollments ==>
          p.section in db.sections && p.student in db.users && db.users[p.student].college == db.enrollments[p])
    && (forall a :: a in db.attempts ==>
          a.session in db.sessions && a.student in db.users && a.college == db.sessions[a.session].college)
    && (forall o :: o in db.overrides ==>
          o.record in db.records && o.overriddenBy in db.users && o.college == db.records[o.record].college)
  }

  predicate BothOpen(a: Session, b: Session) {
    a.section == b.section && a.endedAt.None? && b.endedAt.None?
  }

  ghost predicate OneOpen(db: Db) {
    forall s, s' :: s in db.sessions && s' in db.sessions && BothOpen(db.sessions[s], db.sessions[s']) ==> s == s'
  }

  ghost predicate Consistent(db: Db) {
    Linked(db) && OneOpen(db)
  }

  /** Under Linked the absence inserts and the record upserts never meet an invisible row. */
  lemma NeverBlocked(db: Db, t: CollegeId, sid: SessionId)
    requires Linked(db) && db.SeesSession(t, sid)
    ensures !AbsenceBlocked(db, t, sid)
  {
  }

  lemma RowLinked(db: Db, c: Change)
    requires Linked(db) && Legal(db, c)
    requires c.Nothing? || c.NewCollege? || c.NewUser? || c.NewCourse? || c.NewSection? || c.NewEnrollment?
    ensures Linked(Apply(db, c))
  {
  }

  lemma SessionLinked(db: Db, c: Change)
    requires Linked(db) && Legal(db, c) && (c.NewSession? || c.Recode?)
    ensures Linked(Apply(db, c))
  {
  }

  lemma CloseLinked(db: Db, sid: SessionId, at: nat)
    requires Linked(db) && Legal(db, Close(sid, at))
    ensures Linked(Apply(db, Close(sid, at)))
  {
  }

  lemma LogLinked(db: Db, a: Attempt)
    requires Linked(db) && Legal(db, Log(a))
    ensures Linked(Apply(db, Log(a)))
  {
  }

  lemma AmendLinked(db: Db, c: Change)
    requires Linked(db) && Legal(db, c) && (c.Amend? || c.Refresh?)
    ensures Linked(Apply(db, c))
  {
  }

  lemma ApplyLinked(db: Db, c: Change)
    requires Linked(db) && Legal(db, c)
    ensures Linked(Apply(db, c))
  {
    if c.NewSession? || c.Recode? { SessionLinked(db, c); }
    else if c.Close? { CloseLinked(db, c.sid, c.at); }
    else if c.Log? { LogLinked(db, c.attempt); }
    else if c.Amend? || c.Refresh? { AmendLinked(db, c); }
    else { RowLinked(db, c); }
  }

  lemma ApplyOneOpen(db: Db, c: Change)
    requires Consistent(db) && Legal(db, c)
    ensures OneOpen(Apply(db, c))
  {
    if c.NewSession? {
      forall s | s in db.sessions && BothOpen(db.sessions[s], c.row)
        ensures s in db.OpenSessions(c.row.college, c.row.section)
      {
      }
    }
  }

  lemma StepConsistent(w: World, a: Action)
    requires Consistent(w.db)
    ensures Consistent(Step(w, a).db)
  {
    StepChanges(w, a);
    ApplyLinked(w.db, ChangeOf(w, a));
    ApplyOneOpen(w.db, ChangeOf(w, a));
  }

  lemma {:induction false} RunConsistent(metric: Metric, acts: seq<Action>)
    ensures Consistent(Run(Genesis(metric), acts).db)
    decreases |acts|
  {
    if acts != [] {
      var init := acts[..|acts| - 1];
      RunConsistent(metric, init);
      StepConsistent(Run(Genesis(metric), init), acts[|acts| - 1]);
    }
  }
}
