/** Two databases seen by one college, and what a change lets the others see. */
module Tenancy {
  import opened Prelude
  import opened Tables
  import opened SessionService
  import opened AttendanceService
  import opened ReportingService
  import opened Changes
  import opened Consistency

  // ----- agreement on one college's rows -----

  /** For each table: a row of college t in either copy is the same row in both. */
  ghost predicate SameColleges(a: map<CollegeId, Policy>, b: map<CollegeId, Policy>, t: CollegeId) {
    t in a || t in b ==> t in a && t in b && a[t] == b[t]
  }

  ghost predicate SameUsers(a: map<UserId, User>, b: map<UserId, User>, t: CollegeId) {
    forall k :: (k in a && a[k].college == t) || (k in b && b[k].college == t) ==> k in a && k in b && a[k] == b[k]
  }

  ghost predicate SameCourses(a: map<CourseId, Course>, b: map<CourseId, Course>, t: CollegeId) {
    forall k :: (k in a && a[k].college == t) || (k in b && b[k].college == t) ==> k in a && k in b && a[k] == b[k]
  }

  ghost predicate SameSections(a: map<SectionId, Section>, b: map<SectionId, Section>, t: CollegeId) {
    forall k :: (k in a && a[k].college == t) || (k in b && b[k].college == t) ==> k in a && k in b && a[k] == b[k]
  }

  ghost predicate SameEnrollments(a: map<Pair, CollegeId>, b: map<Pair, CollegeId>, t: CollegeId) {
    forall k :: (k in a && a[k] == t) || (k in b && b[k] == t) ==> k in a && k in b && a[k] == b[k]
  }

  ghost predicate SameSessions(a: map<SessionId, Session>, b: map<SessionId, Session>, t: CollegeId) {
    forall k :: (k in a && a[k].college == t) || (k in b && b[k].college == t) ==> k in a && k in b && a[k] == b[k]
  }

  ghost predicate SameRecords(a: map<RecordKey, Record>, b: map<RecordKey, Record>, t: CollegeId) {
    forall k :: (k in a && a[k].college == t) || (k in b && b[k].college == t) ==> k in a && k in b && a[k] == b[k]
  }

  ghost predicate SameAggregates(a: map<Pair, Aggregate>, b: map<Pair, Aggregate>, t: CollegeId) {
    forall k :: (k in a && a[k].college == t) || (k in b && b[k].college == t) ==> k in a && k in b && a[k] == b[k]
  }

  function AttemptsOf(log: seq<Attempt>, t: CollegeId): seq<Attempt> {
    if log == [] then [] else
      AttemptsOf(log[..|log| - 1], t) + (if log[|log| - 1].college == t then [log[|log| - 1]] else [])
  }

  function OverridesOf(log: seq<Override>, t: CollegeId): seq<Override> {
    if log == [] then [] else
      OverridesOf(log[..|log| - 1], t) + (if log[|log| - 1].college == t then [log[|log| - 1]] else [])
  }

  ghost predicate SameLogs(a: Db, b: Db, t: CollegeId) {
    AttemptsOf(a.attempts, t) == AttemptsOf(b.attempts, t) && OverridesOf(a.overrides, t) == OverridesOf(b.overrides, t)
  }

  ghost predicate SameReference(a: Db, b: Db, t: CollegeId) {
    && SameColleges(a.colleges, b.colleges, t) && SameUsers(a.users, b.users, t) && SameCourses(a.courses, b.courses, t)
    && SameSections(a.sections, b.sections, t) && SameEnrollments(a.enrollments, b.enrollments, t)
  }

  ghost predicate SameRows(a: Db, b: Db, t: CollegeId) {
    && SameReference(a, b, t) && SameSessions(a.sessions, b.sessions, t) && SameRecords(a.records, b.records, t)
    && SameAggregates(a.aggregates, b.aggregates, t) && SameLogs(a, b, t)
  }

  // ----- queries of t depend on t's rows only -----

  lemma SessionQueriesAgree(a: Db, b: Db, t: CollegeId, sec: SectionId)
    requires SameSessions(a.sessions, b.sessions, t)
    ensures a.OpenSessions(t, sec) == b.OpenSessions(t, sec) && a.EndedSessions(t, sec) == b.EndedSessions(t, sec)
  {
  }

  lemma CandidatesAgree(a: Db, b: Db, t: CollegeId, student: UserId)
    requires SameReference(a, b, t) && SameSessions(a.sessions, b.sessions, t)
    ensures a.Candidates(t, student) == b.Candidates(t, student)
    ensures forall s :: a.MayCheckInto(t, student, s) <==> b.MayCheckInto(t, student, s)
  {
  }

  lemma EnrolledAgree(a: Db, b: Db, t: CollegeId, sec: SectionId)
    requires SameReference(a, b, t)
    ensures a.Enrolled(t, sec) == b.Enrolled(t, sec)
  {
    assert forall p :: a.SeesEnrollment(t, p) <==> b.SeesEnrollment(t, p);
    forall st | st in a.Enrolled(t, sec) || st in b.Enrolled(t, sec)
      ensures st in a.Enrolled(t, sec) && st in b.Enrolled(t, sec)
    {
      assert a.SeesEnrollment(t, Pair(st, sec)) || b.SeesEnrollment(t, Pair(st, sec));
    }
  }

  lemma TeachesAgree(a: Db, b: Db, t: CollegeId, teacher: UserId, sid: SessionId)
    requires SameReference(a, b, t) && SameSessions(a.sessions, b.sessions, t)
    ensures a.Teaches(t, teacher, sid) <==> b.Teaches(t, teacher, sid)
  {
  }

  lemma AbsenteesAgree(a: Db, b: Db, t: CollegeId, sid: SessionId, students: set<UserId>)
    requires SameRecords(a.records, b.records, t)
    ensures Absentees(a, t, sid, students) == Absentees(b, t, sid, students)
  {
    assert forall k :: a.SeesRecord(t, k) <==> b.SeesRecord(t, k);
  }

  lemma SummaryAgrees(a: Db, b: Db, t: CollegeId, sid: SessionId)
    requires SameRecords(a.records, b.records, t)
    ensures SummaryOf(a, t, sid) == SummaryOf(b, t, sid)
  {
    forall wanted: set<Status>
      ensures a.WithStatus(t, sid, wanted) == b.WithStatus(t, sid, wanted)
    {
    }
  }

  lemma RecountAgrees(a: Db, b: Db, t: CollegeId, p: Pair, now: nat)
    requires SameSessions(a.sessions, b.sessions, t) && SameRecords(a.records, b.records, t)
    ensures RecountOf(a, t, p, now) == RecountOf(b, t, p, now)
  {
    SessionQueriesAgree(a, b, t, p.section);
    assert a.PresentRecords(t, p) == b.PresentRecords(t, p);
  }

  lemma RefreshableAgrees(a: Db, b: Db, t: CollegeId, p: Pair)
    requires Linked(a) && Linked(b) && SameRows(a, b, t) && (p.student in a.users <==> p.student in b.users)
    ensures Refreshable(a, t, p) <==> Refreshable(b, t, p)
  {
    RecountAgrees(a, b, t, p, 0);
  }

  // ----- whose rows a change writes -----

  ghost function Writer(db: Db, c: Change): Option<CollegeId>
    requires Legal(db, c)
  {
    match c
    case Nothing => None
    case NewCollege(t, _) => Some(t)
    case NewUser(_, user) => Some(user.college)
    case NewCourse(_, row) => Some(row.college)
    case NewSection(_, row) => Some(row.college)
    case NewEnrollment(_, t) => Some(t)
    case NewSession(_, row) => Some(row.college)
    case Recode(sid, _, _) => Some(db.sessions[sid].college)
    case Close(sid, _) => Some(db.sessions[sid].college)
    case Log(a) => Some(a.college)
    case Amend(_, _, o) => Some(o.college)
    case Refresh(_, row) => Some(row.college)
  }

  lemma AppendAttempt(xs: seq<Attempt>, x: Attempt, t: CollegeId)
    ensures AttemptsOf(xs + [x], t) == AttemptsOf(xs, t) + (if x.college == t then [x] else [])
  {
    assert (xs + [x])[..|xs|] == xs;
  }

  lemma AppendOverride(os: seq<Override>, o: Override, t: CollegeId)
    ensures OverridesOf(os + [o], t) == OverridesOf(os, t) + (if o.college == t then [o] else [])
  {
    assert (os + [o])[..|os|] == os;
  }

  lemma OtherCloseKept(db: Db, c: Change, t: CollegeId)
    requires Linked(db) && Legal(db, c) && Writer(db, c) != Some(t) && c.Close?
    ensures SameSessions(db.sessions, Apply(db, c).sessions, t) && SameRecords(db.records, Apply(db, c).records, t)
  {
  }

  lemma OtherRecordsKept(db: Db, c: Change, t: CollegeId)
    requires Linked(db) && Legal(db, c) && Writer(db, c) != Some(t) && (c.Log? || c.Amend?)
    ensures SameSessions(db.sessions, Apply(db, c).sessions, t) && SameRecords(db.records, Apply(db, c).records, t)
  {
  }

  lemma OtherLogsKept(db: Db, c: Change, t: CollegeId)
    requires Legal(db, c) && Writer(db, c) != Some(t)
    ensures SameLogs(db, Apply(db, c), t)
  {
    if c.Log? {
      AppendAttempt(db.attempts, c.attempt, t);
    } else if c.Amend? {
      AppendOverride(db.overrides, c.entry, t);
    }
  }

  lemma OtherSessionsKept(db: Db, c: Change, t: CollegeId)
    requires Linked(db) && Legal(db, c) && Writer(db, c) != Some(t) && !(c.Close? || c.Log? || c.Amend?)
    ensures SameSessions(db.sessions, Apply(db, c).sessions, t) && SameRecords(db.records, Apply(db, c).records, t)
  {
  }

  lemma OtherReferenceKept(db: Db, c: Change, t: CollegeId)
    requires Linked(db) && Legal(db, c) && Writer(db, c) != Some(t)
    ensures SameReference(db, Apply(db, c), t) && SameAggregates(db.aggregates, Apply(db, c).aggregates, t)
  {
  }

  /** A change made under one college leaves every row of every other college as it was. */
  lemma OtherCollegesKept(db: Db, c: Change, t: CollegeId)
    requires Linked(db) && Legal(db, c) && Writer(db, c) != Some(t)
    ensures SameRows(db, Apply(db, c), t)
  {
    if c.Close? {
      OtherCloseKept(db, c, t);
    } else if c.Log? || c.Amend? {
      OtherRecordsKept(db, c, t);
    } else {
      OtherSessionsKept(db, c, t);
    }
    OtherLogsKept(db, c, t);
    OtherReferenceKept(db, c, t);
  }

  // ----- the same change on two databases -----

  lemma SameChangeReference(a: Db, b: Db, c: Change, t: CollegeId)
    requires SameReference(a, b, t) && SameAggregates(a.aggregates, b.aggregates, t) && Legal(a, c) && Legal(b, c)
    ensures SameReference(Apply(a, c), Apply(b, c), t) && SameAggregates(Apply(a, c).aggregates, Apply(b, c).aggregates, t)
  {
  }

  lemma SameChangeLogs(a: Db, b: Db, c: Change, t: CollegeId)
    requires SameLogs(a, b, t) && Legal(a, c) && Legal(b, c)
    ensures SameLogs(Apply(a, c), Apply(b, c), t)
  {
    if c.Log? {
      AppendAttempt(a.attempts, c.attempt, t);
      AppendAttempt(b.attempts, c.attempt, t);
    } else if c.Amend? {
      AppendOverride(a.overrides, c.entry, t);
      AppendOverride(b.overrides, c.entry, t);
    }
  }

  lemma PutSession(a: map<SessionId, Session>, b: map<SessionId, Session>, s: SessionId, row: Session, t: CollegeId)
    requires SameSessions(a, b, t)
    ensures SameSessions(a[s := row], b[s := row], t)
  {
  }

  lemma PutRecords(a: map<RecordKey, Record>, b: map<RecordKey, Record>, rows: map<RecordKey, Record>, t: CollegeId)
    requires SameRecords(a, b, t)
    ensures SameRecords(a + rows, b + rows, t)
  {
  }

  lemma SameClose(a: Db, b: Db, c: Change, t: CollegeId)
    requires SameRows(a, b, t) && Linked(a) && Linked(b) && Legal(a, c) && Legal(b, c)
    requires c.Close? && Writer(a, c) == Some(t) && Writer(b, c) == Some(t)
    ensures SameSessions(Apply(a, c).sessions, Apply(b, c).sessions, t) && SameRecords(Apply(a, c).records, Apply(b, c).records, t)
  {
    var students := a.Enrolled(t, a.sessions[c.sid].section);
    EnrolledAgree(a, b, t, a.sessions[c.sid].section);
    AbsenteesAgree(a, b, t, c.sid, students);
    PutSession(a.sessions, b.sessions, c.sid, a.sessions[c.sid].(endedAt := Some(c.at)), t);
    PutRecords(a.records, b.records, AbsentRecords(t, c.sid, c.at, Absentees(a, t, c.sid, students)), t);
  }

  lemma PutRecord(a: map<RecordKey, Record>, b: map<RecordKey, Record>, k: RecordKey, row: Record, t: CollegeId)
    requires SameRecords(a, b, t)
    ensures SameRecords(a[k := row], b[k := row], t)
  {
  }

  lemma SameLog(a: Db, b: Db, x: Attempt, t: CollegeId)
    requires SameRecords(a.records, b.records, t)
    ensures SameRecords(RecordsAfter(a, Log(x)), RecordsAfter(b, Log(x)), t)
  {
    PutRecord(a.records, b.records, RecordKey(x.session, x.student), Record(x.college, Present, x.at, Some(x.id)), t);
  }

  lemma SameOverridden(a: Db, b: Db, key: RecordKey, status: Status, at: nat, t: CollegeId)
    requires SameRows(a, b, t) && Linked(a) && Linked(b) && a.SeesSession(t, key.session)
    ensures OverriddenRecord(a, t, key, status, at) == OverriddenRecord(b, t, key, status, at)
  {
    assert key in a.records ==> a.SeesRecord(t, key);
    assert key in b.records ==> b.SeesRecord(t, key);
  }

  lemma SameAmend(a: Db, b: Db, c: Change, t: CollegeId)
    requires SameRows(a, b, t) && Linked(a) && Linked(b) && Legal(a, c) && c.Amend? && c.entry.college == t
    ensures SameRecords(RecordsAfter(a, c), RecordsAfter(b, c), t)
  {
    SameOverridden(a, b, c.key, c.status, c.entry.at, t);
    PutRecord(a.records, b.records, c.key, OverriddenRecord(a, t, c.key, c.status, c.entry.at), t);
  }

  lemma SameWrite(a: Db, b: Db, c: Change, t: CollegeId)
    requires SameRows(a, b, t) && Linked(a) && Linked(b) && Legal(a, c) && Legal(b, c)
    requires (c.Log? || c.Amend?) && Writer(a, c) == Some(t)
    ensures SameSessions(Apply(a, c).sessions, Apply(b, c).sessions, t) && SameRecords(Apply(a, c).records, Apply(b, c).records, t)
  {
    if c.Log? { SameLog(a, b, c.attempt, t); } else { SameAmend(a, b, c, t); }
  }

  lemma SameSessionChange(a: Db, b: Db, c: Change, t: CollegeId)
    requires SameSessions(a.sessions, b.sessions, t) && SameRecords(a.records, b.records, t) && Legal(a, c) && Legal(b, c)
    requires !(c.Close? || c.Log? || c.Amend?) && (c.Recode? ==> Writer(a, c) == Some(t))
    ensures SameSessions(Apply(a, c).sessions, Apply(b, c).sessions, t) && SameRecords(Apply(a, c).records, Apply(b, c).records, t)
  {
    if c.NewSession? {
      PutSession(a.sessions, b.sessions, c.sid, c.row, t);
    } else if c.Recode? {
      PutSession(a.sessions, b.sessions, c.sid, a.sessions[c.sid].(code := c.code, codeUpdatedAt := c.at), t);
    }
  }

  lemma SameChangeKeepsAgreement(a: Db, b: Db, c: Change, t: CollegeId)
    requires SameRows(a, b, t) && Linked(a) && Linked(b) && Legal(a, c) && Legal(b, c)
    requires c.Nothing? || (Writer(a, c) == Some(t) && Writer(b, c) == Some(t))
    ensures SameRows(Apply(a, c), Apply(b, c), t)
  {
    SameChangeReference(a, b, c, t);
    SameChangeLogs(a, b, c, t);
    if c.Close? { SameClose(a, b, c, t); }
    else if c.Log? || c.Amend? { SameWrite(a, b, c, t); }
    else { SameSessionChange(a, b, c, t); }
  }
}
