/**
 What one step can do to the tables, stripped of keys and events: the step lemmas of the invariants
 argue about these few changes instead of about the services.
 */
module Changes {
  import opened Prelude
  import opened Tables
  import opened Worlds
  import opened SessionService
  import opened VerificationService
  import opened AttendanceService
  import opened ReportingService
  import opened Runs

  datatype Change =
    | Nothing
    | NewCollege(t: CollegeId, policy: Policy)
    | NewUser(uid: UserId, user: User)
    | NewCourse(course: CourseId, courseRow: Course)
    | NewSection(sec: SectionId, sectionRow: Section)
    | NewEnrollment(p: Pair, t: CollegeId)
    | NewSession(sid: SessionId, row: Session)
    | Recode(sid: SessionId, code: string, at: nat)
    | Close(sid: SessionId, at: nat)
    | Log(attempt: Attempt)
    | Amend(key: RecordKey, status: Status, entry: Override)
    | Refresh(p: Pair, aggregate: Aggregate)

  ghost function SessionsAfter(sessions: map<SessionId, Session>, c: Change): map<SessionId, Session>
    requires c.Recode? || c.Close? ==> c.sid in sessions
  {
    match c
    case NewSession(sid, row) => sessions[sid := row]
    case Recode(sid, code, at) => sessions[sid := sessions[sid].(code := code, codeUpdatedAt := at)]
    case Close(sid, at) => sessions[sid := sessions[sid].(endedAt := Some(at))]
    case _ => sessions
  }

  ghost function RecordsAfter(db: Db, c: Change): map<RecordKey, Record>
    requires c.Close? ==> c.sid in db.sessions
  {
    match c
    case Close(sid, at) =>
      var t := db.sessions[sid].college;
      db.records + AbsentRecords(t, sid, at, Absentees(db, t, sid, db.Enrolled(t, db.sessions[sid].section)))
    case Log(a) =>
      if a.Accepted() then db.records[RecordKey(a.session, a.student) := Record(a.college, Present, a.at, Some(a.id))]
      else db.records
    case Amend(key, status, o) => db.records[key := OverriddenRecord(db, o.college, key, status, o.at)]
    case _ => db.records
  }

  ghost function Apply(db: Db, c: Change): Db
    requires c.Recode? || c.Close? ==> c.sid in db.sessions
  {
    Db(if c.NewCollege? then db.colleges[c.t := c.policy] else db.colleges,
       if c.NewUser? then db.users[c.uid := c.user] else db.users,
       if c.NewCourse? then db.courses[c.course := c.courseRow] else db.courses,
       if c.NewSection? then db.sections[c.sec := c.sectionRow] else db.sections,
       if c.NewEnrollment? then db.enrollments[c.p := c.t] else db.enrollments,
       SessionsAfter(db.sessions, c),
       if c.Log? then db.attempts + [c.attempt] else db.attempts,
       RecordsAfter(db, c),
       if c.Amend? then db.overrides + [c.entry] else db.overrides,
       if c.Refresh? then db.aggregates[c.p := c.aggregate] else db.aggregates)
  }

  /** What the services check before they write. */
  ghost predicate Legal(db: Db, c: Change) {
    match c
    case Nothing => true
    case NewCollege(t, _) => t !in db.colleges
    case NewUser(uid, user) => uid !in db.users && user.college in db.colleges
    case NewCourse(id, row) => id !in db.courses && row.college in db.colleges
    case NewSection(sec, row) =>
      sec !in db.sections && row.college in db.colleges && row.course in db.courses && row.teacher in db.users
    case NewEnrollment(p, t) =>
      p !in db.enrollments && p.section in db.sections && p.student in db.users && db.users[p.student].college == t
    case NewSession(sid, row) =>
      && sid !in db.sessions && row.endedAt.None?
      && db.SeesSection(row.college, row.section) && db.sections[row.section].teacher == row.startedBy
      && db.OpenSessions(row.college, row.section) == {}
    case Recode(sid, code, _) => sid in db.sessions && db.sessions[sid].endedAt.None? && code != db.sessions[sid].code
    case Close(sid, _) =>
      && sid in db.sessions && db.sessions[sid].endedAt.None?
      && !AbsenceBlocked(db, db.sessions[sid].college, sid)
    case Log(a) =>
      && a.college in db.colleges && db.MayCheckInto(a.college, a.student, a.session)
      && (forall x :: x in db.attempts ==> x.id != a.id)
      && !AlreadyIn(db, a.college, RecordKey(a.session, a.student))
      && (a.Accepted() <==> db.colleges[a.college].Required() <= a.Signals())
    case Amend(key, status, o) =>
      && !status.Present? && !status.Absent? && o.record == key
      && db.Teaches(o.college, o.overriddenBy, key.session) && key.student in db.users
    case Refresh(p, row) => Refreshable(db, row.college, p) && row == RecountOf(db, row.college, p, row.at)
  }

  /** The check-in reaches the attempt log. */
  ghost predicate Logs(w: World, t: CollegeId, student: UserId, sub: Submission, pick: SessionId, aid: AttemptId) {
    && t in w.db.colleges && w.db.MayCheckInto(t, student, pick)
    && !RateLimited(w, t, RecordKey(pick, student)) && !AlreadyIn(w.db, t, RecordKey(pick, student))
    && Writable(w.db, t, RecordKey(pick, student), sub, AttemptOf(w, t, student, sub, pick, aid).Accepted())
  }

  ghost function ChangeOf(w: World, a: Action): Change {
    if !Possible(w, a) then Nothing else
      match a
      case Tick(_) => Nothing
      case AddCollege(t, policy) => NewCollege(t, policy)
      case AddUser(t, uid, role) => NewUser(uid, User(t, role))
      case AddCourse(t, c, threshold) => NewCourse(c, Course(t, threshold))
      case AddSection(t, sec, row) => NewSection(sec, row)
      case Enroll(t, st, sec) => NewEnrollment(Pair(st, sec), t)
      case Start(t, teacher, sec, fence, sid, code) =>
        if StartEffect(w, t, teacher, sec, fence, sid, code).outcome.Ok?
          then NewSession(sid, Session(t, sec, teacher, w.now, None, code, w.now, fence)) else Nothing
      case Rotate(t, teacher, sid, code) =>
        if RotateEffect(w, t, teacher, sid, code).outcome.Ok? && !Live(w.codes, sid, w.now) then Recode(sid, code, w.now) else Nothing
      case End(t, teacher, sid) =>
        if EndEffect(w, t, teacher, sid).outcome.Ok? then Close(sid, w.now) else Nothing
      case Checkin(t, st, sub, pick, aid) =>
        if Logs(w, t, st, sub, pick, aid) then Log(AttemptOf(w, t, st, sub, pick, aid)) else Nothing
      case Correct(t, teacher, sid, st, status, reason) =>
        if OverrideEffect(w, t, teacher, sid, st, status, reason).outcome.Ok?
          then Amend(RecordKey(sid, st), OverrideStatus(status).value, Override(t, RecordKey(sid, st), teacher, reason, w.now))
          else Nothing
      case Publish(_) => Nothing
      case Consume(e) =>
        if Refreshable(w.db, e.college, e.Target())
          then Refresh(e.Target(), RecountOf(w.db, e.college, e.Target(), w.now)) else Nothing
  }

  lemma CheckinLogs(w: World, t: CollegeId, student: UserId, sub: Submission, pick: SessionId, aid: AttemptId)
    ensures CheckinEffect(w, t, student, sub, pick, aid).world
         == if Logs(w, t, student, sub, pick, aid) then Logged(w, t, AttemptOf(w, t, student, sub, pick, aid)) else w
  {
    if w.db.MayCheckInto(t, student, pick) {
      assert pick in w.db.Candidates(t, student);
    }
  }

  lemma StartChanges(w: World, a: Action)
    requires Possible(w, a) && a.Start?
    ensures Legal(w.db, ChangeOf(w, a)) && Step(w, a).db == Apply(w.db, ChangeOf(w, a))
  {
  }

  lemma RotateChanges(w: World, a: Action)
    requires Possible(w, a) && a.Rotate?
    ensures Legal(w.db, ChangeOf(w, a)) && Step(w, a).db == Apply(w.db, ChangeOf(w, a))
  {
  }

  lemma EndChanges(w: World, a: Action)
    requires Possible(w, a) && a.End?
    ensures Legal(w.db, ChangeOf(w, a)) && Step(w, a).db == Apply(w.db, ChangeOf(w, a))
  {
  }

  lemma CorrectChanges(w: World, a: Action)
    requires Possible(w, a) && a.Correct?
    ensures Legal(w.db, ChangeOf(w, a)) && Step(w, a).db == Apply(w.db, ChangeOf(w, a))
  {
  }

  lemma CheckinChanges(w: World, a: Action)
    requires Possible(w, a) && a.Checkin?
    ensures Legal(w.db, ChangeOf(w, a)) && Step(w, a).db == Apply(w.db, ChangeOf(w, a))
  {
    CheckinLogs(w, a.t, a.student, a.sub, a.pick, a.aid);
  }

  lemma OtherChanges(w: World, a: Action)
    requires Possible(w, a) && !(a.Start? || a.Rotate? || a.End? || a.Correct? || a.Checkin?)
    ensures Legal(w.db, ChangeOf(w, a)) && Step(w, a).db == Apply(w.db, ChangeOf(w, a))
  {
  }

  /** Every step changes the tables only by a change its service has checked. */
  lemma StepChanges(w: World, a: Action)
    ensures Legal(w.db, ChangeOf(w, a))
    ensures Step(w, a).db == Apply(w.db, ChangeOf(w, a))
  {
    if Possible(w, a) {
      if a.Start? { StartChanges(w, a); }
      else if a.Rotate? { RotateChanges(w, a); }
      else if a.End? { EndChanges(w, a); }
      else if a.Correct? { CorrectChanges(w, a); }
      else if a.Checkin? { CheckinChanges(w, a); }
      else { OtherChanges(w, a); }
    }
  }
}
