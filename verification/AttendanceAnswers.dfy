/**
 What an override answers and writes, and what the read models show, for every state, in terms of the tables' own
 columns and the texts of the requests.
 */
module AttendanceAnswers {
  import opened Prelude
  import opened Tables
  import opened Worlds
  import opened SessionService
  import opened AttendanceService
  import opened Consistency
  import opened Lifecycle

  // ----- overrides -----

  /** The session is the college's and its section is taught by the teacher. */
  predicate TeachesIt(db: Db, t: CollegeId, teacher: UserId, sid: SessionId) {
    && sid in db.sessions && db.sessions[sid].college == t
    && db.sessions[sid].section in db.sections && db.sections[db.sessions[sid].section].college == t
    && db.sections[db.sessions[sid].section].teacher == teacher
  }

  predicate Asks(status: string) {
    status == "overridden_present" || status == "overridden_absent"
  }

  lemma TwoStatuses()
    ensures "overridden_present" != "overridden_absent"
  {
    assert "overridden_present"[11] == 'p' && "overridden_absent"[11] == 'a';
  }

  /** The status asked for is the status answered; every refusal has its condition and writes nothing. */
  lemma OverrideAnswer(w: World, t: CollegeId, teacher: UserId, sid: SessionId, student: UserId, status: string, reason: string)
    ensures var e, k := OverrideEffect(w, t, teacher, sid, student, status, reason), RecordKey(sid, student);
      && e.outcome
         == (if !Asks(status) then Err(BadRequest)
             else if !TeachesIt(w.db, t, teacher, sid) then Err(NotFound)
             else if student !in w.db.users || (k in w.db.records && w.db.records[k].college != t) then Err(StoreError)
             else if status == "overridden_absent" then Ok(OverriddenAbsent) else Ok(OverriddenPresent))
      && (e.outcome.Err? ==> e.world == w)
  {
    TwoStatuses();
  }

  /** Record, override row and event carry the student, session, teacher, reason and status asked for. */
  lemma OverrideWrites(w: World, t: CollegeId, teacher: UserId, sid: SessionId, student: UserId, status: string, reason: string)
    requires OverrideEffect(w, t, teacher, sid, student, status, reason).outcome.Ok?
    ensures var w', k := OverrideEffect(w, t, teacher, sid, student, status, reason).world, RecordKey(sid, student);
      var s := if status == "overridden_absent" then OverriddenAbsent else OverriddenPresent;
      var attempt := if k in w.db.records then w.db.records[k].attempt else None;
      && sid in w.db.sessions
      && w'.db == w.db.(records := w.db.records[k := Record(t, s, w.now, attempt)],
                        overrides := w.db.overrides + [Override(t, k, teacher, reason, w.now)])
      && w'.pending == w.pending + multiset{Event(k, sid, student, t, w.db.sessions[sid].section, s, w.now)}
      && w' == w.(db := w'.db, pending := w'.pending)
  {
    TwoStatuses();
  }

  /** An absence is counted out, a presence counted in, and the roster shows the one asked for. */
  lemma OverrideShows(w: World, t: CollegeId, teacher: UserId, sid: SessionId, student: UserId, status: string, reason: string)
    requires OverrideEffect(w, t, teacher, sid, student, status, reason).outcome.Ok?
    ensures var db, k := OverrideEffect(w, t, teacher, sid, student, status, reason).world.db, RecordKey(sid, student);
      var p, roster := Pair(student, w.db.sessions[sid].section), SessionRoster(db, t, sid, teacher);
      var asked := if status == "overridden_absent" then OverriddenAbsent else OverriddenPresent;
      && k in db.records && roster.Ok?
      && (status == "overridden_absent" ==> db.records[k].status == OverriddenAbsent && k !in db.PresentRecords(t, p))
      && (status == "overridden_present" ==> db.records[k].status == OverriddenPresent && k in db.PresentRecords(t, p))
      && (student in roster.value ==> roster.value[student] == Recorded(asked))
  {
    OverrideAnswer(w, t, teacher, sid, student, status, reason);
    OverrideWrites(w, t, teacher, sid, student, status, reason);
    RosterShowsRecord(OverrideEffect(w, t, teacher, sid, student, status, reason).world.db, t, sid, teacher, student);
  }

  // ----- read models -----

  /** The teacher's own roster lists exactly the enrolled users of the college, with the recorded status or pending. */
  lemma RosterAnswer(db: Db, t: CollegeId, sid: SessionId, teacher: UserId, st: UserId)
    requires Linked(db)
    ensures var r := SessionRoster(db, t, sid, teacher);
      var seen := sid in db.sessions && db.sessions[sid].college == t;
      && (r == Err(NotFound) <==> !seen)
      && (r == Err(Forbidden) <==> seen && db.sections[db.sessions[sid].section].teacher != teacher)
      && (r.Ok? <==> seen && db.sections[db.sessions[sid].section].teacher == teacher)
      && (r.Ok? ==>
            && (st in r.value <==>
                  var p := Pair(st, db.sessions[sid].section); p in db.enrollments && db.enrollments[p] == t)
            && (st in r.value ==> r.value[st] == if RecordKey(sid, st) in db.records
                                                 then Recorded(db.records[RecordKey(sid, st)].status) else Pending))
  {
    if sid in db.sessions && db.sessions[sid].college == t {
      assert st in db.Enrolled(t, db.sessions[sid].section) <==> db.SeesEnrollment(t, Pair(st, db.sessions[sid].section));
    }
  }

  /** The teacher's own history has a row for every session of the section, with its true counts. */
  lemma HistoryAnswer(db: Db, t: CollegeId, sec: SectionId, teacher: UserId, s: SessionId)
    requires Linked(db)
    ensures var h := SectionHistory(db, t, sec, teacher);
      var seen := sec in db.sections && db.sections[sec].college == t;
      && (h == Err(NotFound) <==> !seen)
      && (h == Err(Forbidden) <==> seen && db.sections[sec].teacher != teacher)
      && (h.Ok? <==> seen && db.sections[sec].teacher == teacher)
      && (h.Ok? ==>
            && (s in h.value <==> s in db.sessions && db.sessions[s].section == sec)
            && (s in h.value ==> h.value[s] == HistoryRow(|Holding(db, s, {Present, OverriddenPresent})|,
                                                          |Holding(db, s, {Absent, OverriddenAbsent})|)))
  {
    if db.SeesSession(t, s) {
      HoldingVisible(db, t, s, {Present, OverriddenPresent});
      HoldingVisible(db, t, s, {Absent, OverriddenAbsent});
    }
  }

  /** A student's list has the sections of the college's own courses the student is enrolled in, zeros where no row is stored. */
  lemma CoursesAnswer(db: Db, t: CollegeId, student: UserId, sec: SectionId)
    requires Linked(db)
    ensures var list, p := StudentCourses(db, t, student), Pair(student, sec);
      && (sec in list <==>
            && p in db.enrollments && db.enrollments[p] == t && sec in db.sections && db.sections[sec].college == t
            && db.courses[db.sections[sec].course].college == t)
      && (sec in list ==> list[sec] == if p in db.aggregates
            then CourseRow(db.aggregates[p].present, db.aggregates[p].total, db.aggregates[p].hundredths) else CourseRow(0, 0, 0))
  {
  }
}
