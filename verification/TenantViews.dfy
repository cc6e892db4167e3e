/** The rosters, histories and course lists a college reads are its own, too. */
module TenantViews {
  import opened Tables
  import opened Worlds
  import opened AttendanceService
  import opened Runs
  import opened Tenancy
  import opened NonInterference

  lemma RostersAgree(a: Db, b: Db, t: CollegeId, sid: SessionId, teacher: UserId)
    requires SameRows(a, b, t)
    ensures SessionRoster(a, t, sid, teacher) == SessionRoster(b, t, sid, teacher)
  {
    TeachesAgree(a, b, t, teacher, sid);
    var x, y := SessionRoster(a, t, sid, teacher), SessionRoster(b, t, sid, teacher);
    if x.Ok? {
      EnrolledAgree(a, b, t, a.sessions[sid].section);
      assert x.value.Keys == y.value.Keys;
      forall st | st in x.value
        ensures x.value[st] == y.value[st]
      {
        assert a.SeesRecord(t, RecordKey(sid, st)) <==> b.SeesRecord(t, RecordKey(sid, st));
      }
      assert x.value == y.value;
    }
  }

  lemma CountsAgree(a: Db, b: Db, t: CollegeId, sid: SessionId, wanted: set<Status>)
    requires SameRecords(a.records, b.records, t)
    ensures a.WithStatus(t, sid, wanted) == b.WithStatus(t, sid, wanted)
  {
  }

  lemma HistoriesAgree(a: Db, b: Db, t: CollegeId, sec: SectionId, teacher: UserId)
    requires SameRows(a, b, t)
    ensures SectionHistory(a, t, sec, teacher) == SectionHistory(b, t, sec, teacher)
  {
    var x, y := SectionHistory(a, t, sec, teacher), SectionHistory(b, t, sec, teacher);
    if x.Ok? {
      assert x.value.Keys == y.value.Keys;
      forall s | s in x.value
        ensures x.value[s] == y.value[s]
      {
        CountsAgree(a, b, t, s, {Present, OverriddenPresent});
        CountsAgree(a, b, t, s, {Absent, OverriddenAbsent});
      }
      assert x.value == y.value;
    }
  }

  ghost predicate Listed(db: Db, t: CollegeId, p: Pair) {
    db.SeesEnrollment(t, p) && db.SeesSection(t, p.section) && db.CourseVisible(t, p.section)
  }

  lemma ListedAgree(a: Db, b: Db, t: CollegeId, p: Pair)
    requires SameReference(a, b, t)
    ensures Listed(a, t, p) <==> Listed(b, t, p)
  {
  }

  lemma CoursesAgree(a: Db, b: Db, t: CollegeId, student: UserId)
    requires SameReference(a, b, t) && SameAggregates(a.aggregates, b.aggregates, t)
    ensures StudentCourses(a, t, student) == StudentCourses(b, t, student)
  {
    var x, y := StudentCourses(a, t, student), StudentCourses(b, t, student);
    forall sec
      ensures sec in x <==> sec in y
      ensures sec in x ==> x[sec] == y[sec]
    {
      ListedAgree(a, b, t, Pair(student, sec));
      assert sec in x <==> Listed(a, t, Pair(student, sec));
      assert sec in y <==> Listed(b, t, Pair(student, sec));
    }
  }

  /** After any run every roster, history and course list of t is the one of the run without the other colleges. */
  lemma ViewsIgnoreOtherColleges(w: World, acts: seq<Action>, t: CollegeId, sid: SessionId, sec: SectionId, reader: UserId)
    requires Sound(w) && OwnRun(w, acts, t)
    ensures var a, b := Run(w, acts).db, Run(w, Purge(w, acts, t)).db;
      && SessionRoster(a, t, sid, reader) == SessionRoster(b, t, sid, reader)
      && SectionHistory(a, t, sec, reader) == SectionHistory(b, t, sec, reader)
      && StudentCourses(a, t, reader) == StudentCourses(b, t, reader)
  {
    OtherCollegesNeverMatter(w, acts, t);
    var a, b := Run(w, acts).db, Run(w, Purge(w, acts, t)).db;
    RostersAgree(a, b, t, sid, reader);
    HistoriesAgree(a, b, t, sec, reader);
    CoursesAgree(a, b, t, reader);
  }
}
