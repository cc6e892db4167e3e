/**
 The PostgreSQL tables as maps keyed by their primary or unique keys, and the queries the
 services run on them. A transaction runs under one college: row-level security lets it see
 exactly the rows whose college column is that college, so every query takes the college `t`.
 */
module Tables {
  import opened Prelude

  type CollegeId = nat
  type UserId = nat
  type CourseId = nat
  type SectionId = nat
  type SessionId = nat
  type AttemptId = nat

  /** |x| in units of 1/scale, rounded half away from zero. */
  function Rounded(x: real, scale: real): int {
    ((if x < 0.0 then -x else x) * scale + 0.5).Floor
  }

  predicate StorableDegrees(x: real) {
    Rounded(x, 1_000_000.0) < 1_000_000_000
  }

  /** A nullable latitude, longitude and radius. */
  datatype Geo = Geo(lat: Option<real>, lng: Option<real>, radius: Option<real>) {
    predicate Full() {
      lat.Some? && lng.Some? && radius.Some?
    }

    /** The values NUMERIC(9,6) and NUMERIC(6,2) can hold. */
    predicate Storable() {
      && (lat.Some? ==> StorableDegrees(lat.value))
      && (lng.Some? ==> StorableDegrees(lng.value))
      && (radius.Some? ==> Rounded(radius.value, 100.0) < 1_000_000)
    }
  }

  /** Great-circle distance of two points; its trigonometry is not part of this model. */
  type Metric = (real, real, real, real) -> real

  /** The verification policy JSON: absent or non-positive numbers fall back to 3. */
  datatype Policy = Policy(nRequired: Option<int>, maxAttempts: Option<int>) {
    function Required(): nat {
      if nRequired.Some? && 0 < nRequired.value then nRequired.value else 3
    }

    function Attempts(): (n: nat)
      ensures 0 < n
    {
      if maxAttempts.Some? && 0 < maxAttempts.value then maxAttempts.value else 3
    }
  }

  function CountTrue(a: bool, b: bool, c: bool): nat {
    (if a then 1 else 0) + (if b then 1 else 0) + (if c then 1 else 0)
  }

  datatype Role = Student | Teacher | Admin
  datatype User = User(college: CollegeId, role: Role)
  datatype Course = Course(college: CollegeId, threshold: Option<real>)
  datatype Section = Section(college: CollegeId, course: CourseId, teacher: UserId, bssid: Option<string>, fence: Geo)
  datatype Session = Session(college: CollegeId, section: SectionId, startedBy: UserId, startedAt: nat,
                             endedAt: Option<nat>, code: string, codeUpdatedAt: nat, fence: Geo)
  datatype Attempt = Attempt(id: AttemptId, college: CollegeId, session: SessionId, student: UserId, at: nat,
                             codeMatch: bool, bssidMatch: bool, geoMatch: bool, reason: Option<string>) {
    predicate Accepted() {
      reason.None?
    }

    function Signals(): nat {
      CountTrue(codeMatch, bssidMatch, geoMatch)
    }
  }

  datatype Status = Present | Absent | OverriddenPresent | OverriddenAbsent {
    predicate CountsPresent() {
      Present? || OverriddenPresent?
    }
  }

  /** attendance_records is unique on (session, student) and never loses a row, so the key names the row. */
  datatype RecordKey = RecordKey(session: SessionId, student: UserId)
  datatype Record = Record(college: CollegeId, status: Status, recordedAt: nat, attempt: Option<AttemptId>)
  datatype Override = Override(college: CollegeId, record: RecordKey, overriddenBy: UserId, reason: string, at: nat)

  datatype Pair = Pair(student: UserId, section: SectionId)
  /** attendance_pct is NUMERIC(5,2), kept here as its number of hundredths. */
  datatype Aggregate = Aggregate(college: CollegeId, present: nat, total: nat, hundredths: int, at: nat)

  datatype Db = Db(
    colleges: map<CollegeId, Policy>,
    users: map<UserId, User>,
    courses: map<CourseId, Course>,
    sections: map<SectionId, Section>,
    enrollments: map<Pair, CollegeId>,
    sessions: map<SessionId, Session>,
    attempts: seq<Attempt>,
    records: map<RecordKey, Record>,
    overrides: seq<Override>,
    aggregates: map<Pair, Aggregate>)
  {
    predicate SeesSection(t: CollegeId, sec: SectionId) {
      sec in sections && sections[sec].college == t
    }

    predicate SeesSession(t: CollegeId, sid: SessionId) {
      sid in sessions && sessions[sid].college == t
    }

    predicate SeesRecord(t: CollegeId, k: RecordKey) {
      k in records && records[k].college == t
    }

    predicate SeesEnrollment(t: CollegeId, p: Pair) {
      p in enrollments && enrollments[p] == t
    }

    /** The section's course row is visible to the section's college. */
    predicate CourseVisible(t: CollegeId, sec: SectionId)
      requires sec in sections
    {
      sections[sec].course in courses && courses[sections[sec].course].college == t
    }

    /** The session joined to a section taught by the teacher. */
    predicate Teaches(t: CollegeId, teacher: UserId, sid: SessionId) {
      SeesSession(t, sid) && SeesSection(t, sessions[sid].section) && sections[sessions[sid].section].teacher == teacher
    }

    function OpenSessions(t: CollegeId, sec: SectionId): set<SessionId> {
      set s | s in sessions && SeesSession(t, s) && sessions[s].section == sec && sessions[s].endedAt.None?
    }

    function EndedSessions(t: CollegeId, sec: SectionId): set<SessionId> {
      set s | s in sessions && SeesSession(t, s) && sessions[s].section == sec && sessions[s].endedAt.Some?
    }

    function Enrolled(t: CollegeId, sec: SectionId): set<UserId> {
      set p | p in enrollments && enrollments[p] == t && p.section == sec :: p.student
    }

    /** Open sessions of the sections the student is enrolled in. */
    predicate MayCheckInto(t: CollegeId, student: UserId, s: SessionId) {
      && SeesSession(t, s) && sessions[s].endedAt.None?
      && SeesSection(t, sessions[s].section) && SeesEnrollment(t, Pair(student, sessions[s].section))
    }

    function Candidates(t: CollegeId, student: UserId): set<SessionId> {
      set s | s in sessions && MayCheckInto(t, student, s)
    }

    predicate InSection(t: CollegeId, k: RecordKey, sec: SectionId) {
      SeesRecord(t, k) && SeesSession(t, k.session) && sessions[k.session].section == sec
    }

    /** The records an aggregate counts as present. */
    function PresentRecords(t: CollegeId, p: Pair): set<RecordKey> {
      set k | k in records && InSection(t, k, p.section) && k.student == p.student && records[k].status.CountsPresent()
    }

    function WithStatus(t: CollegeId, sid: SessionId, wanted: set<Status>): set<RecordKey> {
      set k | k in records && SeesRecord(t, k) && k.session == sid && records[k].status in wanted
    }
  }

  const EMPTY_DB := Db(map[], map[], map[], map[], map[], map[], [], map[], [], map[])
}
