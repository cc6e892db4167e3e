/** Teacher overrides and the read models built from the records. */
module AttendanceService {
  import opened Prelude
  import opened Tables
  import opened Worlds
  import opened Stores

  function OverrideStatus(status: string): Option<Status> {
    if status == "overridden_present" then Some(OverriddenPresent)
    else if status == "overridden_absent" then Some(OverriddenAbsent)
    else None
  }

  /** An override keeps the attempt the record already points to. */
  function OverriddenRecord(db: Db, t: CollegeId, key: RecordKey, status: Status, now: nat): Record {
    if key in db.records then db.records[key].(status := status, recordedAt := now) else Record(t, status, now, None)
  }

  /** The record with its new status, the override row beside it, and the event owed for it. */
  ghost function Overridden(w: World, t: CollegeId, teacher: UserId, key: RecordKey, status: Status, reason: string): World
    requires key.session in w.db.sessions
  {
    w.(db := w.db.(records := w.db.records[key := OverriddenRecord(w.db, t, key, status, w.now)],
                   overrides := w.db.overrides + [Override(t, key, teacher, reason, w.now)]),
       pending := w.pending
                  + multiset{Event(key, key.session, key.student, t, w.db.sessions[key.session].section, status, w.now)})
  }

  ghost function OverrideEffect(w: World, t: CollegeId, teacher: UserId, sid: SessionId, student: UserId,
                                status: string, reason: string): Effect<World, Result<Status>>
  {
    var parsed := OverrideStatus(status);
    var key := RecordKey(sid, student);
    if parsed.None? then Effect(w, Err(BadRequest))
    else if !w.db.Teaches(t, teacher, sid) then Effect(w, Err(NotFound))
    else if student !in w.db.users || (key in w.db.records && w.db.records[key].college != t) then Effect(w, Err(StoreError))
    else
      Effect(Overridden(w, t, teacher, key, parsed.value, reason), Ok(parsed.value))
  }

  method SubmitOverride(store: Store, t: CollegeId, teacher: UserId, sid: SessionId, student: UserId,
                        status: string, reason: string) returns (r: Result<Status>)
    modifies store
    ensures Effect(store.State(), r) == OverrideEffect(old(store.State()), t, teacher, sid, student, status, reason)
  {
    if status != "overridden_present" && status != "overridden_absent" {
      return Err(BadRequest);
    }
    var outcome := OverrideStatus(status).value;
    var tx := store.db;
    if !tx.Teaches(t, teacher, sid) {
      return Err(NotFound);
    }
    var sec := tx.sessions[sid].section;
    var key := RecordKey(sid, student);
    if student !in tx.users {
      return Err(StoreError);
    }
    if key in tx.records {
      if tx.records[key].college != t {
        return Err(StoreError);
      }
      tx := tx.(records := tx.records[key := tx.records[key].(status := outcome, recordedAt := store.now)]);
    } else {
      tx := tx.(records := tx.records[key := Record(t, outcome, store.now, None)]);
    }
    tx := tx.(overrides := tx.overrides + [Override(t, key, teacher, reason, store.now)]);

    store.db := tx;
    store.pending := store.pending + multiset{Event(key, sid, student, t, sec, outcome, store.now)};
    r := Ok(outcome);
  }

  // ----- read models -----

  datatype RosterStatus = Pending | Recorded(status: Status)

  /** The roster of a session: every enrolled student with the recorded status, or pending. */
  function SessionRoster(db: Db, t: CollegeId, sid: SessionId, teacher: UserId): Result<map<UserId, RosterStatus>> {
    if !(db.SeesSession(t, sid) && db.SeesSection(t, db.sessions[sid].section)) then Err(NotFound)
    else if db.sections[db.sessions[sid].section].teacher != teacher then Err(Forbidden)
    else
      Ok(map st | st in db.Enrolled(t, db.sessions[sid].section) && st in db.users && db.users[st].college == t ::
        if db.SeesRecord(t, RecordKey(sid, st)) then Recorded(db.records[RecordKey(sid, st)].status) else Pending)
  }

  datatype HistoryRow = HistoryRow(present: nat, absent: nat)

  /** One row a session of the section with its present and absent counts. */
  function SectionHistory(db: Db, t: CollegeId, sec: SectionId, teacher: UserId): Result<map<SessionId, HistoryRow>> {
    if !db.SeesSection(t, sec) then Err(NotFound)
    else if db.sections[sec].teacher != teacher then Err(Forbidden)
    else
      Ok(map s | s in db.sessions && db.SeesSession(t, s) && db.sessions[s].section == sec ::
        HistoryRow(|db.WithStatus(t, s, {Present, OverriddenPresent})|, |db.WithStatus(t, s, {Absent, OverriddenAbsent})|))
  }

  datatype CourseRow = CourseRow(present: nat, total: nat, hundredths: int)

  /** The courses of a student with the stored aggregate, or zeros where there is none. */
  function StudentCourses(db: Db, t: CollegeId, student: UserId): map<SectionId, CourseRow> {
    map sec | sec in db.sections && db.SeesEnrollment(t, Pair(student, sec)) && db.SeesSection(t, sec) && db.CourseVisible(t, sec) ::
      var p := Pair(student, sec);
      if p in db.aggregates && db.aggregates[p].college == t
        then CourseRow(db.aggregates[p].present, db.aggregates[p].total, db.aggregates[p].hundredths)
        else CourseRow(0, 0, 0)
  }
}
