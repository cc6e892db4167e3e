/**
 What a teacher is answered and what is written, for every state, in terms of the tables' own columns: who may open,
 see and close a session, and what a NUMERIC column can hold.
 */
module SessionAnswers {
  import opened Prelude
  import opened Tables
  import opened Worlds
  import opened SessionService
  import opened Consistency

  // ----- the numeric columns -----

  /** NUMERIC(9,6) holds what rounds to three digits before the point, NUMERIC(6,2) what rounds to four. */
  lemma StorableIff(x: real)
    ensures StorableDegrees(x) <==> -999.999_999_5 < x < 999.999_999_5
    ensures Rounded(x, 100.0) < 1_000_000 <==> -9_999.995 < x < 9_999.995
  {
  }

  /** Every latitude and longitude on Earth can be stored. */
  lemma EarthIsStorable(x: real)
    requires -180.0 <= x <= 180.0
    ensures StorableDegrees(x)
  {
  }

  predicate FitsDegrees(x: Option<real>) {
    x.Some? ==> -999.999_999_5 < x.value < 999.999_999_5
  }

  predicate FitsMetres(x: Option<real>) {
    x.Some? ==> -9_999.995 < x.value < 9_999.995
  }

  lemma FenceStorableIff(fence: Geo)
    ensures fence.Storable() <==> FitsDegrees(fence.lat) && FitsDegrees(fence.lng) && FitsMetres(fence.radius)
  {
    if fence.lat.Some? { StorableIff(fence.lat.value); }
    if fence.lng.Some? { StorableIff(fence.lng.value); }
    if fence.radius.Some? { StorableIff(fence.radius.value); }
  }

  // ----- opening -----

  /** Opening succeeds for the section's own teacher, with no session running there and a fence the columns can hold. */
  lemma StartAnswer(w: World, t: CollegeId, teacher: UserId, sec: SectionId, fence: Geo, sid: SessionId, code: string)
    ensures var mine := sec in w.db.sections && w.db.sections[sec].college == t && w.db.sections[sec].teacher == teacher;
      var running := exists s :: s in w.db.sessions && w.db.sessions[s].college == t
                       && w.db.sessions[s].section == sec && w.db.sessions[s].endedAt == None;
      var fits := FitsDegrees(fence.lat) && FitsDegrees(fence.lng) && FitsMetres(fence.radius);
      StartEffect(w, t, teacher, sec, fence, sid, code).outcome
      == if !mine then Err(NotFound) else if running then Err(Conflict) else if !fits then Err(StoreError)
         else Ok(Started(sid, code, 10))
  {
    FenceStorableIff(fence);
    if s :| s in w.db.sessions && w.db.sessions[s].college == t && w.db.sessions[s].section == sec && w.db.sessions[s].endedAt == None {
      assert s in w.db.OpenSessions(t, sec);
    } else {
      assert w.db.OpenSessions(t, sec) == {};
    }
  }

  /** Opening writes one row and one key good for ten seconds; a refusal writes nothing. */
  lemma StartWrites(w: World, t: CollegeId, teacher: UserId, sec: SectionId, fence: Geo, sid: SessionId, code: string)
    ensures var e := StartEffect(w, t, teacher, sec, fence, sid, code);
      if e.outcome.Ok? then
        && e.world.db == w.db.(sessions := w.db.sessions[sid := Session(t, sec, teacher, w.now, None, code, w.now, fence)])
        && e.world.codes == w.codes[sid := Entry(code, w.now + 10)] && e.world.active == w.active + 1
        && e.world == w.(db := e.world.db, codes := e.world.codes, active := e.world.active, issued := e.world.issued)
      else e.world == w
  {
  }

  // ----- the code -----

  /** The session is running and its section is taught by the teacher. */
  predicate TeachesRunning(db: Db, t: CollegeId, teacher: UserId, sid: SessionId) {
    && sid in db.sessions && db.sessions[sid].college == t && db.sessions[sid].endedAt == None
    && db.sessions[sid].section in db.sections && db.sections[db.sessions[sid].section].college == t
    && db.sections[db.sessions[sid].section].teacher == teacher
  }

  /** Only the teacher of a running session is shown a code: the cached one while its key lives, else the drawn one. */
  lemma RotateAnswer(w: World, t: CollegeId, teacher: UserId, sid: SessionId, drawn: string)
    ensures var cached := sid in w.codes && w.now < w.codes[sid].expiry;
      RotateEffect(w, t, teacher, sid, drawn).outcome
      == if !TeachesRunning(w.db, t, teacher, sid) then Err(NotFound)
         else if cached then Ok(Shown(w.codes[sid].value, w.codes[sid].expiry - w.now)) else Ok(Shown(drawn, 10))
  {
  }

  /** Without a live key the drawn code goes to the row and its key, the row's old code to the key beside it. */
  lemma RotateWrites(w: World, t: CollegeId, teacher: UserId, sid: SessionId, drawn: string)
    ensures var w' := RotateEffect(w, t, teacher, sid, drawn).world;
      if TeachesRunning(w.db, t, teacher, sid) && !(sid in w.codes && w.now < w.codes[sid].expiry) then
        && w'.db == w.db.(sessions := w.db.sessions[sid := w.db.sessions[sid].(code := drawn, codeUpdatedAt := w.now)])
        && w'.codes == w.codes[sid := Entry(drawn, w.now + 10)]
        && w'.prevs == w.prevs[sid := Entry(w.db.sessions[sid].code, w.now + 10)]
        && w' == w.(db := w'.db, codes := w'.codes, prevs := w'.prevs, issued := w'.issued)
      else w' == w
  {
  }

  // ----- closing -----

  /** Closing succeeds exactly for the teacher of a running session; a second closing is a conflict. */
  lemma EndAnswer(w: World, t: CollegeId, teacher: UserId, sid: SessionId)
    requires Linked(w.db)
    ensures var o := EndEffect(w, t, teacher, sid).outcome;
      var mine := sid in w.db.sessions && w.db.sessions[sid].college == t
                  && w.db.sections[w.db.sessions[sid].section].teacher == teacher;
      && (o.Ok? <==> mine && w.db.sessions[sid].endedAt == None)
      && (o == Err(Conflict) <==> mine && w.db.sessions[sid].endedAt != None)
      && (o == Err(NotFound) <==> !mine)
      && (o.Err? ==> EndEffect(w, t, teacher, sid).world == w)
  {
    if w.db.SeesSession(t, sid) {
      NeverBlocked(w.db, t, sid);
    }
  }

  /** The student is enrolled in the section under the college and has no record of the session. */
  predicate Missing(db: Db, t: CollegeId, sec: SectionId, k: RecordKey) {
    Pair(k.student, sec) in db.enrollments && db.enrollments[Pair(k.student, sec)] == t && k !in db.records
  }

  lemma AbsenteeIff(db: Db, t: CollegeId, sid: SessionId, st: UserId)
    requires Linked(db) && db.SeesSession(t, sid)
    ensures st in Absentees(db, t, sid, db.Enrolled(t, db.sessions[sid].section))
       <==> Missing(db, t, db.sessions[sid].section, RecordKey(sid, st))
  {
  }

  /** Closing adds one absent record for each enrolled student without one, and changes no other record. */
  lemma EndWritesRecords(w: World, t: CollegeId, teacher: UserId, sid: SessionId, k: RecordKey)
    requires Linked(w.db) && EndEffect(w, t, teacher, sid).outcome.Ok?
    ensures var db := EndEffect(w, t, teacher, sid).world.db;
      if k.session == sid && Missing(w.db, t, w.db.sessions[sid].section, k)
      then k in db.records && db.records[k] == Record(t, Absent, w.now, None)
      else (k in db.records <==> k in w.db.records) && (k in w.db.records ==> db.records[k] == w.db.records[k])
  {
    AbsenteeIff(w.db, t, sid, k.student);
  }

  /** It owes one event for each of them and none else. */
  lemma EndOwes(w: World, t: CollegeId, teacher: UserId, sid: SessionId, e: Event)
    requires Linked(w.db) && EndEffect(w, t, teacher, sid).outcome.Ok?
    ensures var sec := w.db.sessions[sid].section;
      EndEffect(w, t, teacher, sid).world.pending[e] - w.pending[e]
      == if Missing(w.db, t, sec, RecordKey(sid, e.student))
            && e == Event(RecordKey(sid, e.student), sid, e.student, t, sec, Absent, w.now) then 1 else 0
  {
    var sec := w.db.sessions[sid].section;
    var absent := Absentees(w.db, t, sid, w.db.Enrolled(t, sec));
    AbsenteeIff(w.db, t, sid, e.student);
    assert e in AbsentEvents(t, sec, sid, w.now, absent)
      <==> e.student in absent && e == RecordedEvent(t, sec, RecordKey(sid, e.student), Absent, w.now);
  }

  /** The rest of a closing: the end time, both keys gone, one active session less. */
  lemma EndWrites(w: World, t: CollegeId, teacher: UserId, sid: SessionId)
    requires EndEffect(w, t, teacher, sid).outcome.Ok?
    ensures var w' := EndEffect(w, t, teacher, sid).world;
      && w'.db == w.db.(records := w'.db.records, sessions := w.db.sessions[sid := w.db.sessions[sid].(endedAt := Some(w.now))])
      && w'.codes == w.codes - {sid} && w'.prevs == w.prevs - {sid} && w'.active == w.active - 1
      && w' == w.(db := w'.db, codes := w'.codes, prevs := w'.prevs, active := w'.active, pending := w'.pending)
  {
  }
}
