/** Student check-in: three signals against the college's N-of-3 policy, with a failed-attempt limiter. */
module VerificationService {
  import opened Prelude
  import opened Tables
  import opened Worlds
  import opened Stores

  datatype Verdict = Accepted | Rejected(reason: string)

  const RATE_LIMITED := "rate limit exceeded: too many failed check-in attempts for this session"
  const ALREADY_IN := "already checked in for this session"
  const BAD_CODE := "invalid or expired class code"
  const BAD_WIFI := "not connected to the classroom Wi-Fi network"
  const BAD_PLACE := "outside the classroom geofence boundary"
  const TOO_FEW := "insufficient validation signals"

  /** What the student's device submits. */
  datatype Submission = Submission(code: string, bssid: string, lat: real, lng: real)

  // ----- the three signals -----

  /** The submitted code is the live code or the live previous code. */
  ghost predicate CodeMatches(w: World, sid: SessionId, code: string) {
    && code != ""
    && ((Live(w.codes, sid, w.now) && w.codes[sid].value == code) || (Live(w.prevs, sid, w.now) && w.prevs[sid].value == code))
  }

  predicate BssidMatches(section: Section, bssid: string) {
    section.bssid.Some? && section.bssid.value != "" ==> bssid == section.bssid.value
  }

  /** A complete session override replaces the section's geofence; an incomplete target checks nothing. */
  predicate GeoMatches(metric: Metric, section: Section, session: Session, lat: real, lng: real) {
    var target := if session.fence.Full() then session.fence else section.fence;
    target.Full() ==> metric(lat, lng, target.lat.value, target.lng.value) <= target.radius.value
  }

  /** None when enough signals hold; otherwise the first missing signal. */
  function Judge(required: nat, codeMatch: bool, bssidMatch: bool, geoMatch: bool): Option<string> {
    if required <= CountTrue(codeMatch, bssidMatch, geoMatch) then None
    else if !codeMatch then Some(BAD_CODE)
    else if !bssidMatch then Some(BAD_WIFI)
    else if !geoMatch then Some(BAD_PLACE)
    else Some(TOO_FEW)
  }

  ghost function AttemptOf(w: World, t: CollegeId, student: UserId, sub: Submission, sid: SessionId, aid: AttemptId): Attempt
    requires t in w.db.colleges && w.db.MayCheckInto(t, student, sid)
  {
    var session := w.db.sessions[sid];
    var section := w.db.sections[session.section];
    var c, b, g := CodeMatches(w, sid, sub.code), BssidMatches(section, sub.bssid),
                   GeoMatches(w.metric, section, session, sub.lat, sub.lng);
    Attempt(aid, t, sid, student, w.now, c, b, g, Judge(w.db.colleges[t].Required(), c, b, g))
  }

  // ----- what a check-in does -----

  ghost predicate RateLimited(w: World, t: CollegeId, key: RecordKey)
    requires t in w.db.colleges
  {
    Live(w.rates, key, w.now) && w.db.colleges[t].Attempts() <= w.rates[key].value
  }

  ghost predicate AlreadyIn(db: Db, t: CollegeId, key: RecordKey) {
    db.SeesRecord(t, key) && db.records[key].status.Present?
  }

  /** The attempt row, and for an acceptance the record row, can be written. */
  ghost predicate Writable(db: Db, t: CollegeId, key: RecordKey, sub: Submission, accepted: bool) {
    StorableDegrees(sub.lat) && StorableDegrees(sub.lng) && (accepted && key in db.records ==> db.records[key].college == t)
  }

  ghost function LoggedDb(db: Db, t: CollegeId, a: Attempt): Db {
    db.(attempts := db.attempts + [a],
        records := if a.Accepted() then db.records[RecordKey(a.session, a.student) := Record(t, Present, a.at, Some(a.id))]
                   else db.records)
  }

  /** An acceptance deletes the failure counter; a rejection increments it and restarts its expiry. */
  ghost function RatesAfter(rates: map<RecordKey, Entry<nat>>, a: Attempt): map<RecordKey, Entry<nat>> {
    var key := RecordKey(a.session, a.student);
    if a.Accepted() then rates - {key}
    else rates[key := Entry((if Live(rates, key, a.at) then rates[key].value else 0) + 1, a.at + RATE_TTL)]
  }

  ghost function PresenceOwed(t: CollegeId, sec: SectionId, a: Attempt): multiset<Event> {
    if a.Accepted()
      then multiset{Event(RecordKey(a.session, a.student), a.session, a.student, t, sec, Present, a.at)} else multiset{}
  }

  /** A logged attempt: the row itself, and the record and event of an acceptance or the failure count. */
  ghost function Logged(w: World, t: CollegeId, a: Attempt): World
    requires a.session in w.db.sessions
  {
    w.(db := LoggedDb(w.db, t, a), rates := RatesAfter(w.rates, a),
       pending := w.pending + PresenceOwed(t, w.db.sessions[a.session].section, a))
  }

  /** The check-in is judged and logged, or its transaction fails. */
  ghost function VerifyEffect(w: World, t: CollegeId, student: UserId, sub: Submission, sid: SessionId, aid: AttemptId)
    : Effect<World, Result<Verdict>>
    requires t in w.db.colleges && w.db.MayCheckInto(t, student, sid)
  {
    var a := AttemptOf(w, t, student, sub, sid, aid);
    if !Writable(w.db, t, RecordKey(sid, student), sub, a.Accepted()) then Effect(w, Err(StoreError))
    else Effect(Logged(w, t, a), Ok(if a.Accepted() then Accepted else Rejected(a.reason.value)))
  }

  /** `pick` is the open session the LIMIT 1 query returns, `aid` the generated attempt id. */
  ghost function CheckinEffect(w: World, t: CollegeId, student: UserId, sub: Submission, pick: SessionId, aid: AttemptId)
    : Effect<World, Result<Verdict>>
  {
    if t !in w.db.colleges then Effect(w, Err(StoreError))
    else if w.db.Candidates(t, student) == {} || !w.db.MayCheckInto(t, student, pick) then Effect(w, Err(NotFound))
    else
      var key := RecordKey(pick, student);
      if RateLimited(w, t, key) then Effect(w, Ok(Rejected(RATE_LIMITED)))
      else if AlreadyIn(w.db, t, key) then Effect(w, Ok(Rejected(ALREADY_IN)))
      else VerifyEffect(w, t, student, sub, pick, aid)
  }

  /** Compares the submission with the live codes, the classroom network and the geofence. */
  method Evaluate(store: Store, policy: Policy, t: CollegeId, student: UserId, sub: Submission, sid: SessionId, aid: AttemptId)
    returns (row: Attempt)
    requires t in store.db.colleges && store.db.colleges[t] == policy && store.db.MayCheckInto(t, student, sid)
    ensures row == AttemptOf(store.State(), t, student, sub, sid, aid)
  {
    var session := store.db.sessions[sid];
    var section := store.db.sections[session.section];
    var activeCode := if Live(store.codes, sid, store.now) then store.codes[sid].value else "";
    var prevCode := if Live(store.prevs, sid, store.now) then store.prevs[sid].value else "";
    var codeMatch := (sub.code == activeCode && activeCode != "") || (sub.code == prevCode && prevCode != "");

    var bssidMatch := true;
    if section.bssid.Some? && section.bssid.value != "" {
      bssidMatch := sub.bssid == section.bssid.value;
    }

    var geoMatch := true;
    var target := section.fence;
    if session.fence.Full() {
      target := session.fence;
    }
    if target.Full() {
      geoMatch := store.metric(sub.lat, sub.lng, target.lat.value, target.lng.value) <= target.radius.value;
    }

    var matched := 0;
    if codeMatch { matched := matched + 1; }
    if bssidMatch { matched := matched + 1; }
    if geoMatch { matched := matched + 1; }
    var reason: Option<string> := None;
    if matched < policy.Required() {
      reason := Some(TOO_FEW);
      if !codeMatch {
        reason := Some(BAD_CODE);
      } else if !bssidMatch {
        reason := Some(BAD_WIFI);
      } else if !geoMatch {
        reason := Some(BAD_PLACE);
      }
    }

    row := Attempt(aid, t, sid, student, store.now, codeMatch, bssidMatch, geoMatch, reason);
  }

  method SaveAcceptance(store: Store, t: CollegeId, row: Attempt)
    requires row.session in store.db.sessions && row.at == store.now && row.reason.None?
    modifies store
    ensures store.State() == Logged(old(store.State()), t, row)
  {
    var key, tx := RecordKey(row.session, row.student), store.db;
    tx := tx.(attempts := tx.attempts + [row]);
    tx := tx.(records := tx.records[key := Record(t, Present, store.now, Some(row.id))]);

    store.db := tx;
    store.rates := store.rates - {key};
    store.pending := store.pending
    + multiset{Event(key, row.session, row.student, t, tx.sessions[row.session].section, Present, store.now)};
  }

  method SaveRejection(store: Store, t: CollegeId, row: Attempt)
    requires row.session in store.db.sessions && row.at == store.now && row.reason.Some?
    modifies store
    ensures store.State() == Logged(old(store.State()), t, row)
  {
    var key, tx := RecordKey(row.session, row.student), store.db;
    tx := tx.(attempts := tx.attempts + [row]);

    assert store.pending + multiset{} == store.pending;
    store.db := tx;
    var count := (if Live(store.rates, key, store.now) then store.rates[key].value else 0) + 1;
    store.rates := store.rates[key := Entry(count, store.now + RATE_TTL)];
  }

  /** The attempt and record rows and, once committed, the failure counter and the event. */
  method SaveAttempt(store: Store, t: CollegeId, row: Attempt)
    requires row.session in store.db.sessions && row.at == store.now
    modifies store
    ensures store.State() == Logged(old(store.State()), t, row)
  {
    if row.reason.None? {
      SaveAcceptance(store, t, row);
    } else {
      SaveRejection(store, t, row);
    }
  }

  /** What turns a check-in away before it is looked at. */
  method Refusal(store: Store, policy: Policy, t: CollegeId, key: RecordKey) returns (reason: Option<string>)
    requires t in store.db.colleges && store.db.colleges[t] == policy
    ensures reason == if RateLimited(store.State(), t, key) then Some(RATE_LIMITED)
                      else if AlreadyIn(store.db, t, key) then Some(ALREADY_IN) else None
  {
    if Live(store.rates, key, store.now) {
      var attempts := store.rates[key].value;
      if attempts >= policy.Attempts() {
        return Some(RATE_LIMITED);
      }
    }
    if store.db.SeesRecord(t, key) && store.db.records[key].status.Present? {
      return Some(ALREADY_IN);
    }
    reason := None;
  }

  /** Judges the submission and writes what follows from the verdict. */
  method Verify(store: Store, policy: Policy, t: CollegeId, student: UserId, sub: Submission, sid: SessionId, aid: AttemptId)
    returns (r: Result<Verdict>)
    requires t in store.db.colleges && store.db.colleges[t] == policy && store.db.MayCheckInto(t, student, sid)
    modifies store
    ensures Effect(store.State(), r) == VerifyEffect(old(store.State()), t, student, sub, sid, aid)
  {
    var tx, key := store.db, RecordKey(sid, student);
    var row := Evaluate(store, policy, t, student, sub, sid, aid);

    if !StorableDegrees(sub.lat) || !StorableDegrees(sub.lng) {
      return Err(StoreError);
    }
    if row.reason.None? && key in tx.records && tx.records[key].college != t {
      return Err(StoreError);
    }
    SaveAttempt(store, t, row);
    r := Ok(if row.reason.None? then Accepted else Rejected(row.reason.value));
  }

  /** The database generates an id no attempt has. */
  method NewAttemptId(attempts: seq<Attempt>) returns (id: AttemptId)
    ensures forall a :: a in attempts ==> a.id != id
  {
    var used := set a | a in attempts :: a.id;
    FreshExists(used);
    id :| id !in used;
    assert forall a :: a in attempts ==> a.id in used;
  }

  method SubmitCheckin(store: Store, t: CollegeId, student: UserId, sub: Submission)
    returns (r: Result<Verdict>, ghost pick: SessionId, ghost aid: AttemptId)
    modifies store
    ensures forall a :: a in old(store.db.attempts) ==> a.id != aid
    ensures old(store.db.Candidates(t, student)) != {} ==> pick in old(store.db.Candidates(t, student))
    ensures Effect(store.State(), r) == CheckinEffect(old(store.State()), t, student, sub, pick, aid)
  {
    var tx := store.db;
    var attemptId := NewAttemptId(tx.attempts);
    pick, aid := 0, attemptId;

    if t !in tx.colleges {
      if tx.Candidates(t, student) != {} {
        pick :| pick in tx.Candidates(t, student);
      }
      return Err(StoreError), pick, aid;
    }
    var policy := tx.colleges[t];
    var candidates := tx.Candidates(t, student);
    if candidates == {} {
      return Err(NotFound), pick, aid;
    }
    var sid :| sid in candidates;
    pick := sid;
    var key := RecordKey(sid, student);

    var refusal := Refusal(store, policy, t, key);
    if refusal.Some? {
      return Ok(Rejected(refusal.value)), pick, aid;
    }

    r := Verify(store, policy, t, student, sub, sid, attemptId);
  }
}
