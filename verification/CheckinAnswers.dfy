/**
 What a student is answered and what is written, for every state, in terms of the tables' own columns, the Redis
 keys and the texts of the answers.
 */
module CheckinAnswers {
  import opened Prelude
  import opened Tables
  import opened Worlds
  import opened VerificationService
  import opened SessionAnswers

  // ----- the policy -----

  function SignalsNeeded(p: Policy): int {
    if p.nRequired.Some? && p.nRequired.value >= 1 then p.nRequired.value else 3
  }

  function FailuresAllowed(p: Policy): int {
    if p.maxAttempts.Some? && p.maxAttempts.value >= 1 then p.maxAttempts.value else 3
  }

  /** Without a positive number in the policy three signals are required and three attempts allowed. */
  lemma PolicyDefaults(p: Policy)
    ensures p.Required() == SignalsNeeded(p) && p.Attempts() == FailuresAllowed(p)
    ensures p == Policy(None, None) ==> p.Required() == 3 && p.Attempts() == 3
  {
  }

  // ----- who is looked at -----

  /** A running session of a section the student is enrolled in, all under the college. */
  predicate Joins(db: Db, t: CollegeId, student: UserId, s: SessionId) {
    && s in db.sessions && db.sessions[s].college == t && db.sessions[s].endedAt == None
    && db.sessions[s].section in db.sections && db.sections[db.sessions[s].section].college == t
    && Pair(student, db.sessions[s].section) in db.enrollments && db.enrollments[Pair(student, db.sessions[s].section)] == t
  }

  lemma JoinsIff(db: Db, t: CollegeId, student: UserId, s: SessionId)
    ensures db.MayCheckInto(t, student, s) <==> Joins(db, t, student, s)
    ensures s in db.Candidates(t, student) <==> Joins(db, t, student, s)
  {
  }

  /** The failure counter is live and has reached what the policy allows. */
  predicate LockedOut(w: World, t: CollegeId, k: RecordKey)
    requires t in w.db.colleges
  {
    k in w.rates && w.now < w.rates[k].expiry && w.rates[k].value >= FailuresAllowed(w.db.colleges[t])
  }

  predicate MarkedPresent(db: Db, t: CollegeId, k: RecordKey) {
    k in db.records && db.records[k].college == t && db.records[k].status == Present
  }

  /** The check-in is compared with the session: it joins one, is not locked out and not already present. */
  predicate Judged(w: World, t: CollegeId, student: UserId, s: SessionId) {
    && t in w.db.colleges && Joins(w.db, t, student, s)
    && !LockedOut(w, t, RecordKey(s, student)) && !MarkedPresent(w.db, t, RecordKey(s, student))
  }

  /** The answers before anything is compared; none of them writes. */
  lemma AnswerUnjudged(w: World, t: CollegeId, student: UserId, sub: Submission, s: SessionId, aid: AttemptId)
    requires !Judged(w, t, student, s)
    ensures var e := CheckinEffect(w, t, student, sub, s, aid);
      && e.world == w
      && e.outcome
         == if t !in w.db.colleges then Err(StoreError)
            else if !Joins(w.db, t, student, s) then Err(NotFound)
            else if LockedOut(w, t, RecordKey(s, student))
              then Ok(Rejected("rate limit exceeded: too many failed check-in attempts for this session"))
            else Ok(Rejected("already checked in for this session"))
  {
    JoinsIff(w.db, t, student, s);
  }

  // ----- the three signals -----

  predicate CodeFits(w: World, s: SessionId, code: string) {
    && code != ""
    && ((s in w.codes && w.now < w.codes[s].expiry && code == w.codes[s].value)
        || (s in w.prevs && w.now < w.prevs[s].expiry && code == w.prevs[s].value))
  }

  /** The section names no network, or the one submitted. */
  predicate NetworkFits(section: Section, bssid: string) {
    section.bssid == None || section.bssid == Some("") || section.bssid == Some(bssid)
  }

  function Distance(metric: Metric, sub: Submission, lat: real, lng: real): real {
    metric(sub.lat, sub.lng, lat, lng)
  }

  /** Inside the session's fence if that is complete, else inside the section's if that is complete, else anywhere. */
  predicate PlaceFits(metric: Metric, mine: Geo, rooms: Geo, sub: Submission) {
    match mine
    case Geo(Some(lat), Some(lng), Some(radius)) => Distance(metric, sub, lat, lng) <= radius
    case _ =>
      match rooms
      case Geo(Some(lat), Some(lng), Some(radius)) => Distance(metric, sub, lat, lng) <= radius
      case _ => true
  }

  lemma PlaceFitsIff(metric: Metric, section: Section, session: Session, sub: Submission)
    ensures GeoMatches(metric, section, session, sub.lat, sub.lng) <==> PlaceFits(metric, session.fence, section.fence, sub)
  {
  }

  /** The flags a judged attempt carries, and whose attempt it is. */
  lemma AttemptFlags(w: World, t: CollegeId, student: UserId, sub: Submission, s: SessionId, aid: AttemptId)
    requires Judged(w, t, student, s) && w.db.MayCheckInto(t, student, s)
    ensures var a := AttemptOf(w, t, student, sub, s, aid);
      var session := w.db.sessions[s];
      var section := w.db.sections[session.section];
      && a.id == aid && a.college == t && a.session == s && a.student == student && a.at == w.now
      && (a.codeMatch <==> CodeFits(w, s, sub.code))
      && (a.bssidMatch <==> NetworkFits(section, sub.bssid))
      && (a.geoMatch <==> PlaceFits(w.metric, session.fence, section.fence, sub))
  {
    PlaceFitsIff(w.metric, w.db.sections[w.db.sessions[s].section], w.db.sessions[s], sub);
  }

  // ----- the verdict -----

  function One(b: bool): int {
    if b then 1 else 0
  }

  /** How many signals of the submission hold. */
  function Held(w: World, s: SessionId, sub: Submission): int
    requires s in w.db.sessions && w.db.sessions[s].section in w.db.sections
  {
    var session := w.db.sessions[s];
    var section := w.db.sections[session.section];
    One(CodeFits(w, s, sub.code)) + One(NetworkFits(section, sub.bssid))
    + One(PlaceFits(w.metric, session.fence, section.fence, sub))
  }

  lemma DifferentReasons()
    ensures var r := ["invalid or expired class code", "not connected to the classroom Wi-Fi network",
                      "outside the classroom geofence boundary", "insufficient validation signals"];
      forall i, j :: 0 <= i < j < 4 ==> r[i] != r[j]
  {
    assert "invalid or expired class code"[0] == 'i' && "invalid or expired class code"[2] == 'v';
    assert "not connected to the classroom Wi-Fi network"[0] == 'n';
    assert "outside the classroom geofence boundary"[0] == 'o';
    assert "insufficient validation signals"[0] == 'i' && "insufficient validation signals"[2] == 's';
  }

  /** Each reason is given for exactly its condition. */
  lemma ReasonIff(w: World, t: CollegeId, student: UserId, sub: Submission, s: SessionId, aid: AttemptId)
    requires Judged(w, t, student, s) && w.db.MayCheckInto(t, student, s)
    ensures var reason := AttemptOf(w, t, student, sub, s, aid).reason;
      var session := w.db.sessions[s];
      var code, network, place := CodeFits(w, s, sub.code), NetworkFits(w.db.sections[session.section], sub.bssid),
                                  PlaceFits(w.metric, session.fence, w.db.sections[session.section].fence, sub);
      var short := Held(w, s, sub) < SignalsNeeded(w.db.colleges[t]);
      && (reason == None <==> !short)
      && (reason == Some("invalid or expired class code") <==> short && !code)
      && (reason == Some("not connected to the classroom Wi-Fi network") <==> short && code && !network)
      && (reason == Some("outside the classroom geofence boundary") <==> short && code && network && !place)
      && (reason == Some("insufficient validation signals") <==> short && code && network && place)
  {
    AttemptFlags(w, t, student, sub, s, aid);
    DifferentReasons();
  }

  /** The attempt row fits its columns, and an acceptance does not meet a record of another college. */
  predicate Recordable(db: Db, t: CollegeId, k: RecordKey, sub: Submission, accepted: bool) {
    && -999.999_999_5 < sub.lat < 999.999_999_5 && -999.999_999_5 < sub.lng < 999.999_999_5
    && (accepted && k in db.records ==> db.records[k].college == t)
  }

  /** A judged check-in is accepted exactly with enough signals; otherwise its reason is the first signal missing. */
  lemma AnswerJudged(w: World, t: CollegeId, student: UserId, sub: Submission, s: SessionId, aid: AttemptId)
    requires Judged(w, t, student, s)
    ensures var o := CheckinEffect(w, t, student, sub, s, aid).outcome;
      var session := w.db.sessions[s];
      var code, network, place := CodeFits(w, s, sub.code), NetworkFits(w.db.sections[session.section], sub.bssid),
                                  PlaceFits(w.metric, session.fence, w.db.sections[session.section].fence, sub);
      var accepted := Held(w, s, sub) >= SignalsNeeded(w.db.colleges[t]);
      o == if !Recordable(w.db, t, RecordKey(s, student), sub, accepted) then Err(StoreError)
           else if accepted then Ok(Accepted)
           else if !code then Ok(Rejected("invalid or expired class code"))
           else if !network then Ok(Rejected("not connected to the classroom Wi-Fi network"))
           else if !place then Ok(Rejected("outside the classroom geofence boundary"))
           else Ok(Rejected("insufficient validation signals"))
  {
    JoinsIff(w.db, t, student, s);
    ReasonIff(w, t, student, sub, s, aid);
    StorableIff(sub.lat);
    StorableIff(sub.lng);
  }

  // ----- what is written -----

  function CountedFailures(w: World, k: RecordKey): nat {
    if k in w.rates && w.now < w.rates[k].expiry then w.rates[k].value else 0
  }

  lemma LoggedState(w: World, t: CollegeId, student: UserId, sub: Submission, s: SessionId, aid: AttemptId)
    requires Judged(w, t, student, s) && CheckinEffect(w, t, student, sub, s, aid).outcome.Ok?
    ensures w.db.MayCheckInto(t, student, s)
    ensures CheckinEffect(w, t, student, sub, s, aid).world == Logged(w, t, AttemptOf(w, t, student, sub, s, aid))
    ensures AttemptOf(w, t, student, sub, s, aid).Accepted() <==> CheckinEffect(w, t, student, sub, s, aid).outcome.value.Accepted?
  {
    JoinsIff(w.db, t, student, s);
  }

  /** An acceptance logs the attempt, points the record to it, clears the counter and owes one event. */
  lemma AcceptanceWrites(w: World, t: CollegeId, student: UserId, sub: Submission, s: SessionId, aid: AttemptId)
    requires Judged(w, t, student, s) && CheckinEffect(w, t, student, sub, s, aid).outcome == Ok(Accepted)
    ensures w.db.MayCheckInto(t, student, s)
    ensures var w', k := CheckinEffect(w, t, student, sub, s, aid).world, RecordKey(s, student);
      && w'.db == w.db.(attempts := w.db.attempts + [AttemptOf(w, t, student, sub, s, aid)],
                        records := w.db.records[k := Record(t, Present, w.now, Some(aid))])
      && w'.rates == w.rates - {k}
      && w'.pending == w.pending + multiset{Event(k, s, student, t, w.db.sessions[s].section, Present, w.now)}
      && w' == w.(db := w'.db, rates := w'.rates, pending := w'.pending)
  {
    LoggedState(w, t, student, sub, s, aid);
  }

  /** A rejection logs the attempt and counts it for fifteen minutes; no record, no event. */
  lemma RejectionWrites(w: World, t: CollegeId, student: UserId, sub: Submission, s: SessionId, aid: AttemptId)
    requires Judged(w, t, student, s) && CheckinEffect(w, t, student, sub, s, aid).outcome.Ok?
    requires CheckinEffect(w, t, student, sub, s, aid).outcome.value != Accepted
    ensures w.db.MayCheckInto(t, student, s)
    ensures var w', k := CheckinEffect(w, t, student, sub, s, aid).world, RecordKey(s, student);
      && w'.db == w.db.(attempts := w.db.attempts + [AttemptOf(w, t, student, sub, s, aid)])
      && w'.rates == w.rates[k := Entry(CountedFailures(w, k) + 1, w.now + 900)]
      && w' == w.(db := w'.db, rates := w'.rates)
  {
    LoggedState(w, t, student, sub, s, aid);
    assert w.pending + multiset{} == w.pending;
  }

  /** A failed write leaves everything as it was. */
  lemma FailureWritesNothing(w: World, t: CollegeId, student: UserId, sub: Submission, s: SessionId, aid: AttemptId)
    requires CheckinEffect(w, t, student, sub, s, aid).outcome.Err?
    ensures CheckinEffect(w, t, student, sub, s, aid).world == w
  {
  }
}
