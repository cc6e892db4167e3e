/**
 Tenant isolation as a two-run property: what one college sees and is told depends on its own rows only, so a run
 and the same run without every other college's actions look the same to it.
 */
module NonInterference {
  import opened Prelude
  import opened Tables
  import opened Worlds
  import opened SessionService
  import opened VerificationService
  import opened AttendanceService
  import opened ReportingService
  import opened Runs
  import opened Changes
  import opened Consistency
  import opened AggregateCache
  import opened AggregateRuns
  import opened Tenancy

  /** The three keys of one session. */
  datatype Codes = Codes(code: Option<Entry<string>>, prev: Option<Entry<string>>, history: Option<seq<Issue>>)

  ghost function CodesOf(w: World, s: SessionId): Codes {
    Codes(Lookup(w.codes, s), Lookup(w.prevs, s), Lookup(w.issued, s))
  }

  ghost predicate SameCodeKeys(v: World, w: World, s: SessionId) {
    CodesOf(v, s) == CodesOf(w, s)
  }

  ghost predicate SameRate(v: World, w: World, k: RecordKey) {
    Lookup(v.rates, k) == Lookup(w.rates, k)
  }

  /** The Redis keys of t's sessions. */
  ghost predicate SameKeys(v: World, w: World, t: CollegeId) {
    && (forall s :: v.db.SeesSession(t, s) ==> SameCodeKeys(v, w, s))
    && (forall k: RecordKey :: v.db.SeesSession(t, k.session) ==> SameRate(v, w, k))
  }

  /** The messages of t. */
  ghost predicate SameMessages(v: World, w: World, t: CollegeId) {
    && (forall e: Event :: e.college == t ==>
          v.pending[e] == w.pending[e] && v.unread[e] == w.unread[e] && (e in v.log <==> e in w.log))
    && (forall al: Alert :: al.college == t ==> v.alerts[al] == w.alerts[al])
  }

  /** Everything college t can observe is the same. */
  ghost predicate Agree(v: World, w: World, t: CollegeId) {
    && v.now == w.now && v.metric == w.metric
    && SameRows(v.db, w.db, t) && SameKeys(v, w, t) && SameMessages(v, w, t)
  }

  /** Keys exist only for existing sessions. */
  ghost predicate Scoped(w: World) {
    && (forall s :: s in w.codes || s in w.prevs || s in w.issued ==> s in w.db.sessions)
    && (forall k :: k in w.rates ==> k.session in w.db.sessions)
  }

  ghost predicate Sound(w: World) {
    CacheInv(w) && Scoped(w)
  }

  lemma CheckinScoped(w: World, a: Action)
    requires Scoped(w) && Possible(w, a) && a.Checkin?
    ensures Scoped(Step(w, a))
  {
    CheckinLogs(w, a.t, a.student, a.sub, a.pick, a.aid);
  }

  lemma SessionScoped(w: World, a: Action)
    requires Scoped(w) && Possible(w, a) && (a.Start? || a.Rotate? || a.End?)
    ensures Scoped(Step(w, a))
  {
  }

  lemma OtherScoped(w: World, a: Action)
    requires Scoped(w) && !(a.Start? || a.Rotate? || a.End? || a.Checkin?)
    ensures Scoped(Step(w, a))
  {
  }

  lemma StepSound(w: World, a: Action)
    requires Sound(w)
    ensures Sound(Step(w, a))
  {
    StepCacheInv(w, a);
    if Possible(w, a) {
      if a.Start? || a.Rotate? || a.End? { SessionScoped(w, a); }
      else if a.Checkin? { CheckinScoped(w, a); }
      else { OtherScoped(w, a); }
    }
  }

  lemma {:induction false} RunSound(metric: Metric, acts: seq<Action>)
    ensures Sound(Run(Genesis(metric), acts))
    decreases |acts|
  {
    if acts == [] {
      GenesisCacheInv(metric);
    } else {
      RunSound(metric, acts[..|acts| - 1]);
      StepSound(Run(Genesis(metric), acts[..|acts| - 1]), acts[|acts| - 1]);
    }
  }

  /** The college under which the action's transaction runs. */
  function Actor(a: Action): Option<CollegeId> {
    match a
    case Tick(_) => None
    case AddCollege(t, _) => Some(t)
    case AddUser(t, _, _) => Some(t)
    case AddCourse(t, _, _) => Some(t)
    case AddSection(t, _, _) => Some(t)
    case Enroll(t, _, _) => Some(t)
    case Start(t, _, _, _, _, _) => Some(t)
    case Rotate(t, _, _, _) => Some(t)
    case End(t, _, _) => Some(t)
    case Checkin(t, _, _, _, _) => Some(t)
    case Correct(t, _, _, _, _, _) => Some(t)
    case Publish(e) => Some(e.college)
    case Consume(e) => Some(e.college)
  }

  /** The action is t's own or the clock's. */
  predicate Own(a: Action, t: CollegeId) {
    Actor(a).None? || Actor(a) == Some(t)
  }

  lemma ActorWrites(w: World, a: Action)
    requires Legal(w.db, ChangeOf(w, a)) && !ChangeOf(w, a).Nothing?
    ensures Writer(w.db, ChangeOf(w, a)) == Actor(a)
  {
  }

  // ----- what the other colleges do is invisible -----

  lemma EmitsUnderWriter(db: Db, c: Change, e: Event)
    requires Legal(db, c) && e in Emits(db, c)
    ensures Writer(db, c) == Some(e.college)
  {
  }

  lemma ForeignDelivery(w: World, a: Action, t: CollegeId)
    requires (a.Publish? || a.Consume?) && a.e.college != t
    ensures SameMessages(w, Step(w, a), t)
  {
  }

  lemma ForeignEmission(w: World, a: Action, t: CollegeId, e: Event)
    requires Legal(w.db, ChangeOf(w, a)) && Actor(a) != Some(t) && e.college == t
    ensures Emits(w.db, ChangeOf(w, a))[e] == 0
  {
    if e in Emits(w.db, ChangeOf(w, a)) {
      EmitsUnderWriter(w.db, ChangeOf(w, a), e);
      ActorWrites(w, a);
    }
  }

  lemma MoreOfOthers(v: World, w: World, more: multiset<Event>, t: CollegeId)
    requires w.pending == v.pending + more && w.unread == v.unread && w.log == v.log && w.alerts == v.alerts
    requires forall e: Event :: e.college == t ==> more[e] == 0
    ensures SameMessages(v, w, t)
  {
  }

  lemma ForeignMessages(w: World, a: Action, t: CollegeId)
    requires Legal(w.db, ChangeOf(w, a)) && Actor(a) != Some(t)
    ensures SameMessages(w, Step(w, a), t)
  {
    if a.Publish? || a.Consume? {
      ForeignDelivery(w, a, t);
    } else {
      StepBus(w, a);
      StepAlerts(w, a);
      forall e: Event | e.college == t
        ensures Emits(w.db, ChangeOf(w, a))[e] == 0
      {
        ForeignEmission(w, a, t, e);
      }
      MoreOfOthers(w, Step(w, a), Emits(w.db, ChangeOf(w, a)), t);
    }
  }

  ghost predicate KeysUnchanged(v: World, w: World) {
    v.codes == w.codes && v.prevs == w.prevs && v.issued == w.issued && v.rates == w.rates
  }

  /** Rotating or ending a session the college does not see changes nothing. */
  lemma ForeignTarget(w: World, a: Action)
    requires (a.Rotate? || a.End?) && !w.db.SeesSession(a.t, a.sid)
    ensures Step(w, a) == w
  {
  }

  /** The rate keys and all keys of other sessions are not the business of the session operations. */
  lemma StartLookups(w: World, a: Action, s: SessionId, k: RecordKey)
    requires a.Start? && Possible(w, a)
    ensures SameRate(Step(w, a), w, k) && (s != a.sid ==> SameCodeKeys(Step(w, a), w, s))
  {
  }

  lemma RotateLookups(w: World, a: Action, s: SessionId, k: RecordKey)
    requires a.Rotate?
    ensures SameRate(Step(w, a), w, k) && (s != a.sid ==> SameCodeKeys(Step(w, a), w, s))
  {
  }

  lemma EndLookups(w: World, a: Action, s: SessionId, k: RecordKey)
    requires a.End?
    ensures SameRate(Step(w, a), w, k) && (s != a.sid ==> SameCodeKeys(Step(w, a), w, s))
  {
  }

  lemma SessionLookups(w: World, a: Action, s: SessionId, k: RecordKey)
    requires Possible(w, a) && (a.Start? || a.Rotate? || a.End?)
    ensures SameRate(Step(w, a), w, k) && (s != a.sid ==> SameCodeKeys(Step(w, a), w, s))
  {
    if a.Start? { StartLookups(w, a, s, k); }
    else if a.Rotate? { RotateLookups(w, a, s, k); }
    else { EndLookups(w, a, s, k); }
  }

  lemma ForeignSession(w: World, a: Action, t: CollegeId)
    requires Possible(w, a) && (a.Start? || a.Rotate? || a.End?) && a.t != t
    ensures SameKeys(w, Step(w, a), t)
  {
    forall s | w.db.SeesSession(t, s)
      ensures SameCodeKeys(w, Step(w, a), s)
    {
      if s != a.sid {
        SessionLookups(w, a, s, RecordKey(s, 0));
      } else {
        ForeignTarget(w, a);
      }
    }
    forall k: RecordKey | w.db.SeesSession(t, k.session)
      ensures SameRate(w, Step(w, a), k)
    {
      SessionLookups(w, a, k.session, k);
    }
  }

  lemma LoggedKeys(w: World, t: CollegeId, a: Attempt)
    requires a.session in w.db.sessions
    ensures var w' := Logged(w, t, a);
      && w'.codes == w.codes && w'.prevs == w.prevs && w'.issued == w.issued && w'.db.sessions == w.db.sessions
      && forall k :: k != RecordKey(a.session, a.student) ==> Lookup(w'.rates, k) == Lookup(w.rates, k)
  {
  }

  lemma ForeignCheckinKeys(w: World, a: Action, t: CollegeId)
    requires Possible(w, a) && a.Checkin? && a.t != t
    ensures SameKeys(w, Step(w, a), t)
  {
    CheckinLogs(w, a.t, a.student, a.sub, a.pick, a.aid);
    if Logs(w, a.t, a.student, a.sub, a.pick, a.aid) {
      LoggedKeys(w, a.t, AttemptOf(w, a.t, a.student, a.sub, a.pick, a.aid));
    }
  }

  lemma OverriddenKeys(w: World, t: CollegeId, teacher: UserId, key: RecordKey, status: Status, reason: string)
    requires key.session in w.db.sessions
    ensures KeysUnchanged(w, Overridden(w, t, teacher, key, status, reason))
  {
  }

  lemma CorrectKeys(w: World, a: Action)
    requires a.Correct?
    ensures KeysUnchanged(w, Step(w, a))
  {
    var key := RecordKey(a.sid, a.student);
    if OverrideEffect(w, a.t, a.teacher, a.sid, a.student, a.status, a.reason).outcome.Ok? {
      OverriddenKeys(w, a.t, a.teacher, key, OverrideStatus(a.status).value, a.reason);
      assert Step(w, a) == Overridden(w, a.t, a.teacher, key, OverrideStatus(a.status).value, a.reason);
    } else {
      assert Step(w, a) == w;
    }
  }

  lemma ConsumeKeys(w: World, e: Event)
    ensures KeysUnchanged(w, ConsumeEffect(w, e))
  {
  }

  lemma PublishKeys(w: World, e: Event)
    ensures KeysUnchanged(w, PublishEffect(w, e))
  {
  }

  lemma DeliveryKeys(w: World, a: Action)
    requires a.Publish? || a.Consume?
    ensures KeysUnchanged(w, Step(w, a))
  {
    if a.Consume? {
      ConsumeKeys(w, a.e);
      assert Step(w, a) == w || Step(w, a) == ConsumeEffect(w, a.e);
    } else {
      PublishKeys(w, a.e);
      assert Step(w, a) == w || Step(w, a) == PublishEffect(w, a.e);
    }
  }

  lemma OtherKeys(w: World, a: Action)
    requires !(a.Start? || a.Rotate? || a.End? || a.Checkin?)
    ensures KeysUnchanged(w, Step(w, a))
  {
    if a.Correct? { CorrectKeys(w, a); }
    else if a.Publish? || a.Consume? { DeliveryKeys(w, a); }
  }

  lemma ForeignKeys(w: World, a: Action, t: CollegeId)
    requires Actor(a) != Some(t)
    ensures SameKeys(w, Step(w, a), t)
  {
    if Possible(w, a) {
      if a.Start? || a.Rotate? || a.End? { ForeignSession(w, a, t); }
      else if a.Checkin? { ForeignCheckinKeys(w, a, t); }
      else { OtherKeys(w, a); }
    }
  }

  lemma StepNow(w: World, a: Action)
    ensures Step(w, a).metric == w.metric
    ensures Step(w, a).now == w.now + (if a.Tick? then a.seconds else 0)
  {
    if a.Checkin? && Possible(w, a) {
      CheckinLogs(w, a.t, a.student, a.sub, a.pick, a.aid);
    }
  }

  /** No action of another college changes a row, key or message of t. */
  lemma OthersInvisible(w: World, a: Action, t: CollegeId)
    requires Sound(w) && Actor(a).Some? && Actor(a) != Some(t)
    ensures Agree(w, Step(w, a), t)
  {
    StepChanges(w, a);
    StepNow(w, a);
    ForeignMessages(w, a, t);
    if !ChangeOf(w, a).Nothing? {
      ActorWrites(w, a);
    }
    OtherCollegesKept(w.db, ChangeOf(w, a), t);
    ForeignKeys(w, a, t);
  }

  // ----- what t does depends on t's rows -----

  lemma StartAgrees(v: World, w: World, t: CollegeId, teacher: UserId, sec: SectionId, fence: Geo, sid: SessionId, code: string)
    requires Agree(v, w, t)
    ensures StartEffect(v, t, teacher, sec, fence, sid, code).outcome == StartEffect(w, t, teacher, sec, fence, sid, code).outcome
  {
    SessionQueriesAgree(v.db, w.db, t, sec);
  }

  lemma RotateAgrees(v: World, w: World, t: CollegeId, teacher: UserId, sid: SessionId, code: string)
    requires Agree(v, w, t)
    ensures RotateEffect(v, t, teacher, sid, code).outcome == RotateEffect(w, t, teacher, sid, code).outcome
    ensures v.db.Teaches(t, teacher, sid) ==> (Live(v.codes, sid, v.now) <==> Live(w.codes, sid, w.now))
  {
    TeachesAgree(v.db, w.db, t, teacher, sid);
    if v.db.Teaches(t, teacher, sid) {
      assert SameCodeKeys(v, w, sid);
    }
  }

  lemma ClosedAgree(a: Db, b: Db, t: CollegeId, sid: SessionId, now: nat)
    requires Linked(a) && Linked(b) && SameRows(a, b, t) && a.SeesSession(t, sid)
    ensures b.SeesSession(t, sid) && SameRecords(ClosedDb(a, t, sid, now).records, ClosedDb(b, t, sid, now).records, t)
  {
    EnrolledAgree(a, b, t, a.sessions[sid].section);
    AbsenteesAgree(a, b, t, sid, a.Enrolled(t, a.sessions[sid].section));
  }

  lemma EndAgrees(v: World, w: World, t: CollegeId, teacher: UserId, sid: SessionId)
    requires Agree(v, w, t) && Linked(v.db) && Linked(w.db)
    ensures EndEffect(v, t, teacher, sid).outcome == EndEffect(w, t, teacher, sid).outcome
  {
    TeachesAgree(v.db, w.db, t, teacher, sid);
    if v.db.Teaches(t, teacher, sid) {
      NeverBlocked(v.db, t, sid);
      NeverBlocked(w.db, t, sid);
      ClosedAgree(v.db, w.db, t, sid, v.now);
      SummaryAgrees(ClosedDb(v.db, t, sid, v.now), ClosedDb(w.db, t, sid, v.now), t, sid);
    }
  }

  lemma AttemptAgrees(v: World, w: World, t: CollegeId, student: UserId, sub: Submission, sid: SessionId, aid: AttemptId)
    requires Agree(v, w, t) && t in v.db.colleges && v.db.MayCheckInto(t, student, sid)
    ensures t in w.db.colleges && w.db.MayCheckInto(t, student, sid)
    ensures AttemptOf(v, t, student, sub, sid, aid) == AttemptOf(w, t, student, sub, sid, aid)
  {
    assert SameCodeKeys(v, w, sid);
  }

  lemma GuardsAgree(v: World, w: World, t: CollegeId, key: RecordKey, sub: Submission, accepted: bool)
    requires Agree(v, w, t) && Linked(v.db) && Linked(w.db)
    requires t in v.db.colleges && t in w.db.colleges && v.db.SeesSession(t, key.session)
    ensures RateLimited(v, t, key) <==> RateLimited(w, t, key)
    ensures AlreadyIn(v.db, t, key) <==> AlreadyIn(w.db, t, key)
    ensures Writable(v.db, t, key, sub, accepted) <==> Writable(w.db, t, key, sub, accepted)
  {
    assert SameRate(v, w, key);
    assert key in v.db.records ==> v.db.records[key].college == t;
    assert key in w.db.records ==> w.db.records[key].college == t;
  }

  lemma CheckinAgrees(v: World, w: World, t: CollegeId, student: UserId, sub: Submission, pick: SessionId, aid: AttemptId)
    requires Agree(v, w, t) && Linked(v.db) && Linked(w.db)
    ensures CheckinEffect(v, t, student, sub, pick, aid).outcome == CheckinEffect(w, t, student, sub, pick, aid).outcome
    ensures Logs(v, t, student, sub, pick, aid) <==> Logs(w, t, student, sub, pick, aid)
  {
    CandidatesAgree(v.db, w.db, t, student);
    if t in v.db.colleges && v.db.MayCheckInto(t, student, pick) {
      AttemptAgrees(v, w, t, student, sub, pick, aid);
      GuardsAgree(v, w, t, RecordKey(pick, student), sub, AttemptOf(v, t, student, sub, pick, aid).Accepted());
    }
  }

  /** Another college's rows show here: whether the overridden student id exists at all. */
  lemma OverrideAgrees(v: World, w: World, t: CollegeId, teacher: UserId, sid: SessionId, student: UserId,
                       status: string, reason: string)
    requires Agree(v, w, t) && Linked(v.db) && Linked(w.db)
    ensures var a, b := OverrideEffect(v, t, teacher, sid, student, status, reason).outcome,
                        OverrideEffect(w, t, teacher, sid, student, status, reason).outcome;
      a == b
      <==> !(OverrideStatus(status).Some? && v.db.Teaches(t, teacher, sid))
           || (student in v.db.users <==> student in w.db.users)
  {
    TeachesAgree(v.db, w.db, t, teacher, sid);
    if v.db.Teaches(t, teacher, sid) {
      var key := RecordKey(sid, student);
      assert key in v.db.records ==> v.db.records[key].college == t;
      assert key in w.db.records ==> w.db.records[key].college == t;
    }
  }

  /** For arbitrary arguments a refresh depends on the same: whether the student id exists at all. */
  lemma RefreshAgrees(v: World, w: World, t: CollegeId, p: Pair)
    requires Agree(v, w, t) && Consistent(v.db) && Consistent(w.db)
    ensures RefreshEffect(v, t, p).outcome == RefreshEffect(w, t, p).outcome
       <==> !(v.db.SeesSection(t, p.section) && v.db.CourseVisible(t, p.section))
            || (p.student in v.db.users <==> p.student in w.db.users)
  {
    RefreshableIff(v.db, t, p);
    RefreshableIff(w.db, t, p);
  }

  /** No delivered message lets it show: the refresh it asks for has the same outcome. */
  lemma DeliveredRefreshAgrees(v: World, w: World, t: CollegeId, e: Event)
    requires Agree(v, w, t) && Sound(v) && Sound(w) && e.college == t && e in v.log
    ensures RefreshEffect(v, t, e.Target()).outcome == RefreshEffect(w, t, e.Target()).outcome
  {
    assert OnBus(v, e) && OnBus(w, e);
    RefreshAgrees(v, w, t, e.Target());
  }

  // ----- one step of t from two agreeing worlds -----

  /** An override that gets as far as its student does not name another college's. */
  ghost predicate OwnStudent(db: Db, a: Action, t: CollegeId) {
    a.Correct? && OverrideStatus(a.status).Some? && db.Teaches(t, a.teacher, a.sid) && a.student in db.users
    ==> db.users[a.student].college == t
  }

  lemma OwnStudentExists(v: World, w: World, a: Action, t: CollegeId)
    requires Agree(v, w, t) && OwnStudent(v.db, a, t) && OwnStudent(w.db, a, t)
    requires a.Correct? && OverrideStatus(a.status).Some? && v.db.Teaches(t, a.teacher, a.sid)
    ensures a.student in v.db.users <==> a.student in w.db.users
  {
    TeachesAgree(v.db, w.db, t, a.teacher, a.sid);
  }

  lemma SessionChangeAgrees(v: World, w: World, a: Action, t: CollegeId)
    requires Agree(v, w, t) && Linked(v.db) && Linked(w.db) && Actor(a) == Some(t) && Possible(v, a) && Possible(w, a)
    requires a.Start? || a.Rotate? || a.End?
    ensures ChangeOf(v, a) == ChangeOf(w, a)
  {
    if a.Start? { StartAgrees(v, w, t, a.teacher, a.sec, a.fence, a.sid, a.code); }
    else if a.Rotate? { RotateAgrees(v, w, t, a.teacher, a.sid, a.code); }
    else { EndAgrees(v, w, t, a.teacher, a.sid); }
  }

  lemma CheckinChangeAgrees(v: World, w: World, a: Action, t: CollegeId)
    requires Agree(v, w, t) && Linked(v.db) && Linked(w.db) && Actor(a) == Some(t) && Possible(v, a) && Possible(w, a)
    requires a.Checkin?
    ensures ChangeOf(v, a) == ChangeOf(w, a)
  {
    CheckinAgrees(v, w, t, a.student, a.sub, a.pick, a.aid);
    if Logs(v, t, a.student, a.sub, a.pick, a.aid) {
      AttemptAgrees(v, w, t, a.student, a.sub, a.pick, a.aid);
    }
  }

  lemma OtherChangeAgrees(v: World, w: World, a: Action, t: CollegeId)
    requires Agree(v, w, t) && Sound(v) && Sound(w) && Possible(v, a) && Possible(w, a)
    requires OwnStudent(v.db, a, t) && OwnStudent(w.db, a, t)
    requires Own(a, t)
    requires !(a.Start? || a.Rotate? || a.End? || a.Checkin?)
    ensures ChangeOf(v, a) == ChangeOf(w, a)
  {
    if a.Correct? {
      if OverrideStatus(a.status).Some? && v.db.Teaches(t, a.teacher, a.sid) {
        OwnStudentExists(v, w, a, t);
      }
      OverrideAgrees(v, w, t, a.teacher, a.sid, a.student, a.status, a.reason);
    } else if a.Consume? {
      assert OnBus(v, a.e) && OnBus(w, a.e);
      RefreshableAgrees(v.db, w.db, t, a.e.Target());
      RecountAgrees(v.db, w.db, t, a.e.Target(), v.now);
    }
  }

  lemma ChangeAgrees(v: World, w: World, a: Action, t: CollegeId)
    requires Agree(v, w, t) && Sound(v) && Sound(w) && Possible(v, a) && Possible(w, a)
    requires OwnStudent(v.db, a, t) && OwnStudent(w.db, a, t)
    requires Own(a, t)
    ensures ChangeOf(v, a) == ChangeOf(w, a)
  {
    if a.Start? || a.Rotate? || a.End? { SessionChangeAgrees(v, w, a, t); }
    else if a.Checkin? { CheckinChangeAgrees(v, w, a, t); }
    else { OtherChangeAgrees(v, w, a, t); }
  }

  lemma EmitsAgree(a: Db, b: Db, c: Change, t: CollegeId)
    requires SameRows(a, b, t) && Legal(a, c) && Legal(b, c)
    requires c.Nothing? || (Writer(a, c) == Some(t) && Writer(b, c) == Some(t))
    ensures Emits(a, c) == Emits(b, c)
  {
    if c.Close? {
      EnrolledAgree(a, b, t, a.sessions[c.sid].section);
      AbsenteesAgree(a, b, t, c.sid, a.Enrolled(t, a.sessions[c.sid].section));
    }
  }

  lemma AlertsAgree(v: World, w: World, t: CollegeId, p: Pair)
    requires Agree(v, w, t) && Linked(v.db) && Linked(w.db) && (p.student in v.db.users <==> p.student in w.db.users)
    ensures AlertsOf(v.db, t, p) == AlertsOf(w.db, t, p)
  {
    RefreshableAgrees(v.db, w.db, t, p);
    RecountAgrees(v.db, w.db, t, p, 0);
  }

  lemma SameEmission(v: World, w: World, v': World, w': World, more: multiset<Event>, t: CollegeId)
    requires SameMessages(v, w, t)
    requires v'.pending == v.pending + more && v'.unread == v.unread && v'.log == v.log && v'.alerts == v.alerts
    requires w'.pending == w.pending + more && w'.unread == w.unread && w'.log == w.log && w'.alerts == w.alerts
    ensures SameMessages(v', w', t)
  {
  }

  lemma PublishAgrees(v: World, w: World, e: Event, t: CollegeId)
    requires SameMessages(v, w, t) && e.college == t
    ensures SameMessages(PublishEffect(v, e), PublishEffect(w, e), t)
  {
  }

  lemma SameAfterConsume(v: World, w: World, v': World, w': World, e: Event, more: multiset<Alert>, t: CollegeId)
    requires SameMessages(v, w, t) && e.college == t
    requires v'.pending == v.pending && v'.unread == v.unread - multiset{e} && v'.log == v.log && v'.alerts == v.alerts + more
    requires w'.pending == w.pending && w'.unread == w.unread - multiset{e} && w'.log == w.log && w'.alerts == w.alerts + more
    ensures SameMessages(v', w', t)
  {
  }

  lemma ConsumeAgrees(v: World, w: World, e: Event, t: CollegeId)
    requires Agree(v, w, t) && Sound(v) && Sound(w) && e.college == t && e in v.log
    ensures SameMessages(ConsumeEffect(v, e), ConsumeEffect(w, e), t)
  {
    assert OnBus(v, e) && OnBus(w, e);
    AlertsAgree(v, w, t, e.Target());
    SameAfterConsume(v, w, ConsumeEffect(v, e), ConsumeEffect(w, e), e, AlertsOf(v.db, t, e.Target()), t);
  }

  lemma OwnMessages(v: World, w: World, a: Action, t: CollegeId)
    requires Agree(v, w, t) && Sound(v) && Sound(w) && Possible(v, a) && Possible(w, a)
    requires Own(a, t)
    requires ChangeOf(v, a) == ChangeOf(w, a)
    ensures SameMessages(Step(v, a), Step(w, a), t)
  {
    StepChanges(v, a);
    StepChanges(w, a);
    if a.Publish? || a.Consume? {
      if a.Publish? { PublishAgrees(v, w, a.e, t); } else { ConsumeAgrees(v, w, a.e, t); }
    } else {
      StepBus(v, a);
      StepBus(w, a);
      StepAlerts(v, a);
      StepAlerts(w, a);
      if !ChangeOf(v, a).Nothing? {
        ActorWrites(v, a);
        ActorWrites(w, a);
      }
      EmitsAgree(v.db, w.db, ChangeOf(v, a), t);
      SameEmission(v, w, Step(v, a), Step(w, a), Emits(v.db, ChangeOf(v, a)), t);
    }
  }

  ghost predicate Rotates(w: World, a: Action)
    requires a.Rotate?
  {
    RotateEffect(w, a.t, a.teacher, a.sid, a.code).outcome.Ok? && !Live(w.codes, a.sid, w.now)
  }

  lemma StartCodes(w: World, a: Action)
    requires a.Start? && Possible(w, a)
    ensures CodesOf(Step(w, a), a.sid)
         == if StartEffect(w, a.t, a.teacher, a.sec, a.fence, a.sid, a.code).outcome.Ok?
              then CodesOf(w, a.sid).(code := Some(Entry(a.code, w.now + CODE_TTL)), history := Some([Issue(a.code, w.now)]))
              else CodesOf(w, a.sid)
  {
  }

  lemma RotateCodes(w: World, a: Action)
    requires a.Rotate? && Possible(w, a) && a.sid in w.db.sessions
    ensures CodesOf(Step(w, a), a.sid)
         == if Rotates(w, a)
              then var h := CodesOf(w, a.sid).history;
                Codes(Some(Entry(a.code, w.now + CODE_TTL)), Some(Entry(w.db.sessions[a.sid].code, w.now + CODE_TTL)),
                      Some((if h.Some? then h.value else []) + [Issue(a.code, w.now)]))
              else CodesOf(w, a.sid)
  {
  }

  lemma EndCodes(w: World, a: Action)
    requires a.End?
    ensures CodesOf(Step(w, a), a.sid)
         == if EndEffect(w, a.t, a.teacher, a.sid).outcome.Ok?
              then CodesOf(w, a.sid).(code := None, prev := None) else CodesOf(w, a.sid)
  {
  }

  /** The keys of the session itself after the same operation. */
  lemma StartedKeys(v: World, w: World, a: Action)
    requires a.Start? && Possible(v, a) && Possible(w, a) && v.now == w.now && SameCodeKeys(v, w, a.sid)
    requires StartEffect(v, a.t, a.teacher, a.sec, a.fence, a.sid, a.code).outcome
          == StartEffect(w, a.t, a.teacher, a.sec, a.fence, a.sid, a.code).outcome
    ensures SameCodeKeys(Step(v, a), Step(w, a), a.sid)
  {
    StartCodes(v, a);
    StartCodes(w, a);
  }

  lemma RotatedKeys(v: World, w: World, a: Action)
    requires a.Rotate? && Possible(v, a) && Possible(w, a) && v.now == w.now && SameCodeKeys(v, w, a.sid)
    requires a.sid in v.db.sessions && a.sid in w.db.sessions && v.db.sessions[a.sid] == w.db.sessions[a.sid]
    requires Rotates(v, a) <==> Rotates(w, a)
    ensures SameCodeKeys(Step(v, a), Step(w, a), a.sid)
  {
    RotateCodes(v, a);
    RotateCodes(w, a);
  }

  lemma RotatesAgree(v: World, w: World, a: Action, t: CollegeId)
    requires Agree(v, w, t) && a.Rotate? && a.t == t
    ensures Rotates(v, a) <==> Rotates(w, a)
  {
    RotateAgrees(v, w, t, a.teacher, a.sid, a.code);
  }

  lemma EndedKeys(v: World, w: World, a: Action, t: CollegeId)
    requires Agree(v, w, t) && Linked(v.db) && Linked(w.db) && a.End? && a.t == t && v.db.SeesSession(t, a.sid)
    ensures SameCodeKeys(Step(v, a), Step(w, a), a.sid)
  {
    assert SameCodeKeys(v, w, a.sid);
    EndAgrees(v, w, t, a.teacher, a.sid);
    EndCodes(v, a);
    EndCodes(w, a);
    assert CodesOf(Step(v, a), a.sid) == CodesOf(Step(w, a), a.sid);
  }

  lemma StaysOurs(w: World, a: Action, t: CollegeId, s: SessionId)
    requires Step(w, a).db.SeesSession(t, s) && (a.Start? ==> s != a.sid)
    ensures w.db.SeesSession(t, s)
  {
    StepChanges(w, a);
  }

  lemma UnknownRate(v: World, w: World, k: RecordKey)
    requires Scoped(v) && Scoped(w) && k.session !in v.db.sessions && k.session !in w.db.sessions
    ensures SameRate(v, w, k)
  {
  }

  lemma OwnSessionCodes(v: World, w: World, a: Action, t: CollegeId, s: SessionId)
    requires Agree(v, w, t) && Sound(v) && Sound(w) && Possible(v, a) && Possible(w, a)
    requires (a.Start? || a.Rotate? || a.End?) && a.t == t && Step(v, a).db.SeesSession(t, s)
    ensures SameCodeKeys(Step(v, a), Step(w, a), s)
  {
    if a.Start? && s == a.sid {
      StartAgrees(v, w, t, a.teacher, a.sec, a.fence, a.sid, a.code);
      StartedKeys(v, w, a);
    } else {
      StaysOurs(v, a, t, s);
      if s != a.sid {
        SessionLookups(v, a, s, RecordKey(s, 0));
        SessionLookups(w, a, s, RecordKey(s, 0));
        assert SameCodeKeys(v, w, s);
      } else if a.Rotate? {
        assert SameCodeKeys(v, w, s);
        RotatesAgree(v, w, a, t);
        RotatedKeys(v, w, a);
      } else {
        EndedKeys(v, w, a, t);
      }
    }
  }

  lemma OwnSessionRates(v: World, w: World, a: Action, t: CollegeId, k: RecordKey)
    requires Agree(v, w, t) && Sound(v) && Sound(w) && Possible(v, a) && Possible(w, a)
    requires (a.Start? || a.Rotate? || a.End?) && a.t == t && Step(v, a).db.SeesSession(t, k.session)
    ensures SameRate(Step(v, a), Step(w, a), k)
  {
    SessionLookups(v, a, k.session, k);
    SessionLookups(w, a, k.session, k);
    if a.Start? && k.session == a.sid {
      UnknownRate(v, w, k);
    } else {
      StaysOurs(v, a, t, k.session);
      assert SameRate(v, w, k);
    }
  }

  lemma OwnSessionKeys(v: World, w: World, a: Action, t: CollegeId)
    requires Agree(v, w, t) && Sound(v) && Sound(w) && Possible(v, a) && Possible(w, a)
    requires (a.Start? || a.Rotate? || a.End?) && a.t == t
    ensures SameKeys(Step(v, a), Step(w, a), t)
  {
    forall s | Step(v, a).db.SeesSession(t, s)
      ensures SameCodeKeys(Step(v, a), Step(w, a), s)
    {
      OwnSessionCodes(v, w, a, t, s);
    }
    forall k: RecordKey | Step(v, a).db.SeesSession(t, k.session)
      ensures SameRate(Step(v, a), Step(w, a), k)
    {
      OwnSessionRates(v, w, a, t, k);
    }
  }

  lemma SameLoggedKeys(v: World, w: World, t: CollegeId, x: Attempt)
    requires SameKeys(v, w, t) && v.db.SeesSession(t, x.session) && x.session in w.db.sessions
    ensures SameKeys(Logged(v, t, x), Logged(w, t, x), t)
  {
    var key := RecordKey(x.session, x.student);
    assert SameRate(v, w, key);
    LoggedKeys(v, t, x);
    LoggedKeys(w, t, x);
    forall k: RecordKey | Logged(v, t, x).db.SeesSession(t, k.session)
      ensures SameRate(Logged(v, t, x), Logged(w, t, x), k)
    {
      assert SameRate(v, w, k);
    }
    forall s | Logged(v, t, x).db.SeesSession(t, s)
      ensures SameCodeKeys(Logged(v, t, x), Logged(w, t, x), s)
    {
      assert SameCodeKeys(v, w, s);
    }
  }

  lemma OwnCheckinKeys(v: World, w: World, a: Action, t: CollegeId)
    requires Agree(v, w, t) && Linked(v.db) && Linked(w.db) && Possible(v, a) && Possible(w, a) && a.Checkin? && a.t == t
    ensures SameKeys(Step(v, a), Step(w, a), t)
  {
    CheckinLogs(v, t, a.student, a.sub, a.pick, a.aid);
    CheckinLogs(w, t, a.student, a.sub, a.pick, a.aid);
    CheckinAgrees(v, w, t, a.student, a.sub, a.pick, a.aid);
    if Logs(v, t, a.student, a.sub, a.pick, a.aid) {
      AttemptAgrees(v, w, t, a.student, a.sub, a.pick, a.aid);
      SameLoggedKeys(v, w, t, AttemptOf(v, t, a.student, a.sub, a.pick, a.aid));
    }
  }

  lemma OtherSessionsStay(w: World, a: Action)
    requires !(a.Start? || a.Rotate? || a.End? || a.Checkin?)
    ensures Step(w, a).db.sessions == w.db.sessions
  {
    StepChanges(w, a);
  }

  lemma SameKeysFrame(v: World, w: World, v': World, w': World, t: CollegeId)
    requires SameKeys(v, w, t) && KeysUnchanged(v, v') && KeysUnchanged(w, w') && v'.db.sessions == v.db.sessions
    ensures SameKeys(v', w', t)
  {
    forall s | v'.db.SeesSession(t, s)
      ensures SameCodeKeys(v', w', s)
    {
      assert SameCodeKeys(v, w, s);
    }
    forall k: RecordKey | v'.db.SeesSession(t, k.session)
      ensures SameRate(v', w', k)
    {
      assert SameRate(v, w, k);
    }
  }

  lemma OwnKeys(v: World, w: World, a: Action, t: CollegeId)
    requires Agree(v, w, t) && Sound(v) && Sound(w) && Possible(v, a) && Possible(w, a)
    requires Own(a, t)
    ensures SameKeys(Step(v, a), Step(w, a), t)
  {
    if a.Start? || a.Rotate? || a.End? { OwnSessionKeys(v, w, a, t); }
    else if a.Checkin? { OwnCheckinKeys(v, w, a, t); }
    else {
      OtherKeys(v, a);
      OtherKeys(w, a);
      OtherSessionsStay(v, a);
      SameKeysFrame(v, w, Step(v, a), Step(w, a), t);
    }
  }

  lemma OwnRows(v: World, w: World, a: Action, t: CollegeId)
    requires SameRows(v.db, w.db, t) && Linked(v.db) && Linked(w.db)
    requires Own(a, t)
    requires ChangeOf(v, a) == ChangeOf(w, a)
    ensures SameRows(Step(v, a).db, Step(w, a).db, t)
  {
    StepChanges(v, a);
    StepChanges(w, a);
    if !ChangeOf(v, a).Nothing? {
      ActorWrites(v, a);
      ActorWrites(w, a);
    }
    SameChangeKeepsAgreement(v.db, w.db, ChangeOf(v, a), t);
  }

  /** The same action of t from two worlds t cannot tell apart leads to two worlds t cannot tell apart. */
  lemma OwnStepAgrees(v: World, w: World, a: Action, t: CollegeId)
    requires Agree(v, w, t) && Sound(v) && Sound(w) && Possible(v, a) && Possible(w, a)
    requires OwnStudent(v.db, a, t) && OwnStudent(w.db, a, t)
    requires Own(a, t)
    ensures Agree(Step(v, a), Step(w, a), t)
  {
    ChangeAgrees(v, w, a, t);
    OwnMessages(v, w, a, t);
    OwnKeys(v, w, a, t);
    StepNow(v, a);
    StepNow(w, a);
    OwnRows(v, w, a, t);
  }

  // ----- runs with and without the other colleges -----

  /** What is left of the run without the other colleges: t's own actions and the clock, as far as they were possible. */
  ghost function Purge(w: World, acts: seq<Action>, t: CollegeId): seq<Action>
    decreases |acts|
  {
    if acts == [] then [] else
      var init, a := acts[..|acts| - 1], acts[|acts| - 1];
      Purge(w, init, t) + (if Own(a, t) && Possible(Run(w, init), a) then [a] else [])
  }

  ghost function AttemptIds(db: Db): set<AttemptId> {
    set a | a in db.attempts :: a.id
  }

  /** Every id used in a is used in b. */
  ghost predicate Narrower(a: Db, b: Db) {
    && a.colleges.Keys <= b.colleges.Keys && a.users.Keys <= b.users.Keys && a.courses.Keys <= b.courses.Keys
    && a.sections.Keys <= b.sections.Keys && a.enrollments.Keys <= b.enrollments.Keys && a.sessions.Keys <= b.sessions.Keys
    && AttemptIds(a) <= AttemptIds(b)
  }

  lemma AttemptIdsAfter(db: Db, c: Change)
    requires Legal(db, c)
    ensures AttemptIds(Apply(db, c)) == if c.Log? then AttemptIds(db) + {c.attempt.id} else AttemptIds(db)
  {
    if c.Log? {
      assert forall a :: a in db.attempts + [c.attempt] <==> a in db.attempts || a == c.attempt;
      assert forall i :: i in AttemptIds(db) + {c.attempt.id} ==> i in AttemptIds(Apply(db, c)) by {
        assert c.attempt in Apply(db, c).attempts;
      }
    }
  }

  lemma Widens(a: Db, b: Db, c: Change)
    requires Narrower(a, b) && Legal(b, c)
    ensures Narrower(a, Apply(b, c))
  {
    AttemptIdsAfter(b, c);
  }

  lemma BothWiden(a: Db, b: Db, c: Change)
    requires Narrower(a, b) && Legal(a, c) && Legal(b, c)
    ensures Narrower(Apply(a, c), Apply(b, c))
  {
    AttemptIdsAfter(a, c);
    AttemptIdsAfter(b, c);
  }

  /** The action names rows of its own college where rows of another would be accepted. */
  ghost predicate OwnIds(db: Db, a: Action, t: CollegeId) {
    && OwnStudent(db, a, t)
    && (a.AddSection? ==>
          && a.row.course in db.courses && db.courses[a.row.course].college == t
          && a.row.teacher in db.users && db.users[a.row.teacher].college == t)
    && (a.Enroll? ==> db.SeesSection(t, a.sec))
  }

  lemma PossibleAgrees(v: World, w: World, a: Action, t: CollegeId)
    requires Agree(v, w, t) && Narrower(w.db, v.db) && Possible(v, a) && OwnIds(v.db, a, t) && Own(a, t)
    requires a.Rotate? ==> v.db.SeesSession(t, a.sid)
    ensures Possible(w, a)
  {
    if a.Checkin? {
      CandidatesAgree(v.db, w.db, t, a.student);
      forall x | x in w.db.attempts
        ensures x.id != a.aid
      {
        assert x.id in AttemptIds(w.db);
      }
    }
  }

  lemma OwnStudentNarrows(v: World, w: World, a: Action, t: CollegeId)
    requires Agree(v, w, t) && Narrower(w.db, v.db) && OwnStudent(v.db, a, t)
    ensures OwnStudent(w.db, a, t)
  {
    if a.Correct? {
      TeachesAgree(v.db, w.db, t, a.teacher, a.sid);
    }
  }

  lemma AgreeShift(v: World, v': World, w: World, t: CollegeId)
    requires Agree(v, w, t) && Agree(v, v', t)
    ensures Agree(v', w, t)
  {
    forall s | v'.db.SeesSession(t, s)
      ensures SameCodeKeys(v', w, s)
    {
      assert v.db.SeesSession(t, s);
      assert SameCodeKeys(v, w, s) && SameCodeKeys(v, v', s);
    }
    forall k: RecordKey | v'.db.SeesSession(t, k.session)
      ensures SameRate(v', w, k)
    {
      assert v.db.SeesSession(t, k.session);
      assert SameRate(v, w, k) && SameRate(v, v', k);
    }
  }

  /** Every action of t in the run names rows of t. */
  ghost predicate OwnRun(w: World, acts: seq<Action>, t: CollegeId) {
    forall i :: 0 <= i < |acts| && Own(acts[i], t) ==> OwnIds(Run(w, acts[..i]).db, acts[i], t)
  }

  lemma OwnRunPrefix(w: World, acts: seq<Action>, t: CollegeId)
    requires OwnRun(w, acts, t) && acts != []
    ensures OwnRun(w, acts[..|acts| - 1], t)
  {
    var init := acts[..|acts| - 1];
    forall i | 0 <= i < |init| && Own(init[i], t)
      ensures OwnIds(Run(w, init[..i]).db, init[i], t)
    {
      assert init[..i] == acts[..i] && init[i] == acts[i];
    }
  }

  ghost predicate Simulates(v: World, w: World, t: CollegeId) {
    Sound(v) && Sound(w) && Agree(v, w, t) && Narrower(w.db, v.db)
  }

  lemma SimulateStep(v: World, w: World, a: Action, t: CollegeId)
    requires Simulates(v, w, t) && Possible(v, a) && Possible(w, a) && Own(a, t)
    requires OwnStudent(v.db, a, t) && OwnStudent(w.db, a, t)
    ensures Simulates(Step(v, a), Step(w, a), t)
  {
    OwnStepAgrees(v, w, a, t);
    StepSound(v, a);
    StepSound(w, a);
    ChangeAgrees(v, w, a, t);
    StepChanges(v, a);
    StepChanges(w, a);
    BothWiden(w.db, v.db, ChangeOf(v, a));
  }

  lemma SimulateOwn(v: World, w: World, a: Action, t: CollegeId)
    requires Simulates(v, w, t) && Possible(v, a) && OwnIds(v.db, a, t) && Own(a, t)
    ensures Simulates(Step(v, a), Step(w, a), t)
  {
    if a.Rotate? && !v.db.SeesSession(t, a.sid) {
      ForeignTarget(v, a);
      ForeignTarget(w, a);
    } else {
      PossibleAgrees(v, w, a, t);
      OwnStudentNarrows(v, w, a, t);
      SimulateStep(v, w, a, t);
    }
  }

  lemma SimulateOther(v: World, w: World, a: Action, t: CollegeId)
    requires Simulates(v, w, t) && !Own(a, t)
    ensures Simulates(Step(v, a), w, t)
  {
    OthersInvisible(v, a, t);
    AgreeShift(v, Step(v, a), w, t);
    StepSound(v, a);
    StepChanges(v, a);
    Widens(w.db, v.db, ChangeOf(v, a));
  }

  /**
   Tenant non-interference: after any run, college t sees exactly what it would see had no other college done
   anything, provided t names its own rows where the tables would accept another's.
   */
  lemma {:induction false} OtherCollegesNeverMatter(w: World, acts: seq<Action>, t: CollegeId)
    requires Sound(w) && OwnRun(w, acts, t)
    ensures Agree(Run(w, acts), Run(w, Purge(w, acts, t)), t)
    ensures Simulates(Run(w, acts), Run(w, Purge(w, acts, t)), t)
    decreases |acts|
  {
    if acts != [] {
      var init, a := acts[..|acts| - 1], acts[|acts| - 1];
      var v, u := Run(w, init), Run(w, Purge(w, init, t));
      OwnRunPrefix(w, acts, t);
      OtherCollegesNeverMatter(w, init, t);
      if !Own(a, t) {
        assert Purge(w, acts, t) == Purge(w, init, t);
        SimulateOther(v, u, a, t);
      } else if Possible(v, a) {
        RunMore(w, Purge(w, init, t), a);
        SimulateOwn(v, u, a, t);
      } else {
        assert Purge(w, acts, t) == Purge(w, init, t);
      }
    }
  }
}
