/** Sessions open and close once, records only accumulate, and closing accounts for every student. */
module Lifecycle {
  import opened Prelude
  import opened Tables
  import opened Worlds
  import opened SessionService
  import opened AttendanceService
  import opened Runs
  import opened Changes
  import opened Consistency

  // ----- what no run takes back -----

  ghost predicate Kept<K, V>(rows: map<K, V>, later: map<K, V>) {
    forall k :: k in rows ==> k in later && later[k] == rows[k]
  }

  ghost predicate SessionsEvolve(rows: map<SessionId, Session>, later: map<SessionId, Session>) {
    forall s :: s in rows ==>
      && s in later && later[s].section == rows[s].section && later[s].college == rows[s].college
      && (rows[s].endedAt.Some? ==> later[s] == rows[s])
  }

  ghost predicate RecordsEvolve(rows: map<RecordKey, Record>, later: map<RecordKey, Record>) {
    forall k :: k in rows ==> k in later && later[k].college == rows[k].college
  }

  ghost predicate AggregatesEvolve(rows: map<Pair, Aggregate>, later: map<Pair, Aggregate>) {
    forall p :: p in rows ==> p in later && later[p].college == rows[p].college
  }

  /** Rows are never lost, sessions keep section and college, an ended session row is final. */
  ghost predicate Evolves(db: Db, later: Db) {
    && SessionsEvolve(db.sessions, later.sessions) && RecordsEvolve(db.records, later.records)
    && AggregatesEvolve(db.aggregates, later.aggregates)
    && Kept(db.colleges, later.colleges) && Kept(db.users, later.users) && Kept(db.courses, later.courses)
    && Kept(db.sections, later.sections) && Kept(db.enrollments, later.enrollments)
    && db.attempts <= later.attempts && db.overrides <= later.overrides
  }

  lemma SessionEvolves(db: Db, c: Change)
    requires Linked(db) && Legal(db, c) && (c.NewSession? || c.Recode?)
    ensures Evolves(db, Apply(db, c))
  {
  }

  lemma RecordEvolves(db: Db, c: Change)
    requires Linked(db) && Legal(db, c) && (c.Log? || c.Amend?)
    ensures Evolves(db, Apply(db, c))
  {
  }

  lemma RowEvolves(db: Db, c: Change)
    requires Linked(db) && Legal(db, c) && !(c.NewSession? || c.Recode? || c.Log? || c.Amend? || c.Close?)
    ensures Evolves(db, Apply(db, c))
  {
  }

  lemma CloseEvolves(db: Db, sid: SessionId, at: nat)
    requires Linked(db) && Legal(db, Close(sid, at))
    ensures Evolves(db, Apply(db, Close(sid, at)))
  {
  }

  lemma ApplyEvolves(db: Db, c: Change)
    requires Linked(db) && Legal(db, c)
    ensures Evolves(db, Apply(db, c))
  {
    if c.Close? {
      CloseEvolves(db, c.sid, c.at);
    } else if c.NewSession? || c.Recode? {
      SessionEvolves(db, c);
    } else if c.Log? || c.Amend? {
      RecordEvolves(db, c);
    } else {
      RowEvolves(db, c);
    }
  }

  lemma EvolvesTransitive(a: Db, b: Db, c: Db)
    requires Evolves(a, b) && Evolves(b, c)
    ensures Evolves(a, c)
  {
  }

  /** Nothing recorded before is undone by any continuation of a run. */
  lemma {:induction false} RunEvolves(w: World, acts: seq<Action>)
    requires Consistent(w.db)
    ensures Consistent(Run(w, acts).db) && Evolves(w.db, Run(w, acts).db)
    decreases |acts|
  {
    if acts != [] {
      var w0, a := Run(w, acts[..|acts| - 1]), acts[|acts| - 1];
      RunEvolves(w, acts[..|acts| - 1]);
      StepConsistent(w0, a);
      StepChanges(w0, a);
      ApplyEvolves(w0.db, ChangeOf(w0, a));
      EvolvesTransitive(w.db, w0.db, Step(w0, a).db);
    }
  }

  lemma ApplyKeepsEndedRecords(db: Db, c: Change, k: RecordKey)
    requires Legal(db, c) && k.session in db.sessions && db.sessions[k.session].endedAt.Some? && !c.Amend?
    ensures k in Apply(db, c).records <==> k in db.records
    ensures k in db.records ==> Apply(db, c).records[k] == db.records[k]
  {
  }

  lemma OnlyCorrectAmends(w: World, a: Action)
    requires ChangeOf(w, a).Amend?
    ensures a.Correct?
  {
  }

  /** Once a session has ended, only a teacher's override adds or changes a record of it. */
  lemma EndedRecordsOnlyOverridden(w: World, a: Action, k: RecordKey)
    requires Consistent(w.db) && k.session in w.db.sessions && w.db.sessions[k.session].endedAt.Some?
    requires !a.Correct?
    ensures k in Step(w, a).db.records <==> k in w.db.records
    ensures k in w.db.records ==> Step(w, a).db.records[k] == w.db.records[k]
  {
    StepChanges(w, a);
    if ChangeOf(w, a).Amend? {
      OnlyCorrectAmends(w, a);
    }
    ApplyKeepsEndedRecords(w.db, ChangeOf(w, a), k);
  }

  // ----- the gauge -----

  ghost function AllOpen(db: Db): set<SessionId> {
    set s | s in db.sessions && db.sessions[s].endedAt.None?
  }

  lemma ApplyAllOpen(db: Db, c: Change)
    requires Legal(db, c)
    ensures AllOpen(Apply(db, c))
         == if c.NewSession? then AllOpen(db) + {c.sid} else if c.Close? then AllOpen(db) - {c.sid} else AllOpen(db)
  {
  }

  ghost function GaugeMove(c: Change): int {
    if c.NewSession? then 1 else if c.Close? then -1 else 0
  }

  lemma SessionGauge(w: World, a: Action)
    requires a.Start? || a.Rotate? || a.End?
    ensures Step(w, a).active == w.active + GaugeMove(ChangeOf(w, a))
  {
  }

  lemma CheckinGauge(w: World, a: Action)
    requires a.Checkin?
    ensures Step(w, a).active == w.active + GaugeMove(ChangeOf(w, a))
  {
    if Possible(w, a) {
      CheckinLogs(w, a.t, a.student, a.sub, a.pick, a.aid);
    }
  }

  lemma OtherGauge(w: World, a: Action)
    requires !a.Start? && !a.Rotate? && !a.End? && !a.Checkin?
    ensures Step(w, a).active == w.active + GaugeMove(ChangeOf(w, a))
  {
  }

  lemma StepGauge(w: World, a: Action)
    ensures Step(w, a).active == w.active + GaugeMove(ChangeOf(w, a))
  {
    if a.Start? || a.Rotate? || a.End? { SessionGauge(w, a); }
    else if a.Checkin? { CheckinGauge(w, a); }
    else { OtherGauge(w, a); }
  }

  /** The ActiveSessions gauge moves exactly with the number of open sessions. */
  lemma {:induction false} GaugeFollowsOpenSessions(w: World, acts: seq<Action>)
    ensures Run(w, acts).active - |AllOpen(Run(w, acts).db)| == w.active - |AllOpen(w.db)|
    decreases |acts|
  {
    if acts != [] {
      var w0, a := Run(w, acts[..|acts| - 1]), acts[|acts| - 1];
      GaugeFollowsOpenSessions(w, acts[..|acts| - 1]);
      StepChanges(w0, a);
      ApplyAllOpen(w0.db, ChangeOf(w0, a));
      StepGauge(w0, a);
    }
  }

  // ----- opening a session -----

  /** Of its own section, a teacher is refused a session exactly while another one is open. */
  lemma ConflictIffOpen(w: World, t: CollegeId, teacher: UserId, sec: SectionId, fence: Geo, sid: SessionId, code: string)
    requires Consistent(w.db) && w.db.SeesSection(t, sec) && w.db.sections[sec].teacher == teacher
    ensures StartEffect(w, t, teacher, sec, fence, sid, code).outcome == Err(Conflict)
       <==> exists s :: s in w.db.sessions && w.db.sessions[s].section == sec && w.db.sessions[s].endedAt.None?
  {
    if s :| s in w.db.sessions && w.db.sessions[s].section == sec && w.db.sessions[s].endedAt.None? {
      assert s in w.db.OpenSessions(t, sec);
    } else {
      assert w.db.OpenSessions(t, sec) == {};
    }
  }

  lemma StartedSession(w: World, t: CollegeId, teacher: UserId, sec: SectionId, fence: Geo, sid: SessionId, code: string)
    requires Consistent(w.db) && Possible(w, Start(t, teacher, sec, fence, sid, code))
    requires StartEffect(w, t, teacher, sec, fence, sid, code).outcome.Ok?
    ensures var db := StartEffect(w, t, teacher, sec, fence, sid, code).world.db;
      && Consistent(db) && db.Teaches(t, teacher, sid) && sid !in w.db.sessions
      && db.sessions == w.db.sessions[sid := Session(t, sec, teacher, w.now, None, code, w.now, fence)]
  {
    StepConsistent(w, Start(t, teacher, sec, fence, sid, code));
  }

  /** From a successful start until that session ends, whatever else happens, every further start is a conflict. */
  lemma StartBlockedUntilEnd(w: World, t: CollegeId, teacher: UserId, sec: SectionId, fence: Geo, sid: SessionId, code: string,
                             acts: seq<Action>, fence': Geo, sid': SessionId, code': string)
    requires Consistent(w.db) && Possible(w, Start(t, teacher, sec, fence, sid, code))
    requires StartEffect(w, t, teacher, sec, fence, sid, code).outcome.Ok?
    ensures var later := Run(StartEffect(w, t, teacher, sec, fence, sid, code).world, acts);
      && sid in later.db.sessions
      && (later.db.sessions[sid].endedAt.None? ==>
            StartEffect(later, t, teacher, sec, fence', sid', code').outcome == Err(Conflict))
  {
    StartedSession(w, t, teacher, sec, fence, sid, code);
    var after := StartEffect(w, t, teacher, sec, fence, sid, code).world;
    RunEvolves(after, acts);
    ConflictIffOpen(Run(after, acts), t, teacher, sec, fence', sid', code');
  }

  // ----- closing a session -----

  const ALL_STATUSES := {Present, Absent, OverriddenPresent, OverriddenAbsent}

  /** The records of a session split by status without loss or overlap. */
  lemma StatusPartition(db: Db, t: CollegeId, sid: SessionId)
    ensures var s := SummaryOf(db, t, sid);
      s.present + s.absent + s.overridden == |db.WithStatus(t, sid, ALL_STATUSES)|
    ensures |db.WithStatus(t, sid, {Present, OverriddenPresent})| + |db.WithStatus(t, sid, {Absent, OverriddenAbsent})|
         == |db.WithStatus(t, sid, ALL_STATUSES)|
  {
    var p, a, o := db.WithStatus(t, sid, {Present}), db.WithStatus(t, sid, {Absent}),
                   db.WithStatus(t, sid, {OverriddenPresent, OverriddenAbsent});
    assert db.WithStatus(t, sid, ALL_STATUSES) == p + a + o;
    var yes, no := db.WithStatus(t, sid, {Present, OverriddenPresent}), db.WithStatus(t, sid, {Absent, OverriddenAbsent});
    assert db.WithStatus(t, sid, ALL_STATUSES) == yes + no;
  }

  /** The records a closing inserts. */
  ghost function NewKeys(w: World, after: World): set<RecordKey> {
    after.db.records.Keys - w.db.records.Keys
  }

  /** Closing leaves one record for every enrolled student and touches no earlier one. */
  lemma EndClosesRoster(w: World, t: CollegeId, teacher: UserId, sid: SessionId)
    requires Consistent(w.db) && EndEffect(w, t, teacher, sid).outcome.Ok?
    ensures var after := EndEffect(w, t, teacher, sid).world;
      && after.db.sessions[sid].endedAt == Some(w.now)
      && (forall st :: st in w.db.Enrolled(t, w.db.sessions[sid].section) ==> after.db.SeesRecord(t, RecordKey(sid, st)))
      && (forall k :: k in w.db.records ==> k in after.db.records && after.db.records[k] == w.db.records[k])
      && (forall k :: k in NewKeys(w, after) ==>
            && k.session == sid && k.student in w.db.Enrolled(t, w.db.sessions[sid].section)
            && after.db.records[k] == Record(t, Absent, w.now, None))
  {
  }

  lemma NewKeysAreAbsentees(w: World, t: CollegeId, teacher: UserId, sid: SessionId)
    requires Consistent(w.db) && EndEffect(w, t, teacher, sid).outcome.Ok?
    ensures NewKeys(w, EndEffect(w, t, teacher, sid).world)
         == set st | st in Absentees(w.db, t, sid, w.db.Enrolled(t, w.db.sessions[sid].section)) :: RecordKey(sid, st)
  {
  }

  /** Events and record keys of the same students pair off. */
  lemma OneEventPerKey(t: CollegeId, sec: SectionId, sid: SessionId, at: nat, students: set<UserId>, keys: set<RecordKey>)
    requires keys == set st | st in students :: RecordKey(sid, st)
    ensures |AbsentEvents(t, sec, sid, at, students)| == |keys|
    ensures forall k :: k in keys ==> Event(k, sid, k.student, t, sec, Absent, at) in AbsentEvents(t, sec, sid, at, students)
  {
    var events := AbsentEvents(t, sec, sid, at, students);
    var eventOf := (k: RecordKey) => RecordedEvent(t, sec, k, Absent, at);
    InjectionBound(keys, events, eventOf);
    InjectionBound(events, keys, (e: Event) => e.record);
    forall k | k in keys
      ensures Event(k, sid, k.student, t, sec, Absent, at) in events
    {
      assert eventOf(k) in events;
    }
  }

  lemma EndPending(w: World, t: CollegeId, teacher: UserId, sid: SessionId)
    requires EndEffect(w, t, teacher, sid).outcome.Ok?
    ensures var sec := w.db.sessions[sid].section;
      EndEffect(w, t, teacher, sid).world.unread == w.unread
      && EndEffect(w, t, teacher, sid).world.pending
      == w.pending + multiset(AbsentEvents(t, sec, sid, w.now, Absentees(w.db, t, sid, w.db.Enrolled(t, sec))))
  {
  }

  lemma AddedOnce(before: multiset<Event>, added: set<Event>)
    ensures |before + multiset(added)| == |before| + |added|
    ensures forall e :: e in added ==> (before + multiset(added) - before)[e] == 1
  {
  }

  /** Exactly one absence event is owed for each inserted record, and it names that record throughout. */
  lemma EndOwesOneEventEach(w: World, t: CollegeId, teacher: UserId, sid: SessionId)
    requires Consistent(w.db) && EndEffect(w, t, teacher, sid).outcome.Ok?
    ensures var after := EndEffect(w, t, teacher, sid).world;
      && (forall k :: k in NewKeys(w, after) ==>
            (after.pending - w.pending)[Event(k, sid, k.student, t, w.db.sessions[sid].section, Absent, w.now)] == 1)
      && |after.pending| == |w.pending| + |NewKeys(w, after)|
      && w.pending <= after.pending
  {
    var after, sec := EndEffect(w, t, teacher, sid).world, w.db.sessions[sid].section;
    var absent := Absentees(w.db, t, sid, w.db.Enrolled(t, sec));
    NewKeysAreAbsentees(w, t, teacher, sid);
    EndPending(w, t, teacher, sid);
    OneEventPerKey(t, sec, sid, w.now, absent, NewKeys(w, after));
    AddedOnce(w.pending, AbsentEvents(t, sec, sid, w.now, absent));
  }

  /** The closing transaction as a change of the tables. */
  lemma EndIsClose(w: World, t: CollegeId, teacher: UserId, sid: SessionId)
    requires Consistent(w.db) && EndEffect(w, t, teacher, sid).outcome.Ok?
    ensures var e := EndEffect(w, t, teacher, sid);
      && w.db.Teaches(t, teacher, sid) && Legal(w.db, Close(sid, w.now)) && e.world.db == Apply(w.db, Close(sid, w.now))
      && Consistent(e.world.db) && e.outcome.value == SummaryOf(e.world.db, t, sid) && e.world.db.Teaches(t, teacher, sid)
  {
    assert Legal(w.db, Close(sid, w.now));
    ApplyLinked(w.db, Close(sid, w.now));
    ApplyOneOpen(w.db, Close(sid, w.now));
  }

  ghost function RecordsOf(db: Db, sid: SessionId): set<RecordKey> {
    set k | k in db.records && k.session == sid
  }

  /** The records of the session with one of these statuses, whoever may see them. */
  ghost function Holding(db: Db, sid: SessionId, wanted: set<Status>): set<RecordKey> {
    set k | k in db.records && k.session == sid && db.records[k].status in wanted
  }

  lemma HoldingVisible(db: Db, t: CollegeId, sid: SessionId, wanted: set<Status>)
    requires Linked(db) && db.SeesSession(t, sid)
    ensures db.WithStatus(t, sid, wanted) == Holding(db, sid, wanted)
  {
  }

  /** The summary counts the records of each kind the session has when it closes. */
  lemma SummaryCounts(w: World, t: CollegeId, teacher: UserId, sid: SessionId)
    requires Consistent(w.db) && EndEffect(w, t, teacher, sid).outcome.Ok?
    ensures var e := EndEffect(w, t, teacher, sid);
      var s, db := e.outcome.value, e.world.db;
      && s.present == |Holding(db, sid, {Present})| && s.absent == |Holding(db, sid, {Absent})|
      && s.overridden == |Holding(db, sid, {OverriddenPresent, OverriddenAbsent})|
  {
    EndIsClose(w, t, teacher, sid);
    var after := EndEffect(w, t, teacher, sid).world.db;
    HoldingVisible(after, t, sid, {Present});
    HoldingVisible(after, t, sid, {Absent});
    HoldingVisible(after, t, sid, {OverriddenPresent, OverriddenAbsent});
  }

  lemma RecordsAllVisible(db: Db, t: CollegeId, sid: SessionId)
    requires Linked(db) && db.SeesSession(t, sid)
    ensures db.WithStatus(t, sid, ALL_STATUSES) == RecordsOf(db, sid)
  {
    forall k | k in RecordsOf(db, sid)
      ensures k in db.WithStatus(t, sid, ALL_STATUSES)
    {
      match db.records[k].status
      case Present =>
      case Absent =>
      case OverriddenPresent =>
      case OverriddenAbsent =>
    }
  }

  /** The summary accounts for every record of the session, and so do the two history counts. */
  lemma EndConservesCounts(w: World, t: CollegeId, teacher: UserId, sid: SessionId)
    requires Consistent(w.db) && EndEffect(w, t, teacher, sid).outcome.Ok?
    ensures var e := EndEffect(w, t, teacher, sid);
      var s, history := e.outcome.value, SectionHistory(e.world.db, t, w.db.sessions[sid].section, teacher);
      && s.present + s.absent + s.overridden == |RecordsOf(e.world.db, sid)|
      && history.Ok? && sid in history.value
      && history.value[sid].present + history.value[sid].absent == |RecordsOf(e.world.db, sid)|
  {
    EndIsClose(w, t, teacher, sid);
    var after := EndEffect(w, t, teacher, sid).world.db;
    StatusPartition(after, t, sid);
    RecordsAllVisible(after, t, sid);
  }

  lemma RosterShowsRecord(db: Db, t: CollegeId, sid: SessionId, viewer: UserId, student: UserId)
    requires db.SeesRecord(t, RecordKey(sid, student))
    ensures var roster := SessionRoster(db, t, sid, viewer);
      roster.Ok? && student in roster.value ==> roster.value[student] == Recorded(db.records[RecordKey(sid, student)].status)
  {
  }

  lemma VisibleRecordStays(db: Db, later: Db, t: CollegeId, k: RecordKey)
    requires Evolves(db, later) && db.SeesRecord(t, k)
    ensures later.SeesRecord(t, k)
  {
  }

  /** No student enrolled at closing time is ever shown as pending for that session again. */
  lemma NeverPendingAgain(w: World, t: CollegeId, teacher: UserId, sid: SessionId, acts: seq<Action>, viewer: UserId)
    requires Consistent(w.db) && EndEffect(w, t, teacher, sid).outcome.Ok?
    ensures var later := Run(EndEffect(w, t, teacher, sid).world, acts).db;
      var roster := SessionRoster(later, t, sid, viewer);
      roster.Ok? ==>
        forall st :: st in w.db.Enrolled(t, w.db.sessions[sid].section) && st in roster.value ==> roster.value[st].Recorded?
  {
    var after := EndEffect(w, t, teacher, sid).world;
    EndIsClose(w, t, teacher, sid);
    EndClosesRoster(w, t, teacher, sid);
    RunEvolves(after, acts);
    forall st | st in w.db.Enrolled(t, w.db.sessions[sid].section)
      ensures var roster := SessionRoster(Run(after, acts).db, t, sid, viewer);
        roster.Ok? && st in roster.value ==> roster.value[st].Recorded?
    {
      VisibleRecordStays(after.db, Run(after, acts).db, t, RecordKey(sid, st));
      RosterShowsRecord(Run(after, acts).db, t, sid, viewer, st);
    }
  }
}
