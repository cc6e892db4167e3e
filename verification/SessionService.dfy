/** Opening a class session, rotating its code, closing it. */
module SessionService {
  import opened Prelude
  import opened Decimals
  import opened Tables
  import opened Worlds
  import opened Stores

  // ----- codes -----

  const CODE_SPACE: nat := 1_000_000

  predicate IsCode(c: string) {
    |c| == 6 && AllDigits(c)
  }

  lemma SixDigitBound()
    ensures Power10(6) == CODE_SPACE
  {
  }

  /** The codes are exactly the numbers below a million, written with six digits. */
  lemma CodeIff(c: string)
    ensures IsCode(c) <==> exists n: nat :: n < 1_000_000 && c == Padded(n, 6)
  {
    SixDigitBound();
    if IsCode(c) {
      PaddedOfNumber(c);
      assert c == Padded(Number(c), 6);
    }
    if n: nat :| n < CODE_SPACE && c == Padded(n, 6) {
      NumberOfPadded(n, 6, CODE_SPACE);
    }
  }

  /** The draw is random; here it is any number in range. */
  method GenerateCode() returns (code: string)
    ensures IsCode(code)
  {
    var n: nat :| n < CODE_SPACE;
    code := Padded(n, 6);
    CodeIff(code);
  }

  /** Drawing until the code differs; the draw that ends the loop. */
  method GenerateCodeOtherThan(oldCode: string) returns (code: string)
    ensures IsCode(code) && code != oldCode
  {
    SixDigitBound();
    assert Padded(0, 6) != Padded(1, 6) by {
      if Padded(0, 6) == Padded(1, 6) {
        PaddedInjective(0, 1, 6, CODE_SPACE);
      }
    }
    var n: nat :| n < CODE_SPACE && Padded(n, 6) != oldCode;
    code := Padded(n, 6);
    CodeIff(code);
  }

  // ----- what each operation does -----

  datatype Started = Started(session: SessionId, code: string, expiresIn: nat)
  datatype Shown = Shown(code: string, expiresIn: nat)
  datatype Summary = Summary(present: nat, absent: nat, overridden: nat)

  /** A new session row, its code under the code key, one more active session. */
  ghost function Opened(w: World, sid: SessionId, row: Session): World {
    w.(db := w.db.(sessions := w.db.sessions[sid := row]),
       codes := w.codes[sid := Entry(row.code, w.now + CODE_TTL)],
       active := w.active + 1,
       issued := w.issued[sid := [Issue(row.code, w.now)]])
  }

  /** `sid` is the generated row id and `code` the drawn code. */
  ghost function StartEffect(w: World, t: CollegeId, teacher: UserId, sec: SectionId, fence: Geo,
                             sid: SessionId, code: string): Effect<World, Result<Started>>
  {
    if !(w.db.SeesSection(t, sec) && w.db.sections[sec].teacher == teacher) then Effect(w, Err(NotFound))
    else if w.db.OpenSessions(t, sec) != {} then Effect(w, Err(Conflict))
    else if !fence.Storable() then Effect(w, Err(StoreError))
    else
      Effect(Opened(w, sid, Session(t, sec, teacher, w.now, None, code, w.now, fence)), Ok(Started(sid, code, CODE_TTL)))
  }

  /** The new code in the row and its key, the old one in the key beside it. */
  ghost function Recoded(w: World, sid: SessionId, newCode: string, oldCode: string): World
    requires sid in w.db.sessions
  {
    w.(db := w.db.(sessions := w.db.sessions[sid := w.db.sessions[sid].(code := newCode, codeUpdatedAt := w.now)]),
       codes := w.codes[sid := Entry(newCode, w.now + CODE_TTL)],
       prevs := w.prevs[sid := Entry(oldCode, w.now + CODE_TTL)],
       issued := w.issued[sid := (if sid in w.issued then w.issued[sid] else []) + [Issue(newCode, w.now)]])
  }

  /** `drawn` is the code drawn if the cached one is gone. */
  ghost function RotateEffect(w: World, t: CollegeId, teacher: UserId, sid: SessionId, drawn: string): Effect<World, Result<Shown>>
  {
    if !(w.db.Teaches(t, teacher, sid) && w.db.sessions[sid].endedAt.None?) then Effect(w, Err(NotFound))
    else if Live(w.codes, sid, w.now) then
      Effect(w, Ok(Shown(w.codes[sid].value, w.codes[sid].expiry - w.now)))
    else
      var row := w.db.sessions[sid];
      Effect(Recoded(w, sid, drawn, row.code), Ok(Shown(drawn, CODE_TTL)))
  }

  /** Those of `students` without a record of the session that college t can see. */
  function Absentees(db: Db, t: CollegeId, sid: SessionId, students: set<UserId>): set<UserId> {
    set st | st in students && !db.SeesRecord(t, RecordKey(sid, st))
  }

  function AbsentRecords(t: CollegeId, sid: SessionId, at: nat, students: set<UserId>): map<RecordKey, Record> {
    map st | st in students :: RecordKey(sid, st) := Record(t, Absent, at, None)
  }

  function RecordedEvent(t: CollegeId, sec: SectionId, key: RecordKey, status: Status, at: nat): Event {
    Event(key, key.session, key.student, t, sec, status, at)
  }

  function AbsentEvents(t: CollegeId, sec: SectionId, sid: SessionId, at: nat, students: set<UserId>): set<Event> {
    set st | st in students :: RecordedEvent(t, sec, RecordKey(sid, st), Absent, at)
  }

  function SummaryOf(db: Db, t: CollegeId, sid: SessionId): Summary {
    Summary(|db.WithStatus(t, sid, {Present})|, |db.WithStatus(t, sid, {Absent})|,
            |db.WithStatus(t, sid, {OverriddenPresent, OverriddenAbsent})|)
  }

  /** The tables once the session is closed. */
  ghost function ClosedDb(db: Db, t: CollegeId, sid: SessionId, now: nat): Db
    requires sid in db.sessions
  {
    var absent := Absentees(db, t, sid, db.Enrolled(t, db.sessions[sid].section));
    db.(sessions := db.sessions[sid := db.sessions[sid].(endedAt := Some(now))],
        records := db.records + AbsentRecords(t, sid, now, absent))
  }

  /** An absent record cannot be inserted over a row the college does not see. */
  ghost predicate AbsenceBlocked(db: Db, t: CollegeId, sid: SessionId)
    requires sid in db.sessions
  {
    exists st :: st in Absentees(db, t, sid, db.Enrolled(t, db.sessions[sid].section)) && RecordKey(sid, st) in db.records
  }

  /** The closed tables, both keys gone, one active session less, an event owed for each absence. */
  ghost function Closed(w: World, t: CollegeId, sid: SessionId): World
    requires sid in w.db.sessions
  {
    var sec := w.db.sessions[sid].section;
    var absent := Absentees(w.db, t, sid, w.db.Enrolled(t, sec));
    w.(db := ClosedDb(w.db, t, sid, w.now), codes := w.codes - {sid}, prevs := w.prevs - {sid}, active := w.active - 1,
       pending := w.pending + multiset(AbsentEvents(t, sec, sid, w.now, absent)))
  }

  ghost function EndEffect(w: World, t: CollegeId, teacher: UserId, sid: SessionId): Effect<World, Result<Summary>>
  {
    if !w.db.Teaches(t, teacher, sid) then Effect(w, Err(NotFound))
    else if w.db.sessions[sid].endedAt.Some? then Effect(w, Err(Conflict))
    else if AbsenceBlocked(w.db, t, sid) then Effect(w, Err(StoreError))
    else
      Effect(Closed(w, t, sid), Ok(SummaryOf(ClosedDb(w.db, t, sid, w.now), t, sid)))
  }

  // ----- the operations -----

  /** The insert of the row and, once committed, the gauge and the code key. */
  method SaveSession(store: Store, sid: SessionId, row: Session)
    modifies store
    ensures store.State() == Opened(old(store.State()), sid, row)
  {
    store.db := store.db.(sessions := store.db.sessions[sid := row]);
    store.active := store.active + 1;
    store.codes := store.codes[sid := Entry(row.code, store.now + CODE_TTL)];
    store.issued := store.issued[sid := [Issue(row.code, store.now)]];
  }

  method StartSession(store: Store, t: CollegeId, teacher: UserId, sec: SectionId, fence: Geo)
    returns (r: Result<Started>, ghost sid: SessionId, ghost code: string)
    modifies store
    ensures sid !in old(store.db.sessions) && IsCode(code)
    ensures Effect(store.State(), r) == StartEffect(old(store.State()), t, teacher, sec, fence, sid, code)
  {
    var tx := store.db;
    FreshExists(tx.sessions.Keys);
    var newId: nat :| newId !in tx.sessions.Keys;
    var initialCode := GenerateCode();
    sid, code := newId, initialCode;

    if !(tx.SeesSection(t, sec) && tx.sections[sec].teacher == teacher) {
      return Err(NotFound), sid, code;
    }
    if tx.OpenSessions(t, sec) != {} {
      return Err(Conflict), sid, code;
    }
    if !fence.Storable() {
      return Err(StoreError), sid, code;
    }
    SaveSession(store, newId, Session(t, sec, teacher, store.now, None, initialCode, store.now, fence));
    r := Ok(Started(newId, initialCode, CODE_TTL));
  }

  /** The update of the row and, once committed, of the two keys. */
  method SaveCode(store: Store, sid: SessionId, newCode: string, oldCode: string)
    requires sid in store.db.sessions
    modifies store
    ensures store.State() == Recoded(old(store.State()), sid, newCode, oldCode)
  {
    var tx := store.db;
    tx := tx.(sessions := tx.sessions[sid := tx.sessions[sid].(code := newCode, codeUpdatedAt := store.now)]);

    store.db := tx;
    store.codes := store.codes[sid := Entry(newCode, store.now + CODE_TTL)];
    store.prevs := store.prevs[sid := Entry(oldCode, store.now + CODE_TTL)];
    store.issued := store.issued[sid := (if sid in store.issued then store.issued[sid] else []) + [Issue(newCode, store.now)]];
  }

  method GetOrRotateCode(store: Store, t: CollegeId, teacher: UserId, sid: SessionId)
    returns (r: Result<Shown>, ghost drawn: string)
    modifies store
    ensures IsCode(drawn)
    ensures sid in old(store.db.sessions) ==> drawn != old(store.db.sessions[sid].code)
    ensures Effect(store.State(), r) == RotateEffect(old(store.State()), t, teacher, sid, drawn)
  {
    var tx := store.db;
    var newCode := GenerateCodeOtherThan(if sid in tx.sessions then tx.sessions[sid].code else "");
    drawn := newCode;
    if !(tx.Teaches(t, teacher, sid) && tx.sessions[sid].endedAt.None?) {
      return Err(NotFound), drawn;
    }
    var oldCode := tx.sessions[sid].code;

    if Live(store.codes, sid, store.now) {
      return Ok(Shown(store.codes[sid].value, store.codes[sid].expiry - store.now)), drawn;
    }
    SaveCode(store, sid, newCode, oldCode);
    r := Ok(Shown(newCode, CODE_TTL));
  }

  /** The rows of a query, in whatever order the database gives them. */
  method Rows(found: set<UserId>) returns (rows: seq<UserId>)
    ensures forall x :: x in rows <==> x in found
    ensures forall i, j :: 0 <= i < j < |rows| ==> rows[i] != rows[j]
  {
    rows := [];
    var rest := found;
    while rest != {}
      invariant rest <= found
      invariant forall x :: x in rows <==> x in found - rest
      invariant forall i, j :: 0 <= i < j < |rows| ==> rows[i] != rows[j]
      decreases rest
    {
      var x :| x in rest;
      assert x !in rows;
      rows := rows + [x];
      rest := rest - {x};
    }
  }

  /** The commit, and after it the gauge and the two keys. */
  method CommitEnd(store: Store, tx: Db, sid: SessionId)
    modifies store
    ensures var w := old(store.State());
      store.State() == w.(db := tx, codes := w.codes - {sid}, prevs := w.prevs - {sid}, active := w.active - 1)
  {
    store.db := tx;
    store.active := store.active - 1;
    store.codes := store.codes - {sid};
    store.prevs := store.prevs - {sid};
  }

  lemma MembersTake<T>(xs: seq<T>, i: nat)
    requires i < |xs|
    ensures Members(xs[..i + 1]) == Members(xs[..i]) + {xs[i]}
  {
    assert xs[..i + 1] == xs[..i] + [xs[i]];
  }

  lemma AbsentRecordsAdd(records: map<RecordKey, Record>, t: CollegeId, sid: SessionId, at: nat, done: set<UserId>, st: UserId)
    ensures records + AbsentRecords(t, sid, at, done + {st})
         == (records + AbsentRecords(t, sid, at, done))[RecordKey(sid, st) := Record(t, Absent, at, None)]
  {
  }

  lemma AbsenteesAdd(tx: Db, t: CollegeId, sid: SessionId, students: set<UserId>, st: UserId)
    ensures Absentees(tx, t, sid, students + {st})
         == Absentees(tx, t, sid, students) + (if tx.SeesRecord(t, RecordKey(sid, st)) then {} else {st})
  {
  }

  lemma AbsenteesMonotone(tx: Db, t: CollegeId, sid: SessionId, some: set<UserId>, all: set<UserId>)
    requires some <= all
    ensures Absentees(tx, t, sid, some) <= Absentees(tx, t, sid, all)
  {
  }

  predicate Unrecorded(tx: Db, sid: SessionId, students: set<UserId>) {
    forall st :: st in students ==> RecordKey(sid, st) !in tx.records
  }

  /** The list names each of the students once. */
  ghost predicate Lists(xs: seq<UserId>, students: set<UserId>) {
    Members(xs) == students && forall j, k :: 0 <= j < k < |xs| ==> xs[j] != xs[k]
  }

  lemma ListsAdd(xs: seq<UserId>, students: set<UserId>, st: UserId)
    requires Lists(xs, students) && st !in students
    ensures Lists(xs + [st], students + {st})
  {
    forall j | 0 <= j < |xs|
      ensures xs[j] != st
    {
      assert xs[j] in Members(xs);
    }
  }

  /** Walks the enrolled students and inserts an absent record for each one without a record. */
  method InsertAbsences(tx: Db, t: CollegeId, sid: SessionId, at: nat, studentIds: seq<UserId>)
    returns (ok: bool, records: map<RecordKey, Record>, absentRecordIds: seq<RecordKey>, absentStudentIds: seq<UserId>)
    requires forall i, j :: 0 <= i < j < |studentIds| ==> studentIds[i] != studentIds[j]
    ensures ok <==> Unrecorded(tx, sid, Absentees(tx, t, sid, Members(studentIds)))
    ensures ok ==> records == tx.records + AbsentRecords(t, sid, at, Absentees(tx, t, sid, Members(studentIds)))
    ensures ok ==> Lists(absentStudentIds, Absentees(tx, t, sid, Members(studentIds)))
    ensures |absentRecordIds| == |absentStudentIds|
    ensures forall j :: 0 <= j < |absentStudentIds| ==> absentRecordIds[j] == RecordKey(sid, absentStudentIds[j])
  {
    records := tx.records;
    absentRecordIds, absentStudentIds := [], [];
    ghost var done: set<UserId> := {};
    for i := 0 to |studentIds|
      invariant |absentRecordIds| == |absentStudentIds|
      invariant forall j :: 0 <= j < |absentStudentIds| ==> absentRecordIds[j] == RecordKey(sid, absentStudentIds[j])
      invariant done == Absentees(tx, t, sid, Members(studentIds[..i]))
      invariant Lists(absentStudentIds, done) && Unrecorded(tx, sid, done)
      invariant records == tx.records + AbsentRecords(t, sid, at, done)
    {
      var st := studentIds[i];
      var key := RecordKey(sid, st);
      MembersTake(studentIds, i);
      AbsenteesAdd(tx, t, sid, Members(studentIds[..i]), st);
      assert st !in studentIds[..i];
      assert st !in done;
      assert key in records <==> key in tx.records;
      var recorded := key in records && records[key].college == t;
      if !recorded {
        if key in records {
          AbsenteesMonotone(tx, t, sid, Members(studentIds[..i + 1]), Members(studentIds));
          assert st in Absentees(tx, t, sid, Members(studentIds));
          return false, records, absentRecordIds, absentStudentIds;
        }
        AbsentRecordsAdd(tx.records, t, sid, at, done, st);
        ListsAdd(absentStudentIds, done, st);
        records := records[key := Record(t, Absent, at, None)];
        absentRecordIds := absentRecordIds + [key];
        absentStudentIds := absentStudentIds + [st];
        done := done + {st};
      }
    }
    ok := true;
    assert studentIds[..|studentIds|] == studentIds;
  }

  /** One event for each new absence, built from the two parallel lists. */
  method PublishAbsences(store: Store, t: CollegeId, sec: SectionId, sid: SessionId, at: nat,
                         recordIds: seq<RecordKey>, studentIds: seq<UserId>)
    requires |recordIds| == |studentIds|
    requires forall j :: 0 <= j < |studentIds| ==> recordIds[j] == RecordKey(sid, studentIds[j])
    requires forall j, k :: 0 <= j < k < |studentIds| ==> studentIds[j] != studentIds[k]
    modifies store`pending
    ensures store.pending == old(store.pending) + multiset(AbsentEvents(t, sec, sid, at, Members(studentIds)))
  {
    for i := 0 to |recordIds|
      invariant store.pending == old(store.pending) + multiset(AbsentEvents(t, sec, sid, at, Members(studentIds[..i])))
    {
      var e := Event(recordIds[i], sid, studentIds[i], t, sec, Absent, at);
      ghost var sent := AbsentEvents(t, sec, sid, at, Members(studentIds[..i]));
      assert e !in sent;
      assert studentIds[..i + 1] == studentIds[..i] + [studentIds[i]];
      assert AbsentEvents(t, sec, sid, at, Members(studentIds[..i + 1])) == sent + {e};
      store.pending := store.pending + multiset{e};
    }
    assert studentIds[..|recordIds|] == studentIds;
  }

  method EndSession(store: Store, t: CollegeId, teacher: UserId, sid: SessionId) returns (r: Result<Summary>)
    modifies store
    ensures Effect(store.State(), r) == EndEffect(old(store.State()), t, teacher, sid)
  {
    var tx := store.db;
    ghost var before := store.db;
    if !tx.Teaches(t, teacher, sid) {
      return Err(NotFound);
    }
    var sec := tx.sessions[sid].section;
    if tx.sessions[sid].endedAt.Some? {
      return Err(Conflict);
    }
    var endedTime := store.now;
    tx := tx.(sessions := tx.sessions[sid := tx.sessions[sid].(endedAt := Some(endedTime))]);

    ghost var tx0 := tx;
    var studentIds := Rows(tx.Enrolled(t, sec));
    assert Members(studentIds) == before.Enrolled(t, sec);
    var ok, records, absentRecordIds, absentStudentIds := InsertAbsences(tx, t, sid, endedTime, studentIds);
    if !ok {
      return Err(StoreError);
    }
    tx := tx.(records := records);

    var summary := SummaryOf(tx, t, sid);
    CommitEnd(store, tx, sid);
    PublishAbsences(store, t, sec, sid, endedTime, absentRecordIds, absentStudentIds);
    ghost var absent := Absentees(before, t, sid, before.Enrolled(t, sec));
    assert Absentees(tx0, t, sid, Members(studentIds)) == absent;
    assert !AbsenceBlocked(before, t, sid);
    assert tx == ClosedDb(before, t, sid, endedTime);
    r := Ok(summary);
  }
}
