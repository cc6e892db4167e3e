/**
 Runs of the system. An action fixes what the code leaves open (generated ids, drawn codes, the row a
 LIMIT 1 returns); an action whose choice is not possible changes nothing. Each transaction is one
 action; commit, publication and consumption of an event are three.
 */
module Runs {
  import opened Prelude
  import opened Tables
  import opened Worlds
  import opened SessionService
  import opened VerificationService
  import opened AttendanceService
  import opened ReportingService

  datatype Action =
    | Tick(seconds: nat)
    | AddCollege(t: CollegeId, policy: Policy)
    | AddUser(t: CollegeId, uid: UserId, role: Role)
    | AddCourse(t: CollegeId, course: CourseId, threshold: Option<real>)
    | AddSection(t: CollegeId, sec: SectionId, row: Section)
    | Enroll(t: CollegeId, student: UserId, sec: SectionId)
    | Start(t: CollegeId, teacher: UserId, sec: SectionId, fence: Geo, sid: SessionId, code: string)
    | Rotate(t: CollegeId, teacher: UserId, sid: SessionId, code: string)
    | End(t: CollegeId, teacher: UserId, sid: SessionId)
    | Checkin(t: CollegeId, student: UserId, sub: Submission, pick: SessionId, aid: AttemptId)
    | Correct(t: CollegeId, teacher: UserId, sid: SessionId, student: UserId, status: string, reason: string)
    | Publish(e: Event)
    | Consume(e: Event)

  ghost predicate Possible(w: World, a: Action) {
    match a
    case Tick(_) => true
    case AddCollege(t, _) => t !in w.db.colleges
    case AddUser(t, uid, _) => t in w.db.colleges && uid !in w.db.users
    case AddCourse(t, c, _) => t in w.db.colleges && c !in w.db.courses
    case AddSection(t, sec, row) =>
      t in w.db.colleges && row.college == t && sec !in w.db.sections && row.course in w.db.courses && row.teacher in w.db.users
    case Enroll(t, st, sec) =>
      st in w.db.users && w.db.users[st] == User(t, Student) && sec in w.db.sections && Pair(st, sec) !in w.db.enrollments
    case Start(_, _, _, _, sid, code) => sid !in w.db.sessions && IsCode(code)
    case Rotate(_, _, sid, code) => IsCode(code) && (sid in w.db.sessions ==> code != w.db.sessions[sid].code)
    case End(_, _, _) => true
    case Checkin(t, st, _, pick, aid) =>
      (forall x :: x in w.db.attempts ==> x.id != aid) && (w.db.Candidates(t, st) != {} ==> pick in w.db.Candidates(t, st))
    case Correct(_, _, _, _, _, _) => true
    case Publish(e) => e in w.pending
    case Consume(e) => e in w.log
  }

  ghost function Step(w: World, a: Action): World {
    if !Possible(w, a) then w else
      match a
      case Tick(n) => w.(now := w.now + n)
      case AddCollege(t, policy) => w.(db := w.db.(colleges := w.db.colleges[t := policy]))
      case AddUser(t, uid, role) => w.(db := w.db.(users := w.db.users[uid := User(t, role)]))
      case AddCourse(t, c, threshold) => w.(db := w.db.(courses := w.db.courses[c := Course(t, threshold)]))
      case AddSection(t, sec, row) => w.(db := w.db.(sections := w.db.sections[sec := row]))
      case Enroll(t, st, sec) => w.(db := w.db.(enrollments := w.db.enrollments[Pair(st, sec) := t]))
      case Start(t, teacher, sec, fence, sid, code) => StartEffect(w, t, teacher, sec, fence, sid, code).world
      case Rotate(t, teacher, sid, code) => RotateEffect(w, t, teacher, sid, code).world
      case End(t, teacher, sid) => EndEffect(w, t, teacher, sid).world
      case Checkin(t, st, sub, pick, aid) => CheckinEffect(w, t, st, sub, pick, aid).world
      case Correct(t, teacher, sid, st, status, reason) => OverrideEffect(w, t, teacher, sid, st, status, reason).world
      case Publish(e) => PublishEffect(w, e)
      case Consume(e) => ConsumeEffect(w, e)
  }

  ghost function Run(w: World, acts: seq<Action>): World
    decreases |acts|
  {
    if acts == [] then w else Step(Run(w, acts[..|acts| - 1]), acts[|acts| - 1])
  }

  lemma RunOne(w: World, a: Action)
    ensures Run(w, [a]) == Step(w, a)
  {
    assert [a][..0] == [];
    assert Run(w, [a][..0]) == w;
  }

  lemma RunMore(w: World, acts: seq<Action>, a: Action)
    ensures Run(w, acts + [a]) == Step(Run(w, acts), a)
  {
    assert (acts + [a])[..|acts|] == acts;
  }
}
