/**
 The services called on one store. Every call is one possible step of a run, so whatever is proved of all runs
 holds of any sequence of these calls, and the caller is told the outcome of that step.
 */
module Server {
  import opened Tables
  import opened Worlds
  import opened Stores
  import opened Runs
  import SessionService
  import VerificationService
  import AttendanceService
  import ReportingService

  ghost predicate TakesStep(before: World, after: World, a: Action) {
    Possible(before, a) && after == Step(before, a)
  }

  method Start(store: Store, t: CollegeId, teacher: UserId, sec: SectionId, fence: Geo)
    returns (r: Result<SessionService.Started>, ghost a: Action)
    modifies store
    ensures a.Start? && a == Action.Start(t, teacher, sec, fence, a.sid, a.code)
    ensures TakesStep(old(store.State()), store.State(), a)
    ensures r == SessionService.StartEffect(old(store.State()), t, teacher, sec, fence, a.sid, a.code).outcome
  {
    ghost var sid, code;
    r, sid, code := SessionService.StartSession(store, t, teacher, sec, fence);
    a := Action.Start(t, teacher, sec, fence, sid, code);
  }

  method Rotate(store: Store, t: CollegeId, teacher: UserId, sid: SessionId)
    returns (r: Result<SessionService.Shown>, ghost a: Action)
    modifies store
    ensures a.Rotate? && a == Action.Rotate(t, teacher, sid, a.code)
    ensures TakesStep(old(store.State()), store.State(), a)
    ensures r == SessionService.RotateEffect(old(store.State()), t, teacher, sid, a.code).outcome
  {
    ghost var code;
    r, code := SessionService.GetOrRotateCode(store, t, teacher, sid);
    a := Action.Rotate(t, teacher, sid, code);
  }

  method End(store: Store, t: CollegeId, teacher: UserId, sid: SessionId) returns (r: Result<SessionService.Summary>)
    modifies store
    ensures TakesStep(old(store.State()), store.State(), Action.End(t, teacher, sid))
    ensures r == SessionService.EndEffect(old(store.State()), t, teacher, sid).outcome
  {
    r := SessionService.EndSession(store, t, teacher, sid);
  }

  method Checkin(store: Store, t: CollegeId, student: UserId, sub: VerificationService.Submission)
    returns (r: Result<VerificationService.Verdict>, ghost a: Action)
    modifies store
    ensures a.Checkin? && a == Action.Checkin(t, student, sub, a.pick, a.aid)
    ensures TakesStep(old(store.State()), store.State(), a)
    ensures r == VerificationService.CheckinEffect(old(store.State()), t, student, sub, a.pick, a.aid).outcome
  {
    ghost var pick, aid;
    r, pick, aid := VerificationService.SubmitCheckin(store, t, student, sub);
    a := Action.Checkin(t, student, sub, pick, aid);
  }

  method Correct(store: Store, t: CollegeId, teacher: UserId, sid: SessionId, student: UserId, status: string, reason: string)
    returns (r: Result<Status>)
    modifies store
    ensures TakesStep(old(store.State()), store.State(), Action.Correct(t, teacher, sid, student, status, reason))
    ensures r == AttendanceService.OverrideEffect(old(store.State()), t, teacher, sid, student, status, reason).outcome
  {
    r := AttendanceService.SubmitOverride(store, t, teacher, sid, student, status, reason);
  }

  method Publish(store: Store, e: Event)
    requires e in store.pending
    modifies store
    ensures TakesStep(old(store.State()), store.State(), Action.Publish(e))
  {
    ReportingService.PublishOne(store, e);
  }

  method Consume(store: Store, e: Event)
    requires e in store.log
    modifies store
    ensures TakesStep(old(store.State()), store.State(), Action.Consume(e))
  {
    ReportingService.ConsumeOne(store, e);
  }
}
