/** The rotating code: what the two cached keys hold in every run, and what a shown code is good for. */
module CodeRotation {
  import opened Prelude
  import opened Tables
  import opened Worlds
  import opened SessionService
  import opened VerificationService
  import opened Runs
  import opened Changes

  // ----- one session's row, keys and history -----

  datatype Slot = Slot(row: Option<Session>, history: Option<seq<Issue>>,
                       code: Option<Entry<string>>, prev: Option<Entry<string>>)
  {
    predicate Open() {
      row.Some? && row.value.endedAt.None?
    }

    predicate CodeLive(now: nat) {
      code.Some? && now < code.value.expiry
    }
  }

  ghost function SlotOf(w: World, s: SessionId): Slot {
    Slot(Lookup(w.db.sessions, s), Lookup(w.issued, s), Lookup(w.codes, s), Lookup(w.prevs, s))
  }

  ghost function Last(h: seq<Issue>): Issue
    requires h != []
  {
    h[|h| - 1]
  }

  predicate Follows(later: Issue, earlier: Issue) {
    earlier.at + 10 <= later.at && earlier.code != later.code
  }

  /** Six-digit codes, each different from the one before it and issued at least ten seconds after it. */
  predicate WellSpaced(h: seq<Issue>) {
    && (forall i :: i in h ==> IsCode(i.code))
    && (forall i, j :: 0 <= i < |h| && j == i + 1 && j < |h| ==> Follows(h[j], h[i]))
  }

  /** The keys agree with the row and with the history of issued codes; an ended session has none. */
  ghost predicate SlotOk(slot: Slot, now: nat) {
    if slot.row.None? then slot.code.None? && slot.prev.None?
    else
      var row := slot.row.value;
      && slot.history.Some? && slot.history.value != [] && WellSpaced(slot.history.value)
      && var h := slot.history.value;
         && Last(h) == Issue(row.code, row.codeUpdatedAt) && Last(h).at <= now
         && slot.code == (if row.endedAt.None? then Some(Entry(Last(h).code, Last(h).at + CODE_TTL)) else None)
         && slot.prev == (if row.endedAt.None? && |h| > 1 then Some(Entry(h[|h| - 2].code, Last(h).at + CODE_TTL)) else None)
  }

  /** What one step can do to a session's slot. */
  ghost predicate Opened(slot: Slot, slot': Slot, now: nat) {
    && slot.row.None? && slot'.Open() && IsCode(slot'.row.value.code) && slot'.row.value.codeUpdatedAt == now
    && slot'.history == Some([Issue(slot'.row.value.code, now)])
    && slot'.code == Some(Entry(slot'.row.value.code, now + CODE_TTL)) && slot'.prev == slot.prev
  }

  ghost predicate Rotated(slot: Slot, slot': Slot, now: nat) {
    && slot.Open() && !slot.CodeLive(now) && slot'.Open()
    && IsCode(slot'.row.value.code) && slot'.row.value.code != slot.row.value.code && slot'.row.value.codeUpdatedAt == now
    && slot'.history == Some((if slot.history.Some? then slot.history.value else []) + [Issue(slot'.row.value.code, now)])
    && slot'.code == Some(Entry(slot'.row.value.code, now + CODE_TTL))
    && slot'.prev == Some(Entry(slot.row.value.code, now + CODE_TTL))
  }

  ghost predicate Closed(slot: Slot, slot': Slot) {
    && slot.Open() && slot'.row.Some? && slot'.row.value.endedAt.Some?
    && slot'.row.value.code == slot.row.value.code && slot'.row.value.codeUpdatedAt == slot.row.value.codeUpdatedAt
    && slot'.history == slot.history && slot'.code.None? && slot'.prev.None?
  }

  ghost predicate SlotNext(slot: Slot, slot': Slot, now: nat) {
    slot' == slot || Opened(slot, slot', now) || Rotated(slot, slot', now) || Closed(slot, slot')
  }

  lemma WellSpacedAppend(h: seq<Issue>, i: Issue)
    requires WellSpaced(h) && IsCode(i.code) && (h != [] ==> Follows(i, Last(h)))
    ensures WellSpaced(h + [i])
  {
  }

  lemma RotatedOk(slot: Slot, slot': Slot, now: nat, now': nat)
    requires SlotOk(slot, now) && Rotated(slot, slot', now) && now <= now'
    ensures SlotOk(slot', now')
  {
    WellSpacedAppend(slot.history.value, Issue(slot'.row.value.code, now));
  }

  lemma SlotNextOk(slot: Slot, slot': Slot, now: nat, now': nat)
    requires SlotOk(slot, now) && SlotNext(slot, slot', now) && now <= now'
    ensures SlotOk(slot', now')
  {
    if Rotated(slot, slot', now) {
      RotatedOk(slot, slot', now, now');
    } else if Opened(slot, slot', now) {
      WellSpacedAppend([], Issue(slot'.row.value.code, now));
    }
  }

  /** A live code and the previous one beside it stay until the session ends. */
  lemma LiveSlotKept(slot: Slot, slot': Slot, now: nat)
    requires slot.Open() && SlotNext(slot, slot', now)
    ensures slot'.row.Some?
    ensures slot'.Open() && slot.CodeLive(now) ==> slot' == slot
  {
  }

  // ----- steps and runs -----

  lemma StartSlot(w: World, a: Action, s: SessionId)
    requires Possible(w, a) && a.Start?
    ensures SlotNext(SlotOf(w, s), SlotOf(Step(w, a), s), w.now)
  {
  }

  lemma RotateSlot(w: World, a: Action, s: SessionId)
    requires Possible(w, a) && a.Rotate?
    ensures SlotNext(SlotOf(w, s), SlotOf(Step(w, a), s), w.now)
  {
  }

  lemma EndSlot(w: World, a: Action, s: SessionId)
    requires Possible(w, a) && a.End?
    ensures SlotNext(SlotOf(w, s), SlotOf(Step(w, a), s), w.now)
  {
  }

  lemma LoggedSlot(w: World, t: CollegeId, a: Attempt, s: SessionId)
    requires a.session in w.db.sessions
    ensures SlotOf(Logged(w, t, a), s) == SlotOf(w, s)
  {
  }

  lemma CheckinSlot(w: World, a: Action, s: SessionId)
    requires Possible(w, a) && a.Checkin?
    ensures SlotOf(Step(w, a), s) == SlotOf(w, s)
  {
    CheckinLogs(w, a.t, a.student, a.sub, a.pick, a.aid);
    if Logs(w, a.t, a.student, a.sub, a.pick, a.aid) {
      LoggedSlot(w, a.t, AttemptOf(w, a.t, a.student, a.sub, a.pick, a.aid), s);
    }
  }

  lemma OtherSlot(w: World, a: Action, s: SessionId)
    requires !a.Start? && !a.Rotate? && !a.End? && !a.Checkin?
    ensures SlotOf(Step(w, a), s) == SlotOf(w, s)
  {
  }

  lemma StepSlot(w: World, a: Action, s: SessionId)
    ensures SlotNext(SlotOf(w, s), SlotOf(Step(w, a), s), w.now)
  {
    if Possible(w, a) {
      if a.Start? { StartSlot(w, a, s); }
      else if a.Rotate? { RotateSlot(w, a, s); }
      else if a.End? { EndSlot(w, a, s); }
      else if a.Checkin? { CheckinSlot(w, a, s); }
      else { OtherSlot(w, a, s); }
    }
  }

  lemma StepClock(w: World, a: Action)
    ensures w.now <= Step(w, a).now
  {
    if a.Checkin? && Possible(w, a) {
      CheckinLogs(w, a.t, a.student, a.sub, a.pick, a.aid);
    }
  }

  ghost predicate CodeInv(w: World) {
    forall s :: SlotOk(SlotOf(w, s), w.now)
  }

  lemma StepCodeInv(w: World, a: Action)
    requires CodeInv(w)
    ensures CodeInv(Step(w, a))
  {
    StepClock(w, a);
    forall s
      ensures SlotOk(SlotOf(Step(w, a), s), Step(w, a).now)
    {
      StepSlot(w, a, s);
      SlotNextOk(SlotOf(w, s), SlotOf(Step(w, a), s), w.now, Step(w, a).now);
    }
  }

  lemma {:induction false} RunCodeInv(w: World, acts: seq<Action>)
    requires CodeInv(w)
    ensures CodeInv(Run(w, acts))
    decreases |acts|
  {
    if acts != [] {
      RunCodeInv(w, acts[..|acts| - 1]);
      StepCodeInv(Run(w, acts[..|acts| - 1]), acts[|acts| - 1]);
    }
  }

  ghost predicate SlotMatches(slot: Slot, now: nat, code: string) {
    && code != ""
    && ((slot.CodeLive(now) && slot.code.value.value == code)
        || (slot.prev.Some? && now < slot.prev.value.expiry && slot.prev.value.value == code))
  }

  lemma MatchBySlot(w: World, sid: SessionId, code: string)
    ensures CodeMatches(w, sid, code) <==> SlotMatches(SlotOf(w, sid), w.now, code)
  {
  }

  /** The latest code is younger than ten seconds and the submitted one is it or its predecessor. */
  ghost predicate RecentlyIssued(h: seq<Issue>, now: nat, code: string) {
    h != [] && now < Last(h).at + 10 && (code == Last(h).code || (|h| > 1 && code == h[|h| - 2].code))
  }

  lemma SlotMatchesRecent(slot: Slot, now: nat, code: string)
    requires SlotOk(slot, now) && slot.Open()
    ensures SlotMatches(slot, now, code) <==> RecentlyIssued(slot.history.value, now, code)
  {
    var h := slot.history.value;
  }

  /**
   In every run a code matches at an open session exactly when it was one of the last two issued and the latest
   was issued less than ten seconds ago; successive codes differ and are at least ten seconds apart.
   */
  lemma MatchesExactlyRecentCodes(metric: Metric, acts: seq<Action>, sid: SessionId, code: string)
    requires SlotOf(Run(Genesis(metric), acts), sid).Open()
    ensures var w := Run(Genesis(metric), acts);
      && sid in w.issued && WellSpaced(w.issued[sid])
      && (CodeMatches(w, sid, code) <==> RecentlyIssued(w.issued[sid], w.now, code))
  {
    var w := Run(Genesis(metric), acts);
    assert CodeInv(Genesis(metric));
    RunCodeInv(Genesis(metric), acts);
    MatchBySlot(w, sid, code);
    assert SlotOk(SlotOf(w, sid), w.now);
    SlotMatchesRecent(SlotOf(w, sid), w.now, code);
  }

  /** In every run a live code key is the row's current code and differs from a live previous key. */
  lemma LiveKeysAgree(metric: Metric, acts: seq<Action>, sid: SessionId)
    requires Live(Run(Genesis(metric), acts).codes, sid, Run(Genesis(metric), acts).now)
    ensures var w := Run(Genesis(metric), acts);
      && sid in w.db.sessions && w.codes[sid].value == w.db.sessions[sid].code
      && (Live(w.prevs, sid, w.now) ==> w.prevs[sid].value != w.codes[sid].value)
  {
    var w := Run(Genesis(metric), acts);
    assert CodeInv(Genesis(metric));
    RunCodeInv(Genesis(metric), acts);
    assert SlotOk(SlotOf(w, sid), w.now);
  }

  // ----- the promise made with a shown code -----

  /** Nothing but the end of the session disturbs a live code or the previous code beside it. */
  lemma {:induction false} LiveCodeKept(w: World, acts: seq<Action>, sid: SessionId)
    requires SlotOf(w, sid).Open() && SlotOf(w, sid).code.Some?
    ensures var w' := Run(w, acts);
      && w.now <= w'.now && SlotOf(w', sid).row.Some?
      && (SlotOf(w', sid).Open() && w'.now < SlotOf(w, sid).code.value.expiry ==> SlotOf(w', sid) == SlotOf(w, sid))
    decreases |acts|
  {
    if acts != [] {
      var w0, a := Run(w, acts[..|acts| - 1]), acts[|acts| - 1];
      LiveCodeKept(w, acts[..|acts| - 1], sid);
      StepClock(w0, a);
      StepSlot(w0, a, sid);
      if SlotOf(w0, sid).Open() {
        LiveSlotKept(SlotOf(w0, sid), SlotOf(Step(w0, a), sid), w0.now);
      }
    }
  }

  /** While open and before the code key expires, whatever matches now matches later. */
  lemma MatchKept(w: World, acts: seq<Action>, sid: SessionId, code: string)
    requires CodeInv(w) && SlotOf(w, sid).Open() && CodeMatches(w, sid, code)
    ensures var later := Run(w, acts);
      SlotOf(later, sid).Open() && later.now < w.issued[sid][|w.issued[sid]| - 1].at + CODE_TTL ==> CodeMatches(later, sid, code)
  {
    var later := Run(w, acts);
    assert SlotOk(SlotOf(w, sid), w.now);
    LiveCodeKept(w, acts, sid);
    RunCodeInv(w, acts);
    MatchBySlot(w, sid, code);
    MatchBySlot(later, sid, code);
  }

  lemma RotateShows(w: World, t: CollegeId, teacher: UserId, sid: SessionId, drawn: string)
    requires CodeInv(w) && Possible(w, Rotate(t, teacher, sid, drawn)) && RotateEffect(w, t, teacher, sid, drawn).outcome.Ok?
    ensures var e := RotateEffect(w, t, teacher, sid, drawn);
      && SlotOf(w, sid).Open() && SlotOf(e.world, sid).Open() && CodeInv(e.world) && e.world.now == w.now
      && sid in e.world.issued && e.world.issued[sid] != []
      && 0 < e.outcome.value.expiresIn <= CODE_TTL
      && w.now + e.outcome.value.expiresIn == Last(e.world.issued[sid]).at + CODE_TTL
      && CodeMatches(e.world, sid, e.outcome.value.code)
      && CodeMatches(e.world, sid, w.db.sessions[sid].code)
  {
    var e := RotateEffect(w, t, teacher, sid, drawn);
    StepCodeInv(w, Rotate(t, teacher, sid, drawn));
    assert e.world == Step(w, Rotate(t, teacher, sid, drawn));
    assert SlotOk(SlotOf(w, sid), w.now) && SlotOk(SlotOf(e.world, sid), w.now);
  }

  /**
   A code shown with k seconds left is accepted in all of those k seconds, whatever happens, until the session
   ends; and so is the code it replaced.
   */
  lemma ShownCodeStaysValid(w: World, t: CollegeId, teacher: UserId, sid: SessionId, drawn: string, acts: seq<Action>)
    requires CodeInv(w) && Possible(w, Rotate(t, teacher, sid, drawn)) && RotateEffect(w, t, teacher, sid, drawn).outcome.Ok?
    ensures var e := RotateEffect(w, t, teacher, sid, drawn);
      var shown, later := e.outcome.value, Run(e.world, acts);
      && 0 < shown.expiresIn <= 10
      && (SlotOf(later, sid).Open() && later.now < w.now + shown.expiresIn
          ==> CodeMatches(later, sid, shown.code) && CodeMatches(later, sid, w.db.sessions[sid].code))
  {
    var e := RotateEffect(w, t, teacher, sid, drawn);
    RotateShows(w, t, teacher, sid, drawn);
    MatchKept(e.world, acts, sid, e.outcome.value.code);
    MatchKept(e.world, acts, sid, w.db.sessions[sid].code);
  }

  lemma StartShows(w: World, t: CollegeId, teacher: UserId, sec: SectionId, fence: Geo, sid: SessionId, code: string)
    requires CodeInv(w) && Possible(w, Start(t, teacher, sec, fence, sid, code))
    requires StartEffect(w, t, teacher, sec, fence, sid, code).outcome.Ok?
    ensures var e := StartEffect(w, t, teacher, sec, fence, sid, code);
      && SlotOf(e.world, sid).Open() && CodeInv(e.world) && e.outcome.value == Started(sid, code, CODE_TTL)
      && sid in e.world.issued && e.world.issued[sid] == [Issue(code, w.now)] && CodeMatches(e.world, sid, code)
  {
    StepCodeInv(w, Start(t, teacher, sec, fence, sid, code));
  }

  lemma StartedCodeStaysValid(w: World, t: CollegeId, teacher: UserId, sec: SectionId, fence: Geo, sid: SessionId,
                              code: string, acts: seq<Action>)
    requires CodeInv(w) && Possible(w, Start(t, teacher, sec, fence, sid, code))
    requires StartEffect(w, t, teacher, sec, fence, sid, code).outcome.Ok?
    ensures var e := StartEffect(w, t, teacher, sec, fence, sid, code);
      var shown, later := e.outcome.value, Run(e.world, acts);
      shown.expiresIn == 10 && (SlotOf(later, shown.session).Open() && later.now < w.now + shown.expiresIn ==> CodeMatches(later, shown.session, shown.code))
  {
    StartShows(w, t, teacher, sec, fence, sid, code);
    MatchKept(StartEffect(w, t, teacher, sec, fence, sid, code).world, acts, sid, code);
  }

  /**
   Where all three signals are required, an accepted check-in submitted one of the last two codes of that session,
   and the latest was issued less than ten seconds before.
   */
  lemma AcceptedCodeWasRecent(metric: Metric, acts: seq<Action>, t: CollegeId, student: UserId, sub: Submission,
                              pick: SessionId, aid: AttemptId)
    requires var w := Run(Genesis(metric), acts);
      && t in w.db.colleges && w.db.colleges[t].Required() >= 3
      && CheckinEffect(w, t, student, sub, pick, aid).outcome == Ok(Accepted)
    ensures var w := Run(Genesis(metric), acts);
      && pick in w.db.sessions && w.db.sessions[pick].endedAt.None?
      && pick in w.issued && RecentlyIssued(w.issued[pick], w.now, sub.code)
  {
    MatchesExactlyRecentCodes(metric, acts, pick, sub.code);
  }
}
