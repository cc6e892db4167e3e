/**
 The failed-attempt limiter keeps one counter a student and session, whose expiry every failure pushes forward.
 Over every run it bounds the rejections logged in any window shorter than its expiry.
 */
module CheckinLimiter {
  import opened Prelude
  import opened Tables
  import opened Worlds
  import opened VerificationService
  import opened Runs
  import opened Changes
  import opened Consistency
  import opened Provenance

  predicate For(a: Attempt, k: RecordKey) {
    a.session == k.session && a.student == k.student
  }

  /** What one logged attempt does to the counter: an acceptance clears it, a rejection counts and renews it. */
  function CounterNext(before: Entry<nat>, a: Attempt, k: RecordKey): Entry<nat> {
    if !For(a, k) then before
    else if a.Accepted() then Entry(0, 0)
    else Entry((if a.at < before.expiry then before.value else 0) + 1, a.at + RATE_TTL)
  }

  /** The counter and its expiry, computed from the attempt log alone. */
  ghost function Counter(log: seq<Attempt>, k: RecordKey): Entry<nat> {
    if log == [] then Entry(0, 0) else CounterNext(Counter(log[..|log| - 1], k), log[|log| - 1], k)
  }

  lemma CounterAppend(log: seq<Attempt>, a: Attempt, k: RecordKey)
    ensures Counter(log + [a], k) == CounterNext(Counter(log, k), a, k)
  {
    assert (log + [a])[..|log|] == log;
  }

  ghost predicate InOrder(log: seq<Attempt>, now: nat) {
    && (forall i, j :: 0 <= i < j < |log| ==> log[i].at <= log[j].at)
    && (forall i :: 0 <= i < |log| ==> log[i].at <= now)
  }

  /** No attempt was logged past its college's limit. */
  ghost predicate Capped(colleges: map<CollegeId, Policy>, log: seq<Attempt>) {
    log == [] ||
    (var a := log[|log| - 1];
     && Capped(colleges, log[..|log| - 1])
     && a.college in colleges && Counter(log, RecordKey(a.session, a.student)).value <= colleges[a.college].Attempts())
  }

  lemma {:induction false} CappedStays(colleges: map<CollegeId, Policy>, more: map<CollegeId, Policy>, log: seq<Attempt>)
    requires Capped(colleges, log) && forall t :: t in colleges ==> t in more && more[t] == colleges[t]
    ensures Capped(more, log)
    decreases |log|
  {
    if log != [] {
      CappedStays(colleges, more, log[..|log| - 1]);
    }
  }

  /** The Redis counter is exactly the one computed from the log. */
  ghost predicate RateAgrees(w: World, k: RecordKey) {
    var c := Counter(w.db.attempts, k);
    if c.value == 0 then k !in w.rates else k in w.rates && w.rates[k] == c
  }

  ghost predicate LimiterInv(w: World) {
    && InOrder(w.db.attempts, w.now) && Capped(w.db.colleges, w.db.attempts)
    && forall k :: RateAgrees(w, k)
  }

  lemma LoggedAgrees(w: World, a: Attempt, k: RecordKey)
    requires a.session in w.db.sessions && a.at == w.now && RateAgrees(w, k)
    ensures RateAgrees(Logged(w, a.college, a), k)
  {
    CounterAppend(w.db.attempts, a, k);
    if For(a, k) {
      assert k == RecordKey(a.session, a.student);
    }
  }

  lemma LoggedCapped(w: World, a: Attempt)
    requires LimiterInv(w) && a.session in w.db.sessions && a.at == w.now && a.college in w.db.colleges
    requires !RateLimited(w, a.college, RecordKey(a.session, a.student))
    ensures Capped(w.db.colleges, w.db.attempts + [a])
  {
    var k := RecordKey(a.session, a.student);
    assert RateAgrees(w, k);
    CounterAppend(w.db.attempts, a, k);
    assert (w.db.attempts + [a])[..|w.db.attempts|] == w.db.attempts;
  }

  lemma LoggedTables(w: World, t: CollegeId, a: Attempt)
    requires a.session in w.db.sessions
    ensures var w' := Logged(w, t, a);
      w'.db.attempts == w.db.attempts + [a] && w'.db.colleges == w.db.colleges && w'.now == w.now
  {
  }

  lemma LogLimits(w: World, a: Attempt)
    requires LimiterInv(w) && a.session in w.db.sessions && a.at == w.now && a.college in w.db.colleges
    requires !RateLimited(w, a.college, RecordKey(a.session, a.student))
    ensures LimiterInv(Logged(w, a.college, a))
  {
    LoggedCapped(w, a);
    LoggedTables(w, a.college, a);
    forall k
      ensures RateAgrees(Logged(w, a.college, a), k)
    {
      LoggedAgrees(w, a, k);
    }
  }

  lemma CheckinLimits(w: World, a: Action)
    requires LimiterInv(w) && Possible(w, a) && a.Checkin?
    ensures LimiterInv(Step(w, a))
  {
    CheckinLogs(w, a.t, a.student, a.sub, a.pick, a.aid);
    if Logs(w, a.t, a.student, a.sub, a.pick, a.aid) {
      LogLimits(w, AttemptOf(w, a.t, a.student, a.sub, a.pick, a.aid));
    }
  }

  lemma OtherTables(w: World, a: Action)
    requires !a.Checkin?
    ensures var db' := Step(w, a).db;
      && db'.attempts == w.db.attempts
      && (forall t :: t in w.db.colleges ==> t in db'.colleges && db'.colleges[t] == w.db.colleges[t])
  {
    StepChanges(w, a);
  }

  lemma SessionCounters(w: World, a: Action)
    requires a.Start? || a.Rotate? || a.End?
    ensures Step(w, a).rates == w.rates && w.now <= Step(w, a).now
  {
  }

  lemma DeliveryCounters(w: World, a: Action)
    requires a.Correct? || a.Publish? || a.Consume?
    ensures Step(w, a).rates == w.rates && w.now <= Step(w, a).now
  {
  }

  lemma RowCounters(w: World, a: Action)
    requires a.Tick? || a.AddCollege? || a.AddUser? || a.AddCourse? || a.AddSection? || a.Enroll?
    ensures Step(w, a).rates == w.rates && w.now <= Step(w, a).now
  {
  }

  lemma OtherCounters(w: World, a: Action)
    requires !a.Checkin?
    ensures Step(w, a).rates == w.rates && w.now <= Step(w, a).now
  {
    if a.Start? || a.Rotate? || a.End? { SessionCounters(w, a); }
    else if a.Correct? || a.Publish? || a.Consume? { DeliveryCounters(w, a); }
    else { RowCounters(w, a); }
  }

  lemma StepLimits(w: World, a: Action)
    requires LimiterInv(w)
    ensures LimiterInv(Step(w, a))
  {
    if a.Checkin? {
      if Possible(w, a) {
        CheckinLimits(w, a);
      }
    } else {
      OtherTables(w, a);
      OtherCounters(w, a);
      CappedStays(w.db.colleges, Step(w, a).db.colleges, w.db.attempts);
      forall k
        ensures RateAgrees(Step(w, a), k)
      {
        assert RateAgrees(w, k);
      }
    }
  }

  lemma {:induction false} RunLimits(metric: Metric, acts: seq<Action>)
    ensures LimiterInv(Run(Genesis(metric), acts))
    decreases |acts|
  {
    if acts != [] {
      RunLimits(metric, acts[..|acts| - 1]);
      StepLimits(Run(Genesis(metric), acts[..|acts| - 1]), acts[|acts| - 1]);
    }
  }

  // ----- the bound -----

  predicate Within(a: Attempt, k: RecordKey, lo: nat, hi: nat) {
    For(a, k) && lo <= a.at <= hi
  }

  /** Rejections of k logged from second lo to second hi. */
  ghost function RejectedWithin(log: seq<Attempt>, k: RecordKey, lo: nat, hi: nat): nat {
    if log == [] then 0 else
      var a := log[|log| - 1];
      RejectedWithin(log[..|log| - 1], k, lo, hi) + (if Within(a, k, lo, hi) && !a.Accepted() then 1 else 0)
  }

  /** Acceptances of k logged from second lo to second hi. */
  ghost function AcceptedWithin(log: seq<Attempt>, k: RecordKey, lo: nat, hi: nat): nat {
    if log == [] then 0 else
      var a := log[|log| - 1];
      AcceptedWithin(log[..|log| - 1], k, lo, hi) + (if Within(a, k, lo, hi) && a.Accepted() then 1 else 0)
  }

  ghost predicate NoneAccepted(log: seq<Attempt>, k: RecordKey, lo: nat, hi: nat) {
    forall i :: 0 <= i < |log| && Within(log[i], k, lo, hi) ==> !log[i].Accepted()
  }

  lemma {:induction false} NothingYet(log: seq<Attempt>, k: RecordKey, lo: nat, hi: nat)
    requires forall i :: 0 <= i < |log| ==> log[i].at < lo
    ensures RejectedWithin(log, k, lo, hi) == 0
    decreases |log|
  {
    if log != [] {
      NothingYet(log[..|log| - 1], k, lo, hi);
    }
  }

  lemma {:induction false} CounterCapped(colleges: map<CollegeId, Policy>, log: seq<Attempt>, k: RecordKey, t: CollegeId)
    requires Capped(colleges, log) && t in colleges
    requires forall i :: 0 <= i < |log| && For(log[i], k) ==> log[i].college == t
    ensures Counter(log, k).value <= colleges[t].Attempts()
    decreases |log|
  {
    if log != [] {
      var init, a := log[..|log| - 1], log[|log| - 1];
      if For(a, k) {
        assert k == RecordKey(a.session, a.student);
      } else {
        assert forall i :: 0 <= i < |init| ==> init[i] == log[i];
        CounterCapped(colleges, init, k, t);
      }
    }
  }

  /** What the counter, at most `limit`, has not counted was cleared by an acceptance. */
  ghost predicate Accounted(rejected: nat, accepted: nat, limit: nat, c: Entry<nat>, hi: nat) {
    rejected <= Times(accepted, limit) + c.value && (rejected > Times(accepted, limit) ==> hi < c.expiry)
  }

  lemma AcceptanceAccounts(rejected: nat, accepted: nat, limit: nat, c: Entry<nat>, hi: nat)
    requires Accounted(rejected, accepted, limit, c, hi) && c.value <= limit
    ensures Accounted(rejected, accepted + 1, limit, Entry(0, 0), hi)
  {
  }

  /** Within a short window every rejection is in the counter or was cleared by an acceptance. */
  lemma {:induction false} WindowAccounted(colleges: map<CollegeId, Policy>, log: seq<Attempt>, k: RecordKey, t: CollegeId,
                                           lo: nat, hi: nat)
    requires InOrder(log, hi) && Capped(colleges, log) && t in colleges && hi < lo + RATE_TTL
    requires forall i :: 0 <= i < |log| && For(log[i], k) ==> log[i].college == t
    ensures Accounted(RejectedWithin(log, k, lo, hi), AcceptedWithin(log, k, lo, hi), colleges[t].Attempts(), Counter(log, k), hi)
    decreases |log|
  {
    if log != [] {
      var init, a := log[..|log| - 1], log[|log| - 1];
      assert forall i :: 0 <= i < |init| ==> init[i] == log[i];
      if For(a, k) && a.at < lo {
        NothingYet(log, k, lo, hi);
      } else {
        WindowAccounted(colleges, init, k, t, lo, hi);
        if For(a, k) && a.Accepted() {
          CounterCapped(colleges, init, k, t);
          AcceptanceAccounts(RejectedWithin(init, k, lo, hi), AcceptedWithin(init, k, lo, hi), colleges[t].Attempts(),
                             Counter(init, k), hi);
        }
      }
    }
  }

  lemma {:induction false} WindowCapped(colleges: map<CollegeId, Policy>, log: seq<Attempt>, k: RecordKey, t: CollegeId,
                                        lo: nat, hi: nat, now: nat)
    requires InOrder(log, now) && Capped(colleges, log) && t in colleges && hi < lo + RATE_TTL
    requires forall i :: 0 <= i < |log| && For(log[i], k) ==> log[i].college == t
    ensures RejectedWithin(log, k, lo, hi) <= Times(1 + AcceptedWithin(log, k, lo, hi), colleges[t].Attempts())
    decreases |log|
  {
    if log != [] {
      var init := log[..|log| - 1];
      assert forall i :: 0 <= i < |init| ==> init[i] == log[i];
      if hi < log[|log| - 1].at {
        WindowCapped(colleges, init, k, t, lo, hi, now);
      } else {
        WindowAccounted(colleges, log, k, t, lo, hi);
        CounterCapped(colleges, log, k, t);
        AcceptanceAccounts(RejectedWithin(log, k, lo, hi), AcceptedWithin(log, k, lo, hi), colleges[t].Attempts(),
                           Counter(log, k), hi);
      }
    }
  }

  /** At most `times` MaxAttempts of the session's college were rejected in the window. */
  ghost predicate RejectionsAtMost(db: Db, k: RecordKey, lo: nat, hi: nat, times: nat) {
    && k.session in db.sessions && db.sessions[k.session].college in db.colleges
    && RejectedWithin(db.attempts, k, lo, hi) <= Times(times, db.colleges[db.sessions[k.session].college].Attempts())
  }

  lemma LooserBound(db: Db, k: RecordKey, lo: nat, hi: nat, some: nat, more: nat)
    requires RejectionsAtMost(db, k, lo, hi, some) && some <= more
    ensures RejectionsAtMost(db, k, lo, hi, more)
  {
    TimesMonotone(some, more, db.colleges[db.sessions[k.session].college].Attempts());
  }

  lemma LoggedRejections(w: World, k: RecordKey, lo: nat, hi: nat)
    requires LimiterInv(w) && Consistent(w.db) && hi < lo + RATE_TTL && k.session in w.db.sessions
    ensures RejectionsAtMost(w.db, k, lo, hi, 1 + AcceptedWithin(w.db.attempts, k, lo, hi))
  {
    forall i | 0 <= i < |w.db.attempts| && For(w.db.attempts[i], k)
      ensures w.db.attempts[i].college == w.db.sessions[k.session].college
    {
      assert w.db.attempts[i] in w.db.attempts;
    }
    WindowCapped(w.db.colleges, w.db.attempts, k, w.db.sessions[k.session].college, lo, hi, w.now);
  }

  /**
   Every run: any window shorter than fifteen minutes contains at most MaxAttempts rejected attempts of a student at
   a session, and MaxAttempts more for each acceptance in it.
   */
  lemma RejectionsPerAcceptance(metric: Metric, acts: seq<Action>, k: RecordKey, lo: nat, hi: nat)
    requires hi < lo + 900 && k.session in Run(Genesis(metric), acts).db.sessions
    ensures var db := Run(Genesis(metric), acts).db;
      RejectionsAtMost(db, k, lo, hi, 1 + AcceptedWithin(db.attempts, k, lo, hi))
  {
    RunLimits(metric, acts);
    RunConsistent(metric, acts);
    LoggedRejections(Run(Genesis(metric), acts), k, lo, hi);
  }

  lemma {:induction false} NoAcceptance(log: seq<Attempt>, k: RecordKey, lo: nat, hi: nat)
    requires NoneAccepted(log, k, lo, hi)
    ensures AcceptedWithin(log, k, lo, hi) == 0
    decreases |log|
  {
    if log != [] {
      var init := log[..|log| - 1];
      assert forall i :: 0 <= i < |init| ==> init[i] == log[i];
      NoAcceptance(init, k, lo, hi);
    }
  }

  /** Every run: without an acceptance in it such a window contains at most MaxAttempts rejected attempts. */
  lemma AtMostMaxAttemptsInAnyWindow(metric: Metric, acts: seq<Action>, k: RecordKey, lo: nat, hi: nat)
    requires hi < lo + 900 && NoneAccepted(Run(Genesis(metric), acts).db.attempts, k, lo, hi)
    requires k.session in Run(Genesis(metric), acts).db.sessions
    ensures RejectionsAtMost(Run(Genesis(metric), acts).db, k, lo, hi, 1)
  {
    RejectionsPerAcceptance(metric, acts, k, lo, hi);
    NoAcceptance(Run(Genesis(metric), acts).db.attempts, k, lo, hi);
  }

  lemma {:induction false} WithinAll(log: seq<Attempt>, k: RecordKey, lo: nat, hi: nat)
    ensures AcceptedWithin(log, k, lo, hi) <= AcceptedCount(log, k)
    decreases |log|
  {
    if log != [] {
      WithinAll(log[..|log| - 1], k, lo, hi);
    }
  }

  lemma PaidRejections(w: World, k: RecordKey, lo: nat, hi: nat)
    requires LimiterInv(w) && Consistent(w.db) && AcceptancesPaidFor(w.db, k)
    requires hi < lo + RATE_TTL && k.session in w.db.sessions
    ensures RejectionsAtMost(w.db, k, lo, hi, 2 + OverrideCount(w.db.overrides, k))
  {
    var accepted := AcceptedWithin(w.db.attempts, k, lo, hi);
    LoggedRejections(w, k, lo, hi);
    WithinAll(w.db.attempts, k, lo, hi);
    LooserBound(w.db, k, lo, hi, 1 + accepted, 2 + OverrideCount(w.db.overrides, k));
  }

  /**
   Every run, with no condition on acceptances: such a window contains at most MaxAttempts rejections for each
   override of the student's record and twice MaxAttempts more.
   */
  lemma RejectionsPerOverride(metric: Metric, acts: seq<Action>, w: World, k: RecordKey, lo: nat, hi: nat)
    requires w == Run(Genesis(metric), acts)
    requires hi < lo + 900 && k.session in w.db.sessions
    ensures RejectionsAtMost(w.db, k, lo, hi, 2 + OverrideCount(w.db.overrides, k))
  {
    RunLimits(metric, acts);
    RunConsistent(metric, acts);
    AcceptedAtMostOncePerOverride(metric, acts, k);
    PaidRejections(w, k, lo, hi);
  }

  // ----- who is limited -----

  lemma {:induction false} CounterBelowRejections(log: seq<Attempt>, k: RecordKey, hi: nat)
    requires forall i :: 0 <= i < |log| ==> log[i].at <= hi
    ensures Counter(log, k).value <= RejectedWithin(log, k, 0, hi)
    decreases |log|
  {
    if log != [] {
      assert forall i :: 0 <= i < |log| - 1 ==> log[..|log| - 1][i] == log[i];
      CounterBelowRejections(log[..|log| - 1], k, hi);
    }
  }

  /** The rejection that set the counter's expiry. */
  ghost predicate Renews(a: Attempt, k: RecordKey, c: Entry<nat>) {
    For(a, k) && !a.Accepted() && a.at + RATE_TTL == c.expiry
  }

  lemma {:induction false} RenewedByRejection(log: seq<Attempt>, k: RecordKey)
    requires Counter(log, k).value > 0
    ensures exists a :: a in log && Renews(a, k, Counter(log, k))
    decreases |log|
  {
    var a := log[|log| - 1];
    if For(a, k) {
      assert Renews(a, k, Counter(log, k));
    } else {
      RenewedByRejection(log[..|log| - 1], k);
    }
  }

  /**
   Every run: a student is locked out of a session only after at least MaxAttempts rejections there, and only while
   the last of them is less than fifteen minutes old.
   */
  lemma LockedOutOnlyByFailures(metric: Metric, acts: seq<Action>, t: CollegeId, k: RecordKey)
    requires var w := Run(Genesis(metric), acts); t in w.db.colleges && RateLimited(w, t, k)
    ensures var w := Run(Genesis(metric), acts);
      && w.db.colleges[t].Attempts() <= RejectedWithin(w.db.attempts, k, 0, w.now)
      && exists a :: a in w.db.attempts && For(a, k) && !a.Accepted() && w.now < a.at + 900
  {
    var w := Run(Genesis(metric), acts);
    RunLimits(metric, acts);
    assert RateAgrees(w, k);
    CounterBelowRejections(w.db.attempts, k, w.now);
    RenewedByRejection(w.db.attempts, k);
  }
}
