/**
 The aggregate table is a cache of counts over records and sessions. Commit, publication and
 consumption interleave freely and a message may be consumed any number of times.
 */
module AggregateCache {
  import opened Prelude
  import opened Tables
  import opened Worlds
  import opened ReportingService
  import opened Changes
  import opened Consistency
  import opened Lifecycle

  // ----- the counts and their stored copies -----

  function CollegeOf(db: Db, sec: SectionId): CollegeId
    requires sec in db.sections
  {
    db.sections[sec].college
  }

  ghost function Recount(db: Db, p: Pair): nat
    requires p.section in db.sections
  {
    |db.PresentRecords(CollegeOf(db, p.section), p)|
  }

  ghost function EndedCount(db: Db, sec: SectionId): nat
    requires sec in db.sections
  {
    |db.EndedSessions(CollegeOf(db, sec), sec)|
  }

  ghost function StoredPresent(db: Db, p: Pair): nat {
    if p in db.aggregates then db.aggregates[p].present else 0
  }

  ghost function StoredTotal(db: Db, p: Pair): nat {
    if p in db.aggregates then db.aggregates[p].total else 0
  }

  /** The section exists and its course belongs to the same college. */
  ghost predicate Reportable(db: Db, sec: SectionId) {
    sec in db.sections && db.CourseVisible(CollegeOf(db, sec), sec)
  }

  /** An event for the pair has been committed but not yet consumed. */
  ghost predicate Owed(w: World, p: Pair) {
    exists e :: (e in w.pending || e in w.unread) && e.Target() == p
  }

  // ----- arithmetic bounds -----

  lemma AtMostOneOpen(db: Db, t: CollegeId, sec: SectionId)
    requires OneOpen(db)
    ensures |db.OpenSessions(t, sec)| <= 1
  {
    var open := db.OpenSessions(t, sec);
    if open != {} {
      var s :| s in open;
      forall s' | s' in open
        ensures s' == s
      {
        assert BothOpen(db.sessions[s], db.sessions[s']);
      }
      assert open == {s};
    }
  }

  /** One record per session and student, one open session: at most one more presence than ended sessions. */
  lemma PresentBound(db: Db, t: CollegeId, p: Pair)
    requires Consistent(db)
    ensures |db.PresentRecords(t, p)| <= |db.EndedSessions(t, p.section)| + 1
  {
    var ended, open := db.EndedSessions(t, p.section), db.OpenSessions(t, p.section);
    InjectionBound(db.PresentRecords(t, p), ended + open, (k: RecordKey) => k.session);
    AtMostOneOpen(db, t, p.section);
    assert |ended + open| <= |ended| + |open|;
  }

  lemma RatioBound(a: real, b: real)
    requires 0.0 <= a <= b + 1.0 && 1.0 <= b
    ensures 0.0 <= a / b <= 2.0
  {
    var q := a / b;
    assert q * b == a;
    assert q > 2.0 ==> q * b > 2.0 * b;
    assert q < 0.0 ==> q * b < 0.0;
  }

  lemma PctBound(present: nat, total: nat)
    requires present <= total + 1
    ensures 0.0 <= Pct(present, total) <= 200.0
    ensures 0 <= Hundredths(present, total) <= 20_000
    ensures total == 0 ==> Hundredths(present, total) == 0
  {
    if total > 0 {
      RatioBound(present as real, total as real);
    }
  }

  ghost predicate RowBounded(row: Aggregate) {
    row.present <= row.total + 1 && 0 <= row.hundredths <= 20_000 && (row.total == 0 ==> row.hundredths == 0)
  }

  lemma RowWithinBounds(t: CollegeId, present: nat, total: nat, at: nat)
    requires present <= total + 1
    ensures FitsNumeric52(Hundredths(present, total))
    ensures RowBounded(Aggregate(t, present, total, Hundredths(present, total), at))
  {
    PctBound(present, total);
  }

  lemma RecountWithinBounds(db: Db, t: CollegeId, p: Pair, at: nat)
    requires Consistent(db)
    ensures FitsNumeric52(RecountOf(db, t, p, at).hundredths) && RowBounded(RecountOf(db, t, p, at))
  {
    PresentBound(db, t, p);
    RowWithinBounds(t, |db.PresentRecords(t, p)|, |db.EndedSessions(t, p.section)|, at);
  }

  /** With the references in order a refresh always goes through. */
  lemma RefreshSucceeds(db: Db, p: Pair)
    requires Consistent(db) && Reportable(db, p.section) && p.student in db.users
    ensures Refreshable(db, CollegeOf(db, p.section), p)
  {
    RecountWithinBounds(db, CollegeOf(db, p.section), p, 0);
  }

  /** A refresh succeeds exactly where the section can be reported on and the student id exists. */
  lemma RefreshableIff(db: Db, t: CollegeId, p: Pair)
    requires Consistent(db)
    ensures Refreshable(db, t, p) <==> p.student in db.users && db.SeesSection(t, p.section) && db.CourseVisible(t, p.section)
  {
    if p.student in db.users && db.SeesSection(t, p.section) && db.CourseVisible(t, p.section) {
      RefreshSucceeds(db, p);
    }
  }

  // ----- what one change does to the counts -----

  /** The pair whose presences the change may alter. */
  ghost function Touched(db: Db, c: Change): Option<Pair> {
    if c.Log? && c.attempt.session in db.sessions && c.attempt.Accepted()
      then Some(Pair(c.attempt.student, db.sessions[c.attempt.session].section))
    else if c.Amend? && c.key.session in db.sessions
      then Some(Pair(c.key.student, db.sessions[c.key.session].section))
    else None
  }

  lemma LogKeepsPresent(db: Db, c: Change, p: Pair)
    requires Legal(db, c) && p.section in db.sections && Touched(db, c) != Some(p) && c.Log?
    ensures Apply(db, c).PresentRecords(CollegeOf(db, p.section), p) == db.PresentRecords(CollegeOf(db, p.section), p)
  {
  }

  lemma AmendKeepsPresent(db: Db, c: Change, p: Pair)
    requires Legal(db, c) && p.section in db.sections && Touched(db, c) != Some(p) && c.Amend?
    ensures Apply(db, c).PresentRecords(CollegeOf(db, p.section), p) == db.PresentRecords(CollegeOf(db, p.section), p)
  {
  }

  lemma WriteKeepsPresent(db: Db, c: Change, p: Pair)
    requires Linked(db) && Legal(db, c) && p.section in db.sections && Touched(db, c) != Some(p) && (c.Log? || c.Amend?)
    ensures Apply(db, c).PresentRecords(CollegeOf(db, p.section), p) == db.PresentRecords(CollegeOf(db, p.section), p)
  {
    if c.Log? { LogKeepsPresent(db, c, p); } else { AmendKeepsPresent(db, c, p); }
  }

  lemma CloseKeepsPresent(db: Db, c: Change, p: Pair)
    requires Linked(db) && Legal(db, c) && p.section in db.sections && c.Close?
    ensures Apply(db, c).PresentRecords(CollegeOf(db, p.section), p) == db.PresentRecords(CollegeOf(db, p.section), p)
  {
  }

  lemma SessionKeepsPresent(db: Db, c: Change, p: Pair)
    requires Linked(db) && Legal(db, c) && p.section in db.sections && (c.NewSession? || c.Recode?)
    ensures Apply(db, c).PresentRecords(CollegeOf(db, p.section), p) == db.PresentRecords(CollegeOf(db, p.section), p)
  {
  }

  lemma RowKeepsPresent(db: Db, c: Change, p: Pair)
    requires Legal(db, c) && p.section in db.sections && !c.Log? && !c.Amend? && !c.Close? && !c.NewSession? && !c.Recode?
    ensures Apply(db, c).PresentRecords(CollegeOf(db, p.section), p) == db.PresentRecords(CollegeOf(db, p.section), p)
  {
    assert Apply(db, c).sessions == db.sessions && Apply(db, c).records == db.records;
  }

  lemma OtherKeepsPresent(db: Db, c: Change, p: Pair)
    requires Linked(db) && Legal(db, c) && p.section in db.sections && !c.Log? && !c.Amend? && !c.Close?
    ensures CollegeOf(Apply(db, c), p.section) == CollegeOf(db, p.section)
    ensures Apply(db, c).PresentRecords(CollegeOf(db, p.section), p) == db.PresentRecords(CollegeOf(db, p.section), p)
  {
    if c.NewSession? || c.Recode? { SessionKeepsPresent(db, c, p); } else { RowKeepsPresent(db, c, p); }
  }

  lemma RecountKept(db: Db, c: Change, p: Pair)
    requires Linked(db) && Legal(db, c) && p.section in db.sections && Touched(db, c) != Some(p)
    ensures Recount(Apply(db, c), p) == Recount(db, p)
  {
    if c.Log? || c.Amend? {
      WriteKeepsPresent(db, c, p);
    } else if c.Close? {
      CloseKeepsPresent(db, c, p);
    } else {
      OtherKeepsPresent(db, c, p);
    }
  }

  lemma EndedGrows(db: Db, later: Db, sec: SectionId)
    requires Evolves(db, later) && sec in db.sections
    ensures EndedCount(db, sec) <= EndedCount(later, sec)
  {
    SubsetCount(db.EndedSessions(CollegeOf(db, sec), sec), later.EndedSessions(CollegeOf(db, sec), sec));
  }

  /** A stored row is within bounds, only exists where reporting is possible, and is at most behind the true total. */
  ghost predicate RowSound(db: Db, p: Pair)
    requires p in db.aggregates
  {
    RowBounded(db.aggregates[p]) && Reportable(db, p.section) && db.aggregates[p].total <= EndedCount(db, p.section)
  }

  ghost predicate RowsSound(db: Db) {
    forall p :: p in db.aggregates ==> RowSound(db, p)
  }

  lemma RefreshWritesRecount(db: Db, p: Pair, row: Aggregate)
    requires Consistent(db) && Legal(db, Refresh(p, row))
    ensures Reportable(db, p.section) && row.college == CollegeOf(db, p.section)
    ensures RowBounded(row) && row.total == EndedCount(db, p.section) && row.present == Recount(db, p)
  {
    RecountWithinBounds(db, row.college, p, row.at);
  }

  lemma WrittenRowSound(db: Db, p: Pair, row: Aggregate)
    requires Reportable(db, p.section) && RowBounded(row) && row.total == EndedCount(db, p.section)
    ensures RowSound(db.(aggregates := db.aggregates[p := row]), p)
  {
    var db', t := db.(aggregates := db.aggregates[p := row]), CollegeOf(db, p.section);
    assert db'.EndedSessions(t, p.section) == db.EndedSessions(t, p.section);
  }

  lemma OldRowSound(db: Db, c: Change, p: Pair)
    requires Linked(db) && Legal(db, c) && p in db.aggregates && RowSound(db, p) && !(c.Refresh? && c.p == p)
    ensures p in Apply(db, c).aggregates && RowSound(Apply(db, c), p)
  {
    ApplyEvolves(db, c);
    EndedGrows(db, Apply(db, c), p.section);
    assert Apply(db, c).aggregates[p] == db.aggregates[p];
  }

  lemma ApplyRowsSound(db: Db, c: Change)
    requires Consistent(db) && Legal(db, c) && RowsSound(db)
    ensures RowsSound(Apply(db, c))
  {
    var db' := Apply(db, c);
    forall p | p in db'.aggregates
      ensures RowSound(db', p)
    {
      if c.Refresh? && c.p == p {
        RefreshWritesRecount(db, p, c.aggregate);
        WrittenRowSound(db, p, c.aggregate);
      } else {
        OldRowSound(db, c, p);
      }
    }
  }

  // ----- how far a write moves the count -----

  predicate Counted(db: Db, k: RecordKey) {
    k in db.records && db.records[k].status.CountsPresent()
  }

  ghost predicate Writes(c: Change, k: RecordKey) {
    (c.Log? && c.attempt.Accepted() && k == RecordKey(c.attempt.session, c.attempt.student)) || (c.Amend? && k == c.key)
  }

  lemma WriteElsewhere(db: Db, c: Change, k: RecordKey, t: CollegeId, p: Pair)
    requires Legal(db, c) && Writes(c, k)
    ensures Apply(db, c).PresentRecords(t, p) - {k} == db.PresentRecords(t, p) - {k}
  {
    var db' := Apply(db, c);
    forall j | j != k
      ensures j in db'.records <==> j in db.records
      ensures j in db.records ==> db'.records[j] == db.records[j]
    {
    }
    assert db'.sessions == db.sessions;
  }

  lemma PresentIffCounted(db: Db, k: RecordKey)
    requires Linked(db) && k.session in db.sessions
    ensures var t, p := db.sessions[k.session].college, Pair(k.student, db.sessions[k.session].section);
      k in db.PresentRecords(t, p) <==> Counted(db, k)
  {
  }

  lemma DropOne(ks: set<RecordKey>, k: RecordKey)
    ensures |ks| == |ks - {k}| + (if k in ks then 1 else 0)
  {
    if k !in ks {
      assert ks - {k} == ks;
    }
  }

  /** An acceptance or an override moves the recount of its own pair by exactly its own record. */
  lemma WriteMovesRecount(db: Db, c: Change, k: RecordKey)
    requires Linked(db) && Legal(db, c) && k.session in db.sessions && Writes(c, k)
    ensures var p, db' := Pair(k.student, db.sessions[k.session].section), Apply(db, c);
      && p.section in db.sections && p.section in db'.sections
      && Recount(db', p) == Recount(db, p) - (if Counted(db, k) then 1 else 0) + (if Counted(db', k) then 1 else 0)
      && (c.Log? ==> Counted(db', k)) && (c.Amend? ==> (Counted(db', k) <==> c.status.OverriddenPresent?))
  {
    var t, p := db.sessions[k.session].college, Pair(k.student, db.sessions[k.session].section);
    ApplyLinked(db, c);
    WriteElsewhere(db, c, k, t, p);
    PresentIffCounted(db, k);
    PresentIffCounted(Apply(db, c), k);
    DropOne(db.PresentRecords(t, p), k);
    DropOne(Apply(db, c).PresentRecords(t, p), k);
  }

  // ----- more presences than ended sessions -----

  /** The student has a counted record of the session. */
  predicate Attended(db: Db, t: CollegeId, p: Pair, s: SessionId) {
    RecordKey(s, p.student) in db.PresentRecords(t, p)
  }

  /** The student is already counted in a session still open and missed none of the ended ones. */
  ghost predicate AheadOfTotal(db: Db, t: CollegeId, p: Pair) {
    && (exists s :: s in db.OpenSessions(t, p.section) && Attended(db, t, p, s))
    && (forall s :: s in db.EndedSessions(t, p.section) ==> Attended(db, t, p, s))
  }

  ghost function AttendedSessions(db: Db, t: CollegeId, p: Pair): set<SessionId> {
    set k | k in db.PresentRecords(t, p) :: k.session
  }

  /** One attended session for each presence. */
  lemma PresencesAreSessions(db: Db, t: CollegeId, p: Pair)
    ensures |AttendedSessions(db, t, p)| == |db.PresentRecords(t, p)|
    ensures forall s :: s in AttendedSessions(db, t, p) <==> Attended(db, t, p, s)
    ensures AttendedSessions(db, t, p) <= db.EndedSessions(t, p.section) + db.OpenSessions(t, p.section)
  {
    var keys, sessions := db.PresentRecords(t, p), AttendedSessions(db, t, p);
    InjectionBound(keys, sessions, (k: RecordKey) => k.session);
    InjectionBound(sessions, keys, (s: SessionId) => RecordKey(s, p.student));
  }

  /** A subset of two disjoint sets, the second at most a singleton, outnumbers the first just when it is all of both. */
  lemma OutnumbersIff<X>(ended: set<X>, open: set<X>, attended: set<X>)
    requires ended !! open && |open| <= 1 && attended <= ended + open
    ensures |attended| > |ended| <==> (exists s :: s in open && s in attended) && ended <= attended
  {
    assert |ended + open| == |ended| + |open|;
    if |attended| > |ended| {
      SubsetCount(attended, ended + open);
      var s :| s in open;
      assert s in attended;
    }
    if s :| s in open && s in attended {
      if ended <= attended {
        SubsetCount(ended + {s}, attended);
      }
    }
  }

  /** A student has more presences than the section has ended sessions exactly while ahead of the total. */
  lemma MorePresencesIff(db: Db, t: CollegeId, p: Pair)
    requires Consistent(db)
    ensures |db.PresentRecords(t, p)| > |db.EndedSessions(t, p.section)| <==> AheadOfTotal(db, t, p)
  {
    PresencesAreSessions(db, t, p);
    AtMostOneOpen(db, t, p.section);
    OutnumbersIff(db.EndedSessions(t, p.section), db.OpenSessions(t, p.section), AttendedSessions(db, t, p));
  }

  lemma QuotientBelow(a: real, n: real, c: real)
    requires 0.0 < n
    ensures a / n < c <==> a < c * n
    ensures a / n > c <==> a > c * n
  {
    var q := a / n;
    assert q * n == a;
    ProductOrder(q, c, n);
    ProductOrder(c, q, n);
  }

  lemma QuotientAbove(a: real, n: real)
    requires 1.0 <= n && 0.0 <= a
    ensures a / n > 1.0 <==> a > n
    ensures a == n + 1.0 ==> (a / n >= 1.00005 <==> n <= 20_000.0)
  {
    QuotientBelow(a, n, 1.0);
    QuotientBelow(a, n, 1.00005);
  }

  lemma PctAbove(present: nat, total: nat)
    requires 0 < total && present <= total + 1
    ensures Pct(present, total) > 100.0 <==> present > total
    ensures Hundredths(present, total) > 10_000 <==> present > total && total <= 20_000
  {
    var a, n := present as real, total as real;
    QuotientAbove(a, n);
    assert Pct(present, total) == a / n * 100.0;
    assert Hundredths(present, total) == (a / n * 10_000.0 + 0.5).Floor;
    if present > total {
      assert a == n + 1.0;
    }
  }

  /**
   The percentage computed by a refresh exceeds 100 exactly when the student is ahead of a positive total. The value
   stored exceeds 100.00 exactly then, too, as long as the two decimals can still show it: up to 20,000 sessions.
   */
  lemma AboveHundredIff(db: Db, t: CollegeId, p: Pair, at: nat)
    requires Consistent(db)
    ensures var present, ended := |db.PresentRecords(t, p)|, |db.EndedSessions(t, p.section)|;
      && (Pct(present, ended) > 100.0 <==> AheadOfTotal(db, t, p) && 0 < ended)
      && (RecountOf(db, t, p, at).hundredths > 10_000 <==> AheadOfTotal(db, t, p) && 0 < ended <= 20_000)
  {
    var present, ended := |db.PresentRecords(t, p)|, |db.EndedSessions(t, p.section)|;
    PresentBound(db, t, p);
    MorePresencesIff(db, t, p);
    if 0 < ended {
      PctAbove(present, ended);
    }
  }
}
