/**
 What a refresh stores and which alert it sends, for every consistent state, in whole counts of sessions and records
 and with no division.
 */
module RefreshAnswers {
  import opened Prelude
  import opened Tables
  import opened Worlds
  import opened ReportingService
  import opened Consistency
  import opened AggregateCache

  // ----- the counts -----

  /** The sessions of the section that have ended, whoever may see them. */
  ghost function Over(db: Db, sec: SectionId): set<SessionId> {
    set s | s in db.sessions && db.sessions[s].section == sec && db.sessions[s].endedAt != None
  }

  /** The student's records in the section that count as a presence, whoever may see them. */
  ghost function Attendances(db: Db, p: Pair): set<RecordKey> {
    set k | k in db.records && k.student == p.student && k.session in db.sessions && db.sessions[k.session].section == p.section
            && (db.records[k].status == Present || db.records[k].status == OverriddenPresent)
  }

  lemma CountsAreTrue(db: Db, t: CollegeId, p: Pair)
    requires Linked(db) && db.SeesSection(t, p.section)
    ensures db.EndedSessions(t, p.section) == Over(db, p.section)
    ensures db.PresentRecords(t, p) == Attendances(db, p)
  {
  }

  // ----- the percentage -----

  lemma PctExact(present: nat, total: nat)
    requires 0 < total
    ensures Pct(present, total) * total as real == 100.0 * present as real
  {
    var q := present as real / total as real;
    assert q * total as real == present as real;
    assert Pct(present, total) == q * 100.0;
  }

  /** h hundredths are the ones nearest to 10,000 times present over total, halves rounded up. */
  predicate Nearest(h: int, present: nat, total: nat) {
    var twice := 2 * (h * total - 10_000 * present);
    0 < total + twice && twice <= total
  }

  lemma Scaled(d: real, n: real)
    requires 0.0 < n && 0.0 <= d < 1.0
    ensures 0.0 <= d * n < n
  {
    assert (1.0 - d) * n > 0.0;
  }

  lemma NearestReal(y: real, r: real, n: real, a: real, m: real)
    requires 0.0 < n && r <= y + 0.5 < r + 1.0 && a == y * n && m == r * n
    ensures m <= a + 0.5 * n < m + n
  {
    var d := y + 0.5 - r;
    Scaled(d, n);
    var x := d * n;
    assert x == y * n + 0.5 * n - r * n;
    assert x == a + 0.5 * n - m;
  }

  lemma Halves(m: int, a: int, n: int)
    requires m as real <= a as real + 0.5 * n as real < m as real + n as real
    ensures 0 < n + 2 * (m - a) && 2 * (m - a) <= n
  {
  }

  lemma NearestBounds(y: real, h: int, present: nat, total: nat)
    requires 0 < total && y * total as real == 10_000.0 * present as real
    requires h as real <= y + 0.5 < h as real + 1.0
    ensures Nearest(h, present, total)
  {
    var m := h * total;
    assert m as real == h as real * total as real;
    NearestReal(y, h as real, total as real, 10_000.0 * present as real, m as real);
    Halves(m, 10_000 * present, total);
  }

  /** The stored hundredths are the nearest; 0 without a total. */
  lemma HundredthsExact(present: nat, total: nat)
    ensures total > 0 ==> Nearest(Hundredths(present, total), present, total)
    ensures total == 0 ==> Hundredths(present, total) == 0
  {
    if total > 0 {
      var pct := Pct(present, total);
      var y := pct * 100.0;
      PctExact(present, total);
      assert y * total as real == 100.0 * (pct * total as real);
      NearestBounds(y, (y + 0.5).Floor, present, total);
    }
  }

  // ----- what a refresh does -----

  /** A refresh succeeds exactly for an existing student and a section and course of the college. */
  predicate CanRefresh(db: Db, t: CollegeId, p: Pair) {
    && p.student in db.users && p.section in db.sections && db.sections[p.section].college == t
    && db.sections[p.section].course in db.courses && db.courses[db.sections[p.section].course].college == t
  }

  /** It stores the true counts with their percentage, or writes nothing. */
  lemma RefreshStores(w: World, t: CollegeId, p: Pair)
    requires Consistent(w.db)
    ensures var e := RefreshEffect(w, t, p);
      && (e.outcome <==> CanRefresh(w.db, t, p))
      && (!e.outcome ==> e.world == w)
      && (e.outcome ==>
            && p in e.world.db.aggregates
            && var row := e.world.db.aggregates[p];
               && row.college == t && row.at == w.now
               && row.present == |Attendances(w.db, p)| && row.total == |Over(w.db, p.section)|
               && (row.total > 0 ==> Nearest(row.hundredths, row.present, row.total))
               && (row.total == 0 ==> row.hundredths == 0)
               && e.world.db == w.db.(aggregates := w.db.aggregates[p := row])
               && e.world == w.(db := e.world.db, alerts := e.world.alerts))
  {
    RefreshableIff(w.db, t, p);
    if CanRefresh(w.db, t, p) {
      CountsAreTrue(w.db, t, p);
      HundredthsExact(|Attendances(w.db, p)|, |Over(w.db, p.section)|);
    } else {
      assert w.alerts + multiset{} == w.alerts;
    }
  }

  /** The alert states the student's percentage of the ended sessions, below the threshold of the section's course. */
  ghost predicate Due(db: Db, t: CollegeId, p: Pair, al: Alert)
    requires CanRefresh(db, t, p)
  {
    var present, total := |Attendances(db, p)|, |Over(db, p.section)|;
    && al.student == p.student && al.section == p.section && al.college == t
    && 0 < total && al.pct * total as real == 100.0 * present as real
    && db.courses[db.sections[p.section].course].threshold == Some(al.threshold)
    && 100.0 * present as real < al.threshold * total as real
  }

  lemma DueIff(db: Db, t: CollegeId, p: Pair, al: Alert)
    requires Consistent(db) && CanRefresh(db, t, p)
    ensures AlertsOf(db, t, p)[al] == if Due(db, t, p, al) then 1 else 0
  {
    var present, total := |Attendances(db, p)|, |Over(db, p.section)|;
    RefreshableIff(db, t, p);
    CountsAreTrue(db, t, p);
    if 0 < total {
      PctExact(present, total);
      ProductOrder(al.pct, Pct(present, total), total as real);
      ProductOrder(Pct(present, total), al.threshold, total as real);
    }
  }

  /** A refresh sends exactly the alert that is due, once. */
  lemma RefreshAlerts(w: World, t: CollegeId, p: Pair, al: Alert)
    requires Consistent(w.db)
    ensures RefreshEffect(w, t, p).world.alerts[al] - w.alerts[al]
         == if CanRefresh(w.db, t, p) && Due(w.db, t, p, al) then 1 else 0
  {
    RefreshableIff(w.db, t, p);
    if CanRefresh(w.db, t, p) {
      DueIff(w.db, t, p, al);
    }
  }

  // ----- delivery -----

  /** Consuming takes one copy of the message away and refreshes the pair it names, under its college. */
  lemma ConsumeAnswer(w: World, e: Event)
    ensures ConsumeEffect(w, e) == RefreshEffect(w.(unread := w.unread - multiset{e}), e.college, Pair(e.student, e.section)).world
  {
  }

  /** Publishing moves one copy of the event from what is owed to what waits, and remembers it. */
  lemma PublishAnswer(w: World, e: Event)
    requires e in w.pending
    ensures var w' := PublishEffect(w, e);
      && w'.pending[e] == w.pending[e] - 1 && w'.unread[e] == w.unread[e] + 1 && w'.log == w.log + {e}
      && (forall f :: f != e ==> w'.pending[f] == w.pending[f] && w'.unread[f] == w.unread[f])
      && w' == w.(pending := w'.pending, unread := w'.unread, log := w'.log)
  {
  }
}
