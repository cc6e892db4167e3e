/** The aggregate cache and the consumer that refreshes it. */
module ReportingService {
  import opened Prelude
  import opened Tables
  import opened Worlds
  import opened Stores

  function Pct(present: nat, total: nat): real {
    if total > 0 then present as real / total as real * 100.0 else 0.0
  }

  /** The percentage as the NUMERIC(5,2) column keeps it. */
  function Hundredths(present: nat, total: nat): int {
    (Pct(present, total) * 100.0 + 0.5).Floor
  }

  predicate FitsNumeric52(hundredths: int) {
    -100_000 < hundredths < 100_000
  }

  function RecountOf(db: Db, t: CollegeId, p: Pair, now: nat): Aggregate {
    var present, total := |db.PresentRecords(t, p)|, |db.EndedSessions(t, p.section)|;
    Aggregate(t, present, total, Hundredths(present, total), now)
  }

  /** The upsert and the threshold lookup both succeed. */
  predicate Refreshable(db: Db, t: CollegeId, p: Pair) {
    && p.student in db.users && db.SeesSection(t, p.section) && db.CourseVisible(t, p.section)
    && (p in db.aggregates ==> db.aggregates[p].college == t)
    && FitsNumeric52(RecountOf(db, t, p, 0).hundredths)
  }

  predicate Breached(threshold: Option<real>, present: nat, total: nat) {
    threshold.Some? && Pct(present, total) < threshold.value && total > 0
  }

  ghost function RefreshedDb(db: Db, t: CollegeId, p: Pair, now: nat): Db {
    if Refreshable(db, t, p) then db.(aggregates := db.aggregates[p := RecountOf(db, t, p, now)]) else db
  }

  ghost function AlertsOf(db: Db, t: CollegeId, p: Pair): multiset<Alert> {
    if !Refreshable(db, t, p) then multiset{}
    else
      var row, threshold := RecountOf(db, t, p, 0), db.courses[db.sections[p.section].course].threshold;
      if Breached(threshold, row.present, row.total)
        then multiset{Alert(p.student, p.section, t, Pct(row.present, row.total), threshold.value)} else multiset{}
  }

  /** All or nothing: a refresh that cannot look up the course threshold writes no row either. */
  ghost function RefreshEffect(w: World, t: CollegeId, p: Pair): Effect<World, bool>
  {
    Effect(w.(db := RefreshedDb(w.db, t, p, w.now), alerts := w.alerts + AlertsOf(w.db, t, p)), Refreshable(w.db, t, p))
  }

  /** Counts the ended sessions and the student's presences, and the percentage as computed and as stored. */
  method CountAttendance(tx: Db, t: CollegeId, p: Pair) returns (present: nat, total: nat, pct: real, stored: int)
    ensures present == |tx.PresentRecords(t, p)| && total == |tx.EndedSessions(t, p.section)|
    ensures pct == Pct(present, total) && stored == Hundredths(present, total)
  {
    total := |tx.EndedSessions(t, p.section)|;
    present := |tx.PresentRecords(t, p)|;
    pct := 0.0;
    if total > 0 {
      pct := present as real / total as real * 100.0;
    }
    stored := (pct * 100.0 + 0.5).Floor;
  }

  method UpdateAggregate(store: Store, t: CollegeId, student: UserId, sec: SectionId) returns (ok: bool)
    modifies store
    ensures Effect(store.State(), ok) == RefreshEffect(old(store.State()), t, Pair(student, sec))
  {
    var tx := store.db;
    var p := Pair(student, sec);
    var present, total, pct, stored := CountAttendance(tx, t, p);
    assert store.alerts + multiset{} == store.alerts;
    if student !in tx.users || sec !in tx.sections || (p in tx.aggregates && tx.aggregates[p].college != t) || !FitsNumeric52(stored) {
      assert !Refreshable(store.db, t, p);
      return false;
    }
    tx := tx.(aggregates := tx.aggregates[p := Aggregate(t, present, total, stored, store.now)]);
    if !(tx.SeesSection(t, sec) && tx.CourseVisible(t, sec)) {
      assert !Refreshable(store.db, t, p);
      return false;
    }
    assert Refreshable(store.db, t, p);
    var threshold := tx.courses[tx.sections[sec].course].threshold;

    store.db := tx;
    if threshold.Some? && pct < threshold.value && total > 0 {
      store.alerts := store.alerts + multiset{Alert(student, sec, t, pct, threshold.value)};
    }
    ok := true;
  }

  ghost function ConsumeEffect(w: World, e: Event): World {
    RefreshEffect(w.(unread := w.unread - multiset{e}), e.college, e.Target()).world
  }

  /** One turn of the consumer loop: take a message, refresh its aggregate, drop it whatever happens. */
  method ConsumeOne(store: Store, e: Event)
    modifies store
    ensures store.State() == ConsumeEffect(old(store.State()), e)
  {
    store.unread := store.unread - multiset{e};
    var _ := UpdateAggregate(store, e.college, e.student, e.section);
  }

  ghost function PublishEffect(w: World, e: Event): World {
    var due := e in w.pending;
    w.(pending := if due then w.pending - multiset{e} else w.pending,
       unread := if due then w.unread + multiset{e} else w.unread,
       log := if due then w.log + {e} else w.log)
  }

  method PublishOne(store: Store, e: Event)
    modifies store
    ensures store.State() == PublishEffect(old(store.State()), e)
  {
    if e in store.pending {
      store.pending := store.pending - multiset{e};
      store.unread := store.unread + multiset{e};
      store.log := store.log + {e};
    }
  }
}
