/**
 The whole system at one moment: the tables, the Redis keys with their expiry, the clock in whole
 seconds, and the event bus.
 */
module Worlds {
  import opened Tables

  const CODE_TTL: nat := 10
  const RATE_TTL: nat := 900

  /** A Redis value with the second at which it stops being served. */
  datatype Entry<+V> = Entry(value: V, expiry: nat)

  predicate Live<K, V>(m: map<K, Entry<V>>, k: K, now: nat) {
    k in m && now < m[k].expiry
  }

  /** An attendance.recorded message. */
  datatype Event = Event(record: RecordKey, session: SessionId, student: UserId, college: CollegeId, section: SectionId,
                         status: Status, at: nat)
  {
    function Target(): Pair {
      Pair(student, section)
    }
  }

  /** A threshold.breached message. */
  datatype Alert = Alert(student: UserId, section: SectionId, college: CollegeId, pct: real, threshold: real)

  /** A code handed to a teacher and when. `issued` is history: no operation reads it. */
  datatype Issue = Issue(code: string, at: nat)

  datatype World = World(
    now: nat,
    metric: Metric,
    db: Db,
    codes: map<SessionId, Entry<string>>,
    prevs: map<SessionId, Entry<string>>,
    rates: map<RecordKey, Entry<nat>>,
    pending: multiset<Event>,  // committed, publication still owed
    unread: multiset<Event>,   // published, not yet consumed
    log: set<Event>,           // everything ever published: may be delivered again
    alerts: multiset<Alert>,
    active: int,               // the ActiveSessions gauge
    issued: map<SessionId, seq<Issue>>)

  ghost function Genesis(metric: Metric): World {
    World(0, metric, EMPTY_DB, map[], map[], map[], multiset{}, multiset{}, {}, multiset{}, 0, map[])
  }

  /** What a failed call tells its caller; StoreError stands for any error of the database itself. */
  datatype Failure = NotFound | Forbidden | Conflict | BadRequest | StoreError

  datatype Result<+T> = Ok(value: T) | Err(failure: Failure)
}
