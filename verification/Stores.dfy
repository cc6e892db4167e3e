/** The running system: one object the services update in place. */
module Stores {
  import opened Tables
  import opened Worlds

  class Store {
    var now: nat
    const metric: Metric
    var db: Db
    var codes: map<SessionId, Entry<string>>
    var prevs: map<SessionId, Entry<string>>
    var rates: map<RecordKey, Entry<nat>>
    var pending: multiset<Event>
    var unread: multiset<Event>
    var log: set<Event>
    var alerts: multiset<Alert>
    var active: int
    ghost var issued: map<SessionId, seq<Issue>>

    constructor (metric: Metric)
      ensures State() == Genesis(metric)
    {
      this.metric := metric;
      now, db, active := 0, EMPTY_DB, 0;
      codes, prevs, rates := map[], map[], map[];
      pending, unread, log, alerts := multiset{}, multiset{}, {}, multiset{};
      issued := map[];
    }

    ghost function State(): World
      reads this
    {
      World(now, metric, db, codes, prevs, rates, pending, unread, log, alerts, active, issued)
    }
  }
}
