/** What one scrape makes of the session table, whatever it held before, and what scraping again
    changes. */
module SessionRuns {
  import opened Outcomes
  import opened Sessions

  /** What the table tells connections apart by. */
  datatype Connection = Connection(name: Name, realIP: string, connectedAt: int)

  function Of(c: Client): Connection {
    Connection(c.name, c.realIP, c.connectedAt)
  }

  function RowOf(row: Session): Connection {
    Connection(row.name, row.realIP, row.connectedAt)
  }

  function Find(sessions: seq<Session>, key: Connection): Option<nat> {
    FindActive(sessions, key.name, key.realIP, key.connectedAt)
  }

  predicate Fits(row: Session, key: Connection) {
    row.status.Active? && RowOf(row) == key
  }

  /** Every named client reports when it connected. */
  ghost predicate Timed(clients: seq<Client>) {
    forall k :: 0 <= k < |clients| && clients[k].name != "" ==> clients[k].connectedAt != ZERO_TIME
  }

  /** The last named client of a connection in a list. */
  function LastClient(clients: seq<Client>, key: Connection): (r: Option<Client>)
    ensures r.Some? ==> r.value in clients && r.value.name != "" && Of(r.value) == key
    ensures r.None? ==> forall k :: 0 <= k < |clients| ==> clients[k].name == "" || Of(clients[k]) != key
  {
    if clients == [] then None
    else if clients[|clients| - 1].name != "" && Of(clients[|clients| - 1]) == key then Some(clients[|clients| - 1])
    else LastClient(clients[..|clients| - 1], key)
  }

  lemma FindSame(a: seq<Session>, b: seq<Session>, key: Connection)
    requires |a| <= |b| && forall j :: 0 <= j < |a| ==> Fits(a[j], key) == Fits(b[j], key)
    requires Find(a, key).Some? || forall j :: |a| <= j < |b| ==> !Fits(b[j], key)
    ensures Find(a, key) == Find(b, key)
  {
    hide FindActive;
    if Find(a, key).Some? {
      var i := Find(a, key).value;
      assert Fits(a[i], key);
      forall j | 0 <= j < i ensures !Matches(b[j], key.name, key.realIP, key.connectedAt) {
        assert !Matches(a[j], key.name, key.realIP, key.connectedAt);
        assert !Fits(a[j], key);
      }
      FindActiveUnique(b, i, key.name, key.realIP, key.connectedAt);
    } else {
      forall j | 0 <= j < |b| ensures !Matches(b[j], key.name, key.realIP, key.connectedAt) {
        assert j < |a| ==> !Matches(a[j], key.name, key.realIP, key.connectedAt) && Fits(a[j], key) == Fits(b[j], key);
        assert !Fits(b[j], key);
      }
    }
  }

  // ---------- what scraping a list of clients does to the rows ----------

  /** Each row seen is the first active one of its connection, and the seen rows are those of the
      listed connections, with the counters of the last client listed. */
  ghost predicate SeenRow(sessions: seq<Session>, clients: seq<Client>, id: nat) {
    && id < |sessions| && sessions[id].status.Active?
    && Find(sessions, RowOf(sessions[id])) == Some(id)
    && LastClient(clients, RowOf(sessions[id])).Some?
    && sessions[id].bytesIn == LastClient(clients, RowOf(sessions[id])).value.bytesReceived
    && sessions[id].bytesOut == LastClient(clients, RowOf(sessions[id])).value.bytesSent
  }

  ghost predicate ClientSeen(sessions: seq<Session>, seen: set<nat>, c: Client) {
    exists id :: id in seen && id < |sessions| && RowOf(sessions[id]) == Of(c)
  }

  ghost predicate SeenRows(t: Store, clients: seq<Client>, seen: set<nat>) {
    && (forall id :: id in seen ==> SeenRow(t.sessions, clients, id))
    && (forall k :: 0 <= k < |clients| && clients[k].name != "" ==> ClientSeen(t.sessions, seen, clients[k]))
  }

  /** Rows not seen stay; rows seen change in their counters only; new rows are seen. */
  ghost predicate OnlyCounters(before: seq<Session>, after: seq<Session>, seen: set<nat>) {
    && |before| <= |after|
    && (forall i :: 0 <= i < |before| ==>
          after[i] == if i in seen then Counted(before[i], after[i].bytesIn, after[i].bytesOut) else before[i])
    && (forall i :: |before| <= i < |after| ==> i in seen)
  }

  lemma ClientStep(t: Store, clients: seq<Client>, seen: set<nat>, c: Client, now: int)
    requires SeenRows(t, clients, seen) && c.name != "" && c.connectedAt != ZERO_TIME
    ensures SeenRows(ScrapeClient(t, c, now), clients + [c], seen + {UpsertId(t, c)})
  {
    var t', id := ScrapeClient(t, c, now), UpsertId(t, c);
    var all, seen' := clients + [c], seen + {id};
    assert all[..|clients|] == clients;
    UpsertedRow(t, c, now);
    hide FindActive, ScrapeClient;
    forall i | i in seen' ensures SeenRow(t'.sessions, all, i) {
      if i != id {
        assert SeenRow(t.sessions, clients, i);
        SeenRowStays(t.sessions, t'.sessions, clients, c, i, id);
      }
    }
    hide SeenRow, LastClient, Find;
    forall k | 0 <= k < |all| && all[k].name != "" ensures ClientSeen(t'.sessions, seen', all[k]) {
      if k < |clients| {
        assert ClientSeen(t.sessions, seen, clients[k]);
        var i :| i in seen && i < |t.sessions| && RowOf(t.sessions[i]) == Of(clients[k]);
        assert i in seen' && RowOf(t'.sessions[i]) == Of(clients[k]);
      } else {
        assert id in seen' && RowOf(t'.sessions[id]) == Of(c);
      }
    }
  }

  lemma SeenRowStays(before: seq<Session>, after: seq<Session>, clients: seq<Client>, c: Client, i: nat, id: nat)
    requires SeenRow(before, clients, i) && i != id && |before| <= |after| && id < |after|
    requires forall j :: 0 <= j < |before| && j != id ==> after[j] == before[j]
    requires id < |before| ==> RowOf(before[id]) == RowOf(after[id]) && before[id].status == after[id].status
    requires Find(after, Of(c)) == Some(id)
    ensures SeenRow(after, clients + [c], i)
  {
    hide FindActive;
    assert (clients + [c])[..|clients|] == clients;
    FindSame(before, after, RowOf(before[i]));
    assert RowOf(before[i]) != Of(c);
  }

  /** The row of a timed client after it was scraped, and the other rows. */
  lemma UpsertedRow(t: Store, c: Client, now: int)
    requires c.name != "" && c.connectedAt != ZERO_TIME
    ensures var t', id := ScrapeClient(t, c, now), UpsertId(t, c);
            && id < |t'.sessions| && |t.sessions| <= |t'.sessions| <= |t.sessions| + 1
            && Fits(t'.sessions[id], Of(c)) && Find(t'.sessions, Of(c)) == Some(id)
            && t'.sessions[id].bytesIn == c.bytesReceived && t'.sessions[id].bytesOut == c.bytesSent
            && (forall i :: 0 <= i < |t.sessions| && i != id ==> t'.sessions[i] == t.sessions[i])
            && (id < |t.sessions| ==>
                  && |t'.sessions| == |t.sessions|
                  && t'.sessions[id] == Counted(t.sessions[id], c.bytesReceived, c.bytesSent))
            && (id >= |t.sessions| ==> id == |t.sessions| && Find(t.sessions, Of(c)).None?)
  {
    var t', id := ScrapeClient(t, c, now), UpsertId(t, c);
    hide FindActive;
    FindActiveUnique(t'.sessions, id, c.name, c.realIP, c.connectedAt);
  }

  lemma {:induction false} ScrapedRows(s: Store, clients: seq<Client>, now: int)
    requires Timed(clients)
    ensures SeenRows(ScrapeClients(s, clients, now), clients, Seen(s, clients, now))
    ensures OnlyCounters(s.sessions, ScrapeClients(s, clients, now).sessions, Seen(s, clients, now))
  {
    hide ScrapeClient, UpsertId, SeenRows, OnlyCounters, Timed;
    if clients != [] {
      var most, c := clients[..|clients| - 1], clients[|clients| - 1];
      TimedPrefix(clients);
      ScrapedRows(s, most, now);
      var t, seen := ScrapeClients(s, most, now), Seen(s, most, now);
      assert most + [c] == clients;
      if c.name != "" {
        ClientStep(t, most, seen, c, now);
        CountersStep(s.sessions, t, seen, c, now);
      } else {
        UnnamedIgnored(t, most, seen, c, now);
        assert seen + {} == seen;
      }
    } else {
      NothingScraped(s);
    }
  }

  lemma TimedPrefix(clients: seq<Client>)
    requires Timed(clients) && clients != []
    ensures Timed(clients[..|clients| - 1])
    ensures clients[|clients| - 1].name != "" ==> clients[|clients| - 1].connectedAt != ZERO_TIME
  {
  }

  lemma NothingScraped(s: Store)
    ensures SeenRows(s, [], {}) && OnlyCounters(s.sessions, s.sessions, {})
  {
  }

  lemma CountersStep(before: seq<Session>, t: Store, seen: set<nat>, c: Client, now: int)
    requires OnlyCounters(before, t.sessions, seen) && c.name != "" && c.connectedAt != ZERO_TIME
    ensures OnlyCounters(before, ScrapeClient(t, c, now).sessions, seen + {UpsertId(t, c)})
  {
    UpsertedRow(t, c, now);
    hide ScrapeClient, UpsertId, FindActive;
  }

  lemma UnnamedIgnored(t: Store, clients: seq<Client>, seen: set<nat>, c: Client, now: int)
    requires c.name == "" && SeenRows(t, clients, seen)
    ensures ScrapeClient(t, c, now) == t && SeenRows(t, clients + [c], seen)
  {
    hide FindActive;
    assert (clients + [c])[..|clients|] == clients;
    forall i | i in seen ensures SeenRow(t.sessions, clients + [c], i) { assert SeenRow(t.sessions, clients, i); }
  }

  lemma {:induction false} ClosedRows(s: Store, seen: set<nat>, now: int, n: nat)
    requires n <= |s.sessions|
    ensures var r := CloseMissing(s, seen, now, n);
            && r.samples == s.samples
            && forall i :: 0 <= i < |s.sessions| ==>
                 r.sessions[i] == if i < n && s.sessions[i].status.Active? && i !in seen
                     then ClosedRow(s.sessions[i], now) else s.sessions[i]
  {
    if n > 0 { ClosedRows(s, seen, now, n - 1); }
  }

  // ---------- one scrape ----------

  ghost predicate Listed(clients: seq<Client>, key: Connection) {
    exists k :: 0 <= k < |clients| && clients[k].name != "" && Of(clients[k]) == key
  }

  ghost predicate HasActive(sessions: seq<Session>, key: Connection) {
    exists i :: 0 <= i < |sessions| && Fits(sessions[i], key)
  }

  ghost predicate ActiveDistinct(sessions: seq<Session>) {
    forall i, j :: 0 <= i < j < |sessions| && sessions[i].status.Active? && sessions[j].status.Active? ==>
          RowOf(sessions[i]) != RowOf(sessions[j])
  }

  lemma AfterScrape(s: Store, clients: seq<Client>, now: int)
    requires Timed(clients)
    ensures var r, t, seen := Scrape(s, clients, now), ScrapeClients(s, clients, now), Seen(s, clients, now);
            && |r.sessions| == |t.sessions| && SeenRows(t, clients, seen) && r.samples == t.samples
            && OnlyCounters(s.sessions, t.sessions, seen)
            && (forall i :: 0 <= i < |r.sessions| ==> (r.sessions[i].status.Active? <==> i in seen))
            && (forall i :: 0 <= i < |r.sessions| && (i in seen || t.sessions[i].status.Closed?) ==>
                  r.sessions[i] == t.sessions[i])
  {
    ScrapedRows(s, clients, now);
    var t, seen := ScrapeClients(s, clients, now), Seen(s, clients, now);
    ClosedRows(t, seen, now, |t.sessions|);
    hide FindActive, LastClient;
    forall i | i in seen ensures i < |t.sessions| && t.sessions[i].status.Active? {
      assert SeenRow(t.sessions, clients, i);
    }
  }

  /** After a scrape whose named clients report their connect times, in any order, the active
      sessions are exactly one per listed connection, whatever the table held before. */
  lemma ScrapeTracksClients(s: Store, clients: seq<Client>, now: int)
    requires Timed(clients)
    ensures forall key :: HasActive(Scrape(s, clients, now).sessions, key) <==> Listed(clients, key)
    ensures ActiveDistinct(Scrape(s, clients, now).sessions)
  {
    hide Scrape, ScrapeClients, Seen, OnlyCounters, SeenRow, ClientSeen, LastClient, Find, Timed;
    AfterScrape(s, clients, now);
    var r, t, seen := Scrape(s, clients, now).sessions, ScrapeClients(s, clients, now).sessions, Seen(s, clients, now);
    ActiveArePicked(s, clients, now);
    forall key ensures HasActive(r, key) <==> Listed(clients, key) { TimedPicked(clients, key, now); }
    forall i, j | 0 <= i < j < |r| && r[i].status.Active? && r[j].status.Active? ensures RowOf(r[i]) != RowOf(r[j]) {
      assert SeenRow(t, clients, i) && SeenRow(t, clients, j);
      SeenDistinct(t, clients, i, j);
    }
  }

  lemma SeenIsListed(sessions: seq<Session>, clients: seq<Client>, id: nat)
    requires SeenRow(sessions, clients, id)
    ensures id < |sessions| && Listed(clients, RowOf(sessions[id]))
  {
    hide FindActive;
    assert LastClient(clients, RowOf(sessions[id])).value in clients;
  }

  lemma SeenDistinct(sessions: seq<Session>, clients: seq<Client>, i: nat, j: nat)
    requires SeenRow(sessions, clients, i) && SeenRow(sessions, clients, j) && i != j
    ensures i < |sessions| && j < |sessions| && RowOf(sessions[i]) != RowOf(sessions[j])
  {
    hide FindActive;
  }

  // ---------- clients without a connect time ----------

  /** The connection of the row that a client is found or opened in. */
  function PickedOf(c: Client, now: int): Connection {
    Connection(c.name, c.realIP, PickConnectedAt(c.connectedAt, now))
  }

  ghost predicate Picked(clients: seq<Client>, key: Connection, now: int) {
    exists k :: 0 <= k < |clients| && clients[k].name != "" && PickedOf(clients[k], now) == key
  }

  ghost predicate SomeSeen(sessions: seq<Session>, seen: set<nat>, key: Connection) {
    exists id :: id in seen && id < |sessions| && RowOf(sessions[id]) == key
  }

  /** The rows seen are active and those of the listed clients. */
  ghost predicate SeenPicked(sessions: seq<Session>, clients: seq<Client>, seen: set<nat>, now: int) {
    && (forall id :: id in seen ==>
          id < |sessions| && sessions[id].status.Active? && Picked(clients, RowOf(sessions[id]), now))
    && (forall k :: 0 <= k < |clients| && clients[k].name != "" ==>
          SomeSeen(sessions, seen, PickedOf(clients[k], now)))
  }

  /** Rows keep their connection and status. */
  ghost predicate RowsStay(before: seq<Session>, after: seq<Session>) {
    && |before| <= |after|
    && forall i :: 0 <= i < |before| ==>
         RowOf(after[i]) == RowOf(before[i]) && after[i].status == before[i].status
  }

  lemma TimedPicked(clients: seq<Client>, key: Connection, now: int)
    requires Timed(clients)
    ensures Picked(clients, key, now) <==> Listed(clients, key)
  {
  }

  lemma UpsertedAny(t: Store, c: Client, now: int)
    requires c.name != ""
    ensures var t', id := ScrapeClient(t, c, now), UpsertId(t, c);
            && RowsStay(t.sessions, t'.sessions)
            && |t'.sessions| == |t.sessions| + (if Matched(t, c).None? then 1 else 0)
            && id < |t'.sessions| && Fits(t'.sessions[id], PickedOf(c, now))
  {
    hide FindActive;
  }

  lemma PickedStill(clients: seq<Client>, c: Client, key: Connection, now: int)
    ensures Picked(clients + [c], key, now) <==> Picked(clients, key, now) || (c.name != "" && PickedOf(c, now) == key)
  {
    if k :| 0 <= k < |clients| && clients[k].name != "" && PickedOf(clients[k], now) == key {
      assert (clients + [c])[k] == clients[k];
    }
    if c.name != "" && PickedOf(c, now) == key { assert (clients + [c])[|clients|] == c; }
  }

  lemma SomeSeenStill(before: seq<Session>, after: seq<Session>, seen: set<nat>, seen': set<nat>, key: Connection)
    requires SomeSeen(before, seen, key) && RowsStay(before, after) && seen <= seen'
    ensures SomeSeen(after, seen', key)
  {
    var id :| id in seen && id < |before| && RowOf(before[id]) == key;
    assert id in seen' && RowOf(after[id]) == key;
  }

  lemma PickedStep(t: Store, clients: seq<Client>, seen: set<nat>, c: Client, now: int)
    requires SeenPicked(t.sessions, clients, seen, now) && c.name != ""
    ensures SeenPicked(ScrapeClient(t, c, now).sessions, clients + [c], seen + {UpsertId(t, c)}, now)
  {
    UpsertedAny(t, c, now);
    var after, id := ScrapeClient(t, c, now).sessions, UpsertId(t, c);
    var all, seen' := clients + [c], seen + {id};
    hide ScrapeClient, UpsertId, Matched, Picked, SomeSeen;
    forall i | i in seen'
      ensures i < |after| && after[i].status.Active? && Picked(all, RowOf(after[i]), now)
    {
      PickedStill(clients, c, RowOf(after[i]), now);
    }
    forall k | 0 <= k < |all| && all[k].name != "" ensures SomeSeen(after, seen', PickedOf(all[k], now)) {
      if k < |clients| {
        SomeSeenStill(t.sessions, after, seen, seen', PickedOf(clients[k], now));
      } else {
        SomeSeenIs(after, seen', id);
      }
    }
  }

  lemma SomeSeenIs(sessions: seq<Session>, seen: set<nat>, id: nat)
    requires id in seen && id < |sessions|
    ensures SomeSeen(sessions, seen, RowOf(sessions[id]))
  {
  }

  lemma {:induction false} ScrapedPicked(s: Store, clients: seq<Client>, now: int)
    ensures SeenPicked(ScrapeClients(s, clients, now).sessions, clients, Seen(s, clients, now), now)
    ensures RowsStay(s.sessions, ScrapeClients(s, clients, now).sessions)
  {
    if clients != [] {
      var most, c := clients[..|clients| - 1], clients[|clients| - 1];
      ScrapedPicked(s, most, now);
      var t, seen := ScrapeClients(s, most, now), Seen(s, most, now);
      assert most + [c] == clients;
      hide ScrapeClients, Seen, SeenPicked, UpsertId;
      ScrapedSnoc(s, most, c, now);
      if c.name != "" {
        PickedStep(t, most, seen, c, now);
        UpsertedAny(t, c, now);
        RowsStayOn(s.sessions, t.sessions, ScrapeClient(t, c, now).sessions);
      } else {
        UnnamedPicked(t.sessions, most, seen, c, now);
      }
    }
  }

  lemma ScrapedSnoc(s: Store, clients: seq<Client>, c: Client, now: int)
    ensures var t := ScrapeClients(s, clients, now);
            && ScrapeClients(s, clients + [c], now) == ScrapeClient(t, c, now)
            && Seen(s, clients + [c], now) == Seen(s, clients, now) + (if c.name == "" then {} else {UpsertId(t, c)})
  {
    assert (clients + [c])[..|clients|] == clients;
  }

  lemma RowsStayOn(a: seq<Session>, b: seq<Session>, c: seq<Session>)
    requires RowsStay(a, b) && RowsStay(b, c)
    ensures RowsStay(a, c)
  {
  }

  lemma UnnamedPicked(sessions: seq<Session>, clients: seq<Client>, seen: set<nat>, c: Client, now: int)
    requires SeenPicked(sessions, clients, seen, now) && c.name == ""
    ensures SeenPicked(sessions, clients + [c], seen + {}, now)
  {
    hide Picked, SomeSeen;
    assert seen + {} == seen;
    forall i | i in seen ensures Picked(clients + [c], RowOf(sessions[i]), now) {
      PickedStill(clients, c, RowOf(sessions[i]), now);
    }
  }

  /** After any scrape the active sessions are those of the listed connections, where a client
      without a connect time counts as connected at the time of the scrape. */
  lemma ActiveArePicked(s: Store, clients: seq<Client>, now: int)
    ensures forall key :: HasActive(Scrape(s, clients, now).sessions, key) <==> Picked(clients, key, now)
  {
    ScrapedPicked(s, clients, now);
    var t, seen := ScrapeClients(s, clients, now), Seen(s, clients, now);
    ClosedRows(t, seen, now, |t.sessions|);
    ScrapeIs(s, clients, now);
    hide Scrape, ScrapeClients, Seen, CloseMissing;
    var r := Scrape(s, clients, now).sessions;
    forall key ensures HasActive(r, key) <==> Picked(clients, key, now) {
      if i :| 0 <= i < |r| && Fits(r[i], key) { assert i in seen; }
      if k :| 0 <= k < |clients| && clients[k].name != "" && PickedOf(clients[k], now) == key {
        assert SomeSeen(t.sessions, seen, key);
        var id :| id in seen && id < |t.sessions| && RowOf(t.sessions[id]) == key;
        assert Fits(r[id], key);
      }
    }
  }

  /** How many named clients do not tell when they connected. */
  function Untimed(clients: seq<Client>): nat {
    if clients == [] then 0
    else
      var c := clients[|clients| - 1];
      Untimed(clients[..|clients| - 1]) + if c.name != "" && c.connectedAt == ZERO_TIME then 1 else 0
  }

  lemma {:induction false} UntimedIs(clients: seq<Client>)
    ensures Untimed(clients) == 0 <==> Timed(clients)
  {
    if clients != [] {
      var most, c := clients[..|clients| - 1], clients[|clients| - 1];
      UntimedIs(most);
      if Timed(most) && (c.name != "" ==> c.connectedAt != ZERO_TIME) {
        forall k | 0 <= k < |clients| && clients[k].name != "" ensures clients[k].connectedAt != ZERO_TIME {
          assert k < |most| ==> most[k] == clients[k];
        }
      }
    }
  }

  lemma ActiveStays(before: seq<Session>, after: seq<Session>, key: Connection)
    requires RowsStay(before, after) && HasActive(before, key)
    ensures HasActive(after, key)
  {
    var i :| 0 <= i < |before| && Fits(before[i], key);
    assert Fits(after[i], key);
  }

  /** Clients that have their rows already open no new ones, the others one each. */
  lemma {:induction false} OpensForUntimed(s: Store, clients: seq<Client>, now: int)
    requires forall k :: 0 <= k < |clients| && clients[k].name != "" && clients[k].connectedAt != ZERO_TIME ==>
               HasActive(s.sessions, Of(clients[k]))
    ensures |ScrapeClients(s, clients, now).sessions| == |s.sessions| + Untimed(clients)
  {
    if clients != [] {
      var most, c := clients[..|clients| - 1], clients[|clients| - 1];
      OpensForUntimed(s, most, now);
      ScrapedPicked(s, most, now);
      var t := ScrapeClients(s, most, now);
      hide ScrapeClient, FindActive, SeenPicked, RowsStay, HasActive;
      if c.name != "" {
        UpsertedAny(t, c, now);
        if c.connectedAt != ZERO_TIME {
          ActiveStays(s.sessions, t.sessions, Of(c));
          ActiveIsMatched(t, c);
        }
      } else {
        NamelessIgnored(t, c, now);
      }
    }
  }

  lemma ActiveIsMatched(t: Store, c: Client)
    requires c.connectedAt != ZERO_TIME && HasActive(t.sessions, Of(c))
    ensures Matched(t, c).Some?
  {
    hide FindActive;
    var i :| 0 <= i < |t.sessions| && Fits(t.sessions[i], Of(c));
    assert Matches(t.sessions[i], c.name, c.realIP, c.connectedAt);
  }

  lemma NamelessIgnored(t: Store, c: Client, now: int)
    requires c.name == ""
    ensures ScrapeClient(t, c, now) == t
  {
  }

  // ---------- scraping the same clients again ----------

  function Named(clients: seq<Client>): nat {
    if clients == [] then 0 else Named(clients[..|clients| - 1]) + if clients[|clients| - 1].name == "" then 0 else 1
  }

  /** The same connections, each with the same client listed last. */
  ghost predicate SameClients(a: seq<Client>, b: seq<Client>) {
    forall key :: LastClient(a, key) == LastClient(b, key)
  }

  lemma SameListed(a: seq<Client>, b: seq<Client>, key: Connection)
    requires SameClients(a, b)
    ensures Listed(a, key) <==> Listed(b, key)
  {
    assert LastClient(a, key) == LastClient(b, key);
    if LastClient(a, key).Some? {
      assert LastClient(a, key).value in a && LastClient(b, key).value in b;
    }
  }

  lemma SameTimed(a: seq<Client>, b: seq<Client>)
    requires SameClients(a, b) && Timed(a)
    ensures Timed(b)
  {
    forall k | 0 <= k < |b| && b[k].name != "" ensures b[k].connectedAt != ZERO_TIME {
      assert LastClient(b, Of(b[k])) == LastClient(a, Of(b[k]));
      assert LastClient(a, Of(b[k])).value in a;
    }
  }

  lemma {:induction false} ScrapeAddsSamples(s: Store, clients: seq<Client>, now: int)
    ensures var t := ScrapeClients(s, clients, now);
            t.writes == s.writes && t.writtenFor == s.writtenFor && |t.samples| == |s.samples| + Named(clients)
  {
    if clients != [] { ScrapeAddsSamples(s, clients[..|clients| - 1], now); }
  }

  lemma {:induction false} NoneMissing(s: Store, seen: set<nat>, now: int, n: nat)
    requires n <= |s.sessions| && forall i :: 0 <= i < n && s.sessions[i].status.Active? ==> i in seen
    ensures CloseMissing(s, seen, now, n) == s
  {
    if n > 0 { NoneMissing(s, seen, now, n - 1); }
  }

  lemma FoundBefore(before: seq<Session>, after: seq<Session>, seen: set<nat>, key: Connection)
    requires OnlyCounters(before, after, seen) && HasActive(before, key)
    ensures Find(after, key).Some? && Find(after, key).value < |before|
  {
    var j :| 0 <= j < |before| && Fits(before[j], key);
    assert Fits(after[j], key) && Matches(after[j], key.name, key.realIP, key.connectedAt);
  }

  /** Every listed connection already has its row, so none is inserted. */
  lemma NoRowInserted(before: seq<Session>, t: Store, clients: seq<Client>, seen: set<nat>)
    requires OnlyCounters(before, t.sessions, seen) && SeenRows(t, clients, seen)
    requires forall key :: Listed(clients, key) ==> HasActive(before, key)
    ensures |t.sessions| == |before|
  {
    hide LastClient, FindActive, Listed;
    if |t.sessions| > |before| {
      var i := |before|;
      assert SeenRow(t.sessions, clients, i);
      var key := RowOf(t.sessions[i]);
      SeenIsListed(t.sessions, clients, i);
      FoundBefore(before, t.sessions, seen, key);
      assert false;
    }
  }

  lemma EveryActiveSeen(before: seq<Session>, t: Store, clients: seq<Client>, seen: set<nat>)
    requires OnlyCounters(before, t.sessions, seen) && SeenRows(t, clients, seen) && |t.sessions| == |before|
    requires forall key :: HasActive(before, key) ==> Listed(clients, key)
    requires ActiveDistinct(before)
    ensures forall i :: 0 <= i < |before| ==> (before[i].status.Active? <==> i in seen)
  {
    hide LastClient, FindActive;
    forall i | 0 <= i < |before| ensures before[i].status.Active? <==> i in seen {
      if i in seen { assert SeenRow(t.sessions, clients, i); }
      if before[i].status.Active? {
        assert Fits(before[i], RowOf(before[i]));
        assert HasActive(before, RowOf(before[i]));
        assert Listed(clients, RowOf(before[i]));
        var k :| 0 <= k < |clients| && clients[k].name != "" && Of(clients[k]) == RowOf(before[i]);
        assert ClientSeen(t.sessions, seen, clients[k]);
        var id :| id in seen && id < |t.sessions| && RowOf(t.sessions[id]) == Of(clients[k]);
        assert SeenRow(t.sessions, clients, id);
      }
    }
  }

  lemma SameCounters(before: seq<Session>, t: Store, first: seq<Client>, again: seq<Client>, seen: set<nat>)
    requires OnlyCounters(before, t.sessions, seen) && SeenRows(t, again, seen) && |t.sessions| == |before|
             && SameClients(first, again)
    requires forall i :: i in seen ==> i < |before| && Latest(before, first, i)
    ensures t.sessions == before
  {
    hide LastClient, Find;
    forall i | 0 <= i < |before| ensures t.sessions[i] == before[i] {
      if i in seen {
        assert SeenRow(t.sessions, again, i);
        assert Latest(before, first, i);
        assert LastClient(first, RowOf(before[i])) == LastClient(again, RowOf(before[i]));
      }
    }
  }

  /** The row's counters are those of the last client listed for its connection. */
  ghost predicate Latest(sessions: seq<Session>, clients: seq<Client>, i: nat)
    requires i < |sessions|
  {
    var c := LastClient(clients, RowOf(sessions[i]));
    c.Some? && sessions[i].bytesIn == c.value.bytesReceived && sessions[i].bytesOut == c.value.bytesSent
  }

  lemma ScrapedIsLatest(s: Store, clients: seq<Client>, now: int)
    requires Timed(clients)
    ensures var r := Scrape(s, clients, now).sessions;
            forall i :: 0 <= i < |r| && r[i].status.Active? ==> Latest(r, clients, i)
  {
    hide Scrape, ScrapeClients, Seen, LastClient, Find, Timed, ClientSeen, OnlyCounters;
    AfterScrape(s, clients, now);
    var r, t := Scrape(s, clients, now).sessions, ScrapeClients(s, clients, now).sessions;
    forall i | 0 <= i < |r| && r[i].status.Active? ensures Latest(r, clients, i) { assert SeenRow(t, clients, i); }
  }

  /** Scraping the same clients again, in an order that keeps the last client of each connection
      (the same order, or any order if no connection is listed twice), leaves the session table
      and the sessions written unchanged and adds one sample per named client. */
  lemma RescrapeIsIdle(s: Store, first: seq<Client>, again: seq<Client>, now: int, later: int)
    requires Timed(first) && SameClients(first, again)
    ensures var s1 := Scrape(s, first, now);
            var s2 := Scrape(s1, again, later);
            && s2.sessions == s1.sessions && s2.writes == s1.writes && s2.writtenFor == s1.writtenFor
            && |s2.samples| == |s1.samples| + Named(again)
  {
    hide ScrapeClients, Seen, Timed, SameClients, OnlyCounters, SeenRows, Listed, HasActive, ActiveDistinct,
        Latest, CloseMissing;
    var s1 := Scrape(s, first, now);
    ScrapeTracksClients(s, first, now);
    ScrapedIsLatest(s, first, now);
    hide Scrape;
    SameTimed(first, again);
    forall key ensures Listed(first, key) <==> Listed(again, key) { SameListed(first, again, key); }
    ScrapedRows(s1, again, later);
    var t, seen := ScrapeClients(s1, again, later), Seen(s1, again, later);
    NoRowInserted(s1.sessions, t, again, seen);
    EveryActiveSeen(s1.sessions, t, again, seen);
    SeenBelow(s1.sessions, t, again, seen);
    SameCounters(s1.sessions, t, first, again, seen);
    NoneMissing(t, seen, later, |t.sessions|);
    ScrapeAddsSamples(s1, again, later);
    ScrapeIs(s1, again, later);
  }

  /** A scrape of the same clients opens one session for each named client without a connect time,
      so the session table stays as it is exactly when all named clients have one. */
  lemma RescrapeIdleIff(s: Store, first: seq<Client>, again: seq<Client>, now: int, later: int)
    requires SameClients(first, again)
    ensures var s1 := Scrape(s, first, now);
            && |Scrape(s1, again, later).sessions| == |s1.sessions| + Untimed(again)
            && (Scrape(s1, again, later).sessions == s1.sessions <==> Timed(first))
  {
    var s1 := Scrape(s, first, now);
    ActiveArePicked(s, first, now);
    ScrapeIs(s1, again, later);
    hide Scrape, HasActive, Timed, SameClients, LastClient, CloseMissing;
    forall k | 0 <= k < |again| && again[k].name != "" && again[k].connectedAt != ZERO_TIME
      ensures HasActive(s1.sessions, Of(again[k]))
    {
      ListedThenToo(first, again, again[k], now);
    }
    OpensForUntimed(s1, again, later);
    UntimedIs(again);
    if Timed(first) {
      RescrapeIsIdle(s, first, again, now, later);
    } else if Timed(again) {
      SameBack(first, again);
      SameTimed(again, first);
    }
  }

  lemma SameBack(a: seq<Client>, b: seq<Client>)
    requires SameClients(a, b)
    ensures SameClients(b, a)
  {
    hide LastClient;
    forall key ensures LastClient(b, key) == LastClient(a, key) {
      assert LastClient(a, key) == LastClient(b, key);
    }
  }

  lemma ListedThenToo(first: seq<Client>, again: seq<Client>, c: Client, now: int)
    requires SameClients(first, again) && c in again && c.name != "" && c.connectedAt != ZERO_TIME
    ensures Picked(first, Of(c), now)
  {
    assert LastClient(first, Of(c)) == LastClient(again, Of(c));
    assert LastClient(first, Of(c)).value in first;
  }

  /** A client without a connect time gets a new session at every scrape, and the one before is
      closed and written. */
  lemma UntimedReopens(c: Client, now: int, later: int)
    requires c.name != "" && c.connectedAt == ZERO_TIME
    ensures var s1 := Scrape(Store([], [], [], []), [c], now);
            var s2 := Scrape(s1, [c], later);
            && s1.sessions == [Opened(c, now)]
            && s2.sessions == [ClosedRow(Opened(c, now), later), Opened(c, later)]
            && s2.writes == [WriteOf(ClosedRow(Opened(c, now), later))]
  {
    var s0 := Store([], [], [], []);
    var s1 := Scrape(s0, [c], now);
    OneUntimed(s0, c, now);
    OneUntimed(s1, c, later);
  }

  /** What a scrape of one such client does to a table of at most one row. */
  lemma OneUntimed(s: Store, c: Client, now: int)
    requires c.name != "" && c.connectedAt == ZERO_TIME && |s.sessions| <= 1
    ensures var r := Scrape(s, [c], now);
            && (s.sessions == [] ==> r.sessions == [Opened(c, now)] && r.writes == s.writes)
            && (s.sessions != [] && s.sessions[0].status.Active? ==>
                  && r.sessions == [ClosedRow(s.sessions[0], now), Opened(c, now)]
                  && r.writes == s.writes + [WriteOf(ClosedRow(s.sessions[0], now))])
  {
    var n, t := |s.sessions|, ScrapeClient(s, c, now);
    assert [] + [c] == [c];
    ScrapedSnoc(s, [], c, now);
    assert {} + {n} == {n};
    assert t.sessions == s.sessions + [Opened(c, now)] && t.writes == s.writes;
    ScrapeIs(s, [c], now);
    hide ScrapeClients, Seen, Scrape, ScrapeClient;
    CloseUntil(t, n, now);
  }

  lemma CloseUntil(t: Store, n: nat, now: int)
    requires |t.sessions| == n + 1 && n <= 1
    ensures var r := CloseMissing(t, {n}, now, n + 1);
            && (n == 0 ==> r == t)
            && (n == 1 && t.sessions[0].status.Active? ==>
                  && r.sessions == [ClosedRow(t.sessions[0], now), t.sessions[1]]
                  && r.writes == t.writes + [WriteOf(ClosedRow(t.sessions[0], now))])
  {
    assert CloseMissing(t, {n}, now, 0) == t;
    assert CloseMissing(t, {n}, now, n + 1) == CloseMissing(t, {n}, now, n);
  }

  lemma SeenBelow(before: seq<Session>, t: Store, clients: seq<Client>, seen: set<nat>)
    requires SeenRows(t, clients, seen) && |t.sessions| == |before|
    ensures forall i :: i in seen ==> i < |before|
  {
    hide LastClient, Find;
    forall i | i in seen ensures i < |before| { assert SeenRow(t.sessions, clients, i); }
  }

  lemma ScrapeIs(s: Store, clients: seq<Client>, now: int)
    ensures var t := ScrapeClients(s, clients, now);
            Scrape(s, clients, now) == CloseMissing(t, Seen(s, clients, now), now, |t.sessions|)
  {
  }

  /** Any order will do when no connection is listed twice. */
  lemma AnyOrderIsSame(a: seq<Client>, b: seq<Client>)
    requires multiset(a) == multiset(b)
    requires forall i, j :: 0 <= i < j < |a| && a[i].name != "" && a[j].name != "" ==> Of(a[i]) != Of(a[j])
    ensures SameClients(a, b)
  {
    forall key ensures LastClient(a, key) == LastClient(b, key) {
      if LastClient(a, key).Some? { assert LastClient(a, key).value in multiset(b); }
      if LastClient(b, key).Some? { assert LastClient(b, key).value in multiset(a); }
    }
  }
}
