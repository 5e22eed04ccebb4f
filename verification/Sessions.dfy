/** The session table: scrapes of the status log open, update and close sessions, and the
    disconnect hook closes them too. Each operation is a function of the tables and a method that
    performs it. */
module Sessions {
  import opened Outcomes

  type Name = string

  datatype Status = Active | Closed

  /** A row of the session table; its position is its id. Times count nanoseconds. */
  datatype Session = Session(
    name: Name, realIP: string, virtualIP: string, connectedAt: int, disconnectedAt: int,
    bytesIn: int, bytesOut: int, durationS: int, status: Status)

  /** A client of the parsed status log. */
  datatype Client = Client(name: Name, realIP: string, virtualIP: string, connectedAt: int, bytesReceived: int,
                           bytesSent: int)

  datatype Sample = Sample(session: nat, name: Name, virtualIP: string, realIP: string, bytesIn: int,
                           bytesOut: int, at: int)

  /** A completed session as handed to `WriteSession`. */
  datatype Write = Write(name: Name, realIP: string, virtualIP: string, bytesIn: int, bytesOut: int,
                         durationS: int, at: int)

  datatype Payload = Payload(name: Name, realIP: string, virtualIP: string, connectedAt: int, bytesIn: int,
                             bytesOut: int, durationS: int)

  /** The tables, the `WriteSession` calls so far and the row that each of them was made for. */
  datatype Store = Store(sessions: seq<Session>, samples: seq<Sample>, writes: seq<Write>, writtenFor: seq<nat>)

  const SECOND := 1_000_000_000
  const ZERO_TIME := -62_135_596_800 * SECOND

  /** Whole seconds, truncated toward zero. */
  function Seconds(d: int): int {
    if d >= 0 then d / SECOND else -(-d / SECOND)
  }

  // ---------- lookups ----------

  predicate Matches(row: Session, name: Name, realIP: string, connectedAt: int) {
    row.status.Active? && row.name == name && row.realIP == realIP && row.connectedAt == connectedAt
  }

  /** The first matching active row. */
  function FindActive(sessions: seq<Session>, name: Name, realIP: string, connectedAt: int): (r: Option<nat>)
    ensures r.Some? ==> r.value < |sessions| && Matches(sessions[r.value], name, realIP, connectedAt)
    ensures forall j :: 0 <= j < (if r.Some? then r.value else |sessions|) ==>
              !Matches(sessions[j], name, realIP, connectedAt)
  {
    if sessions == [] then None
    else
      var earlier := FindActive(sessions[..|sessions| - 1], name, realIP, connectedAt);
      if earlier.Some? then earlier
      else if Matches(sessions[|sessions| - 1], name, realIP, connectedAt) then Some(|sessions| - 1)
      else None
  }

  /** The active row of a name that connected last, the first of those. */
  function Newest(sessions: seq<Session>, name: Name): (r: Option<nat>)
    ensures r.Some? ==> r.value < |sessions| && sessions[r.value].status.Active? && sessions[r.value].name == name
    ensures r.Some? ==> forall j :: 0 <= j < |sessions| && sessions[j].status.Active? && sessions[j].name == name ==>
              sessions[j].connectedAt <= sessions[r.value].connectedAt
                  && (sessions[j].connectedAt == sessions[r.value].connectedAt ==> r.value <= j)
    ensures r.None? ==> forall j :: 0 <= j < |sessions| ==> !(sessions[j].status.Active? && sessions[j].name == name)
  {
    if sessions == [] then None
    else
      var earlier, last := Newest(sessions[..|sessions| - 1], name), |sessions| - 1;
      if sessions[last].status.Active? && sessions[last].name == name
         && (earlier.None? || sessions[last].connectedAt > sessions[earlier.value].connectedAt)
      then Some(last) else earlier
  }

  // ---------- a scrape ----------

  function PickConnectedAt(reported: int, now: int): int {
    if reported == ZERO_TIME then now else reported
  }

  function Matched(s: Store, c: Client): Option<nat> {
    if c.connectedAt != ZERO_TIME then FindActive(s.sessions, c.name, c.realIP, c.connectedAt) else None
  }

  function Opened(c: Client, now: int): Session {
    Session(c.name, c.realIP, c.virtualIP, PickConnectedAt(c.connectedAt, now), ZERO_TIME, c.bytesReceived,
            c.bytesSent, 0, Active)
  }

  /** The row of a named client, inserted if none matches. */
  function UpsertId(s: Store, c: Client): nat {
    if Matched(s, c).Some? then Matched(s, c).value else |s.sessions|
  }

  function Upsert(s: Store, c: Client, now: int): (r: Store)
    ensures UpsertId(s, c) < |r.sessions|
  {
    if Matched(s, c).Some? then s else s.(sessions := s.sessions + [Opened(c, now)])
  }

  function Counted(row: Session, bytesIn: int, bytesOut: int): Session {
    row.(bytesIn := bytesIn, bytesOut := bytesOut)
  }

  function ScrapeClient(s: Store, c: Client, now: int): Store {
    if c.name == "" then s
    else
      var id, t := UpsertId(s, c), Upsert(s, c, now);
      t.(samples := t.samples + [Sample(id, c.name, c.virtualIP, c.realIP, c.bytesReceived, c.bytesSent, now)],
         sessions := t.sessions[id := Counted(t.sessions[id], c.bytesReceived, c.bytesSent)])
  }

  function ScrapeClients(s: Store, clients: seq<Client>, now: int): Store {
    if clients == [] then s
    else ScrapeClient(ScrapeClients(s, clients[..|clients| - 1], now), clients[|clients| - 1], now)
  }

  /** The rows that the clients were found or opened in. */
  function Seen(s: Store, clients: seq<Client>, now: int): set<nat> {
    if clients == [] then {}
    else
      var t, c := ScrapeClients(s, clients[..|clients| - 1], now), clients[|clients| - 1];
      Seen(s, clients[..|clients| - 1], now) + if c.name == "" then {} else {UpsertId(t, c)}
  }

  function ClosedRow(row: Session, now: int): Session {
    row.(status := Closed, disconnectedAt := now, durationS := Seconds(now - row.connectedAt))
  }

  function WriteOf(row: Session): Write {
    Write(row.name, row.realIP, row.virtualIP, row.bytesIn, row.bytesOut, row.durationS, row.disconnectedAt)
  }

  function CloseMissing(s: Store, seen: set<nat>, now: int, n: nat): (r: Store)
    requires n <= |s.sessions|
    ensures |r.sessions| == |s.sessions|
  {
    if n == 0 then s
    else
      var t := CloseMissing(s, seen, now, n - 1);
      if t.sessions[n - 1].status.Closed? || n - 1 in seen then t
      else
        var row := ClosedRow(t.sessions[n - 1], now);
        t.(sessions := t.sessions[n - 1 := row], writes := t.writes + [WriteOf(row)],
           writtenFor := t.writtenFor + [n - 1])
  }

  function Scrape(s: Store, clients: seq<Client>, now: int): Store {
    var t := ScrapeClients(s, clients, now);
    CloseMissing(t, Seen(s, clients, now), now, |t.sessions|)
  }

  // ---------- the disconnect hook ----------

  function Selected(s: Store, p: Payload): (r: Option<nat>)
    ensures r.Some? ==> r.value < |s.sessions| && s.sessions[r.value].status.Active?
  {
    if p.connectedAt > 0 && FindActive(s.sessions, p.name, p.realIP, p.connectedAt * SECOND).Some?
    then FindActive(s.sessions, p.name, p.realIP, p.connectedAt * SECOND)
    else Newest(s.sessions, p.name)
  }

  function ClosedByHook(row: Session, p: Payload, now: int): Session {
    row.(bytesIn := p.bytesIn, bytesOut := p.bytesOut, durationS := p.durationS, disconnectedAt := now,
         status := Closed,
         realIP := if p.realIP != "" then p.realIP else row.realIP,
         virtualIP := if p.virtualIP != "" then p.virtualIP else row.virtualIP)
  }

  /** The record inserted when no session of the name is active. */
  function RecordOf(p: Payload, now: int): Session {
    Session(p.name, p.realIP, p.virtualIP, now - p.durationS * SECOND, now, p.bytesIn, p.bytesOut, p.durationS, Closed)
  }

  function Hook(s: Store, p: Payload, now: int): Result<Store, string> {
    if p.name == "" then Err("missing common_name")
    else
      var id := Selected(s, p);
      if id.None? then
        var row := RecordOf(p, now);
        Ok(s.(sessions := s.sessions + [row], writes := s.writes + [WriteOf(row)],
              writtenFor := s.writtenFor + [|s.sessions|]))
      else
        var row := ClosedByHook(s.sessions[id.value], p, now);
        Ok(s.(sessions := s.sessions[id.value := row], writes := s.writes + [WriteOf(row)],
              writtenFor := s.writtenFor + [id.value]))
  }

  // ---------- the operations as performed ----------

  // ---------- field by field ----------

  /** The session written is the row's, at the time of the call. */
  ghost predicate Written(w: Write, row: Session, now: int) {
    && w.name == row.name && w.realIP == row.realIP && w.virtualIP == row.virtualIP
    && w.bytesIn == row.bytesIn && w.bytesOut == row.bytesOut && w.durationS == row.durationS && w.at == now
  }

  /** The connection a hook tells of, its time in whole seconds. */
  ghost predicate IsConnection(row: Session, p: Payload) {
    && row.status == Active && row.name == p.name && row.realIP == p.realIP
    && p.connectedAt > 0 && row.connectedAt == p.connectedAt * 1_000_000_000
  }

  ghost predicate IsOfName(row: Session, p: Payload) {
    row.status == Active && row.name == p.name
  }

  /** The first active row of the connection, or without one the active row of the name that
      connected last, the first of those. */
  ghost predicate IsHooked(sessions: seq<Session>, p: Payload, i: nat) {
    && i < |sessions|
    && if exists j :: 0 <= j < |sessions| && IsConnection(sessions[j], p)
       then IsConnection(sessions[i], p) && forall j :: 0 <= j < i ==> !IsConnection(sessions[j], p)
       else
         && IsOfName(sessions[i], p)
         && forall j :: 0 <= j < |sessions| && IsOfName(sessions[j], p) ==>
              && sessions[j].connectedAt <= sessions[i].connectedAt
              && (j < i ==> sessions[j].connectedAt < sessions[i].connectedAt)
  }

  /** A row closed by a hook has its final counters and duration; an empty address of the payload
      leaves the row's. */
  ghost predicate HookClosed(row: Session, closed: Session, p: Payload, now: int) {
    && closed.name == row.name && closed.connectedAt == row.connectedAt
    && closed.realIP == (if p.realIP == "" then row.realIP else p.realIP)
    && closed.virtualIP == (if p.virtualIP == "" then row.virtualIP else p.virtualIP)
    && closed.bytesIn == p.bytesIn && closed.bytesOut == p.bytesOut && closed.durationS == p.durationS
    && closed.disconnectedAt == now && closed.status == Closed
  }

  /** A record of a session that nobody saw active. */
  ghost predicate HookRecorded(row: Session, p: Payload, now: int) {
    && row.name == p.name && row.realIP == p.realIP && row.virtualIP == p.virtualIP
    && row.connectedAt == now - p.durationS * 1_000_000_000 && row.disconnectedAt == now
    && row.bytesIn == p.bytesIn && row.bytesOut == p.bytesOut && row.durationS == p.durationS && row.status == Closed
  }

  /** What a hook of a named client leaves. */
  ghost predicate HookDone(before: Store, after: Store, p: Payload, now: int) {
    var n := |before.sessions|;
    && after.samples == before.samples
    && |after.writes| == |before.writes| + 1 && after.writes[..|before.writes|] == before.writes
    && if exists j :: 0 <= j < n && IsOfName(before.sessions[j], p) then
         exists i :: IsHooked(before.sessions, p, i) && HookedRow(before, after, p, now, i)
       else
         && |after.sessions| == n + 1 && after.sessions[..n] == before.sessions
         && HookRecorded(after.sessions[n], p, now)
         && Written(after.writes[|before.writes|], after.sessions[n], now)
  }

  ghost predicate HookedRow(before: Store, after: Store, p: Payload, now: int, i: nat)
    requires |after.writes| == |before.writes| + 1
  {
    && |after.sessions| == |before.sessions| && i < |before.sessions|
    && (forall j :: 0 <= j < |before.sessions| && j != i ==> after.sessions[j] == before.sessions[j])
    && HookClosed(before.sessions[i], after.sessions[i], p, now)
    && Written(after.writes[|before.writes|], after.sessions[i], now)
  }

  lemma SelectedIs(s: Store, p: Payload)
    ensures Selected(s, p).Some? <==> exists j :: 0 <= j < |s.sessions| && IsOfName(s.sessions[j], p)
    ensures Selected(s, p).Some? ==> IsHooked(s.sessions, p, Selected(s, p).value)
  {
    hide FindActive, Newest;
    forall j | 0 <= j < |s.sessions| && p.connectedAt > 0
      ensures IsConnection(s.sessions[j], p) <==> Matches(s.sessions[j], p.name, p.realIP, p.connectedAt * SECOND)
    {
    }
    if j :| 0 <= j < |s.sessions| && IsConnection(s.sessions[j], p) { assert IsOfName(s.sessions[j], p); }
  }

  /** A hook closes the row it is about, or without an active row of its name inserts a closed one,
      and writes that session. */
  lemma HookIs(s: Store, p: Payload, now: int)
    ensures Hook(s, p, now) == Err("missing common_name") <==> p.name == ""
    ensures p.name != "" ==> Hook(s, p, now).Ok? && HookDone(s, Hook(s, p, now).value, p, now)
  {
    hide Selected;
    SelectedIs(s, p);
    if p.name != "" && Selected(s, p).Some? {
      assert HookedRow(s, Hook(s, p, now).value, p, now, Selected(s, p).value);
    }
  }

  /** The row that a client without an active row gets; a missing connect time is the scrape's. */
  ghost predicate OpenedFor(row: Session, c: Client, now: int) {
    && row.name == c.name && row.realIP == c.realIP && row.virtualIP == c.virtualIP
    && row.connectedAt == (if c.connectedAt == -62_135_596_800_000_000_000 then now else c.connectedAt)
    && row.disconnectedAt == -62_135_596_800_000_000_000
    && row.bytesIn == c.bytesReceived && row.bytesOut == c.bytesSent && row.durationS == 0 && row.status == Active
  }

  ghost predicate IsClientRow(row: Session, c: Client) {
    && row.status == Active && row.name == c.name && row.realIP == c.realIP && row.connectedAt == c.connectedAt
    && c.connectedAt != -62_135_596_800_000_000_000
  }

  ghost predicate SampleOf(x: Sample, c: Client, id: nat, now: int) {
    && x.session == id && x.name == c.name && x.virtualIP == c.virtualIP && x.realIP == c.realIP
    && x.bytesIn == c.bytesReceived && x.bytesOut == c.bytesSent && x.at == now
  }

  /** The first active row of the client with its counters, or a new row at the end. */
  ghost predicate ClientRowIn(before: seq<Session>, after: seq<Session>, c: Client, now: int, id: nat) {
    if exists j :: 0 <= j < |before| && IsClientRow(before[j], c) then
      && id < |before| == |after| && IsClientRow(before[id], c)
      && (forall j :: 0 <= j < id ==> !IsClientRow(before[j], c))
      && (forall j :: 0 <= j < |before| && j != id ==> after[j] == before[j])
      && after[id] == before[id].(bytesIn := after[id].bytesIn, bytesOut := after[id].bytesOut)
      && after[id].bytesIn == c.bytesReceived && after[id].bytesOut == c.bytesSent
    else id == |before| && |after| == id + 1 && after[..id] == before && OpenedFor(after[id], c, now)
  }

  /** A named client is scraped into its row and leaves a sample of it. */
  lemma ScrapeClientIs(s: Store, c: Client, now: int)
    ensures c.name == "" ==> ScrapeClient(s, c, now) == s
    ensures c.name != "" ==>
              var t, id := ScrapeClient(s, c, now), UpsertId(s, c);
              && ClientRowIn(s.sessions, t.sessions, c, now, id) && t.writes == s.writes
              && |t.samples| == |s.samples| + 1 && t.samples[..|s.samples|] == s.samples
              && SampleOf(t.samples[|s.samples|], c, id, now)
  {
    hide FindActive;
    forall j | 0 <= j < |s.sessions| && c.connectedAt != ZERO_TIME
      ensures IsClientRow(s.sessions[j], c) <==> Matches(s.sessions[j], c.name, c.realIP, c.connectedAt)
    {
    }
  }

  /** A row the scrape closes keeps all but status, end and duration, in seconds truncated. */
  ghost predicate StaleClosed(row: Session, closed: Session, now: int) {
    var elapsed, d := now - row.connectedAt, closed.durationS;
    && closed == row.(status := Closed, disconnectedAt := now, durationS := d)
    && (elapsed >= 0 ==> d * 1_000_000_000 <= elapsed < (d + 1) * 1_000_000_000)
    && (elapsed < 0 ==> (d - 1) * 1_000_000_000 < elapsed <= d * 1_000_000_000)
  }

  ghost predicate Missing(s: Store, seen: set<nat>, i: nat) {
    i < |s.sessions| && s.sessions[i].status == Active && i !in seen
  }

  lemma StaleClosedIs(row: Session, now: int)
    ensures StaleClosed(row, ClosedRow(row, now), now)
  {
  }

  ghost predicate RowsClosed(s: Store, t: Store, seen: set<nat>, now: int, n: nat) {
    && |t.sessions| == |s.sessions|
    && forall i :: 0 <= i < |s.sessions| ==>
         if i < n && Missing(s, seen, i) then StaleClosed(s.sessions[i], t.sessions[i], now)
         else t.sessions[i] == s.sessions[i]
  }

  /** The writes since `s` are those of the missing rows below `n`, in order. */
  ghost predicate RowsWritten(s: Store, t: Store, seen: set<nat>, now: int, n: nat) {
    var w := |s.writes|;
    && |t.writes| == |t.writtenFor| && w <= |t.writes| && w == |s.writtenFor|
    && t.writes[..w] == s.writes && t.writtenFor[..w] == s.writtenFor
    && (forall k :: w <= k < |t.writes| ==> WriteOfMissing(s, t, seen, now, n, k))
    && (forall k, l :: w <= k < l < |t.writes| ==> t.writtenFor[k] < t.writtenFor[l])
    && (forall i :: 0 <= i < n && Missing(s, seen, i) ==> i in t.writtenFor[w..])
  }

  ghost predicate WriteOfMissing(s: Store, t: Store, seen: set<nat>, now: int, n: nat, k: nat)
    requires k < |t.writes| == |t.writtenFor|
  {
    && t.writtenFor[k] < n && Missing(s, seen, t.writtenFor[k]) && t.writtenFor[k] < |t.sessions|
    && Written(t.writes[k], t.sessions[t.writtenFor[k]], now)
  }

  lemma CloseStep(s: Store, seen: set<nat>, now: int, n: nat)
    requires n < |s.sessions| && CloseMissing(s, seen, now, n).sessions[n] == s.sessions[n]
    ensures var t, r := CloseMissing(s, seen, now, n), CloseMissing(s, seen, now, n + 1);
            var closed := ClosedRow(s.sessions[n], now);
            r == if Missing(s, seen, n)
                 then t.(sessions := t.sessions[n := closed], writes := t.writes + [WriteOf(closed)],
                         writtenFor := t.writtenFor + [n])
                 else t
  {
    hide ClosedRow, WriteOf;
  }

  lemma WrittenStep(s: Store, t: Store, r: Store, seen: set<nat>, now: int, n: nat, m: nat, closed: Session,
                    write: Write)
    requires RowsWritten(s, t, seen, now, n) && n < |s.sessions| == |t.sessions| && Missing(s, seen, n) && m == n + 1
    requires r == t.(sessions := t.sessions[n := closed], writes := t.writes + [write],
                     writtenFor := t.writtenFor + [n])
    requires Written(write, closed, now)
    ensures RowsWritten(s, r, seen, now, m)
  {
    hide Missing, Written;
    var w := |s.writes|;
    assert r.writtenFor[w..] == t.writtenFor[w..] + [n];
    assert r.writes[..w] == t.writes[..w] && r.writtenFor[..w] == t.writtenFor[..w];
    forall k | w <= k < |r.writes| ensures WriteOfMissing(s, r, seen, now, m, k) {
      if k < |t.writes| { assert WriteOfMissing(s, t, seen, now, n, k); }
    }
    forall k, l | w <= k < l < |r.writes| ensures r.writtenFor[k] < r.writtenFor[l] {
      assert WriteOfMissing(s, t, seen, now, n, k);
    }
  }

  lemma NotWritten(s: Store, t: Store, seen: set<nat>, now: int, n: nat, m: nat)
    requires RowsWritten(s, t, seen, now, n) && !Missing(s, seen, n) && m == n + 1
    ensures RowsWritten(s, t, seen, now, m)
  {
    hide Missing, Written;
    forall k | |s.writes| <= k < |t.writes| ensures WriteOfMissing(s, t, seen, now, m, k) {
      assert WriteOfMissing(s, t, seen, now, n, k);
    }
  }

  /** Of the first `n` rows exactly the missing ones are closed, and each is written once, in order. */
  lemma {:induction false} CloseMissingIs(s: Store, seen: set<nat>, now: int, n: nat)
    requires n <= |s.sessions| && |s.writes| == |s.writtenFor|
    ensures var t := CloseMissing(s, seen, now, n);
            t.samples == s.samples && RowsClosed(s, t, seen, now, n) && RowsWritten(s, t, seen, now, n)
  {
    hide ClosedRow, WriteOf, StaleClosed, Missing, RowsWritten, RowsClosed, Written, CloseMissing;
    if n > 0 {
      CloseMissingIs(s, seen, now, n - 1);
      var row, t, r := s.sessions[n - 1], CloseMissing(s, seen, now, n - 1), CloseMissing(s, seen, now, n);
      RowStill(s, t, seen, now, n - 1);
      CloseStep(s, seen, now, n - 1);
      ClosedTime(row, now);
      RowStep(s, t, r, seen, now, n - 1, n);
      if Missing(s, seen, n - 1) {
        WrittenStep(s, t, r, seen, now, n - 1, n, ClosedRow(row, now), WriteOf(ClosedRow(row, now)));
      } else {
        NotWritten(s, t, seen, now, n - 1, n);
      }
    } else {
      NothingClosed(s, seen, now);
    }
  }

  lemma RowStill(s: Store, t: Store, seen: set<nat>, now: int, n: nat)
    requires RowsClosed(s, t, seen, now, n) && n < |s.sessions|
    ensures t.sessions[n] == s.sessions[n]
  {
  }

  lemma RowStep(s: Store, t: Store, r: Store, seen: set<nat>, now: int, n: nat, m: nat)
    requires RowsClosed(s, t, seen, now, n) && n < |s.sessions| && m == n + 1
    requires r.sessions == if Missing(s, seen, n) then t.sessions[n := ClosedRow(s.sessions[n], now)] else t.sessions
    ensures RowsClosed(s, r, seen, now, m)
  {
    StaleClosedIs(s.sessions[n], now);
    hide ClosedRow, StaleClosed, Missing;
  }

  lemma NothingClosed(s: Store, seen: set<nat>, now: int)
    requires |s.writes| == |s.writtenFor|
    ensures CloseMissing(s, seen, now, 0) == s && RowsClosed(s, s, seen, now, 0) && RowsWritten(s, s, seen, now, 0)
  {
  }

  lemma ClosedTime(row: Session, now: int)
    ensures Written(WriteOf(ClosedRow(row, now)), ClosedRow(row, now), now)
  {
  }

  class Database {
    var sessions: seq<Session>
    var samples: seq<Sample>
    var writes: seq<Write>
    ghost var writtenFor: seq<nat>

    ghost function View(): Store
      reads this
    {
      Store(sessions, samples, writes, writtenFor)
    }

    constructor ()
      ensures View() == Store([], [], [], [])
    {
      sessions, samples, writes, writtenFor := [], [], [], [];
    }

    method FindActiveSession(name: Name, realIP: string, connectedAt: int) returns (r: Option<nat>)
      ensures r == FindActive(sessions, name, realIP, connectedAt)
    {
      hide Matches;
      for i := 0 to |sessions|
        invariant FindActive(sessions[..i], name, realIP, connectedAt).None?
      {
        assert sessions[..i + 1][..i] == sessions[..i];
        if Matches(sessions[i], name, realIP, connectedAt) {
          FindActiveStays(sessions, i, name, realIP, connectedAt);
          return Some(i);
        }
      }
      assert sessions[..|sessions|] == sessions;
      return None;
    }

    method UpsertSession(c: Client, now: int) returns (r: Result<nat, string>)
      modifies this`sessions
      ensures r == if c.name == "" then Err("empty common name") else Ok(UpsertId(old(View()), c))
      ensures View() == if c.name == "" then old(View()) else Upsert(old(View()), c, now)
    {
      if c.name == "" { return Err("empty common name"); }
      if c.connectedAt != ZERO_TIME {
        var existing := FindActiveSession(c.name, c.realIP, c.connectedAt);
        if existing.Some? { return Ok(existing.value); }
      }
      sessions := sessions + [Session(c.name, c.realIP, c.virtualIP, PickConnectedAt(c.connectedAt, now), ZERO_TIME,
                                      c.bytesReceived, c.bytesSent, 0, Active)];
      return Ok(|sessions| - 1);
    }

    method CloseMissingSessions(seen: set<nat>, now: int)
      modifies this
      ensures View() == CloseMissing(old(View()), seen, now, |old(sessions)|)
    {
      var i := 0;
      ghost var start := View();
      while i < |sessions|
        invariant |sessions| == |start.sessions| && 0 <= i <= |sessions| && View() == CloseMissing(start, seen, now, i)
      {
        if sessions[i].status.Active? && i !in seen {
          var row := sessions[i].(status := Closed, disconnectedAt := now,
                                  durationS := Seconds(now - sessions[i].connectedAt));
          sessions := sessions[i := row];
          writes := writes + [Write(row.name, row.realIP, row.virtualIP, row.bytesIn, row.bytesOut,
                                    row.durationS, now)];
          writtenFor := writtenFor + [i];
        }
        i := i + 1;
      }
    }

    method ScrapeOnce(clients: seq<Client>, now: int)
      modifies this
      ensures View() == Scrape(old(View()), clients, now)
    {
      hide CloseMissing, UpsertId, Upsert;
      ghost var start := View();
      var seen: set<nat> := {};
      for k := 0 to |clients|
        invariant View() == ScrapeClients(start, clients[..k], now) && seen == Seen(start, clients[..k], now)
      {
        assert clients[..k + 1][..k] == clients[..k];
        var c := clients[k];
        var session := UpsertSession(c, now);
        if session.Ok? {
          var id := session.value;
          seen := seen + {id};
          samples := samples + [Sample(id, c.name, c.virtualIP, c.realIP, c.bytesReceived, c.bytesSent, now)];
          sessions := sessions[id := sessions[id].(bytesIn := c.bytesReceived, bytesOut := c.bytesSent)];
        }
      }
      assert clients[..|clients|] == clients;
      CloseMissingSessions(seen, now);
    }

    method FindNewest(name: Name) returns (r: Option<nat>)
      ensures r == Newest(sessions, name)
    {
      r := None;
      for i := 0 to |sessions|
        invariant r == Newest(sessions[..i], name)
      {
        assert sessions[..i + 1][..i] == sessions[..i];
        if sessions[i].status.Active? && sessions[i].name == name
            && (r.None? || sessions[i].connectedAt > sessions[r.value].connectedAt) {
          r := Some(i);
        }
      }
      assert sessions[..|sessions|] == sessions;
    }

    method Post(p: Payload, now: int) returns (r: Result<(), string>)
      modifies this
      ensures r.Err? <==> Hook(old(View()), p, now).Err?
      ensures r.Err? ==> r.error == "missing common_name"
      ensures View() == if r.Err? then old(View()) else Hook(old(View()), p, now).value
      ensures (r.Err? <==> p.name == "") && (r.Ok? ==> HookDone(old(View()), View(), p, now))
    {
      HookIs(View(), p, now);
      hide HookDone;
      if p.name == "" { return Err("missing common_name"); }
      var session: Option<nat> := None;
      if p.connectedAt > 0 {
        session := FindActiveSession(p.name, p.realIP, p.connectedAt * SECOND);
      }
      if session.None? {
        session := FindNewest(p.name);
      }
      var row;
      if session.None? {
        row := Session(p.name, p.realIP, p.virtualIP, now - p.durationS * SECOND, now, p.bytesIn, p.bytesOut,
                       p.durationS, Closed);
        writtenFor := writtenFor + [|sessions|];
        sessions := sessions + [row];
      } else {
        row := sessions[session.value].(bytesIn := p.bytesIn, bytesOut := p.bytesOut, durationS := p.durationS,
                                        disconnectedAt := now, status := Closed);
        if p.realIP != "" { row := row.(realIP := p.realIP); }
        if p.virtualIP != "" { row := row.(virtualIP := p.virtualIP); }
        writtenFor := writtenFor + [session.value];
        sessions := sessions[session.value := row];
      }
      writes := writes + [Write(row.name, row.realIP, row.virtualIP, row.bytesIn, row.bytesOut, row.durationS, now)];
      return Ok(());
    }
  }

  lemma {:induction false} FindActiveStays(sessions: seq<Session>, i: nat, name: Name, realIP: string, connectedAt: int)
    requires i < |sessions| && FindActive(sessions[..i], name, realIP, connectedAt).None?
             && Matches(sessions[i], name, realIP, connectedAt)
    ensures FindActive(sessions, name, realIP, connectedAt) == Some(i)
  {
    FindActiveUnique(sessions, i, name, realIP, connectedAt);
  }

  lemma FindActiveUnique(sessions: seq<Session>, i: nat, name: Name, realIP: string, connectedAt: int)
    requires i < |sessions| && Matches(sessions[i], name, realIP, connectedAt)
    requires forall j :: 0 <= j < i ==> !Matches(sessions[j], name, realIP, connectedAt)
    ensures FindActive(sessions, name, realIP, connectedAt) == Some(i)
  {
  }
}
