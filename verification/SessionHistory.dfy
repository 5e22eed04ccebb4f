/** Runs of scrapes and hooks: sessions written and rows closed match one to one, active rows
    mirror their newest sample, and a closed session stays closed under any interleaving of the
    single statements. */
module SessionHistory {
  import opened Outcomes
  import opened Sessions

  // ---------- runs of whole operations ----------

  datatype Operation = ScrapeOf(clients: seq<Client>, now: int) | HookOf(payload: Payload, now: int)

  /** A hook that is refused changes nothing. */
  function Perform(s: Store, op: Operation): Store {
    match op
    case ScrapeOf(clients, now) => Scrape(s, clients, now)
    case HookOf(p, now) => if Hook(s, p, now).Ok? then Hook(s, p, now).value else s
  }

  function PerformAll(s: Store, ops: seq<Operation>): Store {
    if ops == [] then s else Perform(PerformAll(s, ops[..|ops| - 1]), ops[|ops| - 1])
  }

  const EMPTY := Store([], [], [], [])

  function CountClosed(sessions: seq<Session>): nat {
    if sessions == [] then 0
    else CountClosed(sessions[..|sessions| - 1]) + if sessions[|sessions| - 1].status.Closed? then 1 else 0
  }

  /** The newest sample of a session. */
  function NewestSample(samples: seq<Sample>, id: nat): Option<Sample> {
    if samples == [] then None
    else if samples[|samples| - 1].session == id then Some(samples[|samples| - 1])
    else NewestSample(samples[..|samples| - 1], id)
  }

  predicate Mirrors(row: Session, newest: Option<Sample>) {
    newest.Some? && row.bytesIn == newest.value.bytesIn && row.bytesOut == newest.value.bytesOut
  }

  /** One written session per closed row, holding its data; no row is written twice. */
  ghost predicate WritesFit(s: Store) {
    && |s.writes| == |s.writtenFor| == CountClosed(s.sessions)
    && (forall k :: 0 <= k < |s.writes| ==>
          s.writtenFor[k] < |s.sessions| && s.sessions[s.writtenFor[k]].status.Closed?
              && s.writes[k] == WriteOf(s.sessions[s.writtenFor[k]]))
    && (forall k, l :: 0 <= k < l < |s.writtenFor| ==> s.writtenFor[k] != s.writtenFor[l])
    && (forall i :: 0 <= i < |s.sessions| && s.sessions[i].status.Closed? ==> i in s.writtenFor)
  }

  ghost predicate SamplesFit(s: Store) {
    && (forall k :: 0 <= k < |s.samples| ==> s.samples[k].session < |s.sessions|)
    && (forall i :: 0 <= i < |s.sessions| && s.sessions[i].status.Active? ==>
          Mirrors(s.sessions[i], NewestSample(s.samples, i)))
  }

  lemma {:induction false} CountUpdate(sessions: seq<Session>, i: nat, row: Session)
    requires i < |sessions|
    ensures CountClosed(sessions[i := row]) == CountClosed(sessions) + (if row.status.Closed? then 1 else 0)
                                               - (if sessions[i].status.Closed? then 1 else 0)
  {
    var last := |sessions| - 1;
    if i == last {
      assert sessions[i := row][..last] == sessions[..last];
    } else {
      assert sessions[i := row][..last] == sessions[..last][i := row];
      CountUpdate(sessions[..last], i, row);
    }
  }

  lemma CountSnoc(sessions: seq<Session>, row: Session)
    ensures CountClosed(sessions + [row]) == CountClosed(sessions) + if row.status.Closed? then 1 else 0
  {
    assert (sessions + [row])[..|sessions|] == sessions;
  }

  lemma NewestSnoc(samples: seq<Sample>, x: Sample, id: nat)
    ensures NewestSample(samples + [x], id) == if x.session == id then Some(x) else NewestSample(samples, id)
  {
    assert (samples + [x])[..|samples|] == samples;
  }

  lemma {:induction false} NoSampleYet(samples: seq<Sample>, id: nat)
    requires forall k :: 0 <= k < |samples| ==> samples[k].session < id
    ensures NewestSample(samples, id).None?
  {
    if samples != [] { NoSampleYet(samples[..|samples| - 1], id); }
  }

  /** Closing an active row and writing it. */
  lemma CloseFits(s: Store, i: nat, row: Session)
    requires WritesFit(s) && i < |s.sessions| && s.sessions[i].status.Active? && row.status.Closed?
    ensures WritesFit(s.(sessions := s.sessions[i := row], writes := s.writes + [WriteOf(row)],
                         writtenFor := s.writtenFor + [i]))
  {
    hide CountClosed, WriteOf;
    CountUpdate(s.sessions, i, row);
    var t := s.(sessions := s.sessions[i := row], writes := s.writes + [WriteOf(row)],
                writtenFor := s.writtenFor + [i]);
    forall j | 0 <= j < |t.sessions| && t.sessions[j].status.Closed? ensures j in t.writtenFor {
      if j == i { assert t.writtenFor[|s.writtenFor|] == i; } else { assert j in s.writtenFor; }
    }
  }

  lemma CloseSamplesFit(s: Store, i: nat, row: Session, writes: seq<Write>, writtenFor: seq<nat>)
    requires SamplesFit(s) && i < |s.sessions| && row.status.Closed?
    ensures SamplesFit(s.(sessions := s.sessions[i := row], writes := writes, writtenFor := writtenFor))
  {
  }

  lemma ScrapeClientWrites(s: Store, c: Client, now: int)
    requires WritesFit(s)
    ensures WritesFit(ScrapeClient(s, c, now))
  {
    hide CountClosed, WriteOf, FindActive;
    if c.name != "" {
      var t, id := Upsert(s, c, now), UpsertId(s, c);
      CountSnoc(s.sessions, Opened(c, now));
      CountUpdate(t.sessions, id, Counted(t.sessions[id], c.bytesReceived, c.bytesSent));
    }
  }

  lemma ScrapeClientSamples(s: Store, c: Client, now: int)
    requires SamplesFit(s)
    ensures SamplesFit(ScrapeClient(s, c, now))
  {
    hide FindActive, NewestSample;
    if c.name != "" {
      var t, id := ScrapeClient(s, c, now), UpsertId(s, c);
      forall i | 0 <= i < |t.sessions| && t.sessions[i].status.Active?
        ensures Mirrors(t.sessions[i], NewestSample(t.samples, i))
      {
        NewestSnoc(s.samples, t.samples[|s.samples|], i);
      }
    }
  }

  lemma {:induction false} ScrapeClientsFit(s: Store, clients: seq<Client>, now: int)
    requires WritesFit(s) && SamplesFit(s)
    ensures WritesFit(ScrapeClients(s, clients, now)) && SamplesFit(ScrapeClients(s, clients, now))
  {
    hide WritesFit, SamplesFit, ScrapeClient;
    if clients != [] {
      var t := ScrapeClients(s, clients[..|clients| - 1], now);
      ScrapeClientsFit(s, clients[..|clients| - 1], now);
      ScrapeClientWrites(t, clients[|clients| - 1], now);
      ScrapeClientSamples(t, clients[|clients| - 1], now);
    }
  }

  lemma {:induction false} CloseMissingFits(s: Store, seen: set<nat>, now: int, n: nat)
    requires WritesFit(s) && SamplesFit(s) && n <= |s.sessions|
    ensures WritesFit(CloseMissing(s, seen, now, n)) && SamplesFit(CloseMissing(s, seen, now, n))
  {
    hide WritesFit, SamplesFit;
    if n > 0 {
      CloseMissingFits(s, seen, now, n - 1);
      var t := CloseMissing(s, seen, now, n - 1);
      if t.sessions[n - 1].status.Active? && n - 1 !in seen {
        var row := ClosedRow(t.sessions[n - 1], now);
        CloseFits(t, n - 1, row);
        CloseSamplesFit(t, n - 1, row, t.writes + [WriteOf(row)], t.writtenFor + [n - 1]);
      }
    }
  }

  lemma RecordFits(s: Store, row: Session)
    requires WritesFit(s) && SamplesFit(s) && row.status.Closed?
    ensures var t := s.(sessions := s.sessions + [row], writes := s.writes + [WriteOf(row)],
                        writtenFor := s.writtenFor + [|s.sessions|]);
            WritesFit(t) && SamplesFit(t)
  {
    hide CountClosed, WriteOf, Mirrors, NewestSample;
    CountSnoc(s.sessions, row);
    var t := s.(sessions := s.sessions + [row], writes := s.writes + [WriteOf(row)],
                writtenFor := s.writtenFor + [|s.sessions|]);
    forall j | 0 <= j < |t.sessions| && t.sessions[j].status.Closed? ensures j in t.writtenFor {
      if j == |s.sessions| { assert t.writtenFor[|s.writtenFor|] == j; } else { assert j in s.writtenFor; }
    }
  }

  lemma HookFits(s: Store, p: Payload, now: int)
    requires WritesFit(s) && SamplesFit(s) && Hook(s, p, now).Ok?
    ensures WritesFit(Hook(s, p, now).value) && SamplesFit(Hook(s, p, now).value)
  {
    hide WritesFit, SamplesFit, FindActive, Newest, WriteOf;
    var id := Selected(s, p);
    if id.None? {
      RecordFits(s, RecordOf(p, now));
    } else {
      var row := ClosedByHook(s.sessions[id.value], p, now);
      CloseFits(s, id.value, row);
      CloseSamplesFit(s, id.value, row, s.writes + [WriteOf(row)], s.writtenFor + [id.value]);
    }
  }

  lemma PerformFits(s: Store, op: Operation)
    requires WritesFit(s) && SamplesFit(s)
    ensures WritesFit(Perform(s, op)) && SamplesFit(Perform(s, op))
  {
    hide WritesFit, SamplesFit, CloseMissing, ScrapeClients, Seen;
    match op
    case ScrapeOf(clients, now) =>
      var t := ScrapeClients(s, clients, now);
      ScrapeClientsFit(s, clients, now);
      CloseMissingFits(t, Seen(s, clients, now), now, |t.sessions|);
    case HookOf(p, now) =>
      if Hook(s, p, now).Ok? {
        hide Hook;
        HookFits(s, p, now);
      }
  }

  /** In every run of scrapes and hooks, each an atomic operation: the sessions handed to
      `WriteSession` are exactly the closed rows, each once and with its final data, and every
      active row shows the counters of its newest sample. */
  lemma {:induction false} WritesAreClosedRows(ops: seq<Operation>)
    ensures WritesFit(PerformAll(EMPTY, ops)) && SamplesFit(PerformAll(EMPTY, ops))
  {
    if ops != [] {
      hide WritesFit, SamplesFit, Perform;
      WritesAreClosedRows(ops[..|ops| - 1]);
      PerformFits(PerformAll(EMPTY, ops[..|ops| - 1]), ops[|ops| - 1]);
    }
  }

  // ---------- single statements, interleaved at will ----------

  /** The statements on the session table; updates name the columns they change. */
  datatype Statement =
    | InsertActive(row: Session)
    | InsertClosed(row: Session)
    | SetCounters(id: nat, bytesIn: int, bytesOut: int)
    | CloseStale(id: nat, disconnectedAt: int, durationS: int)
    | CloseHooked(id: nat, payload: Payload, disconnectedAt: int, realIP: string, virtualIP: string)

  predicate Legal(sessions: seq<Session>, st: Statement) {
    match st
    case InsertActive(row) => row.status.Active?
    case InsertClosed(row) => row.status.Closed?
    case SetCounters(id, _, _) => id < |sessions|
    case CloseStale(id, _, _) => id < |sessions|
    case CloseHooked(id, _, _, _, _) => id < |sessions|
  }

  function Apply(sessions: seq<Session>, st: Statement): seq<Session>
    requires Legal(sessions, st)
  {
    match st
    case InsertActive(row) => sessions + [row]
    case InsertClosed(row) => sessions + [row]
    case SetCounters(id, bytesIn, bytesOut) => sessions[id := Counted(sessions[id], bytesIn, bytesOut)]
    case CloseStale(id, at, duration) =>
      sessions[id := sessions[id].(status := Closed, disconnectedAt := at, durationS := duration)]
    case CloseHooked(id, p, at, realIP, virtualIP) =>
      sessions[id := sessions[id].(bytesIn := p.bytesIn, bytesOut := p.bytesOut, durationS := p.durationS,
                                   disconnectedAt := at, status := Closed, realIP := realIP, virtualIP := virtualIP)]
  }

  function ApplyAll(sessions: seq<Session>, sts: seq<Statement>): Option<seq<Session>>
    decreases |sts|
  {
    if sts == [] then Some(sessions)
    else if !Legal(sessions, sts[0]) then None
    else ApplyAll(Apply(sessions, sts[0]), sts[1..])
  }

  /** Whichever statements of scrapes and hooks follow, in any order: a closed session stays
      closed, and the name and connect time of a row never change. */
  lemma {:induction false} ClosedStaysClosed(sessions: seq<Session>, sts: seq<Statement>, i: nat)
    requires i < |sessions| && ApplyAll(sessions, sts).Some?
    ensures var after := ApplyAll(sessions, sts).value;
            && |sessions| <= |after| && (sessions[i].status.Closed? ==> after[i].status.Closed?)
            && after[i].name == sessions[i].name && after[i].connectedAt == sessions[i].connectedAt
    decreases |sts|
  {
    if sts != [] { ClosedStaysClosed(Apply(sessions, sts[0]), sts[1..], i); }
  }

  /** The statements that are followed by a call of `WriteSession`. */
  predicate IsClosing(st: Statement) {
    st.InsertClosed? || st.CloseStale? || st.CloseHooked?
  }

  function Closings(sts: seq<Statement>): nat {
    if sts == [] then 0 else (if IsClosing(sts[0]) then 1 else 0) + Closings(sts[1..])
  }

  /** No statement closes a row that another one closed before. */
  predicate ClosesOnce(sessions: seq<Session>, sts: seq<Statement>)
    requires ApplyAll(sessions, sts).Some?
    decreases |sts|
  {
    if sts == [] then true
    else
      && (sts[0].CloseStale? || sts[0].CloseHooked? ==> sessions[sts[0].id].status.Active?)
      && ClosesOnce(Apply(sessions, sts[0]), sts[1..])
  }

  lemma ApplyCounts(sessions: seq<Session>, st: Statement)
    requires Legal(sessions, st)
    ensures var closes := IsClosing(st) && ((st.CloseStale? || st.CloseHooked?) ==> sessions[st.id].status.Active?);
            CountClosed(Apply(sessions, st)) == CountClosed(sessions) + if closes then 1 else 0
  {
    hide CountClosed;
    match st
    case InsertActive(row) => CountSnoc(sessions, row);
    case InsertClosed(row) => CountSnoc(sessions, row);
    case SetCounters(id, _, _) => CountUpdate(sessions, id, Apply(sessions, st)[id]);
    case CloseStale(id, _, _) => CountUpdate(sessions, id, Apply(sessions, st)[id]);
    case CloseHooked(id, _, _, _, _) => CountUpdate(sessions, id, Apply(sessions, st)[id]);
  }

  /** Under interleaving, a session may be written more than once: there are at least as many
      calls as newly closed rows, and as many exactly when no statement closes a closed row. */
  lemma {:induction false} WritesUnderInterleaving(sessions: seq<Session>, sts: seq<Statement>)
    requires ApplyAll(sessions, sts).Some?
    ensures CountClosed(ApplyAll(sessions, sts).value) <= CountClosed(sessions) + Closings(sts)
    ensures CountClosed(ApplyAll(sessions, sts).value) == CountClosed(sessions) + Closings(sts)
            <==> ClosesOnce(sessions, sts)
    decreases |sts|
  {
    hide CountClosed, Apply;
    if sts != [] {
      ApplyCounts(sessions, sts[0]);
      WritesUnderInterleaving(Apply(sessions, sts[0]), sts[1..]);
    }
  }

  // ---------- the statements of an operation ----------

  function ClientStatements(s: Store, c: Client, now: int): seq<Statement> {
    if c.name == "" then []
    else
      (if Matched(s, c).Some? then [] else [InsertActive(Opened(c, now))])
      + [SetCounters(UpsertId(s, c), c.bytesReceived, c.bytesSent)]
  }

  function ClientsStatements(s: Store, clients: seq<Client>, now: int): seq<Statement> {
    if clients == [] then []
    else
      var most := clients[..|clients| - 1];
      ClientsStatements(s, most, now) + ClientStatements(ScrapeClients(s, most, now), clients[|clients| - 1], now)
  }

  function CloseStatements(s: Store, seen: set<nat>, now: int, n: nat): seq<Statement>
    requires n <= |s.sessions|
  {
    if n == 0 then []
    else
      var row := CloseMissing(s, seen, now, n - 1).sessions[n - 1];
      CloseStatements(s, seen, now, n - 1)
      + if row.status.Closed? || n - 1 in seen then [] else [CloseStale(n - 1, now, Seconds(now - row.connectedAt))]
  }

  function HookStatements(s: Store, p: Payload, now: int): seq<Statement> {
    var id := Selected(s, p);
    if p.name == "" then []
    else if id.None? then [InsertClosed(RecordOf(p, now))]
    else
      var row := ClosedByHook(s.sessions[id.value], p, now);
      [CloseHooked(id.value, p, now, row.realIP, row.virtualIP)]
  }

  function StatementsOf(s: Store, op: Operation): seq<Statement> {
    match op
    case ScrapeOf(clients, now) =>
      var t := ScrapeClients(s, clients, now);
      ClientsStatements(s, clients, now) + CloseStatements(t, Seen(s, clients, now), now, |t.sessions|)
    case HookOf(p, now) => HookStatements(s, p, now)
  }

  lemma {:induction false} ApplyConcat(sessions: seq<Session>, a: seq<Statement>, b: seq<Statement>)
    ensures ApplyAll(sessions, a + b) == if ApplyAll(sessions, a).None? then None
            else ApplyAll(ApplyAll(sessions, a).value, b)
    decreases |a|
  {
    hide Apply, Legal;
    if a == [] {
      assert a + b == b;
    } else if Legal(sessions, a[0]) {
      assert (a + b)[1..] == a[1..] + b;
      ApplyConcat(Apply(sessions, a[0]), a[1..], b);
    }
  }

  lemma ApplyOne(sessions: seq<Session>, st: Statement)
    requires Legal(sessions, st)
    ensures ApplyAll(sessions, [st]) == Some(Apply(sessions, st))
  {
    hide Apply;
    assert ApplyAll(Apply(sessions, st), [st][1..]) == Some(Apply(sessions, st));
  }

  lemma ClientIsStatements(s: Store, c: Client, now: int)
    ensures ApplyAll(s.sessions, ClientStatements(s, c, now)) == Some(ScrapeClient(s, c, now).sessions)
  {
    hide FindActive, ApplyAll;
    if c.name == "" {
      ApplyNone(s.sessions);
    } else {
      var t, count := Upsert(s, c, now), SetCounters(UpsertId(s, c), c.bytesReceived, c.bytesSent);
      ApplyOne(t.sessions, count);
      if Matched(s, c).Some? {
        assert [] + [count] == [count];
      } else {
        ApplyOne(s.sessions, InsertActive(Opened(c, now)));
        ApplyConcat(s.sessions, [InsertActive(Opened(c, now))], [count]);
      }
    }
  }

  lemma ApplyNone(sessions: seq<Session>)
    ensures ApplyAll(sessions, []) == Some(sessions)
  {
  }

  lemma {:induction false} ClientsAreStatements(s: Store, clients: seq<Client>, now: int)
    ensures ApplyAll(s.sessions, ClientsStatements(s, clients, now)) == Some(ScrapeClients(s, clients, now).sessions)
  {
    hide ClientStatements, ScrapeClient, ApplyAll;
    if clients == [] {
      ApplyNone(s.sessions);
    } else {
      var most, c := clients[..|clients| - 1], clients[|clients| - 1];
      var t := ScrapeClients(s, most, now);
      ClientsAreStatements(s, most, now);
      ClientIsStatements(t, c, now);
      ApplyConcat(s.sessions, ClientsStatements(s, most, now), ClientStatements(t, c, now));
    }
  }

  lemma {:induction false} ClosingIsStatements(s: Store, seen: set<nat>, now: int, n: nat)
    requires n <= |s.sessions|
    ensures ApplyAll(s.sessions, CloseStatements(s, seen, now, n)) == Some(CloseMissing(s, seen, now, n).sessions)
  {
    hide ApplyAll;
    if n == 0 {
      ApplyNone(s.sessions);
    } else {
      ClosingIsStatements(s, seen, now, n - 1);
      var t := CloseMissing(s, seen, now, n - 1);
      var row := t.sessions[n - 1];
      if row.status.Closed? || n - 1 in seen {
        assert CloseStatements(s, seen, now, n - 1) + [] == CloseStatements(s, seen, now, n - 1);
      } else {
        var st := CloseStale(n - 1, now, Seconds(now - row.connectedAt));
        ApplyOne(t.sessions, st);
        ApplyConcat(s.sessions, CloseStatements(s, seen, now, n - 1), [st]);
      }
    }
  }

  /** What an operation does to the session table is done by its statements, one after the other. */
  lemma OperationIsStatements(s: Store, op: Operation)
    ensures ApplyAll(s.sessions, StatementsOf(s, op)) == Some(Perform(s, op).sessions)
  {
    hide ApplyAll, FindActive, Newest, ClientsStatements, CloseStatements, ScrapeClients, CloseMissing, Seen;
    match op
    case ScrapeOf(clients, now) =>
      var t := ScrapeClients(s, clients, now);
      ClientsAreStatements(s, clients, now);
      ClosingIsStatements(t, Seen(s, clients, now), now, |t.sessions|);
      ApplyConcat(s.sessions, ClientsStatements(s, clients, now),
                  CloseStatements(t, Seen(s, clients, now), now, |t.sessions|));
    case HookOf(p, now) =>
      if p.name == "" {
        ApplyNone(s.sessions);
      } else {
        ApplyOne(s.sessions, HookStatements(s, p, now)[0]);
        assert HookStatements(s, p, now) == [HookStatements(s, p, now)[0]];
      }
  }

  // ---------- a hook in the middle of a scrape ----------

  predicate Closes(st: Statement, id: nat) {
    (st.CloseStale? || st.CloseHooked?) && st.id == id
  }

  predicate Targets(sts: seq<Statement>, id: nat) {
    exists j :: 0 <= j < |sts| && Closes(sts[j], id)
  }

  lemma TargetsConcat(a: seq<Statement>, b: seq<Statement>, id: nat)
    ensures Targets(a + b, id) <==> Targets(a, id) || Targets(b, id)
  {
    if j :| 0 <= j < |a| && Closes(a[j], id) { assert Closes((a + b)[j], id); }
    if j :| 0 <= j < |b| && Closes(b[j], id) { assert Closes((a + b)[|a| + j], id); }
  }

  lemma {:induction false} StatusAfter(sessions: seq<Session>, sts: seq<Statement>, i: nat)
    requires i < |sessions| && ApplyAll(sessions, sts).Some?
    ensures |ApplyAll(sessions, sts).value| >= |sessions|
    ensures ApplyAll(sessions, sts).value[i].status.Closed? <==> sessions[i].status.Closed? || Targets(sts, i)
    decreases |sts|
  {
    if sts != [] {
      assert [sts[0]] + sts[1..] == sts;
      TargetsConcat([sts[0]], sts[1..], i);
      assert Targets([sts[0]], i) <==> Closes(sts[0], i) by { assert [sts[0]][0] == sts[0]; }
      StatusAfter(Apply(sessions, sts[0]), sts[1..], i);
    }
  }

  lemma {:induction false} ClosesOnceConcat(sessions: seq<Session>, a: seq<Statement>, b: seq<Statement>)
    requires ApplyAll(sessions, a).Some? && ApplyAll(ApplyAll(sessions, a).value, b).Some?
    ensures ApplyAll(sessions, a + b).Some?
    ensures ClosesOnce(sessions, a + b) <==> ClosesOnce(sessions, a) && ClosesOnce(ApplyAll(sessions, a).value, b)
    decreases |a|
  {
    ApplyConcat(sessions, a, b);
    if a == [] {
      assert a + b == b;
    } else {
      assert (a + b)[1..] == a[1..] + b;
      ClosesOnceConcat(Apply(sessions, a[0]), a[1..], b);
    }
  }

  /** Two tables with the same statuses, but row `id` is closed in the first and active in the other. */
  ghost predicate ClosedTwin(closed: seq<Session>, sessions: seq<Session>, id: nat) {
    && |closed| == |sessions| && id < |sessions|
    && closed[id].status.Closed? && sessions[id].status.Active?
    && forall i :: 0 <= i < |sessions| && i != id ==> closed[i].status == sessions[i].status
  }

  lemma {:induction false} TwinClosesOnce(closed: seq<Session>, sessions: seq<Session>, id: nat, sts: seq<Statement>)
    requires ClosedTwin(closed, sessions, id) && ApplyAll(sessions, sts).Some?
    ensures ApplyAll(closed, sts).Some?
    ensures ClosesOnce(closed, sts) <==> ClosesOnce(sessions, sts) && !Targets(sts, id)
    decreases |sts|
  {
    if sts != [] {
      assert [sts[0]] + sts[1..] == sts;
      TargetsConcat([sts[0]], sts[1..], id);
      assert Targets([sts[0]], id) <==> Closes(sts[0], id) by { assert [sts[0]][0] == sts[0]; }
      var next, other := Apply(sessions, sts[0]), Apply(closed, sts[0]);
      if Closes(sts[0], id) {
        SameLengthApplies(next, other, sts[1..]);
      } else {
        TwinClosesOnce(other, next, id, sts[1..]);
      }
    }
  }

  /** Whether statements can be applied depends on how many rows there are only. */
  lemma {:induction false} SameLengthApplies(a: seq<Session>, b: seq<Session>, sts: seq<Statement>)
    requires |a| == |b| && ApplyAll(a, sts).Some?
    ensures ApplyAll(b, sts).Some?
    decreases |sts|
  {
    if sts != [] { SameLengthApplies(Apply(a, sts[0]), Apply(b, sts[0]), sts[1..]); }
  }

  function Inserted(sts: seq<Statement>, k: nat, hook: Statement): seq<Statement>
    requires k <= |sts|
  {
    sts[..k] + [hook] + sts[k..]
  }

  lemma InsertedFirst(sts: seq<Statement>, k: nat, hook: Statement)
    requires k <= |sts|
    ensures Inserted(sts, k, hook)
            == if k == 0 then [hook] + sts else [sts[0]] + Inserted(sts[1..], k - 1, hook)
    ensures Inserted(sts, k, hook)[1..] == if k == 0 then sts else Inserted(sts[1..], k - 1, hook)
  {
    if k > 0 {
      assert sts[..k] == [sts[0]] + sts[1..][..k - 1];
      assert sts[k..] == sts[1..][k - 1..];
    }
  }

  /** A hook put between any two statements closes each row once exactly if they did and do not
      close the hook's row. */
  lemma {:induction false} HookInserted(sessions: seq<Session>, sts: seq<Statement>, k: nat, hook: Statement)
    requires ApplyAll(sessions, sts).Some? && k <= |sts| && hook.CloseHooked? && hook.id < |sessions|
    ensures ApplyAll(sessions, Inserted(sts, k, hook)).Some?
    ensures ClosesOnce(sessions, Inserted(sts, k, hook))
            <==> ClosesOnce(sessions, sts) && sessions[hook.id].status.Active? && !Targets(sts, hook.id)
    decreases |sts|
  {
    InsertedFirst(sts, k, hook);
    hide Inserted;
    if k == 0 {
      var closed := Apply(sessions, hook);
      SameLengthApplies(sessions, closed, sts);
      if sessions[hook.id].status.Active? { TwinClosesOnce(closed, sessions, hook.id, sts); }
    } else {
      assert [sts[0]] + sts[1..] == sts;
      TargetsConcat([sts[0]], sts[1..], hook.id);
      assert Targets([sts[0]], hook.id) <==> Closes(sts[0], hook.id) by { assert [sts[0]][0] == sts[0]; }
      HookInserted(Apply(sessions, sts[0]), sts[1..], k - 1, hook);
    }
  }

  lemma {:induction false} NothingCloses(sessions: seq<Session>, sts: seq<Statement>)
    requires ApplyAll(sessions, sts).Some? && forall st <- sts :: st.InsertActive? || st.SetCounters?
    ensures ClosesOnce(sessions, sts)
    ensures forall id :: !Targets(sts, id)
    decreases |sts|
  {
    assert forall j :: 0 <= j < |sts| ==> sts[j] in sts;
    if sts != [] {
      assert sts[0] in sts;
      NothingCloses(Apply(sessions, sts[0]), sts[1..]);
    }
  }

  lemma {:induction false} ClientsCloseNothing(s: Store, clients: seq<Client>, now: int)
    ensures forall st <- ClientsStatements(s, clients, now) :: st.InsertActive? || st.SetCounters?
  {
    hide FindActive, ScrapeClient;
    if clients != [] { ClientsCloseNothing(s, clients[..|clients| - 1], now); }
  }

  lemma {:induction false} NotYetClosed(s: Store, seen: set<nat>, now: int, n: nat, i: nat)
    requires n <= i < |s.sessions|
    ensures CloseMissing(s, seen, now, n).sessions[i] == s.sessions[i]
  {
    if n > 0 { NotYetClosed(s, seen, now, n - 1, i); }
  }

  /** The closing statements of a scrape close each active row that was not seen, once. */
  lemma {:induction false} CloseStatementsClose(s: Store, seen: set<nat>, now: int, n: nat, id: nat)
    requires n <= |s.sessions|
    ensures ApplyAll(s.sessions, CloseStatements(s, seen, now, n)).Some?
    ensures ClosesOnce(s.sessions, CloseStatements(s, seen, now, n))
    ensures Targets(CloseStatements(s, seen, now, n), id) <==> id < n && s.sessions[id].status.Active? && id !in seen
  {
    hide ApplyAll, ClosesOnce, Targets, CloseMissing;
    ClosingIsStatements(s, seen, now, n);
    if n == 0 {
      NothingCloses(s.sessions, []);
    } else {
      CloseStatementsClose(s, seen, now, n - 1, id);
      ClosingIsStatements(s, seen, now, n - 1);
      NotYetClosed(s, seen, now, n - 1, n - 1);
      var t := CloseMissing(s, seen, now, n - 1);
      var before, row := CloseStatements(s, seen, now, n - 1), t.sessions[n - 1];
      if row.status.Active? && n - 1 !in seen {
        var st := CloseStale(n - 1, now, Seconds(now - row.connectedAt));
        ApplyOne(t.sessions, st);
        ClosesOnceConcat(s.sessions, before, [st]);
        OneCloses(t.sessions, st);
        TargetsConcat(before, [st], id);
      } else {
        assert before + [] == before;
      }
    }
  }

  lemma OneCloses(sessions: seq<Session>, st: Statement)
    requires Legal(sessions, st) && st.CloseStale?
    ensures ApplyAll(sessions, [st]).Some?
    ensures ClosesOnce(sessions, [st]) <==> sessions[st.id].status.Active?
    ensures forall id :: Targets([st], id) <==> st.id == id
  {
    assert [st][1..] == [] && [st][0] == st;
    assert ApplyAll(Apply(sessions, st), []).Some?;
  }

  /** Wherever the hook's statement falls among those of a scrape that began with the same table:
      a row is closed and written twice exactly if the hook selected one that the scrape lists as
      active and did not see. */
  lemma HookDuringScrape(s: Store, clients: seq<Client>, now: int, p: Payload, at: int, k: nat)
    requires p.name != "" && Selected(s, p).Some? && k <= |StatementsOf(s, ScrapeOf(clients, now))|
    ensures var sts := Inserted(StatementsOf(s, ScrapeOf(clients, now)), k, HookStatements(s, p, at)[0]);
            && HookStatements(s, p, at) == [HookStatements(s, p, at)[0]]
            && ApplyAll(s.sessions, sts).Some?
            && (ClosesOnce(s.sessions, sts) <==> Selected(s, p).value in Seen(s, clients, now))
  {
    hide ApplyAll, ClosesOnce, FindActive, Newest, ClientsStatements, CloseStatements, ScrapeClients, CloseMissing,
        Seen, Targets;
    var id := Selected(s, p).value;
    var t, seen := ScrapeClients(s, clients, now), Seen(s, clients, now);
    var a, b := ClientsStatements(s, clients, now), CloseStatements(t, seen, now, |t.sessions|);
    ClientsAreStatements(s, clients, now);
    ClientsCloseNothing(s, clients, now);
    NothingCloses(s.sessions, a);
    StatusAfter(s.sessions, a, id);
    CloseStatementsClose(t, seen, now, |t.sessions|, id);
    ClosesOnceConcat(s.sessions, a, b);
    TargetsConcat(a, b, id);
    HookInserted(s.sessions, a + b, k, HookStatements(s, p, at)[0]);
  }

  const ACTIVE_CLIENT := Session("client", "10.0.0.1", "10.8.0.2", 0, ZERO_TIME, 1000, 2000, 0, Active)

  /** The scrape lists the client as active, the hook closes it, the scrape closes it again: one
      closed row, two calls of `WriteSession`. */
  lemma WrittenTwice()
    ensures var s := Store([ACTIVE_CLIENT], [], [], []);
            var p := Payload("client", "10.0.0.1", "10.8.0.2", 0, 1500, 2500, 60);
            var sts := HookStatements(s, p, 60 * SECOND) + StatementsOf(s, ScrapeOf([], 61 * SECOND));
            && ApplyAll(s.sessions, sts).Some? && !ClosesOnce(s.sessions, sts)
            && Closings(sts) == 2 && CountClosed(ApplyAll(s.sessions, sts).value) == 1
  {
    var s := Store([ACTIVE_CLIENT], [], [], []);
    var p := Payload("client", "10.0.0.1", "10.8.0.2", 0, 1500, 2500, 60);
    assert s.sessions[..0] == [];
    assert Newest(s.sessions, "client") == Some(0);
    assert Selected(s, p) == Some(0);
    var scrape := StatementsOf(s, ScrapeOf([], 61 * SECOND));
    assert CloseStatements(s, {}, 61 * SECOND, 0) == [];
    var stale := CloseStale(0, 61 * SECOND, 61);
    assert [] + [stale] == [stale] && [] + [stale] == scrape;
    var hook := HookStatements(s, p, 60 * SECOND)[0];
    assert [hook] + scrape == [hook, stale];
    var one := Apply(s.sessions, hook);
    var two := Apply(one, stale);
    ApplyOne(one, stale);
    assert [hook, stale][1..] == [stale] && [stale][1..] == [];
    assert ApplyAll(s.sessions, [hook, stale]) == Some(two);
    assert two[..0] == [] && |two| == 1;
    assert Closings([stale]) == 1 + Closings([]);
    assert Closings([hook, stale]) == 1 + Closings([stale]);
  }
}
