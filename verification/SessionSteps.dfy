/** The scraping goroutine and any number of disconnect hooks on one session table, with every
    read and every statement as a step of its own. */
module SessionSteps {
  import opened Outcomes
  import opened Sessions
  import SessionHistory

  /** The clients that a scrape has yet to go through: while it looks, inserts or counts, there is
      one left. */
  type Clients = cs: seq<Client> | cs != [] witness [Client("", "", "", ZERO_TIME, 0, 0)]

  /** What the scraper does next: look for the row of the first client, insert one, add its
      sample and set its counters, list the active rows, close the first of those listed. */
  datatype Scraper =
    | Idle
    | Looking(clients: Clients, seen: set<nat>, now: int)
    | Inserting(clients: Clients, seen: set<nat>, now: int)
    | Counting(clients: Clients, seen: set<nat>, now: int, id: nat)
    | Listing(seen: set<nat>, now: int)
    | Closing(listed: seq<(nat, Session)>, now: int)

  /** What a hook does next: match its connection, fall back on the newest session, close the row
      it has read, insert a closed record. */
  datatype HookStep =
    | Matching(p: Payload, now: int)
    | Falling(p: Payload, now: int)
    | Holding(p: Payload, now: int, id: nat, row: Session)
    | Recording(p: Payload, now: int)
    | Answered

  /** `claims` lists the rows in the order in which somebody read them as active to close them. */
  datatype State = State(store: Store, scraper: Scraper, hooks: seq<HookStep>, claims: seq<nat>)

  datatype Event =
    | StartScrape(clients: seq<Client>, now: int)
    | Look
    | InsertRow
    | Count
    | List
    | CloseNext
    | HookCalled(p: Payload, now: int)
    | Match(hook: nat)
    | Fall(hook: nat)
    | CloseRow(hook: nat)
    | Record(hook: nat)

  const INIT := State(Store([], [], [], []), Idle, [], [])

  function AfterClient(clients: seq<Client>, seen: set<nat>, now: int): Scraper {
    if clients == [] then Listing(seen, now) else Looking(clients, seen, now)
  }

  function Listed(sessions: seq<Session>, seen: set<nat>, n: nat): seq<(nat, Session)>
    requires n <= |sessions|
  {
    if n == 0 then []
    else
      Listed(sessions, seen, n - 1)
      + if sessions[n - 1].status.Active? && n - 1 !in seen then [(n - 1, sessions[n - 1])] else []
  }

  function Ids(listed: seq<(nat, Session)>): (ids: seq<nat>)
    ensures |ids| == |listed| && forall k :: 0 <= k < |listed| ==> ids[k] == listed[k].0
  {
    seq(|listed|, k requires 0 <= k < |listed| => listed[k].0)
  }

  function AfterList(listed: seq<(nat, Session)>, now: int): Scraper {
    if listed == [] then Idle else Closing(listed, now)
  }

  /** The row as it is now, with the columns that the scraper sets from the row it read. */
  function ClosedNow(current: Session, read: Session, now: int): Session {
    current.(status := Closed, disconnectedAt := now, durationS := ClosedRow(read, now).durationS)
  }

  /** The row as it is now, with the columns that a hook sets. */
  function HookedNow(current: Session, closed: Session): Session {
    current.(bytesIn := closed.bytesIn, bytesOut := closed.bytesOut, durationS := closed.durationS,
             disconnectedAt := closed.disconnectedAt, status := Closed, realIP := closed.realIP,
                 virtualIP := closed.virtualIP)
  }

  /** Closing a row: the statement sets columns of the row as it is now, the session written has
      the other columns as they were read. */
  function Close(s: Store, id: nat, after: Session, write: Write): Store
    requires id < |s.sessions|
  {
    s.(sessions := s.sessions[id := after], writes := s.writes + [write], writtenFor := s.writtenFor + [id])
  }

  function NextScraper(s: State, e: Event): Option<State> {
    var store := s.store;
    match s.scraper
    case Idle =>
      if e.StartScrape? then Some(s.(scraper := AfterClient(e.clients, {}, e.now))) else None
    case Looking(clients, seen, now) =>
      if e != Look then None
      else if clients[0].name == "" then Some(s.(scraper := AfterClient(clients[1..], seen, now)))
      else
        var id := Matched(store, clients[0]);
        Some(s.(scraper := if id.Some? then Counting(clients, seen, now, id.value) else Inserting(clients, seen, now)))
    case Inserting(clients, seen, now) =>
      if e != InsertRow then None
      else
        Some(s.(store := store.(sessions := store.sessions + [Opened(clients[0], now)]),
                scraper := Counting(clients, seen, now, |store.sessions|)))
    case Counting(clients, seen, now, id) =>
      if e != Count || id >= |store.sessions| then None
      else
        var c := clients[0];
        var sample := Sample(id, c.name, c.virtualIP, c.realIP, c.bytesReceived, c.bytesSent, now);
        Some(s.(store := store.(samples := store.samples + [sample],
                                sessions := store.sessions[id := Counted(store.sessions[id], c.bytesReceived,
                                                                         c.bytesSent)]),
                scraper := AfterClient(clients[1..], seen + {id}, now)))
    case Listing(seen, now) =>
      if e != List then None
      else
        var listed := Listed(store.sessions, seen, |store.sessions|);
        Some(s.(scraper := AfterList(listed, now), claims := s.claims + Ids(listed)))
    case Closing(listed, now) =>
      if e != CloseNext || listed == [] || listed[0].0 >= |store.sessions| then None
      else
        var id, row := listed[0].0, listed[0].1;
        Some(s.(store := Close(store, id, ClosedNow(store.sessions[id], row, now), WriteOf(ClosedRow(row, now))),
                scraper := AfterList(listed[1..], now)))
  }

  function Hold(s: State, h: nat, p: Payload, now: int, id: nat): State
    requires h < |s.hooks| && id < |s.store.sessions|
  {
    s.(hooks := s.hooks[h := Holding(p, now, id, s.store.sessions[id])], claims := s.claims + [id])
  }

  function NextHook(s: State, h: nat, e: Event): Option<State>
    requires h < |s.hooks|
  {
    var store := s.store;
    match s.hooks[h]
    case Matching(p, now) =>
      if e != Match(h) then None
      else
        var id := if p.connectedAt > 0
            then FindActive(store.sessions, p.name, p.realIP, p.connectedAt * SECOND) else None;
        Some(if id.Some? then Hold(s, h, p, now, id.value) else s.(hooks := s.hooks[h := Falling(p, now)]))
    case Falling(p, now) =>
      if e != Fall(h) then None
      else
        var id := Newest(store.sessions, p.name);
        Some(if id.Some? then Hold(s, h, p, now, id.value) else s.(hooks := s.hooks[h := Recording(p, now)]))
    case Holding(p, now, id, row) =>
      if e != CloseRow(h) || id >= |store.sessions| then None
      else
        var closed := ClosedByHook(row, p, now);
        Some(s.(store := Close(store, id, HookedNow(store.sessions[id], closed), WriteOf(closed)),
                hooks := s.hooks[h := Answered]))
    case Recording(p, now) =>
      if e != Record(h) then None
      else
        var row, id := RecordOf(p, now), |store.sessions|;
        Some(s.(store := store.(sessions := store.sessions + [row], writes := store.writes + [WriteOf(row)],
                                writtenFor := store.writtenFor + [id]),
                hooks := s.hooks[h := Answered], claims := s.claims + [id]))
    case Answered => None
  }

  predicate OfHook(e: Event) {
    e.Match? || e.Fall? || e.CloseRow? || e.Record?
  }

  /** One step of one goroutine; a hook without a name is refused before it reads anything. */
  function Next(s: State, e: Event): Option<State> {
    if e.HookCalled? then
      if e.p.name == "" then None else Some(s.(hooks := s.hooks + [Matching(e.p, e.now)]))
    else if OfHook(e) then if e.hook < |s.hooks| then NextHook(s, e.hook, e) else None
    else NextScraper(s, e)
  }

  function Run(s: State, events: seq<Event>): Option<State>
    decreases |events|
  {
    if events == [] then Some(s)
    else if Next(s, events[0]).None? then None else Run(Next(s, events[0]).value, events[1..])
  }

  // ---------- who is about to close what ----------

  function HeldBy(hook: HookStep): multiset<nat> {
    if hook.Holding? then multiset{hook.id} else multiset{}
  }

  function HeldByAll(hooks: seq<HookStep>): multiset<nat> {
    if hooks == [] then multiset{} else HeldByAll(hooks[..|hooks| - 1]) + HeldBy(hooks[|hooks| - 1])
  }

  function ListedIds(scraper: Scraper): seq<nat> {
    if scraper.Closing? then Ids(scraper.listed) else []
  }

  /** Claims not carried out yet. */
  function Pending(s: State): multiset<nat> {
    HeldByAll(s.hooks) + multiset(ListedIds(s.scraper))
  }

  lemma {:induction false} HeldCount(hooks: seq<HookStep>, h: nat, hook: HookStep, i: nat)
    requires h < |hooks|
    ensures HeldByAll(hooks[h := hook])[i] + HeldBy(hooks[h])[i] == HeldByAll(hooks)[i] + HeldBy(hook)[i]
  {
    var last, updated := |hooks| - 1, hooks[h := hook];
    assert HeldByAll(hooks)[i] == HeldByAll(hooks[..last])[i] + HeldBy(hooks[last])[i];
    assert HeldByAll(updated)[i] == HeldByAll(updated[..last])[i] + HeldBy(updated[last])[i];
    hide HeldByAll, HeldBy;
    if h == last {
      assert updated[..last] == hooks[..last];
    } else {
      assert updated[..last] == hooks[..last][h := hook];
      HeldCount(hooks[..last], h, hook, i);
    }
  }

  lemma HeldUpdate(hooks: seq<HookStep>, h: nat, hook: HookStep)
    requires h < |hooks|
    ensures HeldByAll(hooks[h := hook]) + HeldBy(hooks[h]) == HeldByAll(hooks) + HeldBy(hook)
  {
    hide HeldByAll, HeldBy;
    forall i: nat
      ensures (HeldByAll(hooks[h := hook]) + HeldBy(hooks[h]))[i] == (HeldByAll(hooks) + HeldBy(hook))[i]
    {
      HeldCount(hooks, h, hook, i);
    }
  }

  lemma HeldSnoc(hooks: seq<HookStep>, hook: HookStep)
    ensures HeldByAll(hooks + [hook]) == HeldByAll(hooks) + HeldBy(hook)
  {
    assert (hooks + [hook])[..|hooks|] == hooks;
  }

  lemma IdsFirst(listed: seq<(nat, Session)>)
    requires listed != []
    ensures multiset(Ids(listed)) == multiset{listed[0].0} + multiset(Ids(listed[1..]))
  {
    assert Ids(listed) == [listed[0].0] + Ids(listed[1..]);
  }

  /** A row is closed exactly if it was written, and what was written are rows of the table. */
  ghost predicate WrittenAreClosed(s: Store) {
    && |s.writes| == |s.writtenFor|
    && (forall id <- s.writtenFor :: id < |s.sessions|)
    && (forall i :: 0 <= i < |s.sessions| ==> (s.sessions[i].status.Closed? <==> i in s.writtenFor))
  }

  /** Every claim was carried out or is pending. */
  ghost predicate ClaimsBalance(s: State) {
    multiset(s.store.writtenFor) + Pending(s) == multiset(s.claims)
  }

  ghost predicate Inv(s: State) {
    ClaimsBalance(s) && WrittenAreClosed(s.store)
  }

  lemma CloseFits(s: Store, id: nat, after: Session, write: Write)
    requires WrittenAreClosed(s) && id < |s.sessions| && after.status.Closed?
    ensures WrittenAreClosed(Close(s, id, after, write))
    ensures multiset(Close(s, id, after, write).writtenFor) == multiset(s.writtenFor) + multiset{id}
  {
    var t := Close(s, id, after, write);
    assert t.writtenFor[|s.writtenFor|] == id;
    assert forall i :: i in t.writtenFor <==> i in s.writtenFor || i == id;
  }

  lemma InsertFits(s: Store, row: Session)
    requires WrittenAreClosed(s) && row.status.Active?
    ensures WrittenAreClosed(s.(sessions := s.sessions + [row]))
  {
  }

  lemma RecordFits(s: Store, row: Session, write: Write)
    requires WrittenAreClosed(s) && row.status.Closed?
    ensures var id: nat := |s.sessions|;
            var t := s.(sessions := s.sessions + [row], writes := s.writes + [write],
                        writtenFor := s.writtenFor + [id]);
            WrittenAreClosed(t) && multiset(t.writtenFor) == multiset(s.writtenFor) + multiset{id}
  {
    var written := s.writtenFor + [|s.sessions|];
    assert written[|s.writtenFor|] == |s.sessions|;
    assert forall i :: i in written <==> i in s.writtenFor || i == |s.sessions|;
  }

  lemma CountFits(s: Store, sample: Sample, id: nat, bytesIn: int, bytesOut: int)
    requires WrittenAreClosed(s) && id < |s.sessions|
    ensures WrittenAreClosed(s.(samples := s.samples + [sample],
                                sessions := s.sessions[id := Counted(s.sessions[id], bytesIn, bytesOut)]))
  {
  }

  /** A scraper that neither lists nor closes leaves the claims alone. */
  lemma BalanceStays(s: State, store: Store, scraper: Scraper)
    requires ClaimsBalance(s) && !s.scraper.Closing? && !scraper.Closing? && store.writtenFor == s.store.writtenFor
    ensures ClaimsBalance(s.(store := store, scraper := scraper))
  {
    hide HeldByAll;
  }

  lemma ListBalances(s: State, listed: seq<(nat, Session)>, now: int)
    requires ClaimsBalance(s) && s.scraper.Listing?
    ensures ClaimsBalance(s.(scraper := AfterList(listed, now), claims := s.claims + Ids(listed)))
  {
    hide HeldByAll;
    assert multiset(s.claims + Ids(listed)) == multiset(s.claims) + multiset(Ids(listed));
    assert ListedIds(AfterList(listed, now)) == Ids(listed);
  }

  lemma CloseBalances(s: State, listed: seq<(nat, Session)>, now: int, store: Store)
    requires ClaimsBalance(s) && s.scraper == Closing(listed, now) && listed != []
    requires multiset(store.writtenFor) == multiset(s.store.writtenFor) + multiset{listed[0].0}
    ensures ClaimsBalance(s.(store := store, scraper := AfterList(listed[1..], now)))
  {
    hide HeldByAll;
    IdsFirst(listed);
    assert ListedIds(AfterList(listed[1..], now)) == Ids(listed[1..]);
  }

  lemma ScraperKeepsInv(s: State, e: Event)
    requires Inv(s) && NextScraper(s, e).Some?
    ensures Inv(NextScraper(s, e).value)
  {
    hide FindActive, WriteOf, WrittenAreClosed, ClaimsBalance, Listed, Ids, Matched, Close;
    var t := NextScraper(s, e).value;
    if !s.scraper.Closing? && !s.scraper.Listing? { BalanceStays(s, t.store, t.scraper); }
    match s.scraper
    case Inserting(clients, seen, now) => InsertFits(s.store, Opened(clients[0], now));
    case Counting(clients, seen, now, id) =>
      var c := clients[0];
      CountFits(s.store, Sample(id, c.name, c.virtualIP, c.realIP, c.bytesReceived, c.bytesSent, now), id,
                c.bytesReceived, c.bytesSent);
    case Listing(seen, now) => ListBalances(s, Listed(s.store.sessions, seen, |s.store.sessions|), now);
    case Closing(listed, now) =>
      CloseFits(s.store, listed[0].0, ClosedNow(s.store.sessions[listed[0].0], listed[0].1, now),
                WriteOf(ClosedRow(listed[0].1, now)));
      CloseBalances(s, listed, now, t.store);
    case _ =>
  }

  /** What a hook holds and the claims change together. */
  lemma HookBalances(s: State, h: nat, hook: HookStep, store: Store, written: multiset<nat>, claims: seq<nat>,
                     claimed: multiset<nat>)
    requires ClaimsBalance(s) && h < |s.hooks|
    requires multiset(store.writtenFor) == multiset(s.store.writtenFor) + written
    requires multiset(claims) == multiset(s.claims) + claimed
    requires written + HeldBy(hook) == HeldBy(s.hooks[h]) + claimed
    ensures ClaimsBalance(s.(store := store, hooks := s.hooks[h := hook], claims := claims))
  {
    hide HeldByAll, HeldBy;
    HeldUpdate(s.hooks, h, hook);
    var t := s.(store := store, hooks := s.hooks[h := hook], claims := claims);
    MoveAcross(multiset(s.store.writtenFor), HeldByAll(s.hooks), HeldByAll(t.hooks), multiset(ListedIds(s.scraper)),
               multiset(s.claims), written, HeldBy(hook), HeldBy(s.hooks[h]), claimed);
  }

  lemma MoveAcross(w: multiset<nat>, held: multiset<nat>, held': multiset<nat>, listed: multiset<nat>, c: multiset<nat>,
                   written: multiset<nat>, hook: multiset<nat>, hook0: multiset<nat>, claimed: multiset<nat>)
    requires w + (held + listed) == c && held' + hook0 == held + hook && written + hook == hook0 + claimed
    ensures w + written + (held' + listed) == c + claimed
  {
    forall i ensures (w + written + (held' + listed))[i] == (c + claimed)[i] {
      assert (w + (held + listed))[i] == c[i];
      assert (held' + hook0)[i] == (held + hook)[i];
      assert (written + hook)[i] == (hook0 + claimed)[i];
    }
  }

  lemma HoldKeepsInv(s: State, h: nat, p: Payload, now: int, id: nat)
    requires Inv(s) && h < |s.hooks| && id < |s.store.sessions| && !s.hooks[h].Holding?
    ensures Inv(Hold(s, h, p, now, id))
  {
    hide ClaimsBalance, WrittenAreClosed;
    var none: multiset<nat> := multiset{};
    HookBalances(s, h, Holding(p, now, id, s.store.sessions[id]), s.store, none, s.claims + [id], multiset{id});
  }

  lemma MoveKeepsInv(s: State, h: nat, hook: HookStep)
    requires Inv(s) && h < |s.hooks| && !s.hooks[h].Holding? && !hook.Holding?
    ensures Inv(s.(hooks := s.hooks[h := hook]))
  {
    hide ClaimsBalance, WrittenAreClosed;
    var none: multiset<nat> := multiset{};
    HookBalances(s, h, hook, s.store, none, s.claims, none);
  }

  lemma CloseRowKeepsInv(s: State, h: nat)
    requires Inv(s) && h < |s.hooks| && s.hooks[h].Holding? && NextHook(s, h, CloseRow(h)).Some?
    ensures Inv(NextHook(s, h, CloseRow(h)).value)
  {
    hide ClaimsBalance, WrittenAreClosed, ClosedByHook, WriteOf, Close;
    var t, id := NextHook(s, h, CloseRow(h)).value, s.hooks[h].id;
    var closed := ClosedByHook(s.hooks[h].row, s.hooks[h].p, s.hooks[h].now);
    CloseFits(s.store, id, HookedNow(s.store.sessions[id], closed), WriteOf(closed));
    HookBalances(s, h, Answered, t.store, multiset{id}, s.claims, multiset{});
  }

  lemma RecordKeepsInv(s: State, h: nat)
    requires Inv(s) && h < |s.hooks| && s.hooks[h].Recording?
    ensures Inv(NextHook(s, h, Record(h)).value)
  {
    hide ClaimsBalance, WrittenAreClosed, WriteOf;
    var t, row := NextHook(s, h, Record(h)).value, RecordOf(s.hooks[h].p, s.hooks[h].now);
    var id: nat := |s.store.sessions|;
    RecordFits(s.store, row, WriteOf(row));
    HookBalances(s, h, Answered, t.store, multiset{id}, s.claims + [id], multiset{id});
  }

  lemma HookKeepsInv(s: State, h: nat, e: Event)
    requires Inv(s) && h < |s.hooks| && NextHook(s, h, e).Some?
    ensures Inv(NextHook(s, h, e).value)
  {
    hide FindActive, Newest, Inv, Hold, Close, ClosedByHook, RecordOf;
    match s.hooks[h]
    case Matching(p, now) =>
      var id := if p.connectedAt > 0
          then FindActive(s.store.sessions, p.name, p.realIP, p.connectedAt * SECOND) else None;
      if id.Some? { HoldKeepsInv(s, h, p, now, id.value); } else { MoveKeepsInv(s, h, Falling(p, now)); }
    case Falling(p, now) =>
      var id := Newest(s.store.sessions, p.name);
      if id.Some? { HoldKeepsInv(s, h, p, now, id.value); } else { MoveKeepsInv(s, h, Recording(p, now)); }
    case Holding(p, now, id, row) => CloseRowKeepsInv(s, h);
    case Recording(p, now) => RecordKeepsInv(s, h);
  }

  lemma StepKeepsInv(s: State, e: Event)
    requires Inv(s) && Next(s, e).Some?
    ensures Inv(Next(s, e).value)
  {
    hide NextScraper, NextHook, Inv;
    if e.HookCalled? {
      CallKeepsInv(s, e.p, e.now);
    } else if OfHook(e) {
      HookKeepsInv(s, e.hook, e);
    } else {
      ScraperKeepsInv(s, e);
    }
  }

  lemma CallKeepsInv(s: State, p: Payload, now: int)
    requires Inv(s)
    ensures Inv(s.(hooks := s.hooks + [Matching(p, now)]))
  {
    HeldSnoc(s.hooks, Matching(p, now));
  }

  lemma {:induction false} RunKeepsInv(s: State, events: seq<Event>)
    requires Inv(s) && Run(s, events).Some?
    ensures Inv(Run(s, events).value)
    decreases |events|
  {
    hide Next, Inv;
    if events != [] {
      StepKeepsInv(s, events[0]);
      RunKeepsInv(Next(s, events[0]).value, events[1..]);
    }
  }

  /** Main theorem: in every interleaving each row was written once for every goroutine that read
      it as active to close it and has done so; a row is closed exactly if it was written. So a
      session is written twice exactly if two of them had read it before either closed it. */
  lemma WrittenPerClaim(events: seq<Event>, i: nat)
    requires Run(INIT, events).Some? && i < |Run(INIT, events).value.store.sessions|
    ensures var s := Run(INIT, events).value;
            && multiset(s.store.writtenFor)[i] + Pending(s)[i] == multiset(s.claims)[i]
            && (s.store.sessions[i].status.Closed? <==> multiset(s.store.writtenFor)[i] > 0)
  {
    hide Run;
    RunKeepsInv(INIT, events);
  }

  lemma {:induction false} ListedActive(sessions: seq<Session>, seen: set<nat>, n: nat)
    requires n <= |sessions|
    ensures forall r <- Listed(sessions, seen, n) ::
              r.0 < n && r.1 == sessions[r.0] && r.1.status.Active? && r.0 !in seen
  {
    if n > 0 { ListedActive(sessions, seen, n - 1); }
  }

  /** A claim is made by a step only, for a row that is active then or for a new record. */
  lemma ClaimsAreActive(s: State, e: Event)
    requires Next(s, e).Some?
    ensures var t := Next(s, e).value;
            && |s.claims| <= |t.claims| && t.claims[..|s.claims|] == s.claims
            && forall id <- t.claims[|s.claims|..] ::
                 id == |s.store.sessions| || (id < |s.store.sessions| && s.store.sessions[id].status.Active?)
  {
    hide FindActive, Newest, Listed, Close, Matched;
    if s.scraper.Listing? {
      ListedActive(s.store.sessions, s.scraper.seen, |s.store.sessions|);
    }
  }

  // ---------- whose counters stay ----------

  /** The scraper has looked row `i` up and has not set its counters yet. */
  predicate InWindow(s: State, i: nat) {
    s.scraper.Counting? && s.scraper.id == i
  }

  predicate ClosesRow(s: State, e: Event, i: nat) {
    e.CloseRow? && e.hook < |s.hooks| && s.hooks[e.hook].Holding? && s.hooks[e.hook].id == i
  }

  predicate NoHookCloses(s: State, events: seq<Event>, i: nat)
    decreases |events|
  {
    events != [] ==>
      !ClosesRow(s, events[0], i)
          && (Next(s, events[0]).Some? ==> NoHookCloses(Next(s, events[0]).value, events[1..], i))
  }

  /** The counters that row `i` will have once the scraper is past it. */
  function SettledCounters(s: State, i: nat): (int, int)
    requires i < |s.store.sessions|
  {
    if InWindow(s, i)
    then (s.scraper.clients[0].bytesReceived, s.scraper.clients[0].bytesSent)
    else (s.store.sessions[i].bytesIn, s.store.sessions[i].bytesOut)
  }

  lemma ScraperSettles(s: State, e: Event, i: nat)
    requires i < |s.store.sessions| && s.store.sessions[i].status.Closed? && NextScraper(s, e).Some?
    ensures var t := NextScraper(s, e).value;
            && i < |t.store.sessions| && t.store.sessions[i].status.Closed?
                && SettledCounters(t, i) == SettledCounters(s, i)
  {
    hide FindActive, Listed;
  }

  lemma HookSettles(s: State, h: nat, e: Event, i: nat)
    requires i < |s.store.sessions| && s.store.sessions[i].status.Closed?
    requires h < |s.hooks| && NextHook(s, h, e).Some? && !ClosesRow(s, e, i)
    ensures var t := NextHook(s, h, e).value;
            && i < |t.store.sessions| && t.store.sessions[i].status.Closed?
                && SettledCounters(t, i) == SettledCounters(s, i)
  {
    hide FindActive, Newest;
  }

  lemma {:induction false} CountersSettle(s: State, events: seq<Event>, i: nat)
    requires i < |s.store.sessions| && s.store.sessions[i].status.Closed?
    requires NoHookCloses(s, events, i) && Run(s, events).Some?
    ensures var t := Run(s, events).value;
            && i < |t.store.sessions| && t.store.sessions[i].status.Closed?
                && SettledCounters(t, i) == SettledCounters(s, i)
    decreases |events|
  {
    hide NextScraper, NextHook, SettledCounters;
    if events != [] {
      var e := events[0];
      if OfHook(e) { HookSettles(s, e.hook, e, i); } else if !e.HookCalled? { ScraperSettles(s, e, i); }
          else { CallSettles(s, e.p, e.now, i); }
      CountersSettle(Next(s, e).value, events[1..], i);
    }
  }

  lemma CallSettles(s: State, p: Payload, now: int, i: nat)
    requires i < |s.store.sessions|
    ensures SettledCounters(s.(hooks := s.hooks + [Matching(p, now)]), i) == SettledCounters(s, i)
  {
  }

  /** After a hook has closed a row, in every continuation in which no other hook closes it: once
      the scraper is past the row, the counters are the final ones of the hook, unless the scraper
      had looked the row up before the hook closed it and set its counters after. */
  lemma CountersAfterHook(s: State, h: nat, events: seq<Event>)
    requires h < |s.hooks| && s.hooks[h].Holding? && Next(s, CloseRow(h)).Some?
    requires var s1, i := Next(s, CloseRow(h)).value, s.hooks[h].id;
             NoHookCloses(s1, events, i) && Run(s1, events).Some? && !InWindow(Run(s1, events).value, i)
    ensures var i, p, t := s.hooks[h].id, s.hooks[h].p, Run(Next(s, CloseRow(h)).value, events).value;
            && i < |t.store.sessions| && t.store.sessions[i].status.Closed?
            && (!InWindow(s, i) ==>
                  && t.store.sessions[i].bytesIn == p.bytesIn
                  && t.store.sessions[i].bytesOut == p.bytesOut)
            && (InWindow(s, i) ==>
                  && t.store.sessions[i].bytesIn == s.scraper.clients[0].bytesReceived
                  && t.store.sessions[i].bytesOut == s.scraper.clients[0].bytesSent)
  {
    hide Run, NoHookCloses;
    CountersSettle(Next(s, CloseRow(h)).value, events, s.hooks[h].id);
  }

  lemma RunFirst(s: State, e: Event, rest: seq<Event>)
    requires Next(s, e).Some?
    ensures Run(s, [e] + rest) == Run(Next(s, e).value, rest)
  {
    hide Next;
    assert ([e] + rest)[1..] == rest;
  }

  const CONNECTED := Session("client", "10.0.0.1", "10.8.0.2", 7 * SECOND, ZERO_TIME, 1000, 2000, 0, Active)
  const REPORTED := Client("client", "10.0.0.1", "10.8.0.2", 7 * SECOND, 1200, 2200)
  const FINAL := Payload("client", "10.0.0.1", "10.8.0.2", 7, 1500, 2500, 60)

  /** The scraper finds the row, the hook closes it with its final counters, the scraper sets the
      older ones it has read from the status log: those stay with the closed session. */
  lemma CountersLost()
    ensures var s := State(Store([CONNECTED], [], [], []), Idle, [], []);
            var events := [StartScrape([REPORTED], 66 * SECOND), Look, HookCalled(FINAL, 67 * SECOND), Match(0),
                           CloseRow(0), Count];
            && Run(s, events).Some? && |Run(s, events).value.store.sessions| == 1
            && var row := Run(s, events).value.store.sessions[0];
               row.status.Closed? && row.durationS == 60 && row.bytesIn == 1200 && row.bytesOut == 2200
  {
    var s := State(Store([CONNECTED], [], [], []), Idle, [], []);
    assert [CONNECTED][..0] == [];
    assert FindActive([CONNECTED], "client", "10.0.0.1", 7 * SECOND) == Some(0);
    var s1 := s.(scraper := Looking([REPORTED], {}, 66 * SECOND));
    var s2 := s1.(scraper := Counting([REPORTED], {}, 66 * SECOND, 0));
    var s3 := s2.(hooks := [Matching(FINAL, 67 * SECOND)]);
    var s4 := s3.(hooks := [Holding(FINAL, 67 * SECOND, 0, CONNECTED)], claims := [0]);
    assert Next(s, StartScrape([REPORTED], 66 * SECOND)) == Some(s1);
    assert Next(s1, Look) == Some(s2);
    assert Next(s2, HookCalled(FINAL, 67 * SECOND)) == Some(s3) by {
      assert s2.hooks + [Matching(FINAL, 67 * SECOND)] == s3.hooks;
    }
    assert Next(s3, Match(0)) == Some(s4) by {
      assert s3.hooks[0 := Holding(FINAL, 67 * SECOND, 0, CONNECTED)] == s4.hooks;
      assert s3.claims + [0] == s4.claims;
    }
    var s5 := Next(s4, CloseRow(0)).value;
    var s6 := Next(s5, Count).value;
    hide Next;
    var e1, e2, e3, e4, e5, e6 :=
      StartScrape([REPORTED], 66 * SECOND), Look, HookCalled(FINAL, 67 * SECOND), Match(0), CloseRow(0), Count;
    assert [e1] + ([e2] + ([e3] + ([e4] + ([e5] + ([e6] + []))))) == [e1, e2, e3, e4, e5, e6];
    RunFirst(s, e1, [e2] + ([e3] + ([e4] + ([e5] + ([e6] + [])))));
    RunFirst(s1, e2, [e3] + ([e4] + ([e5] + ([e6] + []))));
    RunFirst(s2, e3, [e4] + ([e5] + ([e6] + [])));
    RunFirst(s3, e4, [e5] + ([e6] + []));
    RunFirst(s4, e5, [e6] + []);
    RunFirst(s5, e6, []);
  }

  // ---------- alone, the steps are the operation ----------

  lemma {:induction false} RunConcat(s: State, first: seq<Event>, second: seq<Event>)
    requires Run(s, first).Some?
    ensures Run(s, first + second) == Run(Run(s, first).value, second)
    decreases |first|
  {
    hide Next;
    if first == [] {
      assert first + second == second;
    } else {
      assert (first + second)[1..] == first[1..] + second;
      RunConcat(Next(s, first[0]).value, first[1..], second);
    }
  }

  lemma RunOne(s: State, e: Event)
    ensures Run(s, [e]) == Next(s, e)
  {
    hide Next;
    if Next(s, e).Some? {
      assert [e][1..] == [];
      assert Run(Next(s, e).value, []) == Next(s, e);
    }
  }

  /** The reads of hook `h` on a table. */
  function ReadEvents(store: Store, p: Payload, h: nat): seq<Event> {
    if p.connectedAt > 0 && FindActive(store.sessions, p.name, p.realIP, p.connectedAt * SECOND).Some? then [Match(h)]
    else [Match(h), Fall(h)]
  }

  lemma SoloReads(s: State, h: nat, p: Payload, now: int)
    requires h < |s.hooks| && s.hooks[h] == Matching(p, now)
    ensures var id := Selected(s.store, p);
            Run(s, ReadEvents(s.store, p, h))
            == Some(if id.Some? then Hold(s, h, p, now, id.value) else s.(hooks := s.hooks[h := Recording(p, now)]))
  {
    hide FindActive, Newest, Run;
    if |ReadEvents(s.store, p, h)| == 1 {
      RunOne(s, Match(h));
    } else {
      RunTwo(s, Match(h), Fall(h));
      var falling := s.hooks[h := Falling(p, now)];
      var id := Selected(s.store, p);
      var next := if id.Some? then Holding(p, now, id.value, s.store.sessions[id.value]) else Recording(p, now);
      assert falling[h := next] == s.hooks[h := next];
    }
  }

  /** Closing the row it has just read, or recording, a hook does what the atomic hook does. */
  lemma SoloAnswers(s: State, h: nat, p: Payload, now: int)
    requires p.name != "" && h < |s.hooks|
    requires var id := Selected(s.store, p);
             s.hooks[h] == if id.Some? then Holding(p, now, id.value, s.store.sessions[id.value]) else Recording(p, now)
    ensures var answer := if Selected(s.store, p).Some? then CloseRow(h) else Record(h);
            && Next(s, answer).Some? && Next(s, answer).value.scraper == s.scraper
            && Hook(s.store, p, now) == Ok(Next(s, answer).value.store)
  {
    hide Selected, WriteOf;
  }

  function HookEvents(store: Store, p: Payload, now: int, h: nat): seq<Event> {
    [HookCalled(p, now)] + ReadEvents(store, p, h) + [if Selected(store, p).Some? then CloseRow(h) else Record(h)]
  }

  /** A hook whose steps nothing comes between does what the atomic hook does. */
  lemma SoloHook(s: State, p: Payload, now: int)
    requires p.name != ""
    ensures var events := HookEvents(s.store, p, now, |s.hooks|);
            && Run(s, events).Some?
            && Hook(s.store, p, now) == Ok(Run(s, events).value.store) && Run(s, events).value.scraper == s.scraper
  {
    hide Selected, ReadEvents, Hook, Run, NextHook;
    var h := |s.hooks|;
    var s1 := s.(hooks := s.hooks + [Matching(p, now)]);
    RunOne(s, HookCalled(p, now));
    SoloReads(s1, h, p, now);
    var s2 := Run(s1, ReadEvents(s.store, p, h)).value;
    SoloAnswers(s2, h, p, now);
    var answer := if Selected(s.store, p).Some? then CloseRow(h) else Record(h);
    RunOne(s2, answer);
    RunConcat(s, [HookCalled(p, now)], ReadEvents(s.store, p, h));
    RunConcat(s, [HookCalled(p, now)] + ReadEvents(s.store, p, h), [answer]);
  }

  function ClientEvents(store: Store, c: Client): seq<Event> {
    if c.name == "" then [Look] else if Matched(store, c).Some? then [Look, Count] else [Look, InsertRow, Count]
  }

  function ClientsEvents(store: Store, clients: seq<Client>, now: int): seq<Event>
    decreases |clients|
  {
    if clients == [] then []
    else ClientEvents(store, clients[0]) + ClientsEvents(ScrapeClient(store, clients[0], now), clients[1..], now)
  }

  function CloseEvents(n: nat): seq<Event> {
    seq(n, _ => CloseNext)
  }

  function ScrapeEvents(store: Store, clients: seq<Client>, now: int): seq<Event> {
    var t := ScrapeClients(store, clients, now);
    [StartScrape(clients, now)] + ClientsEvents(store, clients, now) + [List]
    + CloseEvents(|Listed(t.sessions, Seen(store, clients, now), |t.sessions|)|)
  }

  function SeenOne(store: Store, c: Client): set<nat> {
    if c.name == "" then {} else {UpsertId(store, c)}
  }

  lemma {:induction false} ScrapeFront(store: Store, clients: seq<Client>, now: int)
    requires clients != []
    ensures var t := ScrapeClient(store, clients[0], now);
            && ScrapeClients(store, clients, now) == ScrapeClients(t, clients[1..], now)
            && Seen(store, clients, now) == SeenOne(store, clients[0]) + Seen(t, clients[1..], now)
    decreases |clients|
  {
    hide ScrapeClient, UpsertId;
    var most, last := clients[..|clients| - 1], clients[|clients| - 1];
    if most == [] {
      assert clients[1..] == [];
      assert ScrapeClients(store, most, now) == store;
    } else {
      ScrapeFront(store, most, now);
      assert clients[1..][..|clients[1..]| - 1] == most[1..];
    }
  }

  lemma RunTwo(s: State, a: Event, b: Event)
    requires Next(s, a).Some?
    ensures Run(s, [a, b]) == Next(Next(s, a).value, b)
  {
    hide Next;
    RunFirst(s, a, [b]);
    assert [a] + [b] == [a, b];
    RunOne(Next(s, a).value, b);
  }

  lemma SoloClient(s: State, clients: seq<Client>, seen: set<nat>, now: int)
    requires clients != [] && s.scraper == Looking(clients, seen, now)
    ensures Run(s, ClientEvents(s.store, clients[0]))
            == Some(s.(store := ScrapeClient(s.store, clients[0], now),
                       scraper := AfterClient(clients[1..], seen + SeenOne(s.store, clients[0]), now)))
  {
    hide FindActive, Run;
    var c := clients[0];
    if c.name == "" {
      RunOne(s, Look);
      assert seen + {} == seen;
    } else {
      var s1 := Next(s, Look).value;
      if Matched(s.store, c).Some? {
        RunTwo(s, Look, Count);
      } else {
        RunFirst(s, Look, [InsertRow, Count]);
        assert [Look] + [InsertRow, Count] == [Look, InsertRow, Count];
        RunTwo(s1, InsertRow, Count);
      }
    }
  }

  lemma {:induction false} SoloClients(s: State, clients: seq<Client>, seen: set<nat>, now: int)
    requires s.scraper == AfterClient(clients, seen, now)
    ensures Run(s, ClientsEvents(s.store, clients, now))
            == Some(s.(store := ScrapeClients(s.store, clients, now),
                       scraper := Listing(seen + Seen(s.store, clients, now), now)))
    decreases |clients|
  {
    hide ClientEvents, ScrapeClient, Next, SeenOne;
    if clients == [] {
      assert seen + {} == seen;
      assert Run(s, []) == Some(s);
    } else {
      SoloClient(s, clients, seen, now);
      var t := Run(s, ClientEvents(s.store, clients[0])).value;
      SoloClients(t, clients[1..], seen + SeenOne(s.store, clients[0]), now);
      RunConcat(s, ClientEvents(s.store, clients[0]), ClientsEvents(t.store, clients[1..], now));
      ScrapeFront(s.store, clients, now);
      assert seen + SeenOne(s.store, clients[0]) + Seen(t.store, clients[1..], now)
          == seen + Seen(s.store, clients, now);
    }
  }

  lemma CloseEventsLast(n: nat)
    ensures CloseEvents(0) == [] && CloseEvents(n + 1) == CloseEvents(n) + [CloseNext]
  {
  }

  /** The last row that a scrape goes through when it closes what it has not seen. */
  lemma CloseMissingLast(store: Store, seen: set<nat>, now: int, n: nat)
    requires n < |store.sessions|
    ensures var t, row := CloseMissing(store, seen, now, n), store.sessions[n];
            && t.sessions[n] == row
            && var missing := row.status.Active? && n !in seen;
               && CloseMissing(store, seen, now, n + 1)
                  == (if missing then Close(t, n, ClosedRow(row, now), WriteOf(ClosedRow(row, now))) else t)
               && Listed(store.sessions, seen, n + 1)
                  == Listed(store.sessions, seen, n) + (if missing then [(n, row)] else [])
  {
    hide WriteOf;
    SessionHistory.NotYetClosed(store, seen, now, n, n);
  }

  lemma ListsAssociate(a: seq<(nat, Session)>, b: seq<(nat, Session)>, c: seq<(nat, Session)>)
    ensures a + b + c == a + (b + c)
    ensures b == [] ==> b + c == c && a + b == a
  {
  }

  lemma NoneToClose(s: State, seen: set<nat>, now: int, rest: seq<(nat, Session)>)
    requires s.scraper == AfterList(Listed(s.store.sessions, seen, 0) + rest, now)
    ensures Run(s, CloseEvents(|Listed(s.store.sessions, seen, 0)|))
            == Some(s.(store := CloseMissing(s.store, seen, now, 0), scraper := AfterList(rest, now)))
  {
    hide Next;
    assert [] + rest == rest && CloseEvents(0) == [];
  }

  lemma {:induction false} SoloClosing(s: State, seen: set<nat>, now: int, n: nat, rest: seq<(nat, Session)>)
    requires n <= |s.store.sessions|
    requires s.scraper == AfterList(Listed(s.store.sessions, seen, n) + rest, now)
    ensures Run(s, CloseEvents(|Listed(s.store.sessions, seen, n)|))
            == Some(s.(store := CloseMissing(s.store, seen, now, n), scraper := AfterList(rest, now)))
  {
    hide Next, Run, WriteOf, Close, CloseEvents, CloseMissing, Listed, ClosedRow, AfterList;
    if n == 0 {
      NoneToClose(s, seen, now, rest);
    } else {
      CloseMissingLast(s.store, seen, now, n - 1);
      var row, before := s.store.sessions[n - 1], Listed(s.store.sessions, seen, n - 1);
      var own: seq<(nat, Session)> := if row.status.Active? && n - 1 !in seen then [(n - 1, row)] else [];
      ListsAssociate(before, own, rest);
      SoloClosing(s, seen, now, n - 1, own + rest);
      if own != [] {
        SoloClosesOne(s, |before|, Run(s, CloseEvents(|before|)).value, n - 1, row, now, rest);
      }
    }
  }

  lemma SoloClosesOne(s: State, k: nat, t: State, id: nat, row: Session, now: int, rest: seq<(nat, Session)>)
    requires Run(s, CloseEvents(k)) == Some(t) && t.scraper == AfterList([(id, row)] + rest, now)
    requires id < |t.store.sessions| && t.store.sessions[id] == row
    ensures Run(s, CloseEvents(k + 1))
            == Some(t.(store := Close(t.store, id, ClosedRow(row, now), WriteOf(ClosedRow(row, now))),
                       scraper := AfterList(rest, now)))
  {
    hide Next, Run, WriteOf, Close, CloseEvents, ClosedRow, AfterList;
    SoloCloses(t, id, row, now, rest);
    RunOne(t, CloseNext);
    RunConcat(s, CloseEvents(k), [CloseNext]);
    CloseEventsLast(k);
  }

  lemma SoloCloses(t: State, id: nat, row: Session, now: int, rest: seq<(nat, Session)>)
    requires t.scraper == AfterList([(id, row)] + rest, now) && id < |t.store.sessions| && t.store.sessions[id] == row
    ensures Next(t, CloseNext)
            == Some(t.(store := Close(t.store, id, ClosedRow(row, now), WriteOf(ClosedRow(row, now))),
                       scraper := AfterList(rest, now)))
  {
    hide WriteOf;
    assert ([(id, row)] + rest)[1..] == rest;
  }

  /** A scrape whose steps nothing comes between does what the atomic scrape does. */
  lemma SoloScrape(s: State, clients: seq<Client>, now: int)
    requires s.scraper.Idle?
    ensures var events := ScrapeEvents(s.store, clients, now);
            && Run(s, events).Some?
            && Run(s, events).value.store == Scrape(s.store, clients, now)
            && Run(s, events).value.scraper.Idle? && Run(s, events).value.hooks == s.hooks
  {
    hide Run, ClientsEvents, CloseEvents, ScrapeClients, CloseMissing, Seen, Listed;
    var start, looks := [StartScrape(clients, now)], ClientsEvents(s.store, clients, now);
    var s1 := s.(scraper := AfterClient(clients, {}, now));
    RunOne(s, StartScrape(clients, now));
    SoloClients(s1, clients, {}, now);
    RunConcat(s, start, looks);
    var s2 := Run(s1, looks).value;
    var t, seen := s2.store, Seen(s.store, clients, now);
    assert {} + seen == seen;
    RunOne(s2, List);
    RunConcat(s, start + looks, [List]);
    var s3 := Next(s2, List).value;
    var listed := Listed(t.sessions, seen, |t.sessions|);
    assert listed + [] == listed;
    SoloClosing(s3, seen, now, |t.sessions|, []);
    RunConcat(s, start + looks + [List], CloseEvents(|listed|));
  }
}
