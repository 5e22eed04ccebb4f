/** The parser of OpenVPN's status log, in both of its layouts. */
module StatusLog {
  import opened Outcomes
  import opened TextLines

  datatype StatusClient = StatusClient(
    name: string, realIP: string, realPort: string, bytesReceived: int, bytesSent: int, connectedAt: int,
        virtualIP: string)

  datatype Address = Address(host: string, port: string)

  /** What the parser leaves to the library: splitting an address, and reading a textual date
      (the zero time if that fails). */
  datatype Library = Library(address: string -> Address, since: string -> int)

  const COMMA := ','
  const NUL := 0 as char

  datatype Section = NoSection | ClientV2 | RoutingV2 | Stats | End | ClientV3 | RoutingV3 | HeaderOther

  /** What a line tells: a connected client, or a virtual address of a connection. */
  datatype Event = Connected(client: StatusClient) | Routed(virtualIP: string, key: string)

  // ---------- numbers ----------

  datatype Scan = Number(n: nat) | BadSyntax | OutOfRange

  /** Unsigned decimal digits, 64 bits wide; `n` is the value so far. */
  function ScanDigits(s: string, n: nat): Scan
    decreases |s|
  {
    if s == "" then Number(n)
    else if !('0' <= s[0] <= '9') then BadSyntax
    else if n >= 0x1999_9999_9999_999A || n * 10 + (s[0] as int - '0' as int) >= 0x1_0000_0000_0000_0000 then OutOfRange
    else ScanDigits(s[1..], n * 10 + (s[0] as int - '0' as int))
  }

  /** The value that `ParseInt` gives, also when it fails. */
  function IntValue(s: string): int {
    var negative := s != "" && s[0] == '-';
    var digits := if s != "" && (s[0] == '-' || s[0] == '+') then s[1..] else s;
    var scan := if digits == "" then BadSyntax else ScanDigits(digits, 0);
    if scan.BadSyntax? then 0
    else if negative then
      (if scan.OutOfRange? || scan.n > 0x8000_0000_0000_0000 then -0x8000_0000_0000_0000 else 0 - scan.n as int)
    else if scan.OutOfRange? || scan.n >= 0x8000_0000_0000_0000 then 0x7FFF_FFFF_FFFF_FFFF
    else scan.n as int
  }

  predicate IntOk(s: string) {
    var negative := s != "" && s[0] == '-';
    var digits := if s != "" && (s[0] == '-' || s[0] == '+') then s[1..] else s;
    var scan := if digits == "" then BadSyntax else ScanDigits(digits, 0);
    scan.Number? && scan.n <= (if negative then 0x8000_0000_0000_0000 else 0x7FFF_FFFF_FFFF_FFFF)
  }

  // ---------- connections ----------

  function FormatAddr(host: string, port: string): string {
    if port == "" then host else host + ":" + port
  }

  function ConnectionKey(name: string, host: string, port: string): string {
    name + [NUL] + FormatAddr(host, port)
  }

  function KeyOf(c: StatusClient): string {
    ConnectionKey(c.name, c.realIP, c.realPort)
  }

  function RouteKey(name: string, address: string, lib: Library): string {
    ConnectionKey(name, lib.address(address).host, lib.address(address).port)
  }

  // ---------- lines ----------

  function Epoch(field: string): Option<int> {
    if IntOk(Trim(field)) && IntValue(Trim(field)) > 0 then Some(IntValue(Trim(field))) else None
  }

  function ClientV2Line(line: string, lib: Library): Option<StatusClient> {
    var fields := SplitOn(line, COMMA);
    if |fields| < 5 then None
    else
      var at := if |fields| >= 6 && Epoch(fields[5]).Some? then Epoch(fields[5]).value else lib.since(fields[4]);
      Some(StatusClient(fields[0], lib.address(fields[1]).host, lib.address(fields[1]).port,
                        IntValue(Trim(fields[2])), IntValue(Trim(fields[3])), at, ""))
  }

  function ClientV3Line(line: string, lib: Library): Option<StatusClient> {
    var fields := SplitOn(line, COMMA);
    if |fields| < 9 then None
    else
      var at := if Epoch(fields[8]).Some? then Epoch(fields[8]).value else lib.since(fields[7]);
      Some(StatusClient(fields[1], lib.address(fields[2]).host, lib.address(fields[2]).port,
                        IntValue(Trim(fields[5])), IntValue(Trim(fields[6])), at, fields[3]))
  }

  function RouteV2Line(line: string, lib: Library): Event {
    var fields := SplitOn(line, COMMA);
    if |fields| < 3 then Routed("", RouteKey("", "", lib)) else Routed(fields[0], RouteKey(fields[1], fields[2], lib))
  }

  function RouteV3Line(line: string, lib: Library): Event {
    var fields := SplitOn(line, COMMA);
    if |fields| < 4 then Routed("", RouteKey("", "", lib)) else Routed(fields[1], RouteKey(fields[2], fields[3], lib))
  }

  predicate HasPrefix(line: string, prefix: string) {
    prefix <= line
  }

  datatype Tag = Enter(section: Section) | Preamble | ClientRow | RouteRow | Plain

  /** What the start of a trimmed line says, whatever the section. */
  function TagOf(line: string): Tag {
    if line == "OpenVPN CLIENT LIST" then Enter(ClientV2)
    else if line == "ROUTING TABLE" then Enter(RoutingV2)
    else if line == "GLOBAL STATS" then Enter(Stats)
    else if line == "END" then Enter(End)
    else if HasPrefix(line, "TITLE,") || HasPrefix(line, "TIME,") then Preamble
    else if HasPrefix(line, "HEADER,CLIENT_LIST") then Enter(ClientV3)
    else if HasPrefix(line, "HEADER,ROUTING_TABLE") then Enter(RoutingV3)
    else if HasPrefix(line, "HEADER,") then Enter(HeaderOther)
    else if HasPrefix(line, "CLIENT_LIST,") then ClientRow
    else if HasPrefix(line, "ROUTING_TABLE,") then RouteRow
    else Plain
  }

  function NextSection(section: Section, line: string): Section {
    if line != "" && TagOf(line).Enter? then TagOf(line).section else section
  }

  function ClientEvents(c: Option<StatusClient>): seq<Event> {
    if c.Some? then [Connected(c.value)] else []
  }

  /** What a trimmed line tells, in its section. */
  function EventsOf(section: Section, line: string, lib: Library): seq<Event> {
    if line == "" then []
    else
      match TagOf(line)
      case Enter(_) => []
      case Preamble => []
      case ClientRow => ClientEvents(ClientV3Line(line, lib))
      case RouteRow => [RouteV3Line(line, lib)]
      case Plain =>
        if section == ClientV2 && !HasPrefix(line, "Common Name,") then ClientEvents(ClientV2Line(line, lib))
        else if section == RoutingV2 && !HasPrefix(line, "Virtual Address,") then [RouteV2Line(line, lib)]
        else []
  }

  function SectionFrom(section: Section, lines: seq<string>): Section
    decreases |lines|
  {
    if lines == [] then section else SectionFrom(NextSection(section, Trim(lines[0])), lines[1..])
  }

  function EventsFrom(section: Section, lines: seq<string>, lib: Library): seq<Event>
    decreases |lines|
  {
    if lines == [] then []
    else EventsOf(section, Trim(lines[0]), lib) + EventsFrom(NextSection(section, Trim(lines[0])), lines[1..], lib)
  }

  // ---------- the client map ----------

  function Apply(clients: map<string, StatusClient>, e: Event): map<string, StatusClient> {
    match e
    case Connected(c) => clients[KeyOf(c) := c]
    case Routed(virtualIP, key) =>
      if key in clients && clients[key].virtualIP == ""
          then clients[key := clients[key].(virtualIP := virtualIP)] else clients
  }

  function Clients(events: seq<Event>): map<string, StatusClient> {
    if events == [] then map[] else Apply(Clients(events[..|events| - 1]), events[|events| - 1])
  }

  function ParseStatus(lines: seq<string>, lib: Library): map<string, StatusClient> {
    Clients(EventsFrom(NoSection, lines, lib))
  }

  method SetVirtualIP(clients: map<string, StatusClient>, e: Event) returns (r: map<string, StatusClient>)
    requires e.Routed?
    ensures r == Apply(clients, e)
  {
    r := clients;
    if e.key in r && r[e.key].virtualIP == "" {
      r := r[e.key := r[e.key].(virtualIP := e.virtualIP)];
    }
  }

  lemma ClientsSnoc(events: seq<Event>, e: Event)
    ensures Clients(events + [e]) == Apply(Clients(events), e)
  {
    assert (events + [e])[..|events|] == events;
  }

  /** The log's lines, in order, as the scanner gives them. */
  method ParseStatusLog(lines: seq<string>, lib: Library) returns (clients: map<string, StatusClient>)
    ensures clients == ParseStatus(lines, lib)
  {
    hide Trim, Apply, Clients, EventsOf, TagOf, ClientV2Line, ClientV3Line, RouteV2Line, RouteV3Line;
    clients := map[];
    var section := NoSection;
    ghost var done: seq<Event> := [];
    assert clients == Clients([]) by { NoClients(); }
    assert lines[0..] == lines;
    for i := 0 to |lines|
      invariant clients == Clients(done)
      invariant done + EventsFrom(section, lines[i..], lib) == EventsFrom(NoSection, lines, lib)
    {
      ghost var rest, before, entered := lines[i..], done, section;
      assert rest[0] == lines[i] && rest[1..] == lines[i + 1..];
      var line := Trim(lines[i]);
      clients, section := HandleLine(clients, section, line, lib, done);
      done := done + EventsOf(entered, line, lib);
      assert done + EventsFrom(section, lines[i + 1..], lib)
          == before + (EventsOf(entered, line, lib) + EventsFrom(section, lines[i + 1..], lib));
    }
    assert lines[|lines|..] == [] && done + [] == done;
  }

  lemma NoClients()
    ensures Clients([]) == map[]
  {
  }

  method HandleLine(clients: map<string, StatusClient>, section: Section, line: string, lib: Library,
                    ghost done: seq<Event>)
    returns (r: map<string, StatusClient>, next: Section)
    requires clients == Clients(done)
    ensures r == Clients(done + EventsOf(section, line, lib)) && next == NextSection(section, line)
  {
    hide Clients, Apply, ClientV2Line, ClientV3Line, RouteV2Line, RouteV3Line, TagOf, HasPrefix;
    assert done + [] == done;
    r, next := clients, section;
    if line == "" { return; }
    match TagOf(line)
    case Enter(entered) => next := entered;
    case Preamble =>
    case ClientRow =>
      var c := ClientV3Line(line, lib);
      r := AddClient(clients, c, done);
    case RouteRow =>
      var e := RouteV3Line(line, lib);
      RouteEvent(line, lib);
      r := SetVirtualIP(clients, e);
      ClientsSnoc(done, e);
    case Plain =>
      if section == ClientV2 {
        if HasPrefix(line, "Common Name,") { return; }
        var c := ClientV2Line(line, lib);
        r := AddClient(clients, c, done);
      } else if section == RoutingV2 {
        if HasPrefix(line, "Virtual Address,") { return; }
        var e := RouteV2Line(line, lib);
        RouteEvent(line, lib);
        r := SetVirtualIP(clients, e);
        ClientsSnoc(done, e);
      }
  }

  lemma RouteEvent(line: string, lib: Library)
    ensures RouteV2Line(line, lib).Routed? && RouteV3Line(line, lib).Routed?
  {
  }

  method AddClient(clients: map<string, StatusClient>, c: Option<StatusClient>,
                   ghost done: seq<Event>) returns (r: map<string, StatusClient>)
    requires clients == Clients(done)
    ensures r == Clients(done + ClientEvents(c))
  {
    hide Clients;
    r := clients;
    if c.Some? {
      r := r[KeyOf(c.value) := c.value];
      ClientsSnoc(done, Connected(c.value));
    } else {
      assert done + [] == done;
    }
  }

  // ---------- what the map holds ----------

  /** The index of the last client event of a connection, or -1. */
  function LastConnected(events: seq<Event>, key: string): (i: int)
    ensures -1 <= i < |events|
    ensures i >= 0 ==> events[i].Connected? && KeyOf(events[i].client) == key
    ensures forall j :: i < j < |events| && j >= 0 ==> !(events[j].Connected? && KeyOf(events[j].client) == key)
  {
    if events == [] then -1
    else
      var last := |events| - 1;
      if events[last].Connected? && KeyOf(events[last].client) == key then last else LastConnected(events[..last], key)
  }

  /** The first nonempty virtual address routed to a connection from an index on, or nothing. */
  function FirstRoute(events: seq<Event>, from: nat, key: string): string
    requires from <= |events|
    decreases |events| - from
  {
    if from == |events| then ""
    else if events[from].Routed? && events[from].key == key && events[from].virtualIP != "" then events[from].virtualIP
    else FirstRoute(events, from + 1, key)
  }

  /** A connection's last client line, with its own virtual address or else the first routed to it
      after that line. */
  function Expected(events: seq<Event>, key: string): Option<StatusClient> {
    var i := LastConnected(events, key);
    if i < 0 then None
    else
      var c := events[i].client;
      Some(if c.virtualIP != "" then c else c.(virtualIP := FirstRoute(events, i + 1, key)))
  }

  lemma {:induction false} FirstRouteSnoc(events: seq<Event>, e: Event, from: nat, key: string)
    requires from <= |events|
    ensures FirstRoute(events + [e], from, key)
            == if FirstRoute(events, from, key) != "" then FirstRoute(events, from, key)
               else if e.Routed? && e.key == key then e.virtualIP else ""
    decreases |events| - from
  {
    if from < |events| {
      FirstRouteSnoc(events, e, from + 1, key);
    } else {
      assert FirstRoute(events + [e], from + 1, key) == "";
    }
  }

  ghost predicate Holds(clients: map<string, StatusClient>, key: string, c: Option<StatusClient>) {
    (key in clients <==> c.Some?) && (key in clients ==> clients[key] == c.value && KeyOf(c.value) == key)
  }

  /** For every input: the result holds each connection once, under its key, as its last client
      line has it, with its virtual address from its own column or else from the first route. */
  lemma {:induction false} ClientsExpected(events: seq<Event>, key: string)
    ensures Holds(Clients(events), key, Expected(events, key))
  {
    if events != [] {
      var front, e := events[..|events| - 1], events[|events| - 1];
      ClientsExpected(front, key);
      assert events == front + [e];
      var i := LastConnected(front, key);
      if i >= 0 { FirstRouteSnoc(front, e, i + 1, key); }
      if e.Connected? { assert FirstRoute(events, |events|, key) == ""; }
    }
  }

  // ---------- keys ----------

  lemma FirstSeparator(a: string, b: string, x: string, y: string, sep: char)
    requires a + [sep] + x == b + [sep] + y && sep !in a && sep !in b
    ensures a == b && x == y
  {
    hide SplitOn;
    SplitOnConcat(a, x, sep);
    SplitOnConcat(b, y, sep);
    SplitOnPiece(a, sep);
    SplitOnPiece(b, sep);
    assert ([a] + SplitOn(x, sep))[0] == a && ([b] + SplitOn(y, sep))[0] == b;
    assert x == (a + [sep] + x)[|a| + 1..] && y == (b + [sep] + y)[|b| + 1..];
  }

  lemma LastSeparator(a: string, b: string, x: string, y: string, sep: char)
    requires a + [sep] + x == b + [sep] + y && sep !in x && sep !in y
    ensures a == b && x == y
  {
    hide SplitOn;
    SplitOnConcat(a, x, sep);
    SplitOnConcat(b, y, sep);
    SplitOnPiece(x, sep);
    SplitOnPiece(y, sep);
    assert (SplitOn(a, sep) + [x])[|SplitOn(a, sep)|] == x && (SplitOn(b, sep) + [y])[|SplitOn(b, sep)|] == y;
    assert |SplitOn(a, sep) + [x]| == |SplitOn(b, sep) + [y]|;
    assert a == (a + [sep] + x)[..|a|] && b == (b + [sep] + y)[..|b|];
  }

  /** One side has no port, and its address reads as the address and port of the other. */
  predicate PortInAddress(c: StatusClient, d: StatusClient) {
    c.realPort == "" && d.realPort != "" && c.realIP == d.realIP + ":" + d.realPort
  }

  /** Of two names without NUL and two ports without a colon, exactly when the keys are equal. */
  lemma KeysEqualIff(c: StatusClient, d: StatusClient)
    requires NUL !in c.name && NUL !in d.name && ':' !in c.realPort && ':' !in d.realPort
    ensures KeyOf(c) == KeyOf(d)
            <==> c.name == d.name
                 && ((c.realIP == d.realIP && c.realPort == d.realPort) || PortInAddress(c, d) || PortInAddress(d, c))
  {
    if KeyOf(c) == KeyOf(d) {
      FirstSeparator(c.name, d.name, FormatAddr(c.realIP, c.realPort), FormatAddr(d.realIP, d.realPort), NUL);
      if c.realPort != "" && d.realPort != "" { LastSeparator(c.realIP, d.realIP, c.realPort, d.realPort, ':'); }
    }
  }

  /** So keys tell connections apart that have ports. */
  lemma KeyInjective(c: StatusClient, d: StatusClient)
    requires KeyOf(c) == KeyOf(d) && NUL !in c.name && NUL !in d.name
    requires c.realPort != "" && d.realPort != "" && ':' !in c.realPort && ':' !in d.realPort
    ensures c.name == d.name && c.realIP == d.realIP && c.realPort == d.realPort
  {
    KeysEqualIff(c, d);
  }

  /** Without a port the key of an address with colons can be that of another connection. */
  lemma KeyCollision()
    ensures ConnectionKey("client", "fe80::1:1194", "") == ConnectionKey("client", "fe80::1", "1194")
  {
  }
}
