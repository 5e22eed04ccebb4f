/** The two layouts of the status log: printing the same connections and routes in either gives
    the same clients when parsed. */
module StatusLogLayouts {
  import opened Numerals
  import opened Outcomes
  import opened StatusLog
  import opened TextLines

  /** A connection as OpenVPN knows it; `column` is the virtual address column of the newer layout,
      `rest` the columns after the connect time there. */
  datatype Connection = Connection(
    name: string, address: string, received: nat, sent: nat, since: string, epoch: nat,
    column: string, column6: string, rest: seq<string>)

  datatype Route = Route(virtualIP: string, name: string, address: string, lastRef: string, lastRefEpoch: string)

  /** Texts around the rows, of which the parser looks at nothing but their start. */
  datatype Frame = Frame(updated: string, title: string, time: string, clientHeader: string, routeHeader: string,
                         stats: string)

  // ---------- printing ----------

  function ClientV2Fields(c: Connection): seq<string> {
    [c.name, c.address, Numeral(c.received), Numeral(c.sent), c.since, Numeral(c.epoch)]
  }

  function ClientV2Row(c: Connection): string {
    JoinOn(ClientV2Fields(c), COMMA)
  }

  function ClientV3Columns(c: Connection): seq<string> {
    ["CLIENT_LIST", c.name, c.address, c.column, c.column6, Numeral(c.received), Numeral(c.sent), c.since,
     Numeral(c.epoch)]
  }

  function ClientV3Fields(c: Connection): seq<string> {
    ClientV3Columns(c) + c.rest
  }

  function ClientV3Row(c: Connection): string {
    JoinOn(ClientV3Fields(c), COMMA)
  }

  function RouteV2Fields(r: Route): seq<string> {
    [r.virtualIP, r.name, r.address, r.lastRef]
  }

  function RouteV2Row(r: Route): string {
    JoinOn(RouteV2Fields(r), COMMA)
  }

  function RouteV3Fields(r: Route): seq<string> {
    ["ROUTING_TABLE", r.virtualIP, r.name, r.address, r.lastRef, r.lastRefEpoch]
  }

  function RouteV3Row(r: Route): string {
    JoinOn(RouteV3Fields(r), COMMA)
  }

  function ClientRows(cs: seq<Connection>, v3: bool): (rows: seq<string>)
    ensures |rows| == |cs| && forall i ::
            0 <= i < |cs| ==> rows[i] == if v3 then ClientV3Row(cs[i]) else ClientV2Row(cs[i])
  {
    seq(|cs|, i requires 0 <= i < |cs| => if v3 then ClientV3Row(cs[i]) else ClientV2Row(cs[i]))
  }

  function RouteRows(rs: seq<Route>, v3: bool): (rows: seq<string>)
    ensures |rows| == |rs| && forall i ::
            0 <= i < |rs| ==> rows[i] == if v3 then RouteV3Row(rs[i]) else RouteV2Row(rs[i])
  {
    seq(|rs|, i requires 0 <= i < |rs| => if v3 then RouteV3Row(rs[i]) else RouteV2Row(rs[i]))
  }

  function PrintV2(cs: seq<Connection>, rs: seq<Route>, f: Frame): seq<string> {
    ["OpenVPN CLIENT LIST", "Updated," + f.updated, "Common Name," + f.clientHeader] + ClientRows(cs, false)
    + ["ROUTING TABLE", "Virtual Address," + f.routeHeader] + RouteRows(rs, false)
    + ["GLOBAL STATS", f.stats, "END"]
  }

  function PrintV3(cs: seq<Connection>, rs: seq<Route>, f: Frame): seq<string> {
    ["TITLE," + f.title, "TIME," + f.time, "HEADER,CLIENT_LIST," + f.clientHeader] + ClientRows(cs, true)
    + ["HEADER,ROUTING_TABLE," + f.routeHeader] + RouteRows(rs, true)
    + ["GLOBAL_STATS," + f.stats, "END"]
  }

  // ---------- what may be printed ----------

  predicate Solid(s: string) {
    s == "" || (!IsSpace(s[0]) && !IsSpace(s[|s| - 1]))
  }

  /** A field without a comma and without surrounding space. */
  predicate IsField(s: string) {
    COMMA !in s && Solid(s)
  }

  /** First fields that the parser would take for a row tag. */
  predicate Reserved(s: string) {
    s == "TITLE" || s == "TIME" || s == "HEADER" || s == "CLIENT_LIST" || s == "ROUTING_TABLE"
  }

  predicate Fields64(c: Connection) {
    c.received < 0x8000_0000_0000_0000 && c.sent < 0x8000_0000_0000_0000 && c.epoch < 0x8000_0000_0000_0000
  }

  predicate PrintableClient(c: Connection) {
    && IsField(c.name) && IsField(c.address) && IsField(c.since) && IsField(c.column) && IsField(c.column6)
        && Fields64(c)
    && !Reserved(c.name) && c.name != "Common Name"
    && (forall i :: 0 <= i < |c.rest| ==> IsField(c.rest[i]))
  }

  predicate PrintableRoute(r: Route) {
    && IsField(r.virtualIP) && IsField(r.name) && IsField(r.address) && IsField(r.lastRef) && IsField(r.lastRefEpoch)
    && !Reserved(r.virtualIP) && r.virtualIP != "Virtual Address"
  }

  /** The frame texts are one line each, trimmed; the time of the update has no comma. */
  predicate PrintableFrame(f: Frame) {
    IsField(f.updated) && Solid(f.title) && Solid(f.time) && Solid(f.clientHeader) && Solid(f.routeHeader)
        && Solid(f.stats)
    && TagOf(f.stats) == Plain
  }

  // ---------- fields and numbers ----------

  lemma SolidTrim(s: string)
    requires Solid(s)
    ensures Trim(s) == s
  {
  }

  lemma {:induction false} JoinSolid(fields: seq<string>)
    requires |fields| >= 1 && forall i :: 0 <= i < |fields| ==> Solid(fields[i])
    ensures Solid(JoinOn(fields, COMMA))
  {
    if |fields| > 1 { JoinSolid(fields[1..]); }
  }

  lemma RowTrim(fields: seq<string>)
    requires |fields| >= 1 && forall i :: 0 <= i < |fields| ==> IsField(fields[i])
    ensures var line := JoinOn(fields, COMMA); Trim(line) == line && SplitOn(line, COMMA) == fields
  {
    JoinSolid(fields);
    SolidTrim(JoinOn(fields, COMMA));
    SplitOnJoin(fields, COMMA);
  }

  lemma {:induction false} ScanNumeral(n: nat, rest: string)
    requires n < 0x1_0000_0000_0000_0000
    ensures ScanDigits(Numeral(n) + rest, 0) == ScanDigits(rest, n)
  {
    if n < 10 {
      assert (Numeral(n) + rest)[1..] == rest;
    } else {
      var last := [Digit(n % 10)];
      ScanNumeral(n / 10, last + rest);
      assert Numeral(n) + rest == Numeral(n / 10) + (last + rest);
      assert (last + rest)[1..] == rest;
    }
  }

  lemma NumeralField(n: nat)
    requires n < 0x8000_0000_0000_0000
    ensures IsField(Numeral(n)) && IntOk(Trim(Numeral(n))) && IntValue(Trim(Numeral(n))) == n
  {
    NumeralMeaning(n);
    ScanNumeral(n, "");
    assert Numeral(n) + "" == Numeral(n);
    var s := Numeral(n);
    hide Numeral;
    assert '0' <= s[0] <= '9' && '0' <= s[|s| - 1] <= '9';
    SolidTrim(s);
  }

  // ---------- single rows ----------

  function ConnectTime(c: Connection, lib: Library): int {
    if c.epoch > 0 then c.epoch else lib.since(c.since)
  }

  /** The client that a printed connection stands for, with a virtual address column. */
  function ClientOf(c: Connection, column: string, lib: Library): StatusClient {
    StatusClient(c.name, lib.address(c.address).host, lib.address(c.address).port, c.received, c.sent,
                 ConnectTime(c, lib), column)
  }

  function RouteOf(r: Route, lib: Library): Event {
    Routed(r.virtualIP, RouteKey(r.name, r.address, lib))
  }

  lemma ClientV2RowParses(c: Connection, lib: Library)
    requires PrintableClient(c)
    ensures Trim(ClientV2Row(c)) == ClientV2Row(c) && ClientV2Line(ClientV2Row(c), lib) == Some(ClientOf(c, "", lib))
  {
    hide Trim, IsField, IntValue, IntOk, Numeral, SplitOn, JoinOn;
    NumeralField(c.received);
    NumeralField(c.sent);
    NumeralField(c.epoch);
    RowTrim(ClientV2Fields(c));
  }

  lemma ClientV3RowParses(c: Connection, lib: Library)
    requires PrintableClient(c)
    ensures Trim(ClientV3Row(c)) == ClientV3Row(c)
            && ClientV3Line(ClientV3Row(c), lib) == Some(ClientOf(c, c.column, lib))
  {
    hide Trim, IsField, IntValue, IntOk, Numeral, SplitOn, JoinOn, ClientV3Fields;
    NumeralField(c.received);
    NumeralField(c.sent);
    NumeralField(c.epoch);
    ClientV3FieldsAre(c);
    RowTrim(ClientV3Fields(c));
  }

  lemma ClientV3FieldsAre(c: Connection)
    requires PrintableClient(c)
    ensures var fs := ClientV3Fields(c);
            && |fs| >= 9 && fs[1] == c.name && fs[2] == c.address && fs[3] == c.column && fs[5] == Numeral(c.received)
            && fs[6] == Numeral(c.sent) && fs[7] == c.since && fs[8] == Numeral(c.epoch)
            && forall i :: 0 <= i < |fs| ==> IsField(fs[i])
  {
    hide IsField, Numeral, ClientV3Columns;
    ClientV3ColumnsAre(c);
    var fs := ClientV3Fields(c);
    forall i | 0 <= i < |fs| ensures IsField(fs[i]) {
      if i < 9 { assert fs[i] == ClientV3Columns(c)[i]; } else { assert fs[i] == c.rest[i - 9]; }
    }
  }

  lemma TagsAreFields()
    ensures IsField("CLIENT_LIST") && IsField("ROUTING_TABLE")
  {
  }

  lemma ClientV3ColumnsAre(c: Connection)
    requires PrintableClient(c)
    ensures var fs := ClientV3Columns(c);
            && |fs| == 9 && fs[1] == c.name && fs[2] == c.address && fs[3] == c.column && fs[5] == Numeral(c.received)
            && fs[6] == Numeral(c.sent) && fs[7] == c.since && fs[8] == Numeral(c.epoch)
            && forall i :: 0 <= i < 9 ==> IsField(fs[i])
  {
    hide IsField, Numeral, Trim, IntOk, IntValue, Reserved;
    TagsAreFields();
    NumeralField(c.received);
    NumeralField(c.sent);
    NumeralField(c.epoch);
  }

  lemma RouteV2RowParses(r: Route, lib: Library)
    requires PrintableRoute(r)
    ensures Trim(RouteV2Row(r)) == RouteV2Row(r) && RouteV2Line(RouteV2Row(r), lib) == RouteOf(r, lib)
  {
    hide Trim, IsField, SplitOn, JoinOn;
    RowTrim(RouteV2Fields(r));
  }

  lemma RouteV3RowParses(r: Route, lib: Library)
    requires PrintableRoute(r)
    ensures Trim(RouteV3Row(r)) == RouteV3Row(r) && RouteV3Line(RouteV3Row(r), lib) == RouteOf(r, lib)
  {
    hide Trim, IsField, SplitOn, JoinOn;
    TagsAreFields();
    RowTrim(RouteV3Fields(r));
  }

  // ---------- what a line's start says ----------

  lemma PrefixIsField(x: string, t: string, p: string)
    requires COMMA !in x && COMMA !in p
    ensures HasPrefix(x + [COMMA] + t, p + [COMMA]) <==> x == p
  {
    var line := x + [COMMA] + t;
    if HasPrefix(line, p + [COMMA]) {
      assert line == p + [COMMA] + line[|p| + 1..];
      FirstSeparator(p, x, line[|p| + 1..], t, COMMA);
    }
  }

  lemma TagOfField(x: string, t: string)
    requires COMMA !in x && !Reserved(x)
    ensures TagOf(x + "," + t) == Plain
  {
    var line := x + "," + t;
    assert line[|x|] == COMMA;
    assert COMMA in line;
    assert COMMA !in "OpenVPN CLIENT LIST" && COMMA !in "ROUTING TABLE" && COMMA !in "GLOBAL STATS" && COMMA !in "END";
    PrefixIsField(x, t, "TITLE");
    PrefixIsField(x, t, "TIME");
    PrefixIsField(x, t, "HEADER");
    PrefixIsField(x, t, "CLIENT_LIST");
    PrefixIsField(x, t, "ROUTING_TABLE");
    HeaderPrefixes(line);
  }

  lemma HeaderPrefixes(line: string)
    ensures HasPrefix(line, "HEADER,CLIENT_LIST") ==> HasPrefix(line, "HEADER,")
    ensures HasPrefix(line, "HEADER,ROUTING_TABLE") ==> HasPrefix(line, "HEADER,")
  {
    assert "HEADER,CLIENT_LIST"[..7] == "HEADER," && "HEADER,ROUTING_TABLE"[..7] == "HEADER,";
    if HasPrefix(line, "HEADER,CLIENT_LIST") { assert line[..7] == "HEADER,CLIENT_LIST"[..7]; }
    if HasPrefix(line, "HEADER,ROUTING_TABLE") { assert line[..7] == "HEADER,ROUTING_TABLE"[..7]; }
  }

  lemma FirstChar(line: string, other: string)
    requires line != "" && other != "" && line[0] != other[0]
    ensures line != other && !HasPrefix(line, other)
  {
  }

  lemma ClientRowTag(t: string)
    ensures TagOf("CLIENT_LIST," + t) == ClientRow
  {
    var line := "CLIENT_LIST," + t;
    assert line[0] == 'C';
    FirstChar(line, "OpenVPN CLIENT LIST");
    FirstChar(line, "ROUTING TABLE");
    FirstChar(line, "GLOBAL STATS");
    FirstChar(line, "END");
    FirstChar(line, "TITLE,");
    FirstChar(line, "TIME,");
    FirstChar(line, "HEADER,");
    HeaderPrefixes(line);
  }

  lemma RouteRowTag(t: string)
    ensures TagOf("ROUTING_TABLE," + t) == RouteRow
  {
    var line := "ROUTING_TABLE," + t;
    assert line[0] == 'R' && line[7] == '_';
    assert line != "ROUTING TABLE" by { assert "ROUTING TABLE"[7] == ' '; }
    FirstChar(line, "OpenVPN CLIENT LIST");
    FirstChar(line, "GLOBAL STATS");
    FirstChar(line, "END");
    FirstChar(line, "TITLE,");
    FirstChar(line, "TIME,");
    FirstChar(line, "HEADER,");
    FirstChar(line, "CLIENT_LIST,");
    HeaderPrefixes(line);
  }

  lemma HeaderTags(t: string)
    ensures TagOf("HEADER,CLIENT_LIST," + t) == Enter(ClientV3)
    ensures TagOf("HEADER,ROUTING_TABLE," + t) == Enter(RoutingV3)
  {
    var a, b := "HEADER,CLIENT_LIST," + t, "HEADER,ROUTING_TABLE," + t;
    HeaderTag(a);
    HeaderTag(b);
    assert a[..18] == "HEADER,CLIENT_LIST";
    assert b[..20] == "HEADER,ROUTING_TABLE";
    assert b[7] == 'R' && "HEADER,CLIENT_LIST"[7] == 'C';
  }

  lemma HeaderTag(line: string)
    requires HasPrefix(line, "HEADER,")
    ensures TagOf(line) == Enter(if HasPrefix(line, "HEADER,CLIENT_LIST") then ClientV3
                                 else if HasPrefix(line, "HEADER,ROUTING_TABLE") then RoutingV3 else HeaderOther)
  {
    assert line[0] == 'H';
    FirstChar(line, "OpenVPN CLIENT LIST");
    FirstChar(line, "ROUTING TABLE");
    FirstChar(line, "GLOBAL STATS");
    FirstChar(line, "END");
    FirstChar(line, "TITLE,");
    FirstChar(line, "TIME,");
  }

  lemma PreambleTags(t: string)
    ensures TagOf("TITLE," + t) == Preamble && TagOf("TIME," + t) == Preamble
  {
    var a, b := "TITLE," + t, "TIME," + t;
    assert a[0] == 'T' && b[0] == 'T' && a[..6] == "TITLE," && b[..5] == "TIME,";
    FirstChar(a, "OpenVPN CLIENT LIST");
    FirstChar(a, "ROUTING TABLE");
    FirstChar(a, "GLOBAL STATS");
    FirstChar(a, "END");
    FirstChar(b, "OpenVPN CLIENT LIST");
    FirstChar(b, "ROUTING TABLE");
    FirstChar(b, "GLOBAL STATS");
    FirstChar(b, "END");
  }

  lemma SectionTags()
    ensures TagOf("OpenVPN CLIENT LIST") == Enter(ClientV2) && TagOf("ROUTING TABLE") == Enter(RoutingV2)
    ensures TagOf("GLOBAL STATS") == Enter(Stats) && TagOf("END") == Enter(End)
  {
    assert "ROUTING TABLE"[0] == 'R' && "OpenVPN CLIENT LIST"[0] == 'O' && "GLOBAL STATS"[0] == 'G' && "END"[0] == 'E';
  }

  // ---------- the events of a printed log ----------

  function ClientEventsOf(cs: seq<Connection>, v3: bool, lib: Library): (es: seq<Event>)
    ensures |es| == |cs| && forall i ::
            0 <= i < |cs| ==> es[i] == Connected(ClientOf(cs[i], if v3 then cs[i].column else "", lib))
  {
    seq(|cs|, i requires 0 <= i < |cs| => Connected(ClientOf(cs[i], if v3 then cs[i].column else "", lib)))
  }

  function RouteEventsOf(rs: seq<Route>, lib: Library): (es: seq<Event>)
    ensures |es| == |rs| && forall i :: 0 <= i < |rs| ==> es[i] == RouteOf(rs[i], lib)
  {
    seq(|rs|, i requires 0 <= i < |rs| => RouteOf(rs[i], lib))
  }

  /** From section `a`, the lines give these events and end in section `b`. */
  ghost predicate Gives(a: Section, lines: seq<string>, lib: Library, events: seq<Event>, b: Section) {
    EventsFrom(a, lines, lib) == events && SectionFrom(a, lines) == b
  }

  lemma {:induction false} GivesConcat(a: Section, first: seq<string>, lib: Library, es: seq<Event>, b: Section,
                                       second: seq<string>, fs: seq<Event>, c: Section)
    requires Gives(a, first, lib, es, b) && Gives(b, second, lib, fs, c)
    ensures Gives(a, first + second, lib, es + fs, c)
    decreases |first|
  {
    hide EventsOf, NextSection, Trim;
    if first == [] {
      assert first + second == second && [] + fs == fs;
    } else {
      assert (first + second)[0] == first[0] && (first + second)[1..] == first[1..] + second;
      var next := NextSection(a, Trim(first[0]));
      GivesConcat(next, first[1..], lib, EventsFrom(next, first[1..], lib), b, second, fs, c);
      assert EventsOf(a, Trim(first[0]), lib) + (EventsFrom(next, first[1..], lib) + fs) == es + fs;
    }
  }

  lemma GivesOne(a: Section, line: string, lib: Library)
    ensures Gives(a, [line], lib, EventsOf(a, Trim(line), lib), NextSection(a, Trim(line)))
  {
    hide EventsOf, NextSection, Trim;
    assert [line][1..] == [];
    GivesNone(NextSection(a, Trim(line)), lib);
    assert EventsOf(a, Trim(line), lib) + [] == EventsOf(a, Trim(line), lib);
  }

  lemma GivesNone(a: Section, lib: Library)
    ensures EventsFrom(a, [], lib) == [] && SectionFrom(a, []) == a && Gives(a, [], lib, [], a)
  {
  }

  /** A trimmed line that only opens a section, or says nothing. */
  lemma GivesNothing(a: Section, line: string, lib: Library, b: Section)
    requires Solid(line) && line != ""
    requires (TagOf(line) == Enter(b)) || (TagOf(line) == Preamble && a == b)
    ensures Gives(a, [line], lib, [], b)
  {
    SolidTrim(line);
    hide Trim, TagOf;
    GivesOne(a, line, lib);
  }

  lemma RowIsPrefixed(fields: seq<string>)
    requires |fields| > 1
    ensures JoinOn(fields, COMMA) == fields[0] + "," + JoinOn(fields[1..], COMMA)
  {
  }

  lemma NotColumnNames(x: string, t: string)
    requires COMMA !in x
    ensures x != "Common Name" ==> !HasPrefix(x + "," + t, "Common Name,")
    ensures x != "Virtual Address" ==> !HasPrefix(x + "," + t, "Virtual Address,")
  {
    hide HasPrefix;
    PrefixIsField(x, t, "Common Name");
    PrefixIsField(x, t, "Virtual Address");
    assert "Common Name" + [COMMA] == "Common Name," && "Virtual Address" + [COMMA] == "Virtual Address,";
  }

  lemma PlainRowEvents(line: string, lib: Library)
    requires line != "" && TagOf(line) == Plain
    ensures !HasPrefix(line, "Common Name,") ==> EventsOf(ClientV2, line, lib) == ClientEvents(ClientV2Line(line, lib))
    ensures !HasPrefix(line, "Virtual Address,") ==> EventsOf(RoutingV2, line, lib) == [RouteV2Line(line, lib)]
    ensures forall s :: NextSection(s, line) == s
  {
    hide TagOf, HasPrefix, ClientV2Line, RouteV2Line;
  }

  lemma ClientV2RowGives(c: Connection, lib: Library)
    requires PrintableClient(c)
    ensures Gives(ClientV2, [ClientV2Row(c)], lib, [Connected(ClientOf(c, "", lib))], ClientV2)
  {
    var fields := ClientV2Fields(c);
    assert |fields| > 1 && fields[0] == c.name;
    hide Numeral, SplitOn, Trim, TagOf, HasPrefix, ClientV2Line, EventsFrom, SectionFrom, ClientV2Fields, ClientOf,
        Solid, IntOk, IntValue;
    RowIsPrefixed(fields);
    hide JoinOn;
    ClientV2RowParses(c, lib);
    TagOfField(c.name, JoinOn(fields[1..], COMMA));
    NotColumnNames(c.name, JoinOn(fields[1..], COMMA));
    PlainRowEvents(ClientV2Row(c), lib);
    hide EventsOf, NextSection;
    GivesOne(ClientV2, ClientV2Row(c), lib);
  }

  lemma ClientV3RowGives(c: Connection, lib: Library)
    requires PrintableClient(c)
    ensures Gives(ClientV3, [ClientV3Row(c)], lib, [Connected(ClientOf(c, c.column, lib))], ClientV3)
  {
    ClientV3ColumnsAre(c);
    RowIsPrefixed(ClientV3Fields(c));
    assert ClientV3Fields(c)[0] == "CLIENT_LIST";
    hide Numeral, JoinOn, SplitOn, Trim, TagOf, ClientV3Line, EventsFrom, SectionFrom, ClientV3Fields;
    ClientV3RowParses(c, lib);
    ClientRowTag(JoinOn(ClientV3Fields(c)[1..], COMMA));
    assert "CLIENT_LIST" + "," + JoinOn(ClientV3Fields(c)[1..], COMMA)
        == "CLIENT_LIST," + JoinOn(ClientV3Fields(c)[1..], COMMA);
    GivesOne(ClientV3, ClientV3Row(c), lib);
  }

  lemma RouteV2RowGives(r: Route, lib: Library)
    requires PrintableRoute(r)
    ensures Gives(RoutingV2, [RouteV2Row(r)], lib, [RouteOf(r, lib)], RoutingV2)
  {
    var fields := RouteV2Fields(r);
    assert |fields| > 1 && fields[0] == r.virtualIP;
    hide SplitOn, Trim, TagOf, HasPrefix, RouteV2Line, EventsFrom, SectionFrom, RouteV2Fields, RouteOf, Solid,
        EventsOf, NextSection;
    RowIsPrefixed(fields);
    hide JoinOn;
    RouteV2RowParses(r, lib);
    TagOfField(r.virtualIP, JoinOn(fields[1..], COMMA));
    NotColumnNames(r.virtualIP, JoinOn(fields[1..], COMMA));
    PlainRowEvents(RouteV2Row(r), lib);
    GivesOne(RoutingV2, RouteV2Row(r), lib);
  }

  lemma RouteV3RowGives(r: Route, lib: Library)
    requires PrintableRoute(r)
    ensures Gives(RoutingV3, [RouteV3Row(r)], lib, [RouteOf(r, lib)], RoutingV3)
  {
    var fields := RouteV3Fields(r);
    assert |fields| > 1 && fields[0] == "ROUTING_TABLE";
    hide SplitOn, Trim, TagOf, RouteV3Line, EventsFrom, SectionFrom, RouteV3Fields, RouteOf, Solid;
    RowIsPrefixed(fields);
    hide JoinOn;
    RouteV3RowParses(r, lib);
    RouteRowTag(JoinOn(fields[1..], COMMA));
    assert "ROUTING_TABLE" + "," + JoinOn(fields[1..], COMMA) == "ROUTING_TABLE," + JoinOn(fields[1..], COMMA);
    GivesOne(RoutingV3, RouteV3Row(r), lib);
  }

  lemma {:induction false} ClientRowsGive(cs: seq<Connection>, v3: bool, lib: Library)
    requires forall i :: 0 <= i < |cs| ==> PrintableClient(cs[i])
    ensures var s := if v3 then ClientV3 else ClientV2;
            Gives(s, ClientRows(cs, v3), lib, ClientEventsOf(cs, v3, lib), s)
    decreases |cs|
  {
    hide PrintableClient, ClientV2Row, ClientV3Row, ClientOf, Gives;
    var s := if v3 then ClientV3 else ClientV2;
    if cs == [] {
      GivesNone(s, lib);
      assert ClientRows(cs, v3) == [] && ClientEventsOf(cs, v3, lib) == [];
    } else {
      var most, c := cs[..|cs| - 1], cs[|cs| - 1];
      ClientRowsGive(most, v3, lib);
      if v3 { ClientV3RowGives(c, lib); } else { ClientV2RowGives(c, lib); }
      var row := if v3 then ClientV3Row(c) else ClientV2Row(c);
      var e := Connected(ClientOf(c, if v3 then c.column else "", lib));
      GivesConcat(s, ClientRows(most, v3), lib, ClientEventsOf(most, v3, lib), s, [row], [e], s);
      assert ClientRows(most, v3) + [row] == ClientRows(cs, v3);
      assert ClientEventsOf(most, v3, lib) + [e] == ClientEventsOf(cs, v3, lib);
    }
  }

  lemma {:induction false} RouteRowsGive(rs: seq<Route>, v3: bool, lib: Library)
    requires forall i :: 0 <= i < |rs| ==> PrintableRoute(rs[i])
    ensures var s := if v3 then RoutingV3 else RoutingV2; Gives(s, RouteRows(rs, v3), lib, RouteEventsOf(rs, lib), s)
    decreases |rs|
  {
    hide PrintableRoute, RouteV2Row, RouteV3Row, RouteOf, Gives;
    var s := if v3 then RoutingV3 else RoutingV2;
    if rs == [] {
      GivesNone(s, lib);
      assert RouteRows(rs, v3) == [] && RouteEventsOf(rs, lib) == [];
    } else {
      var most, r := rs[..|rs| - 1], rs[|rs| - 1];
      RouteRowsGive(most, v3, lib);
      if v3 { RouteV3RowGives(r, lib); } else { RouteV2RowGives(r, lib); }
      var row := if v3 then RouteV3Row(r) else RouteV2Row(r);
      GivesConcat(s, RouteRows(most, v3), lib, RouteEventsOf(most, lib), s, [row], [RouteOf(r, lib)], s);
      assert RouteRows(most, v3) + [row] == RouteRows(rs, v3);
      assert RouteEventsOf(most, lib) + [RouteOf(r, lib)] == RouteEventsOf(rs, lib);
    }
  }

  // ---------- whole logs ----------

  lemma GivesMore(a: Section, first: seq<string>, lib: Library, es: seq<Event>, b: Section, line: string, c: Section)
    requires Gives(a, first, lib, es, b) && Gives(b, [line], lib, [], c)
    ensures Gives(a, first + [line], lib, es, c)
  {
    hide Gives;
    GivesConcat(a, first, lib, es, b, [line], [], c);
    assert es + [] == es;
  }

  lemma UpdatedRow(updated: string)
    requires IsField(updated)
    ensures var line := "Updated," + updated;
            Trim(line) == line && SplitOn(line, COMMA) == ["Updated", updated] && TagOf(line) == Plain
  {
    assert IsField("Updated");
    hide Trim, SplitOn, TagOf;
    RowTrim(["Updated", updated]);
    assert JoinOn(["Updated", updated], COMMA) == "Updated," + updated;
    TagOfField("Updated", updated);
  }

  /** The row of the time of the update has too few fields for a client. */
  lemma UpdatedGives(f: Frame, lib: Library)
    requires PrintableFrame(f)
    ensures Gives(ClientV2, ["Updated," + f.updated], lib, [], ClientV2)
  {
    UpdatedRow(f.updated);
    hide Trim, SplitOn, TagOf, HasPrefix, EventsFrom, SectionFrom, Gives;
    GivesOne(ClientV2, "Updated," + f.updated, lib);
  }

  /** The row of column names. */
  lemma ColumnsGive(x: string, t: string, s: Section, lib: Library)
    requires (s == ClientV2 && x == "Common Name") || (s == RoutingV2 && x == "Virtual Address")
    requires Solid(t)
    ensures Gives(s, [x + "," + t], lib, [], s)
  {
    var line := x + "," + t;
    assert line[0] == x[0];
    SolidTrim(line);
    TagOfField(x, t);
    PrefixIsField(x, t, x);
    assert "Common Name" + [COMMA] == "Common Name," && "Virtual Address" + [COMMA] == "Virtual Address,";
    hide Trim, TagOf, HasPrefix, EventsFrom, SectionFrom;
    GivesOne(s, line, lib);
  }

  lemma StatsGive(line: string, s: Section, lib: Library)
    requires Solid(line) && (line == "" || TagOf(line) == Plain) && s != ClientV2 && s != RoutingV2
    ensures Gives(s, [line], lib, [], s)
  {
    SolidTrim(line);
    hide Trim, TagOf, EventsFrom, SectionFrom;
    GivesOne(s, line, lib);
  }

  lemma SolidJoin(a: string, b: string)
    requires a != "" && Solid(a) && Solid(b)
    ensures Solid(a + b)
  {
  }

  lemma TwoLines(a: Section, x: string, b: Section, y: string, c: Section, lib: Library)
    requires Gives(a, [x], lib, [], b) && Gives(b, [y], lib, [], c)
    ensures Gives(a, [x, y], lib, [], c)
  {
    hide Gives;
    GivesMore(a, [x], lib, [], b, y, c);
    assert [x] + [y] == [x, y];
  }

  lemma ThreeLines(a: Section, x: string, b: Section, y: string, c: Section, z: string, d: Section, lib: Library)
    requires Gives(a, [x], lib, [], b) && Gives(b, [y], lib, [], c) && Gives(c, [z], lib, [], d)
    ensures Gives(a, [x, y, z], lib, [], d)
  {
    hide Gives;
    TwoLines(a, x, b, y, c, lib);
    GivesMore(a, [x, y], lib, [], c, z, d);
    assert [x, y] + [z] == [x, y, z];
  }

  lemma SectionsSolid()
    ensures Solid("OpenVPN CLIENT LIST") && Solid("ROUTING TABLE") && Solid("GLOBAL STATS") && Solid("END")
  {
  }

  lemma ColumnTexts(t: string)
    ensures "Common Name" + "," + t == "Common Name," + t && "Virtual Address" + "," + t == "Virtual Address," + t
  {
    assert "Common Name" + "," == "Common Name," && "Virtual Address" + "," == "Virtual Address,";
  }

  lemma HeadV2Gives(f: Frame, lib: Library)
    requires PrintableFrame(f)
    ensures Gives(NoSection, ["OpenVPN CLIENT LIST", "Updated," + f.updated, "Common Name," + f.clientHeader],
                  lib, [], ClientV2)
  {
    hide TagOf, Gives, Trim, Solid;
    SectionTags();
    SectionsSolid();
    ColumnTexts(f.clientHeader);
    GivesNothing(NoSection, "OpenVPN CLIENT LIST", lib, ClientV2);
    UpdatedGives(f, lib);
    ColumnsGive("Common Name", f.clientHeader, ClientV2, lib);
    ThreeLines(NoSection, "OpenVPN CLIENT LIST", ClientV2, "Updated," + f.updated, ClientV2,
               "Common Name," + f.clientHeader, ClientV2, lib);
  }

  lemma MiddleV2Gives(f: Frame, lib: Library)
    requires PrintableFrame(f)
    ensures Gives(ClientV2, ["ROUTING TABLE", "Virtual Address," + f.routeHeader], lib, [], RoutingV2)
  {
    hide Solid, TagOf, Gives, Trim;
    SectionTags();
    SectionsSolid();
    ColumnTexts(f.routeHeader);
    GivesNothing(ClientV2, "ROUTING TABLE", lib, RoutingV2);
    ColumnsGive("Virtual Address", f.routeHeader, RoutingV2, lib);
    TwoLines(ClientV2, "ROUTING TABLE", RoutingV2, "Virtual Address," + f.routeHeader, RoutingV2, lib);
  }

  lemma TailV2Gives(f: Frame, lib: Library)
    requires PrintableFrame(f)
    ensures Gives(RoutingV2, ["GLOBAL STATS", f.stats, "END"], lib, [], End)
  {
    hide Solid, TagOf, Gives, Trim;
    SectionTags();
    SectionsSolid();
    GivesNothing(RoutingV2, "GLOBAL STATS", lib, Stats);
    StatsGive(f.stats, Stats, lib);
    GivesNothing(Stats, "END", lib, End);
    ThreeLines(RoutingV2, "GLOBAL STATS", Stats, f.stats, Stats, "END", End, lib);
  }

  lemma HeadV3Gives(f: Frame, lib: Library)
    requires PrintableFrame(f)
    ensures Gives(NoSection, ["TITLE," + f.title, "TIME," + f.time, "HEADER,CLIENT_LIST," + f.clientHeader],
                  lib, [], ClientV3)
  {
    PreambleTags(f.title);
    PreambleTags(f.time);
    HeaderTags(f.clientHeader);
    SolidJoin("TITLE,", f.title);
    SolidJoin("TIME,", f.time);
    SolidJoin("HEADER,CLIENT_LIST,", f.clientHeader);
    hide Solid, TagOf, Gives, Trim;
    var a, b, c := "TITLE," + f.title, "TIME," + f.time, "HEADER,CLIENT_LIST," + f.clientHeader;
    GivesNothing(NoSection, a, lib, NoSection);
    GivesNothing(NoSection, b, lib, NoSection);
    GivesNothing(NoSection, c, lib, ClientV3);
    ThreeLines(NoSection, a, NoSection, b, NoSection, c, ClientV3, lib);
  }

  lemma MiddleV3Gives(f: Frame, lib: Library)
    requires PrintableFrame(f)
    ensures Gives(ClientV3, ["HEADER,ROUTING_TABLE," + f.routeHeader], lib, [], RoutingV3)
  {
    HeaderTags(f.routeHeader);
    SolidJoin("HEADER,ROUTING_TABLE,", f.routeHeader);
    hide Solid, TagOf, Gives, Trim;
    GivesNothing(ClientV3, "HEADER,ROUTING_TABLE," + f.routeHeader, lib, RoutingV3);
  }

  lemma TailV3Gives(f: Frame, lib: Library)
    requires PrintableFrame(f)
    ensures Gives(RoutingV3, ["GLOBAL_STATS," + f.stats, "END"], lib, [], End)
  {
    SectionTags();
    assert Solid("END") && COMMA !in "GLOBAL_STATS";
    SolidJoin("GLOBAL_STATS,", f.stats);
    TagOfField("GLOBAL_STATS", f.stats);
    assert "GLOBAL_STATS" + "," + f.stats == "GLOBAL_STATS," + f.stats;
    hide Solid, TagOf, Gives, Trim;
    StatsGive("GLOBAL_STATS," + f.stats, RoutingV3, lib);
    GivesNothing(RoutingV3, "END", lib, End);
    TwoLines(RoutingV3, "GLOBAL_STATS," + f.stats, RoutingV3, "END", End, lib);
  }

  ghost predicate Printable(cs: seq<Connection>, rs: seq<Route>, f: Frame) {
    (forall i :: 0 <= i < |cs| ==> PrintableClient(cs[i])) && (forall i :: 0 <= i < |rs| ==> PrintableRoute(rs[i]))
        && PrintableFrame(f)
  }

  lemma FiveParts(a: Section, p1: seq<string>, b: Section, p2: seq<string>, es: seq<Event>, p3: seq<string>, c: Section,
                  p4: seq<string>, fs: seq<Event>, p5: seq<string>, d: Section, lib: Library)
    requires Gives(a, p1, lib, [], b) && Gives(b, p2, lib, es, b) && Gives(b, p3, lib, [], c)
    requires Gives(c, p4, lib, fs, c) && Gives(c, p5, lib, [], d)
    ensures Gives(a, p1 + p2 + p3 + p4 + p5, lib, es + fs, d)
  {
    hide Gives;
    GivesConcat(a, p1, lib, [], b, p2, es, b);
    GivesConcat(a, p1 + p2, lib, [] + es, b, p3, [], c);
    GivesConcat(a, p1 + p2 + p3, lib, [] + es + [], c, p4, fs, c);
    GivesConcat(a, p1 + p2 + p3 + p4, lib, [] + es + [] + fs, c, p5, [], d);
    assert [] + es + [] + fs + [] == es + fs;
  }

  /** Both layouts tell the same: the clients, then the routes. */
  lemma PrintedEvents(cs: seq<Connection>, rs: seq<Route>, f: Frame, lib: Library)
    requires Printable(cs, rs, f)
    ensures EventsFrom(NoSection, PrintV2(cs, rs, f), lib) == ClientEventsOf(cs, false, lib) + RouteEventsOf(rs, lib)
    ensures EventsFrom(NoSection, PrintV3(cs, rs, f), lib) == ClientEventsOf(cs, true, lib) + RouteEventsOf(rs, lib)
  {
    hide PrintableClient, PrintableRoute, PrintableFrame, EventsFrom, SectionFrom, ClientRows, RouteRows,
        ClientEventsOf, RouteEventsOf;
    HeadV2Gives(f, lib);
    ClientRowsGive(cs, false, lib);
    MiddleV2Gives(f, lib);
    RouteRowsGive(rs, false, lib);
    TailV2Gives(f, lib);
    FiveParts(NoSection, ["OpenVPN CLIENT LIST", "Updated," + f.updated, "Common Name," + f.clientHeader], ClientV2,
              ClientRows(cs, false), ClientEventsOf(cs, false, lib),
                  ["ROUTING TABLE", "Virtual Address," + f.routeHeader], RoutingV2,
              RouteRows(rs, false), RouteEventsOf(rs, lib), ["GLOBAL STATS", f.stats, "END"], End, lib);
    HeadV3Gives(f, lib);
    ClientRowsGive(cs, true, lib);
    MiddleV3Gives(f, lib);
    RouteRowsGive(rs, true, lib);
    TailV3Gives(f, lib);
    FiveParts(NoSection, ["TITLE," + f.title, "TIME," + f.time, "HEADER,CLIENT_LIST," + f.clientHeader], ClientV3,
              ClientRows(cs, true), ClientEventsOf(cs, true, lib), ["HEADER,ROUTING_TABLE," + f.routeHeader], RoutingV3,
              RouteRows(rs, true), RouteEventsOf(rs, lib), ["GLOBAL_STATS," + f.stats, "END"], End, lib);
  }

  // ---------- the same clients ----------

  function KeyOfConnection(c: Connection, lib: Library): string {
    RouteKey(c.name, c.address, lib)
  }

  /** The virtual address column is empty or agrees with the first route. */
  ghost predicate ColumnsFit(cs: seq<Connection>, rs: seq<Route>, lib: Library) {
    forall i :: 0 <= i < |cs| ==>
          cs[i].column == "" || cs[i].column == FirstRoute(RouteEventsOf(rs, lib), 0, KeyOfConnection(cs[i], lib))
  }

  lemma {:induction false} RouteAfterClients(cs: seq<Event>, rs: seq<Event>, from: nat, key: string)
    requires from <= |cs| && forall i :: 0 <= i < |cs| ==> cs[i].Connected?
    ensures FirstRoute(cs + rs, from, key) == FirstRoute(rs, 0, key)
    decreases |cs| - from
  {
    if from < |cs| { RouteAfterClients(cs, rs, from + 1, key); } else { RouteShift(cs, rs, 0, key); }
  }

  lemma {:induction false} RouteShift(cs: seq<Event>, rs: seq<Event>, from: nat, key: string)
    requires from <= |rs|
    ensures FirstRoute(cs + rs, |cs| + from, key) == FirstRoute(rs, from, key)
    decreases |rs| - from
  {
    if from < |rs| {
      RouteShift(cs, rs, from + 1, key);
      assert (cs + rs)[|cs| + from] == rs[from];
    }
  }

  lemma {:induction false} LastAmongClients(cs: seq<Event>, rs: seq<Event>, key: string)
    requires forall i :: 0 <= i < |rs| ==> rs[i].Routed?
    ensures LastConnected(cs + rs, key) == LastConnected(cs, key)
    decreases |rs|
  {
    if rs == [] {
      assert cs + rs == cs;
    } else {
      assert (cs + rs)[..|cs + rs| - 1] == cs + rs[..|rs| - 1];
      LastAmongClients(cs, rs[..|rs| - 1], key);
    }
  }

  lemma {:induction false} SameLast(cs: seq<Connection>, key: string, lib: Library)
    ensures LastConnected(ClientEventsOf(cs, true, lib), key) == LastConnected(ClientEventsOf(cs, false, lib), key)
  {
    if cs != [] {
      var most := cs[..|cs| - 1];
      assert ClientEventsOf(cs, true, lib)[..|cs| - 1] == ClientEventsOf(most, true, lib);
      assert ClientEventsOf(cs, false, lib)[..|cs| - 1] == ClientEventsOf(most, false, lib);
      SameLast(most, key, lib);
    }
  }

  lemma SameExpected(cs: seq<Connection>, rs: seq<Route>, key: string, lib: Library)
    requires ColumnsFit(cs, rs, lib)
    ensures Expected(ClientEventsOf(cs, true, lib) + RouteEventsOf(rs, lib), key)
            == Expected(ClientEventsOf(cs, false, lib) + RouteEventsOf(rs, lib), key)
  {
    var c2, c3, r := ClientEventsOf(cs, false, lib), ClientEventsOf(cs, true, lib), RouteEventsOf(rs, lib);
    hide ClientEventsOf, RouteEventsOf, LastConnected, FirstRoute;
    LastAmongClients(c2, r, key);
    LastAmongClients(c3, r, key);
    SameLast(cs, key, lib);
    var i := LastConnected(c2, key);
    if i >= 0 {
      RouteAfterClients(c2, r, i + 1, key);
      RouteAfterClients(c3, r, i + 1, key);
      assert c3[i] == Connected(ClientOf(cs[i], cs[i].column, lib)) && c2[i] == Connected(ClientOf(cs[i], "", lib));
      assert KeyOf(c2[i].client) == KeyOfConnection(cs[i], lib) == key;
    }
  }

  /** The same connections and routes printed in either layout parse to the same clients. */
  lemma LayoutsAgree(cs: seq<Connection>, rs: seq<Route>, f: Frame, lib: Library)
    requires Printable(cs, rs, f) && ColumnsFit(cs, rs, lib)
    ensures ParseStatus(PrintV2(cs, rs, f), lib) == ParseStatus(PrintV3(cs, rs, f), lib)
  {
    hide Printable, ColumnsFit, PrintV2, PrintV3, EventsFrom, Clients, Expected, ClientEventsOf, RouteEventsOf;
    PrintedEvents(cs, rs, f, lib);
    var a, b := ParseStatus(PrintV2(cs, rs, f), lib), ParseStatus(PrintV3(cs, rs, f), lib);
    var es, fs := ClientEventsOf(cs, false, lib) + RouteEventsOf(rs, lib),
        ClientEventsOf(cs, true, lib) + RouteEventsOf(rs, lib);
    forall key ensures (key in a <==> key in b) && (key in a ==> a[key] == b[key]) {
      SameExpected(cs, rs, key, lib);
      ClientsExpected(es, key);
      ClientsExpected(fs, key);
    }
  }

  ghost predicate DistinctConnections(cs: seq<Connection>, lib: Library) {
    forall i, j :: 0 <= i < j < |cs| ==> KeyOfConnection(cs[i], lib) != KeyOfConnection(cs[j], lib)
  }

  /** With distinct connections, parsing a printed log gives back exactly the connections, each
      with the first virtual address routed to it. */
  lemma PrintedParsesBack(cs: seq<Connection>, rs: seq<Route>, f: Frame, lib: Library)
    requires Printable(cs, rs, f) && DistinctConnections(cs, lib)
    ensures var clients := ParseStatus(PrintV2(cs, rs, f), lib);
            && (forall i :: 0 <= i < |cs| ==>
                  var key := KeyOfConnection(cs[i], lib);
                  key in clients && clients[key] == ClientOf(cs[i], FirstRoute(RouteEventsOf(rs, lib), 0, key), lib))
            && (forall key :: key in clients ==> exists i :: 0 <= i < |cs| && KeyOfConnection(cs[i], lib) == key)
  {
    hide Printable, PrintV2, PrintV3, EventsFrom, Clients, ClientEventsOf, RouteEventsOf, FirstRoute,
        LastConnected, Trim;
    PrintedEvents(cs, rs, f, lib);
    var clients := ParseStatus(PrintV2(cs, rs, f), lib);
    var c, r := ClientEventsOf(cs, false, lib), RouteEventsOf(rs, lib);
    forall i | 0 <= i < |cs|
      ensures var key := KeyOfConnection(cs[i], lib);
              key in clients && clients[key] == ClientOf(cs[i], FirstRoute(r, 0, key), lib)
    {
      var key := KeyOfConnection(cs[i], lib);
      ClientsExpected(c + r, key);
      LastAmongClients(c, r, key);
      var last := LastConnected(c, key);
      assert KeyOf(c[i].client) == key;
      if last >= 0 { assert KeyOf(c[last].client) == KeyOfConnection(cs[last], lib); }
      assert last == i;
      RouteAfterClients(c, r, i + 1, key);
    }
    forall key | key in clients ensures exists i :: 0 <= i < |cs| && KeyOfConnection(cs[i], lib) == key {
      ClientsExpected(c + r, key);
      LastAmongClients(c, r, key);
      var last := LastConnected(c, key);
      assert KeyOf(c[last].client) == KeyOfConnection(cs[last], lib);
    }
  }
}
