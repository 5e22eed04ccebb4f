/** What the fields of any row of the status log become, printed by OpenVPN or not. */
module StatusLogFields {
  import opened Numerals
  import opened TextLines
  import opened StatusLog

  // ---------- numbers ----------

  lemma DigitsOnly(s: string)
    ensures IsNumeral(s) <==> forall c <- s :: c in {'0', '1', '2', '3', '4', '5', '6', '7', '8', '9'}
  {
    forall i | 0 <= i < |s| ensures '0' <= s[i] <= '9' <==> s[i] in {'0', '1', '2', '3', '4', '5', '6', '7', '8', '9'} {
      OneDigit(s[i]);
    }
    if forall c <- s :: c in {'0', '1', '2', '3', '4', '5', '6', '7', '8', '9'} {
      assert forall i :: 0 <= i < |s| ==> s[i] in s;
    }
  }

  lemma OneDigit(c: char)
    ensures '0' <= c <= '9' <==> c in {'0', '1', '2', '3', '4', '5', '6', '7', '8', '9'}
  {
  }

  lemma {:induction false} ScanSnoc(s: string, c: char, n: nat)
    requires IsNumeral(s) && '0' <= c <= '9'
    ensures ScanDigits(s + [c], n)
            == match ScanDigits(s, n)
               case Number(m) =>
                 var v := m * 10 + (c as int - '0' as int);
                 if v < 0x1_0000_0000_0000_0000 then Number(v) else OutOfRange
               case other => other
    decreases |s|
  {
    assert (s + [c])[0] == if s == "" then c else s[0];
    if s == "" {
      assert (s + [c])[1..] == "";
    } else {
      var m := n * 10 + (s[0] as int - '0' as int);
      assert (s + [c])[1..] == s[1..] + [c];
      if m < 0x1_0000_0000_0000_0000 { ScanSnoc(s[1..], c, m); }
    }
  }

  lemma {:induction false} AmountNotNegative(s: string)
    requires IsNumeral(s)
    ensures Amount(s) >= 0
  {
    if s != "" { AmountNotNegative(s[..|s| - 1]); }
  }

  lemma {:induction false} ScanIs(s: string)
    requires IsNumeral(s)
    ensures Amount(s) >= 0
    ensures ScanDigits(s, 0) == if Amount(s) < 0x1_0000_0000_0000_0000 then Number(Amount(s)) else OutOfRange
  {
    AmountNotNegative(s);
    if s != "" {
      var most, c := s[..|s| - 1], s[|s| - 1];
      ScanIs(most);
      ScanSnoc(most, c, 0);
      assert most + [c] == s;
    }
  }

  /** Digits, with a sign or without: their number, or the nearest one that 64 bits hold. */
  lemma DigitsValue(s: string)
    requires s != "" && IsNumeral(s)
    ensures IntValue(s) == IntValue("+" + s) == Min(Amount(s), 9_223_372_036_854_775_807)
    ensures IntValue("-" + s) == Max(-Amount(s), -9_223_372_036_854_775_808)
    ensures IntOk(s) == IntOk("+" + s) == (Amount(s) <= 9_223_372_036_854_775_807)
    ensures IntOk("-" + s) <==> -Amount(s) >= -9_223_372_036_854_775_808
  {
    ScanIs(s);
    hide ScanDigits, Amount;
    assert ("+" + s)[1..] == s && ("-" + s)[1..] == s;
    assert '0' <= s[0] <= '9';
  }

  lemma {:induction false} ScanStops(s: string, c: char, rest: string, n: nat)
    requires IsNumeral(s) && !('0' <= c <= '9') && ScanDigits(s, n).Number?
    ensures ScanDigits(s + [c] + rest, n) == BadSyntax
    decreases |s|
  {
    var all := s + [c] + rest;
    assert all[0] == if s == "" then c else s[0];
    if s != "" {
      assert all[1..] == s[1..] + [c] + rest;
      ScanStops(s[1..], c, rest, n * 10 + (s[0] as int - '0' as int));
    }
  }

  /** Anything else counts as 0: no digit at all, or another character after digits that fit. */
  lemma NoNumber(s: string, c: char, rest: string)
    requires IsNumeral(s) && Amount(s) < 0x1_0000_0000_0000_0000 && !('0' <= c <= '9')
    requires s == "" ==> c != '-' && c != '+'
    ensures IntValue("") == IntValue("-") == IntValue("+") == IntValue(s + [c] + rest) == 0
    ensures !IntOk("") && !IntOk("-") && !IntOk("+") && !IntOk(s + [c] + rest)
  {
    ScanIs(s);
    ScanStops(s, c, rest, 0);
    hide ScanDigits, Amount;
    assert "-"[1..] == "" && "+"[1..] == "";
    assert (s + [c] + rest)[0] == if s == "" then c else s[0];
  }

  // ---------- rows ----------

  ghost predicate NoCommas(fields: seq<string>) {
    fields != [] && forall i :: 0 <= i < |fields| ==> ',' !in fields[i]
  }

  /** The connect time of a row: its column of seconds if that is a positive number, else the textual
      date. */
  function ConnectedAt(seconds: string, date: string, lib: Library): int {
    if IntOk(Trim(seconds)) && IntValue(Trim(seconds)) > 0 then IntValue(Trim(seconds)) else lib.since(date)
  }

  /** A client row of the plain layout has at least five fields; the seconds may be missing. */
  lemma ClientV2Any(fields: seq<string>, lib: Library)
    requires NoCommas(fields)
    ensures var c := ClientV2Line(JoinOn(fields, ','), lib);
            if |fields| < 5 then c.None?
            else
              && c.Some? && c.value.name == fields[0]
              && c.value.realIP == lib.address(fields[1]).host && c.value.realPort == lib.address(fields[1]).port
              && c.value.bytesReceived == IntValue(Trim(fields[2])) && c.value.bytesSent == IntValue(Trim(fields[3]))
              && c.value.connectedAt == (if |fields| == 5 then lib.since(fields[4])
                                         else ConnectedAt(fields[5], fields[4], lib))
              && c.value.virtualIP == ""
  {
    hide Trim, IntValue, IntOk, SplitOn, JoinOn;
    SplitOnJoin(fields, ',');
  }

  /** A client row of the tagged layout has at least nine. */
  lemma ClientV3Any(fields: seq<string>, lib: Library)
    requires NoCommas(fields)
    ensures var c := ClientV3Line(JoinOn(fields, ','), lib);
            if |fields| < 9 then c.None?
            else
              && c.Some? && c.value.name == fields[1]
              && c.value.realIP == lib.address(fields[2]).host && c.value.realPort == lib.address(fields[2]).port
              && c.value.virtualIP == fields[3]
              && c.value.bytesReceived == IntValue(Trim(fields[5])) && c.value.bytesSent == IntValue(Trim(fields[6]))
              && c.value.connectedAt == ConnectedAt(fields[8], fields[7], lib)
  {
    hide Trim, IntValue, IntOk, SplitOn, JoinOn;
    SplitOnJoin(fields, ',');
  }

  /** The key of a connection: name, a NUL, and the address with its port if it has one. */
  function KeyText(name: string, address: Address): string {
    name + [0 as char] + address.host + if address.port == "" then "" else ":" + address.port
  }

  lemma KeyTextIs(name: string, address: string, lib: Library)
    ensures RouteKey(name, address, lib) == KeyText(name, lib.address(address))
  {
    var a := lib.address(address);
    assert name + [0 as char] + a.host + "" == name + [0 as char] + a.host;
    assert name + [0 as char] + (a.host + ":" + a.port) == name + [0 as char] + a.host + (":" + a.port);
  }

  /** A routing row gives its address to the connection of its name and address; one with too few
      fields gives no address to the connection without a name. */
  lemma RouteAny(fields: seq<string>, lib: Library)
    requires NoCommas(fields)
    ensures RouteV2Line(JoinOn(fields, ','), lib)
            == if |fields| < 3 then Routed("", KeyText("", lib.address("")))
               else Routed(fields[0], KeyText(fields[1], lib.address(fields[2])))
    ensures RouteV3Line(JoinOn(fields, ','), lib)
            == if |fields| < 4 then Routed("", KeyText("", lib.address("")))
               else Routed(fields[1], KeyText(fields[2], lib.address(fields[3])))
  {
    hide SplitOn, JoinOn, KeyText, RouteKey;
    SplitOnJoin(fields, ',');
    KeyTextIs("", "", lib);
    if |fields| >= 3 { KeyTextIs(fields[1], fields[2], lib); }
    if |fields| >= 4 { KeyTextIs(fields[2], fields[3], lib); }
  }

  // ---------- which row counts where ----------

  lemma PrefixIs(line: string, prefix: string)
    ensures HasPrefix(line, prefix) <==> prefix <= line
  {
  }

  lemma TagOfRow(line: string)
    requires line !in ["OpenVPN CLIENT LIST", "ROUTING TABLE", "GLOBAL STATS", "END"]
    requires !("TITLE," <= line) && !("TIME," <= line) && !("HEADER," <= line)
    ensures TagOf(line) == if "CLIENT_LIST," <= line then ClientRow
                           else if "ROUTING_TABLE," <= line then RouteRow else Plain
  {
    var headings := ["OpenVPN CLIENT LIST", "ROUTING TABLE", "GLOBAL STATS", "END"];
    assert headings[0] != line && headings[1] != line && headings[2] != line && headings[3] != line;
    NotLonger(line);
  }

  lemma NotLonger(line: string)
    ensures "HEADER,CLIENT_LIST" <= line || "HEADER,ROUTING_TABLE" <= line ==> "HEADER," <= line
  {
    assert "HEADER,CLIENT_LIST"[..7] == "HEADER," && "HEADER,ROUTING_TABLE"[..7] == "HEADER,";
    if "HEADER,CLIENT_LIST" <= line { assert line[..7] == "HEADER,CLIENT_LIST"[..7]; }
    if "HEADER,ROUTING_TABLE" <= line { assert line[..7] == "HEADER,ROUTING_TABLE"[..7]; }
  }

  /** A row without a tag counts in the two sections of the plain layout only, their column names
      aside; a tagged one everywhere. */
  lemma RowsCount(section: Section, line: string, lib: Library)
    requires line != "" && line !in ["OpenVPN CLIENT LIST", "ROUTING TABLE", "GLOBAL STATS", "END"]
    requires !("TITLE," <= line) && !("TIME," <= line) && !("HEADER," <= line)
    ensures NextSection(section, line) == section
    ensures EventsOf(section, line, lib)
            == if "CLIENT_LIST," <= line then ClientEvents(ClientV3Line(line, lib))
               else if "ROUTING_TABLE," <= line then [RouteV3Line(line, lib)]
               else if section == ClientV2 && !("Common Name," <= line) then ClientEvents(ClientV2Line(line, lib))
               else if section == RoutingV2 && !("Virtual Address," <= line) then [RouteV2Line(line, lib)]
               else []
  {
    hide HasPrefix, TagOf, ClientV2Line, ClientV3Line, RouteV2Line, RouteV3Line, ClientEvents;
    TagOfRow(line);
    PrefixIs(line, "Common Name,");
    PrefixIs(line, "Virtual Address,");
  }

  /** A heading gives no event and starts its section; another header line starts one that counts
      nothing but tagged rows. */
  lemma HeadingsCount(section: Section, text: string, lib: Library)
    ensures NextSection(section, "OpenVPN CLIENT LIST") == ClientV2
    ensures NextSection(section, "ROUTING TABLE") == RoutingV2
    ensures NextSection(section, "GLOBAL STATS") == Stats && NextSection(section, "END") == End
    ensures EventsOf(section, "OpenVPN CLIENT LIST", lib) == EventsOf(section, "ROUTING TABLE", lib) == []
    ensures EventsOf(section, "GLOBAL STATS", lib) == EventsOf(section, "END", lib) == EventsOf(section, "", lib) == []
    ensures NextSection(section, "") == section
    ensures var line := "HEADER," + text;
            && NextSection(section, line) == (if "CLIENT_LIST" <= text then ClientV3
                                              else if "ROUTING_TABLE" <= text then RoutingV3 else HeaderOther)
            && EventsOf(section, line, lib) == []
  {
    TagOfExact();
    TagOfHeader(text);
    hide TagOf;
    assert "HEADER," + text != "";
  }

  lemma TagOfExact()
    ensures TagOf("OpenVPN CLIENT LIST") == Enter(ClientV2) && TagOf("ROUTING TABLE") == Enter(RoutingV2)
    ensures TagOf("GLOBAL STATS") == Enter(Stats) && TagOf("END") == Enter(End)
  {
    hide HasPrefix;
  }

  lemma TagOfHeader(text: string)
    ensures TagOf("HEADER," + text) == Enter(if "CLIENT_LIST" <= text then ClientV3
                                             else if "ROUTING_TABLE" <= text then RoutingV3 else HeaderOther)
  {
    hide HasPrefix;
    var line := "HEADER," + text;
    HeaderIsNone(line, text);
    HeaderTags(line, text);
  }

  lemma HeaderIsNone(line: string, text: string)
    requires line == "HEADER," + text
    ensures line !in ["OpenVPN CLIENT LIST", "ROUTING TABLE", "GLOBAL STATS", "END"]
    ensures !HasPrefix(line, "TITLE,") && !HasPrefix(line, "TIME,") && HasPrefix(line, "HEADER,")
  {
    assert line[0] == 'H' && line[..7] == "HEADER,";
  }

  lemma HeaderTags(line: string, text: string)
    requires line == "HEADER," + text
    ensures HasPrefix(line, "HEADER,CLIENT_LIST") <==> "CLIENT_LIST" <= text
    ensures HasPrefix(line, "HEADER,ROUTING_TABLE") <==> "ROUTING_TABLE" <= text
  {
    HeaderText(text, "CLIENT_LIST");
    HeaderText(text, "ROUTING_TABLE");
    assert "HEADER," + "CLIENT_LIST" == "HEADER,CLIENT_LIST" && "HEADER," + "ROUTING_TABLE" == "HEADER,ROUTING_TABLE";
  }

  lemma HeaderText(text: string, tag: string)
    ensures "HEADER," + tag <= "HEADER," + text <==> tag <= text
  {
    var a, b := "HEADER," + tag, "HEADER," + text;
    assert a[7..] == tag && b[7..] == text;
    if a <= b { assert forall i :: 0 <= i < |tag| ==> text[i] == b[7 + i] == a[7 + i] == tag[i]; }
    if tag <= text { assert forall i :: 0 <= i < |a| ==> a[i] == b[i]; }
  }
}
