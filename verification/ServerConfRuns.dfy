/** Runs of form saves, each reading the file that the one before wrote. */
module ServerConfRuns {
  import opened HandHeader
  import opened TextLines
  import opened ServerConf
  import opened Sequences

  // ---------- blocks that end ----------

  predicate Ends(lines: seq<string>)
    requires lines != [] && Opens(lines[0])
  {
    Trim(lines[BlockLast(lines, Closer(lines[0]))]) == Closer(lines[0])
  }

  /** Every inline block has its closing line. */
  predicate Terminated(lines: seq<string>)
    decreases |lines|
  {
    if lines == [] then true
    else if !Skipped(lines[0]) && Opens(lines[0]) then
      Ends(lines) && Terminated(lines[BlockLast(lines, Closer(lines[0])) + 1..])
    else Terminated(lines[1..])
  }

  lemma {:induction false} BlockLastStops(lines: seq<string>, closer: string)
    requires lines != []
    ensures forall j :: 0 <= j < BlockLast(lines, closer) ==> Trim(lines[j]) != closer
    ensures BlockLast(lines, closer) == |lines| - 1 || Trim(lines[BlockLast(lines, closer)]) == closer
  {
    if !(|lines| == 1 || Trim(lines[0]) == closer) { BlockLastStops(lines[1..], closer); }
  }

  lemma OpensNotSkipped(line: string)
    ensures Opens(line) ==> !Skipped(line)
  {
  }

  /** One step of parsing, by the kind of the first line. */
  lemma ParseStep(lines: seq<string>)
    requires lines != []
    ensures Skipped(lines[0]) ==> Parse(lines) == Parse(lines[1..]) && Terminated(lines) == Terminated(lines[1..])
    ensures !Skipped(lines[0]) && !Opens(lines[0]) ==>
              Parse(lines) == [LineUnit(lines[0])] + Parse(lines[1..]) && Terminated(lines) == Terminated(lines[1..])
    ensures Opens(lines[0]) ==>
              var n := BlockLast(lines, Closer(lines[0])) + 1;
              && Parse(lines) == [BlockUnit(lines[..n])] + Parse(lines[n..])
              && Terminated(lines) == (Ends(lines) && Terminated(lines[n..]))
  {
    hide Fields, Trim, BlockLast, JoinOn, SplitOn, Skipped, Opens, LineUnit, BlockUnit, Ends, Normalize;
    OpensNotSkipped(lines[0]);
  }

  lemma NothingParses()
    ensures Parse([]) == [] && Terminated([])
  {
  }

  /** Parsing goes through terminated lines and then on. */
  lemma {:induction false} ParseConcat(a: seq<string>, b: seq<string>)
    requires Terminated(a)
    ensures Parse(a + b) == Parse(a) + Parse(b)
    ensures Terminated(a + b) <==> Terminated(b)
    decreases |a|
  {
    hide Fields, Trim, BlockLast, Join, Skipped, Opens, Parse, Terminated, LineUnit, BlockUnit;
    if a == [] {
      NothingParses();
      assert a + b == b;
    } else {
      var all := a + b;
      assert all[0] == a[0];
      ParseStep(a);
      ParseStep(all);
      OpensNotSkipped(a[0]);
      if Skipped(a[0]) || !Opens(a[0]) {
        assert all[1..] == a[1..] + b;
        ParseConcat(a[1..], b);
      } else {
        var closer := Closer(a[0]);
        var n := BlockLast(a, closer);
        BlockLastStops(a, closer);
        BlockLastIs(all, closer, n);
        assert all[..n + 1] == a[..n + 1] && all[n + 1..] == a[n + 1..] + b;
        ParseConcat(a[n + 1..], b);
      }
    }
  }

  // ---------- units that stand alone ----------

  /** A kept unit's text parses to that unit alone. */
  ghost predicate StandsAlone(u: ConfUnit) {
    Parse(Split(u.text)) == [u] && u.text != ""
  }

  ghost predicate AllStandAlone(units: seq<ConfUnit>) {
    forall i :: 0 <= i < |units| ==> StandsAlone(units[i])
  }

  /** All units but the last have an end. */
  ghost predicate EndBefore(units: seq<ConfUnit>) {
    forall i :: 0 <= i < |units| - 1 ==> Terminated(Split(units[i].text))
  }

  lemma LineStandsAlone(line: string)
    requires '\n' !in line && !Skipped(line) && !Opens(line)
    ensures StandsAlone(LineUnit(line)) && Terminated(Split(LineUnit(line).text))
  {
    assert Fields("") == [];
    hide Fields, Trim, Split, TrimLeft, TrimRight;
    FieldsOfTrim(line);
    TrimTwice(line);
    TrimHasNoNewline(line);
    var text := Trim(line);
    SplitLine(text);
    assert Skipped(text) == Skipped(line) && Opens(text) == Opens(line);
    ParseLine([text]);
    assert [text][1..] == [];
    ParseEmpty();
    assert LineUnit(text) == LineUnit(line);
  }

  lemma BlockStandsAlone(lines: seq<string>)
    requires lines != [] && Opens(lines[0]) && forall i :: 0 <= i < |lines| ==> '\n' !in lines[i]
    requires forall j :: 0 <= j < |lines| - 1 ==> Trim(lines[j]) != Closer(lines[0])
    ensures StandsAlone(BlockUnit(lines))
    ensures Trim(lines[|lines| - 1]) == Closer(lines[0]) <==> Terminated(Split(BlockUnit(lines).text))
  {
    assert Fields("") == [];
    hide Fields, Trim;
    SplitJoin(lines);
    ParseBlock(lines, |lines| - 1);
    BlockLastIs(lines, Closer(lines[0]), |lines| - 1);
    assert lines[..|lines|] == lines && lines[|lines|..] == [];
    ParseEmpty();
    if |lines| == 1 { assert lines[0] != ""; }
  }

  ghost predicate LastEnds(units: seq<ConfUnit>) {
    units == [] || Terminated(Split(units[|units| - 1].text))
  }

  lemma ConsStanding(u: ConfUnit, rest: seq<ConfUnit>)
    requires StandsAlone(u) && AllStandAlone(rest) && EndBefore(rest)
    requires rest != [] ==> Terminated(Split(u.text))
    ensures AllStandAlone([u] + rest) && EndBefore([u] + rest)
    ensures LastEnds([u] + rest) == if rest == [] then Terminated(Split(u.text)) else LastEnds(rest)
  {
    hide StandsAlone, Terminated;
    var all := [u] + rest;
    forall i | 0 <= i < |all| ensures StandsAlone(all[i]) { if i > 0 { assert all[i] == rest[i - 1]; } }
    forall i | 0 <= i < |all| - 1 ensures Terminated(Split(all[i].text)) { if i > 0 { assert all[i] == rest[i - 1]; } }
  }

  lemma BlockStep(lines: seq<string>)
    requires lines != [] && Opens(lines[0]) && forall i :: 0 <= i < |lines| ==> '\n' !in lines[i]
    ensures var n := BlockLast(lines, Closer(lines[0])) + 1;
            && StandsAlone(BlockUnit(lines[..n]))
            && (Ends(lines) <==> Terminated(Split(BlockUnit(lines[..n]).text)))
            && (n < |lines| ==> Ends(lines))
            && Parse(lines) == [BlockUnit(lines[..n])] + Parse(lines[n..])
            && (Terminated(lines) <==> Ends(lines) && Terminated(lines[n..]))
  {
    ParseStep(lines);
    hide Fields, Trim, StandsAlone, Parse, Terminated, BlockLast, Split, Join, Skipped, Opens;
    BlockLastStops(lines, Closer(lines[0]));
    BlockStandsAlone(lines[..BlockLast(lines, Closer(lines[0])) + 1]);
  }

  /** What parsing gives stands alone, and only the last unit may lack its end. */
  lemma {:induction false} ParsedStandAlone(lines: seq<string>)
    requires forall i :: 0 <= i < |lines| ==> '\n' !in lines[i]
    ensures AllStandAlone(Parse(lines)) && EndBefore(Parse(lines))
    ensures Terminated(lines) <==> LastEnds(Parse(lines))
    decreases |lines|
  {
    hide Skipped, Opens, StandsAlone, AllStandAlone, EndBefore, LastEnds;
    if lines == [] {
      NothingStands();
    } else if Skipped(lines[0]) {
      ParsedStandAlone(lines[1..]);
    } else if !Opens(lines[0]) {
      ParsedStandAlone(lines[1..]);
      LineStandsAlone(lines[0]);
      ConsStanding(LineUnit(lines[0]), Parse(lines[1..]));
      EmptyEnds(Parse(lines[1..]));
    } else {
      var n := BlockLast(lines, Closer(lines[0])) + 1;
      BlockStep(lines);
      ParsedStandAlone(lines[n..]);
      hide Terminated, BlockLast, Ends;
      if n == |lines| { ParseEmpty(); }
      ConsStanding(BlockUnit(lines[..n]), Parse(lines[n..]));
      EmptyEnds(Parse(lines[n..]));
    }
  }

  lemma NothingStands()
    ensures AllStandAlone([]) && EndBefore([]) && LastEnds([])
  {
  }

  lemma EmptyEnds(units: seq<ConfUnit>)
    ensures units == [] ==> LastEnds(units)
  {
  }

  // ---------- printing units and parsing them back ----------

  lemma TextsTail(units: seq<ConfUnit>)
    requires units != []
    ensures Texts(units)[1..] == Texts(units[1..]) && Texts(units)[0] == units[0].text
  {
  }

  /** Units that stand alone, joined by newlines, parse back to themselves. */
  lemma {:induction false} ParseJoined(units: seq<ConfUnit>)
    requires units != [] && AllStandAlone(units) && EndBefore(units)
    ensures Parse(Split(Join(Texts(units)))) == units
    ensures Terminated(Split(Join(Texts(units)))) <==> LastEnds(units)
    decreases |units|
  {
    hide Parse, Terminated;
    TextsTail(units);
    var u, rest := units[0], units[1..];
    assert StandsAlone(u);
    if rest == [] {
      assert units == [u];
    } else {
      assert Terminated(Split(u.text));
      forall i | 0 <= i < |rest| ensures StandsAlone(rest[i]) { assert StandsAlone(units[i + 1]); }
      forall i | 0 <= i < |rest| - 1 ensures Terminated(Split(rest[i].text)) {
        assert Terminated(Split(units[i + 1].text));
      }
      ParseJoined(rest);
      SplitConcat(u.text, Join(Texts(rest)));
      ParseConcat(Split(u.text), Split(Join(Texts(rest))));
      assert rest[|rest| - 1] == units[|units| - 1];
    }
  }

  /** The kept texts take no more room than the lines they come from. */
  lemma {:induction false} TextsFit(lines: seq<string>)
    ensures |Join(Texts(Parse(lines)))| <= |Join(lines)|
    ensures Parse(lines) != [] ==> lines != []
    decreases |lines|
  {
    hide Fields, Trim, BlockLast;
    if lines == [] {
      ParseEmpty();
    } else if Skipped(lines[0]) {
      TextsFit(lines[1..]);
      JoinTail(lines);
    } else if !Opens(lines[0]) {
      TextsFit(lines[1..]);
      JoinTail(lines);
      TrimShorter(lines[0]);
      JoinCons(LineUnit(lines[0]), Parse(lines[1..]));
    } else {
      var n := BlockLast(lines, Closer(lines[0])) + 1;
      TextsFit(lines[n..]);
      JoinCons(BlockUnit(lines[..n]), Parse(lines[n..]));
      assert lines[..n] + lines[n..] == lines;
      if n < |lines| {
        JoinConcat(lines[..n], lines[n..]);
      } else {
        ParseEmpty();
        assert lines[..n] == lines && lines[n..] == [];
      }
    }
  }

  lemma JoinTail(lines: seq<string>)
    requires lines != []
    ensures |Join(lines)| == |lines[0]| + if |lines| == 1 then 0 else 1 + |Join(lines[1..])|
  {
  }

  lemma JoinCons(u: ConfUnit, rest: seq<ConfUnit>)
    ensures Join(Texts([u] + rest)) == if rest == [] then u.text else u.text + "\n" + Join(Texts(rest))
  {
    TextsTail([u] + rest);
    assert ([u] + rest)[1..] == rest;
  }

  lemma {:induction false} TrimShorter(s: string)
    ensures |Trim(s)| <= |s|
  {
    TrimLeftShorter(s);
    TrimRightShorter(TrimLeft(s));
  }

  lemma {:induction false} TrimLeftShorter(s: string)
    ensures |TrimLeft(s)| <= |s|
  {
    if s != "" && IsSpace(s[0]) { TrimLeftShorter(s[1..]); }
  }

  lemma {:induction false} TrimRightShorter(s: string)
    ensures |TrimRight(s)| <= |s|
  {
    if s != "" && IsSpace(s[|s| - 1]) { TrimRightShorter(s[..|s| - 1]); }
  }

  // ---------- what is kept ----------

  ghost predicate DistinctKeys(units: seq<ConfUnit>) {
    forall i, j :: 0 <= i < j < |units| ==> units[i].key != units[j].key
  }

  lemma {:induction false} KeptInOrder(rendered: seq<ConfUnit>, previous: seq<ConfUnit>, current: seq<ConfUnit>)
    ensures DistinctKeys(Kept(rendered, previous, current)) && Subsequence(Kept(rendered, previous, current), current)
  {
    hide Keeps;
    if current != [] {
      var most, u := current[..|current| - 1], current[|current| - 1];
      KeptInOrder(rendered, previous, most);
      var kept := Kept(rendered, previous, most);
      forall i | 0 <= i < |kept| ensures kept[i].key in Keys(kept) {}
    }
  }

  lemma {:induction false} KeptAreThose(rendered: seq<ConfUnit>, previous: seq<ConfUnit>, current: seq<ConfUnit>)
    ensures forall i :: 0 <= i < |Kept(rendered, previous, current)| ==>
              Keeps(rendered, previous, Kept(rendered, previous, current)[i])
    ensures forall u :: u in current && Keeps(rendered, previous, u) ==>
              u.key in Keys(Kept(rendered, previous, current))
  {
    hide Keeps, Keys;
    if current != [] {
      var most, u := current[..|current| - 1], current[|current| - 1];
      KeptAreThose(rendered, previous, most);
      NamesKeysSnoc(Kept(rendered, previous, most), u);
      assert current == most + [u];
    }
  }

  lemma KeptFacts(rendered: seq<ConfUnit>, previous: seq<ConfUnit>, current: seq<ConfUnit>)
    ensures var kept := Kept(rendered, previous, current);
            && DistinctKeys(kept) && Subsequence(kept, current)
            && (forall i :: 0 <= i < |kept| ==> Keeps(rendered, previous, kept[i]))
            && (forall u :: u in current && Keeps(rendered, previous, u) ==> u.key in Keys(kept))
  {
    hide Keeps, Keys, DistinctKeys, Subsequence, Kept;
    KeptInOrder(rendered, previous, current);
    KeptAreThose(rendered, previous, current);
  }

  lemma {:induction false} SubsequenceStands(part: seq<ConfUnit>, whole: seq<ConfUnit>)
    requires Subsequence(part, whole) && AllStandAlone(whole) && EndBefore(whole)
    ensures AllStandAlone(part) && EndBefore(part)
    ensures LastEnds(whole) ==> LastEnds(part)
    ensures part != [] && !LastEnds(part) ==> whole != [] && part[|part| - 1] == whole[|whole| - 1]
    decreases |whole|
  {
    hide StandsAlone, Terminated;
    if part != [] {
      var most, last := whole[..|whole| - 1], whole[|whole| - 1];
      assert LastEnds(most) by { if most != [] { assert Terminated(Split(whole[|most| - 1].text)); } }
      forall i | 0 <= i < |most| ensures StandsAlone(most[i]) { assert StandsAlone(whole[i]); }
      if part[|part| - 1] == last && Subsequence(part[..|part| - 1], most) {
        var head := part[..|part| - 1];
        SubsequenceStands(head, most);
        forall i | 0 <= i < |part| ensures StandsAlone(part[i]) { assert i < |head| ==> StandsAlone(head[i]); }
        forall i | 0 <= i < |part| - 1 ensures Terminated(Split(part[i].text)) {
          if i < |head| - 1 { assert Terminated(Split(head[i].text)); } else { assert head[|head| - 1] == part[i]; }
        }
      } else {
        SubsequenceStands(part, most);
      }
    }
  }

  /** Re-parsing the text of the kept lines gives back exactly the kept units if it holds no CR LF,
      and only then. */
  lemma KeptTextParsesBack(rendered: string, previous: string, current: string)
    ensures ParseConf(HandLines(rendered, previous, current))
            == Kept(ParseConf(rendered), ParseConf(previous), ParseConf(current))
            <==> !HasReturnNewline(HandLines(rendered, previous, current))
    ensures var kept := Kept(ParseConf(rendered), ParseConf(previous), ParseConf(current));
            DistinctKeys(kept) && Subsequence(kept, ParseConf(current))
  {
    var units := ParseConf(current);
    var kept, text := Kept(ParseConf(rendered), ParseConf(previous), units), HandLines(rendered, previous, current);
    hide Parse, Kept, Normalize, Split, DistinctKeys, Subsequence, AllStandAlone, EndBefore, LastEnds, HasReturnNewline;
    KeptFacts(ParseConf(rendered), ParseConf(previous), units);
    ParsedStandAlone(Lines(current));
    SubsequenceStands(kept, units);
    NormalizeIdle(text);
    if HasReturnNewline(text) {
      TextsFit(Lines(text));
      JoinSplit(Normalize(text));
    } else if kept == [] {
      EmptyParses();
    } else {
      ParseJoined(kept);
    }
  }

  lemma EmptyParses()
    ensures ParseConf("") == [] && Parse([""]) == [] && Terminated([""]) && Lines("") == [""]
  {
  }

  // ---------- one save after another ----------

  /** A unit whose text no carriage return makes change when it is read back. */
  ghost predicate Tidy(u: ConfUnit) {
    StandsAlone(u) && !HasReturnNewline(u.text) && !EndsInReturn(u.text)
  }

  ghost predicate AllTidy(units: seq<ConfUnit>) {
    forall i :: 0 <= i < |units| ==> Tidy(units[i])
  }

  /** A tidy unit that is not an unterminated block. */
  ghost predicate Sound(u: ConfUnit) {
    Tidy(u) && Terminated(Split(u.text))
  }

  ghost predicate AllSound(units: seq<ConfUnit>) {
    forall i :: 0 <= i < |units| ==> Sound(units[i])
  }

  lemma LineTidy(line: string)
    requires '\n' !in line && !Skipped(line) && !Opens(line)
    ensures Tidy(LineUnit(line))
  {
    hide Fields, Trim, StandsAlone, Skipped, Opens, Split, Terminated;
    LineStandsAlone(line);
    TrimTwice(line);
    TrimHasNoNewline(line);
    var text := LineUnit(line).text;
    assert forall i :: 0 <= i < |text| ==> text[i] in text;
    assert text == "" || !IsSpace(text[|text| - 1]);
  }

  lemma {:induction false} JoinEnd(lines: seq<string>)
    requires lines != [] && !EndsInReturn(lines[|lines| - 1])
    ensures !EndsInReturn(Join(lines))
  {
    if |lines| > 1 { JoinEnd(lines[1..]); }
  }

  lemma BlockTidy(block: seq<string>)
    requires block != [] && Opens(block[0]) && StandsAlone(BlockUnit(block))
    requires forall i :: 0 <= i < |block| ==> '\n' !in block[i] && !EndsInReturn(block[i])
    ensures Tidy(BlockUnit(block))
  {
    hide StandsAlone, Opens, Join, HasReturnNewline;
    JoinEnd(block);
    JoinedReturns(block);
  }

  lemma {:induction false} ParsedTidy(lines: seq<string>)
    requires forall i :: 0 <= i < |lines| ==> '\n' !in lines[i] && !EndsInReturn(lines[i])
    ensures AllTidy(Parse(lines))
    decreases |lines|
  {
    hide Skipped, Opens, Tidy;
    if lines == [] {
      ParseEmpty();
    } else if Skipped(lines[0]) {
      ParsedTidy(lines[1..]);
    } else if !Opens(lines[0]) {
      ParsedTidy(lines[1..]);
      LineTidy(lines[0]);
    } else {
      var n := BlockLast(lines, Closer(lines[0])) + 1;
      BlockStep(lines);
      ParsedTidy(lines[n..]);
      BlockTidy(lines[..n]);
    }
  }

  lemma {:induction false} TidyJoined(units: seq<ConfUnit>)
    requires units != [] && AllTidy(units)
    ensures var text := Join(Texts(units)); Normalize(text) == text && !EndsInReturn(text) && text != ""
    decreases |units|
  {
    hide Normalize, Tidy, EndsInReturn, Texts;
    TidyText(units[0]);
    TextsTail(units);
    if |units| > 1 {
      TidyJoined(units[1..]);
      NormalTexts(units[0].text, Join(Texts(units[1..])));
      assert Join(Texts(units)) == units[0].text + "\n" + Join(Texts(units[1..]));
    }
  }

  lemma TidyText(u: ConfUnit)
    requires Tidy(u)
    ensures Normalize(u.text) == u.text && !EndsInReturn(u.text) && u.text != ""
  {
    hide Normalize;
    NormalizeIdle(u.text);
  }

  lemma NormalTexts(a: string, b: string)
    requires Normalize(a) == a && Normalize(b) == b && !EndsInReturn(a) && !EndsInReturn(b) && b != ""
    ensures Normalize(a + "\n" + b) == a + "\n" + b && !EndsInReturn(a + "\n" + b)
  {
    NewlineNormal();
    hide Normalize;
    NormalizeConcat("\n", b);
    NormalizeConcat(a, "\n" + b);
    assert a + "\n" + b == a + ("\n" + b);
  }

  lemma NewlineNormal()
    ensures Normalize("\n") == "\n"
  {
  }

  lemma SoundIs(units: seq<ConfUnit>)
    requires AllSound(units)
    ensures AllTidy(units) && AllStandAlone(units) && EndBefore(units) && LastEnds(units)
  {
    hide StandsAlone, Terminated, HasReturnNewline;
    forall i | 0 <= i < |units| ensures StandsAlone(units[i]) && Tidy(units[i]) && Terminated(Split(units[i].text)) {
      assert Sound(units[i]);
    }
  }

  lemma TidyEndsIsSound(units: seq<ConfUnit>)
    requires AllTidy(units) && EndBefore(units) && LastEnds(units)
    ensures AllSound(units)
  {
    hide Tidy, Terminated;
    forall i | 0 <= i < |units| ensures Sound(units[i]) { assert Tidy(units[i]); }
  }

  lemma HeaderName()
    ensures Fields(HEADER) != [] && Fields(HEADER)[0] == "#"
  {
    HeaderIsComment();
    assert HEADER[0] == '#' && HEADER[1] == ' ';
    FirstWord(HEADER);
  }

  lemma FirstWord(s: string)
    requires |s| >= 2 && s[0] == '#' && s[1] == ' '
    ensures Fields(s) != [] && Fields(s)[0] == "#"
  {
    assert Word(s) == "#" by { assert s[1..][0] == ' '; }
  }

  lemma HeaderIsLine()
    ensures '\n' !in HEADER && !EndsInReturn(HEADER)
  {
    hide HEADER;
    HeaderIsComment();
  }

  lemma PlainLine(s: string)
    requires '\n' !in s
    ensures Lines(s) == [s]
  {
    hide Normalize;
    assert forall i :: 0 <= i < |s| ==> s[i] in s;
    NormalizeIdle(s);
    SplitLine(s);
  }

  lemma CommentParses(s: string)
    requires Fields(s) != [] && Fields(s)[0] == "#"
    ensures Parse([s]) == [LineUnit(s)] && LineUnit(s).name == "#" && Terminated([s])
  {
    hide Fields, Trim;
    ParseLine([s]);
    assert [s][1..] == [];
    ParseEmpty();
  }

  /** The header line parses to one comment. */
  lemma HeaderParses()
    ensures Lines(HEADER) == [HEADER] && !EndsInReturn(HEADER) && Terminated([HEADER])
    ensures |Parse([HEADER])| == 1 && StartsWith(Parse([HEADER])[0].name, '#')
  {
    hide Lines, Fields, Terminated, Parse, Trim, EndsInReturn;
    HeaderName();
    HeaderIsLine();
    PlainLine(HEADER);
    CommentParses(HEADER);
  }

  /** The header and the kept units below it. */
  function Section(kept: seq<ConfUnit>): seq<ConfUnit> {
    if kept == [] then [] else Parse([HEADER]) + kept
  }

  lemma SavedLines(rendered: string, header: string, kept: string)
    requires !EndsInReturn(rendered) && !EndsInReturn(header) && !EndsInReturn(kept)
    ensures Lines(rendered + "\n" + header + "\n" + kept + "\n")
            == Lines(rendered) + (Lines(header) + (Lines(kept) + [""]))
  {
    EmptyParses();
    hide Lines, EndsInReturn;
    var tail := kept + "\n" + "";
    LinesConcat(kept, "");
    LinesConcat(header, tail);
    LinesConcat(rendered, header + "\n" + tail);
    assert rendered + "\n" + header + "\n" + kept + "\n" == rendered + "\n" + (header + "\n" + tail);
  }

  lemma ParseThrough(a: seq<string>, b: seq<string>, c: seq<string>)
    requires Terminated(a) && Terminated(b) && Terminated(c)
    ensures Parse(a + (b + (c + [""]))) == Parse(a) + (Parse(b) + Parse(c))
  {
    EmptyParses();
    hide Parse, Terminated;
    ParseConcat(c, [""]);
    ParseConcat(b, c + [""]);
    ParseConcat(a, b + (c + [""]));
  }

  /** A saved file parses to the units of the render, the header and the kept units. */
  lemma SavedParses(rendered: string, kept: seq<ConfUnit>)
    requires CleanText(rendered) && Terminated(Lines(rendered)) && AllSound(kept) && kept != []
    ensures ParseConf(rendered + "\n" + HEADER + "\n" + Join(Texts(kept)) + "\n") == ParseConf(rendered) + Section(kept)
  {
    hide Parse, Terminated, Split, Normalize, EndsInReturn, CleanText, AllSound, AllTidy, AllStandAlone, EndBefore,
        LastEnds, Texts, Join;
    var text := Join(Texts(kept));
    CleanEnd(rendered);
    SoundIs(kept);
    TidyJoined(kept);
    HeaderParses();
    SavedLines(rendered, HEADER, text);
    ParseJoined(kept);
    assert Lines(text) == Split(text);
    hide Lines;
    ParseThrough(Lines(rendered), [HEADER], Split(text));
  }

  // ---------- whole runs of saves ----------

  /** The file after the k-th save of a run; the first render is that of the settings before. */
  function FileAfter(current: string, renders: seq<string>, k: nat): string
    requires k < |renders|
  {
    if k == 0 then current else Saved(renders[k], renders[k - 1], FileAfter(current, renders, k - 1))
  }

  /** The units that the k-th save keeps below the header. */
  function HandAfter(current: string, renders: seq<string>, k: nat): seq<ConfUnit>
    requires 0 < k < |renders|
  {
    Kept(ParseConf(renders[k]), ParseConf(renders[k - 1]), ParseConf(FileAfter(current, renders, k - 1)))
  }

  ghost predicate WellFormed(conf: string) {
    CleanText(conf) && Terminated(Lines(conf))
  }

  ghost predicate WellFormedRun(current: string, renders: seq<string>) {
    WellFormed(current) && forall k :: 0 <= k < |renders| ==> WellFormed(renders[k])
  }

  function Unowned(rendered: seq<ConfUnit>, units: seq<ConfUnit>): seq<ConfUnit> {
    if units == [] then []
    else if Owns(rendered, units[|units| - 1]) then Unowned(rendered, units[..|units| - 1])
    else Unowned(rendered, units[..|units| - 1]) + [units[|units| - 1]]
  }

  /** Hand-written units that the previous render does not hold, each key once. */
  ghost predicate HandWritten(previous: seq<ConfUnit>, units: seq<ConfUnit>) {
    DistinctKeys(units) && forall i ::
        0 <= i < |units| ==> !StartsWith(units[i].name, '#') && units[i].key !in Keys(previous)
  }

  lemma {:induction false} KeptIsHandWritten(rendered: seq<ConfUnit>, previous: seq<ConfUnit>, current: seq<ConfUnit>)
    ensures HandWritten(rendered, Kept(rendered, previous, current))
            && HandWritten(previous, Kept(rendered, previous, current))
  {
    KeptFacts(rendered, previous, current);
  }

  lemma KeptSnoc(rendered: seq<ConfUnit>, previous: seq<ConfUnit>, units: seq<ConfUnit>, u: ConfUnit)
    ensures var kept := Kept(rendered, previous, units);
            Kept(rendered, previous, units + [u])
            == if Keeps(rendered, previous, u) && u.key !in Keys(kept) then kept + [u] else kept
  {
    hide Keeps, Keys;
    assert (units + [u])[..|units|] == units;
  }

  lemma {:induction false} NoneKept(rendered: seq<ConfUnit>, previous: seq<ConfUnit>, front: seq<ConfUnit>)
    requires forall i :: 0 <= i < |front| ==> !Keeps(rendered, previous, front[i])
    ensures Kept(rendered, previous, front) == []
  {
    hide Keeps, Keys;
    if front != [] { NoneKept(rendered, previous, front[..|front| - 1]); }
  }

  lemma {:induction false} SkipOwned(rendered: seq<ConfUnit>, previous: seq<ConfUnit>, front: seq<ConfUnit>,
                                     rest: seq<ConfUnit>)
    requires forall i :: 0 <= i < |front| ==> !Keeps(rendered, previous, front[i])
    ensures Kept(rendered, previous, front + rest) == Kept(rendered, previous, rest)
    decreases |rest|
  {
    if rest != [] {
      var most, last := rest[..|rest| - 1], rest[|rest| - 1];
      assert front + rest == front + most + [last] && most + [last] == rest;
      SkipOwned(rendered, previous, front, most);
      KeptSnoc(rendered, previous, front + most, last);
      KeptSnoc(rendered, previous, most, last);
    } else {
      assert front + rest == front;
      NoneKept(rendered, previous, front);
    }
  }

  lemma {:induction false} UnownedWithin(rendered: seq<ConfUnit>, units: seq<ConfUnit>)
    ensures forall u :: u in Unowned(rendered, units) <==> u in units && !Owns(rendered, u)
  {
    hide Owns;
    if units != [] {
      UnownedWithin(rendered, units[..|units| - 1]);
      assert units == units[..|units| - 1] + [units[|units| - 1]];
    }
  }

  lemma {:induction false} KeepUnowned(rendered: seq<ConfUnit>, previous: seq<ConfUnit>, units: seq<ConfUnit>)
    requires HandWritten(previous, units)
    ensures Kept(rendered, previous, units) == Unowned(rendered, units)
  {
    hide Owns;
    if units != [] {
      var most, u := units[..|units| - 1], units[|units| - 1];
      KeepUnowned(rendered, previous, most);
      UnownedWithin(rendered, most);
      var kept := Kept(rendered, previous, most);
      assert u.key !in Keys(kept) by {
        forall i | 0 <= i < |kept| ensures kept[i].key != u.key { assert kept[i] in Unowned(rendered, most); }
      }
    }
  }

  /** Saving over a saved file filters its hand section by what the new render owns. */
  lemma KeptOfSaved(rendered: seq<ConfUnit>, previous: seq<ConfUnit>, units: seq<ConfUnit>)
    requires HandWritten(previous, units)
    ensures Kept(rendered, previous, previous + Section(units)) == Unowned(rendered, units)
  {
    HeaderParses();
    hide HEADER, Parse, Owns, HandWritten;
    forall i | 0 <= i < |previous| ensures !Keeps(rendered, previous, previous[i]) {
      assert previous[i].key in Keys(previous);
    }
    SkipOwned(rendered, previous, previous, Section(units));
    SkipOwned(rendered, previous, Parse([HEADER]), units);
    KeepUnowned(rendered, previous, units);
  }

  lemma {:induction false} UnownedSound(rendered: seq<ConfUnit>, units: seq<ConfUnit>)
    requires AllSound(units)
    ensures AllSound(Unowned(rendered, units))
  {
    hide Sound, Owns;
    if units != [] { UnownedSound(rendered, units[..|units| - 1]); }
  }

  lemma SubsequenceSound(part: seq<ConfUnit>, whole: seq<ConfUnit>)
    requires Subsequence(part, whole) && AllSound(whole)
    ensures AllSound(part)
  {
    hide Sound;
    SubsequenceWithin(part, whole);
    forall i | 0 <= i < |part| ensures Sound(part[i]) { assert part[i] in whole; }
  }

  lemma SavedFile(rendered: string, previous: string, current: string)
    requires WellFormed(rendered)
    requires AllSound(Kept(ParseConf(rendered), ParseConf(previous), ParseConf(current)))
    ensures ParseConf(Saved(rendered, previous, current))
            == ParseConf(rendered) + Section(Kept(ParseConf(rendered), ParseConf(previous), ParseConf(current)))
  {
    hide ParseConf, Kept, CleanText, Terminated, AllSound, AllTidy, Lines, Parse;
    var kept := Kept(ParseConf(rendered), ParseConf(previous), ParseConf(current));
    if kept != [] {
      SoundIs(kept);
      TidyJoined(kept);
      SavedParses(rendered, kept);
    } else {
      assert ParseConf(rendered) + [] == ParseConf(rendered);
    }
  }

  /** Every saved file of a run parses to its render, the header and its hand section. */
  lemma {:induction false} FileParses(current: string, renders: seq<string>, k: nat)
    requires WellFormedRun(current, renders) && 0 < k < |renders|
    ensures AllSound(HandAfter(current, renders, k))
    ensures ParseConf(FileAfter(current, renders, k)) == ParseConf(renders[k]) + Section(HandAfter(current, renders, k))
  {
    hide ParseConf, Kept, Saved, AllSound, WellFormed, Section, Subsequence, HandWritten, DistinctKeys;
    var r, p := ParseConf(renders[k]), ParseConf(renders[k - 1]);
    if k == 1 {
      WellFormedSound(current);
      KeptFacts(r, p, ParseConf(current));
      SubsequenceSound(Kept(r, p, ParseConf(current)), ParseConf(current));
    } else {
      FileParses(current, renders, k - 1);
      HandSectionStep(current, renders, k - 1);
      UnownedSound(r, HandAfter(current, renders, k - 1));
    }
    SavedFile(renders[k], renders[k - 1], FileAfter(current, renders, k - 1));
  }

  lemma CleanTidy(conf: string)
    requires CleanText(conf)
    ensures AllTidy(ParseConf(conf)) && AllStandAlone(ParseConf(conf)) && EndBefore(ParseConf(conf))
    ensures Terminated(Lines(conf)) <==> LastEnds(ParseConf(conf))
  {
    hide Normalize, Split, Terminated, Tidy, StandsAlone;
    forall i | 0 <= i < |Lines(conf)| ensures '\n' !in Lines(conf)[i] && !EndsInReturn(Lines(conf)[i]) {}
    ParsedTidy(Lines(conf));
    ParsedStandAlone(Lines(conf));
  }

  lemma WellFormedSound(conf: string)
    requires WellFormed(conf)
    ensures AllSound(ParseConf(conf))
  {
    hide ParseConf, Lines, CleanText, Terminated;
    CleanTidy(conf);
    TidyEndsIsSound(ParseConf(conf));
  }

  lemma HandSectionStep(current: string, renders: seq<string>, k: nat)
    requires 0 < k && k + 1 < |renders|
    requires ParseConf(FileAfter(current, renders, k))
             == ParseConf(renders[k]) + Section(HandAfter(current, renders, k))
    ensures HandAfter(current, renders, k + 1) == Unowned(ParseConf(renders[k + 1]), HandAfter(current, renders, k))
  {
    hide ParseConf, Kept, FileAfter, HandWritten, Section;
    KeptIsHandWritten(ParseConf(renders[k]), ParseConf(renders[k - 1]), ParseConf(FileAfter(current, renders, k - 1)));
    KeptOfSaved(ParseConf(renders[k + 1]), ParseConf(renders[k]), HandAfter(current, renders, k));
  }

  /** Across a run, the hand section after a save is the one after the save before, in order,
      without what the new render owns. */
  lemma HandSectionShrinks(current: string, renders: seq<string>, k: nat)
    requires WellFormedRun(current, renders) && 0 < k && k + 1 < |renders|
    ensures HandAfter(current, renders, k + 1) == Unowned(ParseConf(renders[k + 1]), HandAfter(current, renders, k))
  {
    hide ParseConf, HandAfter, FileAfter, WellFormedRun, Section, AllSound, Unowned;
    FileParses(current, renders, k);
    HandSectionStep(current, renders, k);
  }

  ghost predicate OwnedUpTo(renders: seq<string>, k: nat, u: ConfUnit)
    requires k < |renders|
  {
    exists j :: 2 <= j <= k && Owns(ParseConf(renders[j]), u)
  }

  /** A hand-written unit is in the section after the k-th save, exactly once, if and only if it
      was in the first one and no render since owns it. */
  lemma {:induction false} SurvivesIffUnowned(current: string, renders: seq<string>, k: nat, u: ConfUnit)
    requires WellFormedRun(current, renders) && 0 < k < |renders|
    ensures u in HandAfter(current, renders, k) <==> u in HandAfter(current, renders, 1) && !OwnedUpTo(renders, k, u)
    ensures DistinctKeys(HandAfter(current, renders, k))
  {
    hide ParseConf, Owns, WellFormedRun, Kept, FileAfter, DistinctKeys, Subsequence;
    KeptFacts(ParseConf(renders[k]), ParseConf(renders[k - 1]), ParseConf(FileAfter(current, renders, k - 1)));
    if k > 1 {
      SurvivesIffUnowned(current, renders, k - 1, u);
      HandSectionShrinks(current, renders, k - 1);
      UnownedWithin(ParseConf(renders[k]), HandAfter(current, renders, k - 1));
      if OwnedUpTo(renders, k - 1, u) {
        var j :| 2 <= j <= k - 1 && Owns(ParseConf(renders[j]), u);
        assert OwnedUpTo(renders, k, u);
      }
      if Owns(ParseConf(renders[k]), u) { assert OwnedUpTo(renders, k, u); }
    }
  }

  /** No line of the render before the run, or of any render so far, is in the hand section. */
  lemma {:induction false} NoRenderLeaks(current: string, renders: seq<string>, k: nat, j: nat, u: ConfUnit)
    requires WellFormedRun(current, renders) && j <= k && 0 < k < |renders| && u in HandAfter(current, renders, k)
    ensures u.key !in Keys(ParseConf(renders[j]))
    decreases k
  {
    hide ParseConf, WellFormedRun, Kept, FileAfter, HandAfter, Keys;
    if j >= k - 1 {
      HandIs(current, renders, k);
      KeptIsHandWritten(ParseConf(renders[k]), ParseConf(renders[k - 1]),
                        ParseConf(FileAfter(current, renders, k - 1)));
    } else {
      HandSectionShrinks(current, renders, k - 1);
      UnownedWithin(ParseConf(renders[k]), HandAfter(current, renders, k - 1));
      NoRenderLeaks(current, renders, k - 1, j, u);
    }
  }

  lemma HandIs(current: string, renders: seq<string>, k: nat)
    requires 0 < k < |renders|
    ensures HandAfter(current, renders, k)
            == Kept(ParseConf(renders[k]), ParseConf(renders[k - 1]), ParseConf(FileAfter(current, renders, k - 1)))
  {
  }

  /** Every active unit of the old file is in the new one by its key, or the new render sets its
      non-repeatable directive, or the former render held it. */
  lemma NothingActiveLost(rendered: string, previous: string, current: string, u: ConfUnit)
    requires WellFormed(rendered) && WellFormed(current) && u in ParseConf(current) && !StartsWith(u.name, '#')
    ensures || u.key in Keys(ParseConf(Saved(rendered, previous, current)))
            || (u.name in Names(ParseConf(rendered)) && !Repeatable(u.name))
            || u.key in Keys(ParseConf(previous))
  {
    hide ParseConf, Kept, Saved, WellFormed, AllSound, Subsequence, DistinctKeys;
    var r, p, c := ParseConf(rendered), ParseConf(previous), ParseConf(current);
    KeptFacts(r, p, c);
    WellFormedSound(current);
    SubsequenceSound(Kept(r, p, c), c);
    SavedFile(rendered, previous, current);
    KeyOfConcat(r, Section(Kept(r, p, c)), u.key);
    if Keeps(r, p, u) {
      assert Kept(r, p, c) != [];
      KeyOfConcat(Parse([HEADER]), Kept(r, p, c), u.key);
    }
  }

  lemma KeyOfConcat(a: seq<ConfUnit>, b: seq<ConfUnit>, key: string)
    ensures key in Keys(a + b) <==> key in Keys(a) || key in Keys(b)
  {
    var all := a + b;
    if key in Keys(a) {
      var i :| 0 <= i < |a| && a[i].key == key;
      assert all[i].key == key;
    }
    if key in Keys(b) {
      var i :| 0 <= i < |b| && b[i].key == key;
      assert all[|a| + i].key == key;
    }
  }
}
