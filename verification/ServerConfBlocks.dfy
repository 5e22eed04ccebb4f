/** Kept inline blocks that do not come back as they were written: blocks with carriage returns
    inside, and blocks without their end. */
module ServerConfBlocks {
  import opened HandHeader
  import opened TextLines
  import opened ServerConf
  import opened ServerConfRuns
  import opened Sequences

  // ---------- carriage returns inside a kept block ----------

  /** A line of the unit before its last one ends in CR. */
  ghost predicate ReturnInside(u: ConfUnit) {
    exists j :: 0 <= j < |Split(u.text)| - 1 && EndsInReturn(Split(u.text)[j])
  }

  /** No kept unit has a line before its last that ends in CR, and only the last unit may have a
      last line that does. Both are possible for inline blocks only; other lines are trimmed. */
  ghost predicate NoReturns(kept: seq<ConfUnit>) {
    && (forall i :: 0 <= i < |kept| ==> !ReturnInside(kept[i]))
    && (forall i :: 0 <= i < |kept| - 1 ==> !EndsInReturn(kept[i].text))
  }

  lemma UnitReturns(u: ConfUnit)
    ensures HasReturnNewline(u.text) <==> ReturnInside(u)
  {
    JoinedReturns(Split(u.text));
    JoinSplit(u.text);
  }

  lemma ReturnsAcross(a: string, b: string)
    ensures HasReturnNewline(a + "\n" + b) <==> HasReturnNewline(a) || EndsInReturn(a) || HasReturnNewline(b)
  {
    var s := a + "\n" + b;
    if i :| 0 <= i < |s| - 1 && s[i] == '\r' && s[i + 1] == '\n' {
      if i + 1 < |a| {
        assert a[i] == '\r' && a[i + 1] == '\n';
      } else if i > |a| {
        assert b[i - |a| - 1] == '\r' && b[i - |a|] == '\n';
      }
    }
    if i :| 0 <= i < |a| - 1 && a[i] == '\r' && a[i + 1] == '\n' { assert s[i] == '\r' && s[i + 1] == '\n'; }
    if EndsInReturn(a) { assert s[|a| - 1] == '\r' && s[|a|] == '\n'; }
    if i :| 0 <= i < |b| - 1 && b[i] == '\r' && b[i + 1] == '\n' {
      assert s[|a| + 1 + i] == '\r' && s[|a| + 1 + i + 1] == '\n';
    }
  }

  lemma {:induction false} KeptReturns(kept: seq<ConfUnit>)
    ensures HasReturnNewline(Join(Texts(kept))) <==> !NoReturns(kept)
  {
    hide HasReturnNewline, ReturnInside, EndsInReturn;
    if kept == [] {
      NoReturnInNothing();
    } else {
      var u, rest := kept[0], kept[1..];
      UnitReturns(u);
      TextsTail(kept);
      KeptReturns(rest);
      assert [u] + rest == kept;
      JoinCons(u, rest);
      if rest != [] {
        ReturnsAcross(u.text, Join(Texts(rest)));
        NoReturnsCons(u, rest);
      }
    }
  }

  lemma NoReturnInNothing()
    ensures !HasReturnNewline(Join(Texts([])))
  {
  }

  lemma NoReturnsCons(u: ConfUnit, rest: seq<ConfUnit>)
    requires rest != []
    ensures NoReturns([u] + rest) <==> !ReturnInside(u) && !EndsInReturn(u.text) && NoReturns(rest)
  {
    hide ReturnInside, EndsInReturn;
    var all := [u] + rest;
    assert all[0] == u && forall i :: 0 <= i < |rest| ==> all[i + 1] == rest[i];
    if NoReturns(rest) && !ReturnInside(u) && !EndsInReturn(u.text) {
      forall i | 0 <= i < |all| ensures !ReturnInside(all[i]) { if i > 0 { assert !ReturnInside(rest[i - 1]); } }
      forall i | 0 <= i < |all| - 1 ensures !EndsInReturn(all[i].text) {
        if i > 0 { assert !EndsInReturn(rest[i - 1].text); }
      }
    }
    if NoReturns(all) {
      forall i | 0 <= i < |rest| ensures !ReturnInside(rest[i]) { assert !ReturnInside(all[i + 1]); }
      forall i | 0 <= i < |rest| - 1 ensures !EndsInReturn(rest[i].text) { assert !EndsInReturn(all[i + 1].text); }
    }
  }

  /** Re-parsing the text of the kept lines gives back exactly the kept units if and only if no
      line inside a kept block ends in CR and no kept block but the last one ends in CR. */
  lemma KeptTextRoundTripIff(rendered: string, previous: string, current: string)
    ensures var kept := Kept(ParseConf(rendered), ParseConf(previous), ParseConf(current));
            && (ParseConf(HandLines(rendered, previous, current)) == kept <==> NoReturns(kept))
            && DistinctKeys(kept) && Subsequence(kept, ParseConf(current))
  {
    hide ParseConf, Kept, DistinctKeys, Subsequence, NoReturns;
    KeptTextParsesBack(rendered, previous, current);
    KeptReturns(Kept(ParseConf(rendered), ParseConf(previous), ParseConf(current)));
  }

  lemma TwoLines(a: string, b: string)
    requires '\n' !in a && '\n' !in b
    ensures Lines(a + "\r\n" + b) == [a, b]
  {
    hide Normalize, Split;
    assert forall k :: 0 <= k < |a| ==> a[k] in a;
    assert forall k :: 0 <= k < |b| ==> b[k] in b;
    NormalizeIdle(a);
    NormalizeIdle(b);
    NormalizePair(b);
    NormalizeConcat(a, "\r\n" + b);
    assert a + ("\r\n" + b) == a + "\r\n" + b && a + ("\n" + b) == a + "\n" + b;
    SplitConcat(a, b);
    SplitLine(a);
    SplitLine(b);
  }

  lemma BlockOfTwo(line: string, closer: string)
    requires Opens(line) && Trim(line) != Closer(line) && Trim(closer) == Closer(line)
    ensures var text := line + "\n" + closer; Parse([line, closer]) == [ConfUnit(Fields(line)[0], text, text)]
  {
    var lines := [line, closer];
    hide Fields, Trim, Parse, Skipped, Opens;
    ParseBlock(lines, 1);
    assert lines[..2] == lines && lines[2..] == [];
    ParseEmpty();
    JoinConcat([line], [closer]);
    assert [line] + [closer] == lines;
    assert Parse(lines) == [BlockUnit(lines)] + [];
  }

  const OPENER := "<ca>"
  const ENDING := "</ca>"

  lemma OpenerOpens()
    ensures '\n' !in OPENER && '\n' !in ENDING && Fields(OPENER) == [OPENER] && Trim(ENDING) == ENDING
    ensures Opens(OPENER) && Closer(OPENER) == ENDING && Trim(OPENER) != ENDING
  {
    assert Word(OPENER) == OPENER;
    assert Fields(OPENER) == [OPENER] + Fields(OPENER[4..]);
    TrimShorter(OPENER);
  }

  lemma ReturnOpens()
    ensures var line := OPENER + "\r";
            '\n' !in line && Fields(line) == [OPENER] && Opens(line) && Closer(line) == ENDING && Trim(line) != ENDING
  {
    var line := OPENER + ['\r'];
    OpenerOpens();
    FieldsSnoc(OPENER, '\r');
    assert OPENER[0] == '<';
    assert TrimLeft(line) == line;
    assert line[..4] == OPENER;
    assert TrimRight(line) == TrimRight(OPENER);
    TrimRightShorter(OPENER);
  }

  lemma KeptAlone(u: ConfUnit)
    requires !StartsWith(u.name, '#')
    ensures Kept([], [], [u]) == [u] && Join(Texts([u])) == u.text
  {
    assert [u][..0] == [];
    assert Keeps([], [], u);
    assert Kept([], [], []) == [];
  }

  /** A block whose first line ends in CR CR LF: it is kept with one CR, and read back without. */
  lemma ReturnIsLost()
    ensures var file := OPENER + "\r" + "\r\n" + ENDING;
            var kept, back := OPENER + "\r" + "\n" + ENDING, OPENER + "\n" + ENDING;
            && Kept(ParseConf(""), ParseConf(""), ParseConf(file)) == [ConfUnit(OPENER, kept, kept)]
            && ParseConf(HandLines("", "", file)) == [ConfUnit(OPENER, back, back)]
            && kept != back
  {
    hide Parse, Lines, Trim, Fields, Opens, Kept, Join;
    OpenerOpens();
    ReturnOpens();
    EmptyParses();
    TwoLines(OPENER + "\r", ENDING);
    BlockOfTwo(OPENER + "\r", ENDING);
    var kept := OPENER + "\r" + "\n" + ENDING;
    assert OPENER[0] == '<';
    KeptAlone(ConfUnit(OPENER, kept, kept));
    assert kept == OPENER + "\r\n" + ENDING;
    TwoLines(OPENER, ENDING);
    BlockOfTwo(OPENER, ENDING);
    assert |kept| != |OPENER + "\n" + ENDING|;
  }

  // ---------- an inline block without its end ----------

  /** The last unit longer by one newline. */
  function Grown(units: seq<ConfUnit>): seq<ConfUnit>
    requires units != []
  {
    var last := |units| - 1;
    units[..last] + [units[last].(key := units[last].key + "\n", text := units[last].text + "\n")]
  }

  lemma BlockGrows(lines: seq<string>)
    requires lines != [] && Opens(lines[0]) && !Ends(lines)
    ensures Parse(lines) == [BlockUnit(lines)] && Parse(lines + [""]) == Grown([BlockUnit(lines)])
  {
    hide Fields, Trim, BlockLast, Opens, Skipped, Join, Parse;
    var closer := Closer(lines[0]);
    BlockLastStops(lines, closer);
    var all := lines + [""];
    assert forall j :: 0 <= j < |lines| ==> all[j] == lines[j] && Trim(all[j]) != closer;
    WholeBlock(lines);
    WholeBlock(all);
    JoinConcat(lines, [""]);
    SingleLine();
    JoinEmptyLine(Join(lines));
  }

  lemma JoinEmptyLine(s: string)
    ensures s + "\n" + "" == s + "\n"
  {
  }

  lemma SingleLine()
    ensures Join([""]) == ""
  {
  }

  lemma WholeBlock(lines: seq<string>)
    requires lines != [] && Opens(lines[0]) && forall j :: 0 <= j < |lines| - 1 ==> Trim(lines[j]) != Closer(lines[0])
    ensures Parse(lines) == [BlockUnit(lines)]
  {
    hide Fields, Trim, Opens, Skipped, Join;
    ParseBlock(lines, |lines| - 1);
    assert lines[..|lines|] == lines && lines[|lines|..] == [];
    ParseEmpty();
  }

  lemma {:induction false} UnterminatedGrows(lines: seq<string>)
    requires !Terminated(lines)
    ensures Parse(lines) != [] && Parse(lines + [""]) == Grown(Parse(lines))
    decreases |lines|
  {
    hide Fields, Trim;
    var all := lines + [""];
    assert all[0] == lines[0];
    if Skipped(lines[0]) {
      assert all[1..] == lines[1..] + [""];
      UnterminatedGrows(lines[1..]);
    } else if !Opens(lines[0]) {
      assert all[1..] == lines[1..] + [""];
      UnterminatedGrows(lines[1..]);
      GrownCons(LineUnit(lines[0]), Parse(lines[1..]));
    } else if Ends(lines) {
      var n := BlockLast(lines, Closer(lines[0]));
      BlockLastStops(lines, Closer(lines[0]));
      BlockLastIs(all, Closer(lines[0]), n);
      assert all[..n + 1] == lines[..n + 1] && all[n + 1..] == lines[n + 1..] + [""];
      UnterminatedGrows(lines[n + 1..]);
      GrownCons(BlockUnit(lines[..n + 1]), Parse(lines[n + 1..]));
    } else {
      BlockGrows(lines);
    }
  }

  lemma GrownCons(u: ConfUnit, rest: seq<ConfUnit>)
    requires rest != []
    ensures Grown([u] + rest) == [u] + Grown(rest)
  {
  }

  /** A file of a well-formed render, the header and kept texts, whose last unit lacks its end. */
  lemma SavedGrows(rendered: string, kept: seq<ConfUnit>)
    requires WellFormed(rendered) && kept != [] && AllTidy(kept) && EndBefore(kept) && !LastEnds(kept)
    ensures ParseConf(rendered + "\n" + HEADER + "\n" + Join(Texts(kept)) + "\n")
            == ParseConf(rendered) + Section(Grown(kept))
  {
    hide Parse, Terminated, Lines, AllTidy, AllStandAlone, EndBefore, LastEnds, Texts, Join;
    var text := Join(Texts(kept));
    TidyStands(kept);
    TidyJoined(kept);
    ParseJoined(kept);
    UnterminatedGrows(Split(text));
    SavedUnterminated(rendered, text);
  }

  lemma TidyStands(units: seq<ConfUnit>)
    requires AllTidy(units)
    ensures AllStandAlone(units)
  {
    hide StandsAlone, HasReturnNewline;
    forall i | 0 <= i < |units| ensures StandsAlone(units[i]) { assert Tidy(units[i]); }
  }

  /** The next save reads back exactly the hand section written if and only if its last unit is not
      an inline block without its end; such a block is read back longer by a newline. */
  lemma HandSectionStableIff(rendered: string, previous: string, current: string)
    requires WellFormed(rendered) && CleanText(current)
    requires Kept(ParseConf(rendered), ParseConf(previous), ParseConf(current)) != []
    ensures var kept := Kept(ParseConf(rendered), ParseConf(previous), ParseConf(current));
            var file := ParseConf(Saved(rendered, previous, current));
            && (file == ParseConf(rendered) + Section(kept) <==> LastEnds(kept))
            && (!LastEnds(kept) ==> file == ParseConf(rendered) + Section(Grown(kept)))
  {
    hide Kept, Parse, Terminated, Lines, CleanText, AllTidy, AllStandAlone, EndBefore, LastEnds, Subsequence,
        DistinctKeys, Texts, Join;
    var r, kept := ParseConf(rendered), Kept(ParseConf(rendered), ParseConf(previous), ParseConf(current));
    KeptFacts(r, ParseConf(previous), ParseConf(current));
    CleanTidy(current);
    SubsequenceStands(kept, ParseConf(current));
    SubsequenceTidy(kept, ParseConf(current));
    TidyJoined(kept);
    if LastEnds(kept) {
      TidyEndsIsSound(kept);
      SavedFile(rendered, previous, current);
    } else {
      SavedGrows(rendered, kept);
      assert Grown(kept)[|kept| - 1] != kept[|kept| - 1];
      assert (r + Section(Grown(kept)))[|r| + |Parse([HEADER])| + |kept| - 1] == Grown(kept)[|kept| - 1];
      assert (r + Section(kept))[|r| + |Parse([HEADER])| + |kept| - 1] == kept[|kept| - 1];
    }
  }

  lemma SubsequenceTidy(part: seq<ConfUnit>, whole: seq<ConfUnit>)
    requires Subsequence(part, whole) && AllTidy(whole)
    ensures AllTidy(part)
  {
    hide Tidy;
    SubsequenceWithin(part, whole);
    forall i | 0 <= i < |part| ensures Tidy(part[i]) { assert part[i] in whole; }
  }

  lemma SavedUnterminated(rendered: string, text: string)
    requires WellFormed(rendered) && Normalize(text) == text && !EndsInReturn(text)
    ensures ParseConf(rendered + "\n" + HEADER + "\n" + text + "\n")
            == ParseConf(rendered) + (Parse([HEADER]) + Parse(Split(text) + [""]))
  {
    hide Parse, Terminated, Split, Normalize, EndsInReturn, CleanText;
    CleanEnd(rendered);
    HeaderParses();
    SavedLines(rendered, HEADER, text);
    assert Lines(text) == Split(text);
    hide Lines;
    ParseConcat([HEADER], Split(text) + [""]);
    ParseConcat(Lines(rendered), [HEADER] + (Split(text) + [""]));
  }

  // ---------- the block grows with every save ----------

  function GrownBy(units: seq<ConfUnit>, n: nat): (r: seq<ConfUnit>)
    requires units != []
    ensures |r| == |units|
  {
    if n == 0 then units else Grown(GrownBy(units, n - 1))
  }

  function Newlines(n: nat): string {
    if n == 0 then "" else Newlines(n - 1) + "\n"
  }

  /** The last unit longer by n newlines, the others as they were. */
  lemma {:induction false} GrownByIs(units: seq<ConfUnit>, n: nat)
    requires units != []
    ensures var last := |units| - 1;
            && GrownBy(units, n)[..last] == units[..last]
            && GrownBy(units, n)[last].name == units[last].name
            && GrownBy(units, n)[last].text == units[last].text + Newlines(n)
  {
    if n > 0 {
      GrownByIs(units, n - 1);
      var t := units[|units| - 1].text;
      assert t + Newlines(n - 1) + "\n" == t + (Newlines(n - 1) + "\n");
    } else {
      assert units[|units| - 1].text + "" == units[|units| - 1].text;
    }
  }

  lemma {:induction false} WordFree(s: string)
    ensures '\n' !in Word(s)
  {
    if s != "" && !IsSpace(s[0]) { WordFree(s[1..]); }
  }

  lemma {:induction false} FieldsFree(s: string)
    ensures forall i :: 0 <= i < |Fields(s)| ==> '\n' !in Fields(s)[i]
    decreases |s|
  {
    if s != "" {
      if IsSpace(s[0]) { FieldsFree(s[1..]); } else { WordFree(s); FieldsFree(s[|Word(s)|..]); }
    }
  }

  lemma {:induction false} BeforeHashFree(fields: seq<string>)
    requires forall i :: 0 <= i < |fields| ==> '\n' !in fields[i]
    ensures forall i :: 0 <= i < |BeforeHash(fields)| ==> '\n' !in BeforeHash(fields)[i]
  {
    if fields != [] { BeforeHashFree(fields[1..]); }
  }

  lemma {:induction false} JoinWordsFree(words: seq<string>)
    requires forall i :: 0 <= i < |words| ==> '\n' !in words[i]
    ensures '\n' !in JoinWords(words)
  {
    if |words| > 1 { JoinWordsFree(words[1..]); }
  }

  /** A key with a newline is the text of a block. */
  lemma {:induction false} KeysOfLines(lines: seq<string>)
    ensures forall i :: 0 <= i < |Parse(lines)| ==> '\n' in Parse(lines)[i].key ==>
              Parse(lines)[i].key == Parse(lines)[i].text
    decreases |lines|
  {
    hide Fields, Trim, BlockLast, JoinWords, BeforeHash;
    if lines != [] {
      if Skipped(lines[0]) {
        KeysOfLines(lines[1..]);
      } else if Opens(lines[0]) {
        KeysOfLines(lines[BlockLast(lines, Closer(lines[0])) + 1..]);
      } else {
        KeysOfLines(lines[1..]);
        FieldsFree(lines[0]);
        BeforeHashFree(Fields(lines[0]));
        JoinWordsFree(Uncommented(Fields(lines[0])));
      }
    }
  }

  lemma BlockKey(u: ConfUnit)
    requires StandsAlone(u) && '\n' in u.key
    ensures u.key == u.text
  {
    hide Parse;
    KeysOfLines(Split(u.text));
    assert Parse(Split(u.text))[0] == u;
  }

  /** Adding a newline to a unit without its end gives another unit without its end. */
  lemma GrownUnit(u: ConfUnit)
    requires Tidy(u) && !Terminated(Split(u.text))
    ensures var v := u.(key := u.key + "\n", text := u.text + "\n");
            Grown([u]) == [v] && Tidy(v) && !Terminated(Split(v.text)) && '\n' in v.key
  {
    hide Parse, Terminated, HasReturnNewline;
    var v := u.(key := u.key + "\n", text := u.text + "\n");
    UnterminatedGrows(Split(u.text));
    UnterminatedStays(Split(u.text));
    assert Grown([u]) == [v] by { assert [u][..0] + [v] == [v]; }
    SplitConcat(u.text, "");
    EmptyParses();
    assert u.text + "\n" + "" == v.text;
    assert Split("") == [""] by { SplitLine(""); }
    NoReturnAtEnd(u.text);
  }

  lemma NoReturnAtEnd(s: string)
    requires !HasReturnNewline(s) && !EndsInReturn(s)
    ensures !HasReturnNewline(s + "\n") && !EndsInReturn(s + "\n")
  {
    ReturnsAcross(s, "");
    assert s + "\n" + "" == s + "\n";
  }

  lemma {:induction false} UnterminatedStays(lines: seq<string>)
    requires !Terminated(lines)
    ensures !Terminated(lines + [""])
    decreases |lines|
  {
    hide Fields, Trim;
    var all := lines + [""];
    assert all[0] == lines[0];
    if Skipped(lines[0]) || !Opens(lines[0]) {
      assert all[1..] == lines[1..] + [""];
      UnterminatedStays(lines[1..]);
    } else {
      var closer := Closer(lines[0]);
      var n := BlockLast(lines, closer);
      BlockLastStops(lines, closer);
      if Ends(lines) {
        BlockLastIs(all, closer, n);
        assert all[n + 1..] == lines[n + 1..] + [""];
        UnterminatedStays(lines[n + 1..]);
      } else {
        EndlessStays(lines);
      }
    }
  }

  lemma EndlessStays(lines: seq<string>)
    requires lines != [] && Opens(lines[0]) && !Ends(lines)
    ensures !Ends(lines + [""])
  {
    hide Fields, Opens;
    var all, closer := lines + [""], Closer(lines[0]);
    BlockLastStops(lines, closer);
    assert forall j :: 0 <= j < |lines| ==> all[j] == lines[j] && Trim(all[j]) != closer;
    BlockLastIs(all, closer, |lines|);
    assert Trim("") == "";
  }

  /** What lets a section grow: tidy units with distinct keys, and the last without its end. */
  ghost predicate Growing(units: seq<ConfUnit>) {
    units != [] && AllTidy(units) && EndBefore(units) && !LastEnds(units) && DistinctKeys(units)
  }

  lemma GrownGrows(units: seq<ConfUnit>)
    requires Growing(units)
    ensures Growing(Grown(units))
  {
    hide Tidy, Terminated, StandsAlone;
    var last := |units| - 1;
    var u, grown := units[last], Grown(units);
    GrownUnit(u);
    var v := grown[last];
    assert Grown([u])[0] == v;
    forall i | 0 <= i < |grown| ensures Tidy(grown[i]) { if i < last { assert grown[i] == units[i]; } }
    forall i | 0 <= i < |grown| - 1 ensures Terminated(Split(grown[i].text)) { assert grown[i] == units[i]; }
    forall i | 0 <= i < last ensures units[i].key != v.key {
      KeysDiffer(units[i], v);
    }
    forall i, j | 0 <= i < j < |grown| ensures grown[i].key != grown[j].key {
      assert grown[i] == units[i];
      if j < last { assert grown[j] == units[j]; }
    }
  }

  lemma KeysDiffer(u: ConfUnit, v: ConfUnit)
    requires Tidy(u) && Tidy(v) && Terminated(Split(u.text)) && !Terminated(Split(v.text)) && '\n' in v.key
    ensures u.key != v.key
  {
    hide Tidy;
    if u.key == v.key {
      TidyBlockKey(u);
      TidyBlockKey(v);
    }
  }

  lemma TidyBlockKey(u: ConfUnit)
    requires Tidy(u) && '\n' in u.key
    ensures u.key == u.text
  {
    hide StandsAlone;
    BlockKey(u);
  }

  lemma {:induction false} GrownByGrows(units: seq<ConfUnit>, n: nat)
    requires units != [] && Growing(units)
    ensures Growing(GrownBy(units, n))
  {
    hide Growing, Grown;
    if n > 0 {
      GrownByGrows(units, n - 1);
      GrownGrows(GrownBy(units, n - 1));
    }
  }

  /** No render of the run owns a unit of the section, however long its last one has grown. */
  ghost predicate NeverOwned(renders: seq<string>, units: seq<ConfUnit>)
    requires units != []
  {
    forall j, n: nat, i {:trigger renders[j], GrownBy(units, n)[i]} :: 0 <= j < |renders| && 0 <= i < |units| ==>
      !Owns(ParseConf(renders[j]), GrownBy(units, n)[i])
  }

  lemma {:induction false} NothingOwned(rendered: seq<ConfUnit>, units: seq<ConfUnit>)
    requires forall i :: 0 <= i < |units| ==> !Owns(rendered, units[i])
    ensures Unowned(rendered, units) == units
  {
    hide Owns;
    if units != [] {
      NothingOwned(rendered, units[..|units| - 1]);
      assert units == units[..|units| - 1] + [units[|units| - 1]];
    }
  }

  lemma GrownHandWritten(previous: seq<ConfUnit>, units: seq<ConfUnit>, n: nat)
    requires Growing(units) && forall i :: 0 <= i < |units| ==> !StartsWith(units[i].name, '#')
    requires forall i :: 0 <= i < |units| ==> !Owns(previous, GrownBy(units, n)[i])
    ensures HandWritten(previous, GrownBy(units, n))
  {
    hide Tidy, Terminated, StandsAlone, AllTidy, EndBefore, LastEnds;
    GrownByGrows(units, n);
    GrownByIs(units, n);
    var r, last := GrownBy(units, n), |units| - 1;
    forall i | 0 <= i < |r| ensures !StartsWith(r[i].name, '#') && r[i].key !in Keys(previous) {
      if i < last { assert r[..last][i] == units[..last][i]; }
    }
  }

  lemma GrownSaved(rendered: string, units: seq<ConfUnit>, n: nat)
    requires WellFormed(rendered) && Growing(units)
    ensures ParseConf(rendered + "\n" + HEADER + "\n" + Join(Texts(GrownBy(units, n))) + "\n")
            == ParseConf(rendered) + Section(GrownBy(units, n + 1))
    ensures Join(Texts(GrownBy(units, n))) != ""
  {
    hide ParseConf, WellFormed, Grown, Join, Texts, Section, AllTidy, EndBefore, LastEnds, DistinctKeys;
    GrownByGrows(units, n);
    TidyJoined(GrownBy(units, n));
    SavedGrows(rendered, GrownBy(units, n));
  }

  /** Over a run, a last kept block without its end grows by one newline with every save, as long
      as no render sets it or another kept line. */
  lemma {:induction false} BlockGrowsWithEverySave(current: string, renders: seq<string>, k: nat)
    requires CleanText(current) && (forall j :: 0 <= j < |renders| ==> WellFormed(renders[j])) && 0 < k < |renders|
    requires HandAfter(current, renders, 1) != [] && !LastEnds(HandAfter(current, renders, 1))
    requires NeverOwned(renders, HandAfter(current, renders, 1))
    ensures var first := HandAfter(current, renders, 1);
            && HandAfter(current, renders, k) == GrownBy(first, k - 1)
            && ParseConf(FileAfter(current, renders, k)) == ParseConf(renders[k]) + Section(GrownBy(first, k))
    decreases k
  {
    hide ParseConf, Kept, WellFormed, Growing, HandWritten, Unowned, CleanText, LastEnds, NeverOwned, Join,
        Texts, Section,
         Owns, Grown;
    var first := HandAfter(current, renders, 1);
    FirstGrows(current, renders);
    if k > 1 {
      BlockGrowsWithEverySave(current, renders, k - 1);
      OwnedByNone(renders, first, k - 1, k - 1);
      GrownHandWritten(ParseConf(renders[k - 1]), first, k - 1);
      KeptOfSaved(ParseConf(renders[k]), ParseConf(renders[k - 1]), GrownBy(first, k - 1));
      OwnedByNone(renders, first, k, k - 1);
      NothingOwned(ParseConf(renders[k]), GrownBy(first, k - 1));
    }
    GrownSaved(renders[k], first, k - 1);
    assert FileAfter(current, renders, k) == Saved(renders[k], renders[k - 1], FileAfter(current, renders, k - 1));
    assert HandLines(renders[k], renders[k - 1], FileAfter(current, renders, k - 1))
        == Join(Texts(GrownBy(first, k - 1)));
  }

  lemma OwnedByNone(renders: seq<string>, units: seq<ConfUnit>, j: nat, n: nat)
    requires units != [] && NeverOwned(renders, units) && j < |renders|
    ensures forall i :: 0 <= i < |units| ==> !Owns(ParseConf(renders[j]), GrownBy(units, n)[i])
  {
    hide Owns, ParseConf, GrownBy;
    forall i | 0 <= i < |units| ensures !Owns(ParseConf(renders[j]), GrownBy(units, n)[i]) {
      var r := renders[j];
      var u := GrownBy(units, n)[i];
    }
  }

  lemma FirstGrows(current: string, renders: seq<string>)
    requires CleanText(current) && |renders| > 1
    requires HandAfter(current, renders, 1) != [] && !LastEnds(HandAfter(current, renders, 1))
    ensures Growing(HandAfter(current, renders, 1))
    ensures forall i :: 0 <= i < |HandAfter(current, renders, 1)| ==>
              !StartsWith(HandAfter(current, renders, 1)[i].name, '#')
  {
    hide ParseConf, Kept, CleanText, AllTidy, AllStandAlone, EndBefore, LastEnds, Subsequence, DistinctKeys, Owns;
    var r, p, c := ParseConf(renders[1]), ParseConf(renders[0]), ParseConf(current);
    var kept := Kept(r, p, c);
    assert FileAfter(current, renders, 0) == current;
    KeptFacts(r, p, c);
    CleanTidy(current);
    SubsequenceStands(kept, c);
    SubsequenceTidy(kept, c);
    assert forall i :: 0 <= i < |kept| ==> Keeps(r, p, kept[i]);
  }

  /** The file `<ca>` without its closing line: the next save reads the block back with a newline. */
  lemma OpenBlockGrows()
    ensures var grown := OPENER + "\n";
            && Kept(ParseConf(""), ParseConf(""), ParseConf(OPENER)) == [ConfUnit(OPENER, OPENER, OPENER)]
            && ParseConf(Saved("", "", OPENER)) == Section([ConfUnit(OPENER, grown, grown)])
  {
    hide Lines, Trim, Fields, Opens, Kept, Saved, Section, LastEnds;
    OpenerOpens();
    EmptyParses();
    PlainLine(OPENER);
    WholeBlock([OPENER]);
    var u := ConfUnit(OPENER, OPENER, OPENER);
    assert BlockUnit([OPENER]) == u;
    assert OPENER[0] == '<';
    KeptAlone(u);
    EmptyWellFormed();
    OpenerClean();
    HandSectionStableIff("", "", OPENER);
    NoEnd(u);
    var v := ConfUnit(OPENER, OPENER + "\n", OPENER + "\n");
    assert Grown([u]) == [v] by { assert [u][..0] + [v] == [v]; }
    assert ParseConf("") + Section([v]) == Section([v]);
  }

  lemma EmptyWellFormed()
    ensures WellFormed("")
  {
    EmptyParses();
  }

  lemma OpenerClean()
    ensures CleanText(OPENER)
  {
    OpenerOpens();
    PlainLine(OPENER);
    assert OPENER[3] == '>';
  }

  lemma NoEnd(u: ConfUnit)
    requires u == ConfUnit(OPENER, OPENER, OPENER)
    ensures !LastEnds([u])
  {
    hide Trim, Fields, Opens;
    OpenerOpens();
    SplitLine(OPENER);
    assert BlockLast([OPENER], ENDING) == 0;
  }
}
