/** What a save keeps, told of directive names, keys and words alone. */
module ServerConfDirectives {
  import opened HandHeader
  import opened TextLines
  import opened TextMeanings
  import opened ServerConf
  import opened ServerConfRuns
  import opened Sequences

  ghost predicate Holds(units: seq<ConfUnit>, key: string) {
    exists i :: 0 <= i < |units| && units[i].key == key
  }

  /** Some unit is the directive, commented out or not. */
  ghost predicate Sets(units: seq<ConfUnit>, name: string) {
    exists i :: 0 <= i < |units| && (units[i].name == name || units[i].name == "#" + name)
  }

  /** The directives that may stand next to one of the form. */
  predicate MaySitBeside(name: string) {
    name in ["push", "route", "iroute", "setenv"]
  }

  /** An active unit that neither render holds, and whose directive the new one does not set. */
  ghost predicate HandAdded(rendered: seq<ConfUnit>, previous: seq<ConfUnit>, u: ConfUnit) {
    && (u.name != "" ==> u.name[0] != '#')
    && !Holds(rendered, u.key) && !Holds(previous, u.key)
    && (Sets(rendered, u.name) ==> MaySitBeside(u.name))
  }

  lemma SetsIs(units: seq<ConfUnit>, name: string)
    requires name != "" ==> name[0] != '#'
    ensures name in Names(units) <==> Sets(units, name)
  {
    if i :| 0 <= i < |units| && WithoutHash(units[i].name) == name {
      assert units[i].name == name || units[i].name == "#" + name;
    }
    if i :| 0 <= i < |units| && (units[i].name == name || units[i].name == "#" + name) {
      assert ("#" + name)[1..] == name;
      assert WithoutHash(units[i].name) == name;
    }
  }

  lemma KeepsIs(rendered: seq<ConfUnit>, previous: seq<ConfUnit>, u: ConfUnit)
    ensures Keeps(rendered, previous, u) <==> HandAdded(rendered, previous, u)
  {
    hide Names, Sets;
    if !StartsWith(u.name, '#') { SetsIs(rendered, u.name); }
  }

  lemma {:induction false} FirstOfKey(rendered: seq<ConfUnit>, previous: seq<ConfUnit>, current: seq<ConfUnit>,
                                      u: ConfUnit)
    ensures u in Kept(rendered, previous, current)
            <==> exists i :: 0 <= i < |current| && IsFirst(rendered, previous, current, i) && current[i] == u
  {
    hide Keys, Keeps;
    if current != [] {
      var most, last := current[..|current| - 1], current[|current| - 1];
      var n := |most|;
      FirstOfKey(rendered, previous, most, u);
      KeptSnoc(rendered, previous, most, last);
      KeptFacts(rendered, previous, most);
      assert most + [last] == current;
      var kept := Kept(rendered, previous, most);
      assert forall i :: 0 <= i < n ==>
          (IsFirst(rendered, previous, current, i) <==> IsFirst(rendered, previous, most, i));
      NewKey(rendered, previous, most, last);
    }
  }

  /** Unit `i` was added by hand, and no unit before it with its key was. */
  ghost predicate IsFirst(rendered: seq<ConfUnit>, previous: seq<ConfUnit>, current: seq<ConfUnit>, i: nat)
    requires i < |current|
  {
    && Keeps(rendered, previous, current[i])
    && forall j :: 0 <= j < i && current[j].key == current[i].key ==> !Keeps(rendered, previous, current[j])
  }

  lemma NewKey(rendered: seq<ConfUnit>, previous: seq<ConfUnit>, most: seq<ConfUnit>, last: ConfUnit)
    ensures last.key !in Keys(Kept(rendered, previous, most))
            <==> forall j :: 0 <= j < |most| && most[j].key == last.key ==> !Keeps(rendered, previous, most[j])
  {
    hide Keeps;
    var kept := Kept(rendered, previous, most);
    KeptFacts(rendered, previous, most);
    if last.key in Keys(kept) {
      var i :| 0 <= i < |kept| && kept[i].key == last.key;
      SubsequenceWithin(kept, most);
      assert kept[i] in most;
    }
    if j :| 0 <= j < |most| && most[j].key == last.key && Keeps(rendered, previous, most[j]) {
      assert most[j] in most;
    }
  }

  /** A unit of the file is kept if and only if it was added by hand and no unit before it with its
      key was: it is active, neither render holds it, and its directive is not one that the new
      render sets, commented out or not, unless that is `push`, `route`, `iroute` or `setenv`. */
  lemma KeptIff(rendered: seq<ConfUnit>, previous: seq<ConfUnit>, current: seq<ConfUnit>, u: ConfUnit)
    ensures u in Kept(rendered, previous, current)
            <==> exists i :: 0 <= i < |current| && current[i] == u && HandAdded(rendered, previous, u)
                     && forall j :: 0 <= j < i && current[j].key == u.key ==>
                          !HandAdded(rendered, previous, current[j])
  {
    hide Keeps, HandAdded, Kept;
    FirstOfKey(rendered, previous, current, u);
    forall i | 0 <= i < |current|
      ensures Keeps(rendered, previous, current[i]) <==> HandAdded(rendered, previous, current[i])
    {
      KeepsIs(rendered, previous, current[i]);
    }
    forall i | 0 <= i < |current|
      ensures IsFirst(rendered, previous, current, i)
              <==> && HandAdded(rendered, previous, current[i])
                   && forall j :: 0 <= j < i && current[j].key == current[i].key ==>
                        !HandAdded(rendered, previous, current[j])
    {
    }
  }

  /** No render of the run so far takes the unit over. */
  ghost predicate LeftAlone(renders: seq<string>, k: nat, u: ConfUnit)
    requires k < |renders|
  {
    forall j {:trigger renders[j]} :: 2 <= j <= k ==>
      !Holds(ParseConf(renders[j]), u.key) && (Sets(ParseConf(renders[j]), u.name) ==> MaySitBeside(u.name))
  }

  /** After any number of saves a unit is in the hand section if and only if it was in the first and
      no render since holds its key, or sets its directive and that is none of the four. */
  lemma InSectionIff(current: string, renders: seq<string>, k: nat, u: ConfUnit)
    requires WellFormedRun(current, renders) && 0 < k < |renders|
    ensures u in HandAfter(current, renders, k)
            <==> u in HandAfter(current, renders, 1) && LeftAlone(renders, k, u)
  {
    hide ParseConf, WellFormedRun, HandAfter, FileAfter, Owns, Sets, Holds;
    SurvivesIffUnowned(current, renders, k, u);
    if u in HandAfter(current, renders, 1) {
      FirstIsActive(current, renders, u);
      forall j: nat | 2 <= j <= k
        ensures Owns(ParseConf(renders[j]), u)
                <==> !(!Holds(ParseConf(renders[j]), u.key)
                       && (Sets(ParseConf(renders[j]), u.name) ==> MaySitBeside(u.name)))
      {
        OwnsIs(ParseConf(renders[j]), u);
      }
    }
  }

  lemma OwnsIs(rendered: seq<ConfUnit>, u: ConfUnit)
    requires u.name != "" ==> u.name[0] != '#'
    ensures Owns(rendered, u)
            <==> Holds(rendered, u.key) || (Sets(rendered, u.name) && !MaySitBeside(u.name))
  {
    hide Names, Sets;
    SetsIs(rendered, u.name);
  }

  lemma FirstIsActive(current: string, renders: seq<string>, u: ConfUnit)
    requires 1 < |renders| && u in HandAfter(current, renders, 1)
    ensures u.name != "" ==> u.name[0] != '#'
  {
    hide ParseConf, FileAfter, Owns, Keys, Kept;
    KeptFacts(ParseConf(renders[1]), ParseConf(renders[0]), ParseConf(FileAfter(current, renders, 0)));
  }

  /** A `push`, `route`, `iroute` or `setenv` line of the file, the first one of its key, stays as long
      as no render holds that very key. */
  lemma FourStay(current: string, renders: seq<string>, k: nat, i: nat)
    requires WellFormedRun(current, renders) && 0 < k < |renders| && i < |ParseConf(current)|
    requires forall j :: 0 <= j < i ==> ParseConf(current)[j].key != ParseConf(current)[i].key
    requires ParseConf(current)[i].name in ["push", "route", "iroute", "setenv"]
    requires forall j :: 0 <= j <= k ==> !Holds(ParseConf(renders[j]), ParseConf(current)[i].key)
    ensures ParseConf(current)[i] in HandAfter(current, renders, k)
  {
    hide ParseConf, WellFormedRun, Sets, Holds, Kept;
    var r, p, c := ParseConf(renders[1]), ParseConf(renders[0]), ParseConf(current);
    InSectionIff(current, renders, k, c[i]);
    assert HandAdded(r, p, c[i]);
    KeptIff(r, p, c, c[i]);
  }

  /** A line with any other directive is gone with the first render that sets the directive,
      commented out or not. */
  lemma OthersGo(current: string, renders: seq<string>, j: nat, k: nat, u: ConfUnit)
    requires WellFormedRun(current, renders) && 0 < j <= k < |renders|
    requires u.name !in ["push", "route", "iroute", "setenv"] && Sets(ParseConf(renders[j]), u.name)
    ensures u !in HandAfter(current, renders, k)
  {
    hide ParseConf, WellFormedRun, Sets, Holds, Kept, FileAfter;
    InSectionIff(current, renders, k, u);
    if u in HandAfter(current, renders, k) && j == 1 {
      FirstIsActive(current, renders, u);
      var r, p, c := ParseConf(renders[1]), ParseConf(renders[0]), ParseConf(FileAfter(current, renders, 0));
      KeptIff(r, p, c, u);
    }
  }

  // ---------- the unit of a line ----------

  ghost predicate AllWords(words: seq<string>) {
    forall i :: 0 <= i < |words| ==> IsWord(words[i])
  }

  /** A key keeps its words, and nothing of the space between them. */
  lemma {:induction false} KeyWords(words: seq<string>)
    requires AllWords(words)
    ensures Fields(JoinWords(words)) == words
  {
    hide Fields, IsSpace;
    if words == [] {
      FieldsAre("", ' ', "");
    } else if |words| == 1 {
      FieldsAre(words[0], ' ', "");
    } else {
      KeyWords(words[1..]);
      SpaceIs(' ');
      FieldsAre(words[0], ' ', JoinWords(words[1..]));
      assert words[0] + " " + JoinWords(words[1..]) == words[0] + ([' '] + JoinWords(words[1..]));
    }
  }

  lemma {:induction false} FieldsAreWords(s: string)
    ensures AllWords(Fields(s))
    decreases |s|
  {
    if s != "" {
      if IsSpace(s[0]) {
        FieldsAreWords(s[1..]);
      } else {
        FieldsAreWords(s[|Word(s)|..]);
        WordHasNoSpace(s);
      }
    }
  }

  lemma {:induction false} WordHasNoSpace(s: string)
    ensures forall i :: 0 <= i < |Word(s)| ==> !IsSpace(Word(s)[i])
  {
    if s != "" && !IsSpace(s[0]) { WordHasNoSpace(s[1..]); }
  }

  /** What one line that is no inline block parses to, by its words: nothing if it is blank or
      starts with a semicolon; else the first word as name, as key the words up to a word `#` that
      is not the first, and the trimmed line. */
  lemma LineParses(line: string, n: nat)
    requires var words := Fields(line);
             && n <= |words| && (n < |words| ==> words[n] == "#") && forall j :: 0 <= j < n ==> words[j] != "#"
    requires Fields(line) != [] && "<" <= Fields(line)[0] ==> "</" <= Fields(line)[0]
    ensures var words := Fields(line);
            if words == [] || ";" <= words[0] then Parse([line]) == []
            else
              && |Parse([line])| == 1 && Parse([line])[0].name == words[0] && Parse([line])[0].text == Trim(line)
              && Fields(Parse([line])[0].key) == (if n == 0 then words else words[..n])
  {
    FieldsAreWords(line);
    var words := Fields(line);
    hide Fields, Trim;
    assert [line][1..] == [];
    ParseEmpty();
    if !Skipped(line) {
      CutAtHash(words, n);
      KeyWords(if n == 0 then words else words[..n]);
      assert "</" <= words[0] ==> words[0][1..] != "" && words[0][1..][0] == '/';
    }
  }

  /** Two such lines have one key if and only if their words before a comment are the same. */
  lemma SameKeyIff(a: string, b: string)
    requires !Skipped(a) && !Skipped(b)
    ensures LineUnit(a).key == LineUnit(b).key <==> Uncommented(Fields(a)) == Uncommented(Fields(b))
  {
    FieldsAreWords(a);
    FieldsAreWords(b);
    CutWords(Fields(a));
    CutWords(Fields(b));
    hide Fields, Trim;
    KeyWords(Uncommented(Fields(a)));
    KeyWords(Uncommented(Fields(b)));
  }

  lemma {:induction false} CutWords(words: seq<string>)
    requires AllWords(words)
    ensures AllWords(BeforeHash(words)) && AllWords(Uncommented(words))
  {
    if words != [] { CutWords(words[1..]); }
  }

  // ---------- inline blocks ----------

  /** A line whose first word starts with `<` but not with `</` opens a block up to the line that is
      its name with a slash, or to the end. */
  lemma BlockParses(line: string, inside: seq<string>, closer: string, tag: string)
    requires Fields(line) != [] && Fields(line)[0] == "<" + tag && (tag != "" ==> tag[0] != '/')
    requires Trim(closer) == "</" + tag && Trim(line) != "</" + tag
    requires forall i :: 0 <= i < |inside| ==> Trim(inside[i]) != "</" + tag
    ensures var text := Join([line] + inside + [closer]);
            Parse([line] + inside + [closer]) == [ConfUnit("<" + tag, text, text)]
    ensures var text := Join([line] + inside);
            Parse([line] + inside) == [ConfUnit("<" + tag, text, text)]
  {
    hide Fields, Trim, Join;
    assert ("<" + tag)[0] == '<' && ("<" + tag)[1..] == tag;
    assert Opens(line) && Closer(line) == "</" + tag;
    var open := [line] + inside;
    forall j | 0 <= j < |open| ensures Trim(open[j]) != "</" + tag {
      if j > 0 { assert open[j] == inside[j - 1]; }
    }
    hide Opens, Closer;
    WholeBlock(open + [closer], tag);
    WholeBlock(open, tag);
  }

  lemma WholeBlock(lines: seq<string>, tag: string)
    requires lines != [] && Opens(lines[0]) && Closer(lines[0]) == "</" + tag && Fields(lines[0])[0] == "<" + tag
    requires forall j :: 0 <= j < |lines| - 1 ==> Trim(lines[j]) != "</" + tag
    ensures Parse(lines) == [ConfUnit("<" + tag, Join(lines), Join(lines))]
  {
    hide Fields, Trim, Join, Opens, Closer;
    ParseEmpty();
    ParseBlock(lines, |lines| - 1);
    assert lines[..|lines|] == lines && lines[|lines|..] == [];
  }

  /** The file a save writes, with the header written out. */
  lemma SavedFileIs(rendered: string, previous: string, current: string)
    ensures var kept := HandLines(rendered, previous, current);
            Saved(rendered, previous, current)
            == if kept == "" then rendered
               else rendered + "\n" + "# Lines added outside the form, kept by OpenVPN UI" + "\n" + kept + "\n"
  {
    hide HandLines;
  }
}
