/** Parsing of server.conf into units, the lines that a form save keeps, and the file it writes. */
module ServerConf {
  import opened HandHeader
  import opened TextLines

  /** One active line, or one inline block. `key` is the text without surrounding space, repeated
      spaces and comments. */
  datatype ConfUnit = ConfUnit(name: string, key: string, text: string)

  predicate Repeatable(name: string) {
    name == "push" || name == "route" || name == "iroute" || name == "setenv"
  }

  predicate StartsWith(s: string, c: char) {
    s != "" && s[0] == c
  }

  function JoinWords(words: seq<string>): string {
    if words == [] then "" else if |words| == 1 then words[0] else words[0] + " " + JoinWords(words[1..])
  }

  // ---------- parsing ----------

  predicate Skipped(line: string) {
    Fields(line) == [] || StartsWith(Fields(line)[0], ';')
  }

  /** A line whose first field is an opening tag. */
  predicate Opens(line: string) {
    !Skipped(line) && StartsWith(Fields(line)[0], '<') && !StartsWith(Fields(line)[0][1..], '/')
  }

  /** The line that ends the block opened by a line. */
  function Closer(line: string): string
    requires Opens(line)
  {
    "</" + Fields(line)[0][1..]
  }

  /** The index of the last line of the block that starts the lines: the closing line, or the last
      line there is. */
  function BlockLast(lines: seq<string>, closer: string): (n: nat)
    requires lines != []
    ensures n < |lines|
  {
    if |lines| == 1 || Trim(lines[0]) == closer then 0 else 1 + BlockLast(lines[1..], closer)
  }

  /** The fields before the first standalone `#`, unless that is the first field. */
  function Uncommented(fields: seq<string>): seq<string> {
    if fields == [] || fields[0] == "#" then fields else BeforeHash(fields)
  }

  function BeforeHash(fields: seq<string>): seq<string> {
    if fields == [] || fields[0] == "#" then [] else [fields[0]] + BeforeHash(fields[1..])
  }

  function LineUnit(line: string): ConfUnit
    requires !Skipped(line)
  {
    ConfUnit(Fields(line)[0], JoinWords(Uncommented(Fields(line))), Trim(line))
  }

  function BlockUnit(lines: seq<string>): ConfUnit
    requires lines != [] && Opens(lines[0])
  {
    ConfUnit(Fields(lines[0])[0], Join(lines), Join(lines))
  }

  function Parse(lines: seq<string>): seq<ConfUnit>
    decreases |lines|
  {
    if lines == [] then []
    else if Skipped(lines[0]) then Parse(lines[1..])
    else if Opens(lines[0]) then
      var n := BlockLast(lines, Closer(lines[0])) + 1;
      [BlockUnit(lines[..n])] + Parse(lines[n..])
    else [LineUnit(lines[0])] + Parse(lines[1..])
  }

  function ParseConf(conf: string): seq<ConfUnit> {
    Parse(Lines(conf))
  }

  // ---------- what a save keeps ----------

  function WithoutHash(name: string): string {
    if StartsWith(name, '#') then name[1..] else name
  }

  /** Directives a rendered config sets, including commented-out ones. */
  function Names(units: seq<ConfUnit>): set<string> {
    set i | 0 <= i < |units| :: WithoutHash(units[i].name)
  }

  function Keys(units: seq<ConfUnit>): set<string> {
    set i | 0 <= i < |units| :: units[i].key
  }

  /** The render holds the line itself, or sets its directive and the directive is not repeatable. */
  predicate Owns(rendered: seq<ConfUnit>, u: ConfUnit) {
    u.key in Keys(rendered) || (u.name in Names(rendered) && !Repeatable(u.name))
  }

  predicate Keeps(rendered: seq<ConfUnit>, previous: seq<ConfUnit>, u: ConfUnit) {
    !StartsWith(u.name, '#') && !Owns(rendered, u) && u.key !in Keys(previous)
  }

  /** The units kept, the first one of each key. */
  function Kept(rendered: seq<ConfUnit>, previous: seq<ConfUnit>, current: seq<ConfUnit>): seq<ConfUnit> {
    if current == [] then []
    else
      var most, u := Kept(rendered, previous, current[..|current| - 1]), current[|current| - 1];
      if Keeps(rendered, previous, u) && u.key !in Keys(most) then most + [u] else most
  }

  function Texts(units: seq<ConfUnit>): (texts: seq<string>)
    ensures |texts| == |units| && forall i :: 0 <= i < |units| ==> texts[i] == units[i].text
  {
    seq(|units|, i requires 0 <= i < |units| => units[i].text)
  }

  function HandLines(rendered: string, previous: string, current: string): string {
    Join(Texts(Kept(ParseConf(rendered), ParseConf(previous), ParseConf(current))))
  }

  /** The file that a save of the form leaves. */
  function Saved(rendered: string, previous: string, current: string): string {
    var kept := HandLines(rendered, previous, current);
    if kept == "" then rendered else rendered + "\n" + HEADER + "\n" + kept + "\n"
  }

  // ---------- as performed ----------

  lemma BlockLastIs(lines: seq<string>, closer: string, n: nat)
    requires n < |lines| && (n == |lines| - 1 || Trim(lines[n]) == closer)
    requires forall j :: 0 <= j < n ==> Trim(lines[j]) != closer
    ensures BlockLast(lines, closer) == n
  {
    if n > 0 { BlockLastIs(lines[1..], closer, n - 1); }
  }

  lemma {:induction false} CutAtHash(fields: seq<string>, n: nat)
    requires n <= |fields| && (n < |fields| ==> fields[n] == "#") && forall j :: 0 <= j < n ==> fields[j] != "#"
    ensures BeforeHash(fields) == fields[..n]
  {
    if n > 0 {
      CutAtHash(fields[1..], n - 1);
      assert fields[1..][..n - 1] == fields[1..n];
    }
  }

  lemma ParseSkip(lines: seq<string>)
    requires lines != [] && Skipped(lines[0])
    ensures Parse(lines) == Parse(lines[1..])
  {
  }

  lemma ParseLine(lines: seq<string>)
    requires lines != [] && !Skipped(lines[0]) && !Opens(lines[0])
    ensures Parse(lines) == [LineUnit(lines[0])] + Parse(lines[1..])
  {
  }

  lemma ParseBlock(lines: seq<string>, n: nat)
    requires lines != [] && Opens(lines[0]) && n < |lines| && (n == |lines| - 1 || Trim(lines[n]) == Closer(lines[0]))
    requires forall j :: 0 <= j < n ==> Trim(lines[j]) != Closer(lines[0])
    ensures Parse(lines) == [BlockUnit(lines[..n + 1])] + Parse(lines[n + 1..])
  {
    BlockLastIs(lines, Closer(lines[0]), n);
  }

  /** The key of a line from its fields. */
  method Key(fields: seq<string>) returns (key: string)
    requires fields != []
    ensures key == JoinWords(Uncommented(fields))
  {
    var comment := 0;
    while comment < |fields| && fields[comment] != "#"
      invariant 0 <= comment <= |fields|
      invariant forall j :: 0 <= j < comment ==> fields[j] != "#"
    {
      comment := comment + 1;
    }
    CutAtHash(fields, comment);
    key := JoinWords(if comment > 0 then fields[..comment] else fields);
  }

  method ParseLines(conf: string) returns (units: seq<ConfUnit>)
    ensures units == ParseConf(conf)
  {
    hide Fields, Trim, Lines, Join, Parse, BlockLast, Uncommented, JoinWords;
    units := [];
    var lines := Lines(conf);
    var i := 0;
    assert lines[0..] == lines && units + Parse(lines) == Parse(lines);
    while i < |lines|
      invariant 0 <= i <= |lines| && units + Parse(lines[i..]) == Parse(lines)
    {
      var fields := Fields(lines[i]);
      ghost var rest, done := lines[i..], units;
      assert rest[0] == lines[i] && rest[1..] == lines[i + 1..];
      if |fields| == 0 || StartsWith(fields[0], ';') {
        ParseSkip(rest);
        i := i + 1;
        continue;
      }
      if StartsWith(fields[0], '<') && !StartsWith(fields[0][1..], '/') {
        var tag, start := fields[0][1..], i;
        while i < |lines| - 1 && Trim(lines[i]) != "</" + tag
          invariant start <= i < |lines|
          invariant forall j :: start <= j < i ==> Trim(lines[j]) != "</" + tag
        {
          i := i + 1;
        }
        ParseBlock(rest, i - start);
        assert rest[..i - start + 1] == lines[start..i + 1] && rest[i - start + 1..] == lines[i + 1..];
        var text := Join(lines[start..i + 1]);
        units := units + [ConfUnit(fields[0], text, text)];
        i := i + 1;
        assert units + Parse(lines[i..]) == done + Parse(rest);
        continue;
      }
      ParseLine(rest);
      var key := Key(fields);
      units := units + [ConfUnit(fields[0], key, Trim(lines[i]))];
      i := i + 1;
      assert units + Parse(lines[i..]) == done + Parse(rest);
    }
    assert lines[i..] == [];
    ParseEmpty();
  }

  lemma ParseEmpty()
    ensures Parse([]) == []
  {
  }

  method FormOwns(conf: string) returns (names: set<string>, keys: set<string>)
    ensures names == Names(ParseConf(conf)) && keys == Keys(ParseConf(conf))
  {
    hide ParseConf;
    var units := ParseLines(conf);
    names, keys := {}, {};
    for i := 0 to |units|
      invariant names == Names(units[..i]) && keys == Keys(units[..i])
    {
      NamesKeysSnoc(units[..i], units[i]);
      assert units[..i + 1] == units[..i] + [units[i]];
      names, keys := names + {WithoutHash(units[i].name)}, keys + {units[i].key};
    }
    assert units[..|units|] == units;
  }

  lemma NamesKeysSnoc(units: seq<ConfUnit>, u: ConfUnit)
    ensures Names(units + [u]) == Names(units) + {WithoutHash(u.name)} && Keys(units + [u]) == Keys(units) + {u.key}
  {
    var all := units + [u];
    assert all[|units|] == u;
    forall n | n in Names(units) ensures n in Names(all) {
      var i :| 0 <= i < |units| && n == WithoutHash(units[i].name);
      assert all[i] == units[i];
    }
    forall k | k in Keys(units) ensures k in Keys(all) {
      var i :| 0 <= i < |units| && k == units[i].key;
      assert all[i] == units[i];
    }
  }

  method KeepHandLines(rendered: string, previous: string, current: string) returns (text: string)
    ensures text == HandLines(rendered, previous, current)
  {
    hide ParseConf, Join;
    var names, keys := FormOwns(rendered);
    var previousNames, previousKeys := FormOwns(previous);
    var units := ParseLines(current);
    ghost var r, p := ParseConf(rendered), ParseConf(previous);
    ghost var keptUnits: seq<ConfUnit> := [];
    var kept: seq<string> := [];
    var seen: set<string> := {};
    for i := 0 to |units|
      invariant keptUnits == Kept(r, p, units[..i]) && kept == Texts(keptUnits) && seen == Keys(keptUnits)
    {
      var u := units[i];
      assert units[..i + 1][..i] == units[..i] && units[..i + 1][i] == u;
      if StartsWith(u.name, '#') || u.key in seen || u.key in keys || u.key in previousKeys {
        continue;
      }
      if u.name in names && !Repeatable(u.name) {
        continue;
      }
      NamesKeysSnoc(keptUnits, u);
      seen := seen + {u.key};
      kept := kept + [u.text];
      keptUnits := keptUnits + [u];
    }
    assert units[..|units|] == units;
    return Join(kept);
  }

  /** `current` is the file before the save, `rendered` the text that the form's template gives,
      `previous` the text it gave for the former settings. */
  method SaveServerConfig(rendered: string, previous: string, current: string) returns (file: string)
    ensures file == Saved(rendered, previous, current)
  {
    hide HandLines;
    file := rendered;
    var kept := KeepHandLines(rendered, previous, current);
    if kept == "" { return; }
    file := rendered + "\n" + HEADER + "\n" + kept + "\n";
  }
}
