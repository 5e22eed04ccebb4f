/** The last step of code generation: lines that only append are joined with `+`. */
module HandlebarsMerge {
  import opened Outcomes
  import opened HandlebarsCompiler
  import opened HandlebarsMachine

  /** A line as it was written, or lines joined with `+` and added to the buffer. */
  datatype Part = AsIs(line: JsStatement) | AddJoined(run: seq<JsStatement>)

  /** What the buffer is declared with, if there is one. */
  datatype Start = NoBuffer | EmptyBuffer | FirstRun(run: seq<JsStatement>)

  /** What the function returns at its end: lines joined with `+`, the buffer with lines joined
      to it, the empty string, or nothing because a line before has returned. */
  datatype Finish =
    | JoinedLines(run: seq<JsStatement>)
    | BufferAnd(run: seq<JsStatement>)
    | EmptyString
    | ReturnedBefore

  datatype JsFunction = JsFunction(start: Start, parts: seq<Part>, finish: Finish)

  /** Lines that may be joined; the other appends are explicit. */
  predicate Appends(s: JsStatement) {
    s.AppendText? || s.AppendValue? || s.AppendEscapedValue?
  }

  /** How many lines in front only append. */
  function RunLength(source: seq<JsStatement>): (n: nat)
    ensures n <= |source|
    ensures forall i :: 0 <= i < n ==> Appends(source[i])
    ensures n < |source| ==> !Appends(source[n])
  {
    if source == [] || !Appends(source[0]) then 0 else 1 + RunLength(source[1..])
  }

  /** The parts up to the run at the end, and that run. */
  function PartsOf(source: seq<JsStatement>): (seq<Part>, seq<JsStatement>)
    decreases |source|
  {
    var n := RunLength(source);
    if n == |source| then ([], source)
    else if n == 0 then var rest := PartsOf(source[1..]); ([AsIs(source[0])] + rest.0, rest.1)
    else var rest := PartsOf(source[n..]); ([AddJoined(source[..n])] + rest.0, rest.1)
  }

  function Lines(source: seq<JsStatement>): seq<Part> {
    if source == [] then [] else [AsIs(source[0])] + Lines(source[1..])
  }

  /** `mergeSource`: in a simple program every append returns, so nothing is joined; without
      other lines the joined appends are returned; else a buffer collects them. */
  function MergeSource(source: seq<JsStatement>, isSimple: bool): JsFunction {
    var n := RunLength(source);
    if source == [] then JsFunction(NoBuffer, [], EmptyString)
    else if isSimple then JsFunction(NoBuffer, Lines(source), ReturnedBefore)
    else if n == |source| then JsFunction(NoBuffer, [], JoinedLines(source))
    else
      var rest := PartsOf(source[n..]);
      JsFunction(if n == 0 then EmptyBuffer else FirstRun(source[..n]), rest.0, BufferAnd(rest.1))
  }

  /** The function a program becomes. */
  function Generated(env: Environment): Result<JsFunction, Fault> {
    var m :- RunProgram(env);
    Ok(MergeSource(m.output.source, env.isSimple))
  }

  predicate OnlyAppends(run: seq<JsStatement>) {
    forall s <- run :: Appends(s)
  }

  lemma {:induction false} RunLengthOf(run: seq<JsStatement>, rest: seq<JsStatement>)
    requires OnlyAppends(run) && (rest != [] ==> !Appends(rest[0]))
    ensures RunLength(run + rest) == |run|
  {
    if run == [] {
      assert run + rest == rest;
    } else {
      assert (run + rest)[1..] == run[1..] + rest;
      RunLengthOf(run[1..], rest);
    }
  }

  lemma PartsFromLine(line: JsStatement, rest: seq<JsStatement>)
    requires !Appends(line)
    ensures PartsOf([line] + rest) == ([AsIs(line)] + PartsOf(rest).0, PartsOf(rest).1)
  {
    assert ([line] + rest)[1..] == rest;
  }

  lemma PartsFromRun(run: seq<JsStatement>, tail: seq<JsStatement>)
    requires run != [] && OnlyAppends(run) && tail != [] && !Appends(tail[0])
    ensures PartsOf(run + tail) == ([AddJoined(run)] + PartsOf(tail).0, PartsOf(tail).1)
  {
    RunLengthOf(run, tail);
    assert (run + tail)[..|run|] == run && (run + tail)[|run|..] == tail;
  }

  /** A line that is no append ends the run before it and stands for itself. */
  lemma PartsAfterRun(run: seq<JsStatement>, line: JsStatement, rest: seq<JsStatement>)
    requires OnlyAppends(run) && !Appends(line)
    ensures PartsOf(run + ([line] + rest))
            == ((if run == [] then [] else [AddJoined(run)]) + [AsIs(line)] + PartsOf(rest).0, PartsOf(rest).1)
  {
    hide PartsOf;
    PartsFromLine(line, rest);
    if run == [] {
      assert run + ([line] + rest) == [line] + rest;
      var none: seq<Part> := [];
      assert none + [AsIs(line)] + PartsOf(rest).0 == [AsIs(line)] + PartsOf(rest).0;
    } else {
      PartsFromRun(run, [line] + rest);
      assert [AddJoined(run)] + ([AsIs(line)] + PartsOf(rest).0) == [AddJoined(run)] + [AsIs(line)] + PartsOf(rest).0;
    }
  }

  /** What the loop of a program that is not simple has made of the lines before `rest`. */
  ghost predicate Merging(source: seq<JsStatement>, rest: seq<JsStatement>, first: seq<JsStatement>,
                          run: seq<JsStatement>,
                          parts: seq<Part>, sourceSeen: bool) {
    && OnlyAppends(run)
    && if sourceSeen then
         MergeSource(source, false) == JsFunction(if first == [] then EmptyBuffer else FirstRun(first),
                                                  parts + PartsOf(run + rest).0, BufferAnd(PartsOf(run + rest).1))
       else first == [] && parts == [] && source == run + rest
  }

  lemma NoneLeft()
    ensures Lines([]) == []
  {
  }

  lemma LinesFirst(source: seq<JsStatement>, i: nat, parts: seq<Part>)
    requires i < |source|
    ensures source[i..] == [source[i]] + source[i + 1..]
    ensures parts + Lines(source[i..]) == parts + [AsIs(source[i])] + Lines(source[i + 1..])
  {
    assert source[i..][1..] == source[i + 1..];
    assert parts + ([AsIs(source[i])] + Lines(source[i + 1..])) == parts + [AsIs(source[i])] + Lines(source[i + 1..]);
  }

  lemma MergeAppend(source: seq<JsStatement>, line: JsStatement, rest: seq<JsStatement>, first: seq<JsStatement>,
                    run: seq<JsStatement>, parts: seq<Part>, sourceSeen: bool)
    requires Merging(source, [line] + rest, first, run, parts, sourceSeen) && Appends(line)
    ensures Merging(source, rest, first, run + [line], parts, sourceSeen)
  {
    assert run + ([line] + rest) == run + [line] + rest;
  }

  lemma MergeLine(source: seq<JsStatement>, line: JsStatement, rest: seq<JsStatement>, first: seq<JsStatement>,
                  run: seq<JsStatement>, parts: seq<Part>, sourceSeen: bool)
    requires Merging(source, [line] + rest, first, run, parts, sourceSeen) && !Appends(line)
    ensures Merging(source, rest, if sourceSeen then first else run, [],
                    parts + (if sourceSeen && run != [] then [AddJoined(run)] else []) + [AsIs(line)], true)
  {
    hide PartsOf;
    var tail := [line] + rest;
    assert [] + rest == rest;
    if sourceSeen {
      PartsAfterRun(run, line, rest);
      var joined := if run == [] then [] else [AddJoined(run)];
      assert parts + (joined + [AsIs(line)] + PartsOf(rest).0) == parts + joined + [AsIs(line)] + PartsOf(rest).0;
    } else {
      RunLengthOf(run, tail);
      assert source[..|run|] == run && source[|run|..] == tail;
      PartsFromLine(line, rest);
      assert [] + [] + [AsIs(line)] == [AsIs(line)];
    }
  }

  lemma MergeEnds(source: seq<JsStatement>, first: seq<JsStatement>, run: seq<JsStatement>, parts: seq<Part>,
                  sourceSeen: bool)
    requires Merging(source, [], first, run, parts, sourceSeen)
    ensures MergeSource(source, false)
            == if sourceSeen then JsFunction(if first == [] then EmptyBuffer else FirstRun(first), parts,
                                             BufferAnd(run))
               else if run == [] then JsFunction(NoBuffer, [], EmptyString)
               else JsFunction(NoBuffer, [], JoinedLines(run))
  {
    assert run + [] == run;
    RunLengthOf(run, []);
    assert PartsOf(run) == ([], run);
    assert parts + [] == parts;
  }
}
