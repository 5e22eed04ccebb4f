/** What the function that a template compiles to returns, and the text a template shows. */
module HandlebarsRendering {
  import opened Outcomes
  import opened HandlebarsAst
  import opened HandlebarsCompiler
  import opened HandlebarsMachine
  import opened HandlebarsMerge
  import opened HandlebarsTranslation
  import opened HandlebarsStatements
  import opened HandlebarsMeaning
  import opened HandlebarsSums

  // ---------- running a generated function ----------

  /** The value a line appends. */
  function LineValue<V>(s: JsStatement, env: Env<V>, w: World<V>): (V, Env<V>) {
    match s
    case AppendText(text) => (w.quoted(text), env)
    case AppendValue(value) => Eval(value, env, w)
    case AppendEscapedValue(value) => var r := Eval(value, env, w); (w.escaped(r.0), r.1)
    case _ => (w.word("undefined"), env)
  }

  /** `total + line + line ...` */
  function AddLines<V>(total: V, run: seq<JsStatement>, env: Env<V>, w: World<V>): (V, Env<V>)
    decreases |run|
  {
    if run == [] then (total, env)
    else var line := LineValue(run[0], env, w); AddLines(w.plus(total, line.0), run[1..], line.1, w)
  }

  function JoinLines<V>(run: seq<JsStatement>, env: Env<V>, w: World<V>): (V, Env<V>) {
    if run == [] then (w.quoted(""), env)
    else var line := LineValue(run[0], env, w); AddLines(line.0, run[1..], line.1, w)
  }

  /** What a line that is not joined adds to the buffer, if anything. */
  function ExecLine<V>(s: JsStatement, env: Env<V>, w: World<V>): (Option<V>, Env<V>) {
    match s
    case AppendIfNotNull(value) => var r := Eval(value, env, w); (if w.nullish(r.0) then None else Some(r.0), r.1)
    case SetStack(slot, value) => var r := Eval(value, env, w); (None, Assign(r.1, slot, r.0))
    case UnlessHelper(helper, target, value) =>
      if helper.Some? && w.truthy(w.helper(helper.value)) then (None, env)
      else var r := Eval(value, env, w); (None, if target.StackVar? then Assign(r.1, target.slot, r.0) else r.1)
    case _ => (None, env)
  }

  function AddTo<V>(buffer: V, shown: Option<V>, w: World<V>): V {
    match shown case None => buffer case Some(v) => w.plus(buffer, v)
  }

  function ExecPart<V>(part: Part, buffer: V, env: Env<V>, w: World<V>): (V, Env<V>) {
    match part
    case AsIs(line) => var r := ExecLine(line, env, w); (AddTo(buffer, r.0, w), r.1)
    case AddJoined(run) => var r := JoinLines(run, env, w); (w.plus(buffer, r.0), r.1)
  }

  function ExecParts<V>(parts: seq<Part>, buffer: V, env: Env<V>, w: World<V>): (V, Env<V>)
    decreases |parts|
  {
    if parts == [] then (buffer, env)
    else var r := ExecPart(parts[0], buffer, env, w); ExecParts(parts[1..], r.0, r.1, w)
  }

  /** In a simple program the first append that is reached returns. */
  function FirstReturned<V>(source: seq<JsStatement>, env: Env<V>, w: World<V>): V
    decreases |source|
  {
    if source == [] then w.word("undefined")
    else if Appends(source[0]) then LineValue(source[0], env, w).0
    else if source[0].ElseAppendNothing? then w.quoted("")
    else
      var r := ExecLine(source[0], env, w);
      if r.0.Some? then r.0.value else FirstReturned(source[1..], r.1, w)
  }

  function LinesOf(parts: seq<Part>): seq<JsStatement> {
    if parts == [] then []
    else (match parts[0] case AsIs(line) => [line] case AddJoined(run) => run) + LinesOf(parts[1..])
  }

  /** What the generated function returns. */
  function Returned<V>(f: JsFunction, env: Env<V>, w: World<V>): V {
    match f.finish
    case EmptyString => w.quoted("")
    case ReturnedBefore => FirstReturned(LinesOf(f.parts), env, w)
    case JoinedLines(run) => JoinLines(run, env, w).0
    case BufferAnd(run) =>
      var start := if f.start.FirstRun? then JoinLines(f.start.run, env, w) else (w.quoted(""), env);
      var end := ExecParts(f.parts, start.0, start.1, w);
      AddLines(end.0, run, end.1, w).0
  }

  // ---------- the function returns its page ----------

  function PutLine<V>(s: JsStatement, p: Page<V>, env: Env<V>, w: World<V>): (Page<V>, Env<V>) {
    if Appends(s) then var r := LineValue(s, env, w); (Put(p, Joined(r.0), w), r.1)
    else var r := ExecLine(s, env, w); (Put(p, Apart(r.0), w), r.1)
  }

  function PutLines<V>(source: seq<JsStatement>, p: Page<V>, env: Env<V>, w: World<V>): (Page<V>, Env<V>)
    decreases |source|
  {
    if source == [] then (p, env)
    else var r := PutLine(source[0], p, env, w); PutLines(source[1..], r.0, r.1, w)
  }

  function RunValues<V>(run: seq<JsStatement>, env: Env<V>, w: World<V>): (r: (seq<V>, Env<V>))
    ensures |r.0| == |run|
    decreases |run|
  {
    if run == [] then ([], env)
    else
      var line := LineValue(run[0], env, w);
      var rest := RunValues(run[1..], line.1, w);
      ([line.0] + rest.0, rest.1)
  }

  lemma {:induction false} AddLinesSums<V(!new)>(total: V, run: seq<JsStatement>, env: Env<V>, w: World<V>)
    ensures var r := RunValues(run, env, w); AddLines(total, run, env, w) == (SumFrom(total, r.0, w), r.1)
    decreases |run|
  {
    hide LineValue;
    if run != [] {
      var line := LineValue(run[0], env, w);
      AddLinesSums(w.plus(total, line.0), run[1..], line.1, w);
    }
  }

  lemma JoinLinesSums<V(!new)>(run: seq<JsStatement>, env: Env<V>, w: World<V>)
    requires run != []
    ensures var r := RunValues(run, env, w); JoinLines(run, env, w) == (Sum(r.0, w), r.1)
  {
    hide LineValue;
    var line := LineValue(run[0], env, w);
    AddLinesSums(line.0, run[1..], line.1, w);
  }

  lemma {:induction false} PutRun<V(!new)>(run: seq<JsStatement>, p: Page<V>, env: Env<V>, w: World<V>)
    requires OnlyAppends(run) && p.pending == ""
    ensures var r := RunValues(run, env, w); PutLines(run, p, env, w) == (p.(run := p.run + r.0), r.1)
    decreases |run|
  {
    hide LineValue;
    if run == [] {
      assert p.run + [] == p.run;
    } else {
      var line := LineValue(run[0], env, w);
      var next := p.(run := p.run + [line.0]);
      PutRun(run[1..], next, line.1, w);
      var rest := RunValues(run[1..], line.1, w).0;
      assert p.run + [line.0] + rest == p.run + ([line.0] + rest);
    }
  }

  lemma {:induction false} PutLinesConcat<V(!new)>(a: seq<JsStatement>, b: seq<JsStatement>, p: Page<V>,
                                                   env: Env<V>, w: World<V>)
    ensures var r := PutLines(a, p, env, w); PutLines(a + b, p, env, w) == PutLines(b, r.0, r.1, w)
    decreases |a|
  {
    hide PutLine;
    if a == [] {
      assert a + b == b;
    } else {
      assert (a + b)[1..] == a[1..] + b;
      var r := PutLine(a[0], p, env, w);
      PutLinesConcat(a[1..], b, r.0, r.1, w);
    }
  }

  lemma {:induction false} SumEachConcat<V(!new)>(a: seq<seq<V>>, b: seq<seq<V>>, w: World<V>)
    ensures SumEach(a + b, w) == SumEach(a, w) + SumEach(b, w)
  {
    if a == [] {
      assert a + b == b;
    } else {
      assert (a + b)[1..] == a[1..] + b;
      SumEachConcat(a[1..], b, w);
    }
  }

  lemma {:induction false} SinglesSum<V(!new)>(vs: seq<V>, w: World<V>)
    ensures SumEach(Singles(vs), w) == vs
    decreases |vs|
  {
    if vs != [] {
      assert Singles(vs) == [[vs[0]]] + Singles(vs[1..]);
      SumEachConcat([[vs[0]]], Singles(vs[1..]), w);
      SinglesSum(vs[1..], w);
    }
  }

  /** The buffer after the complete sums of a page. */
  function Buffer<V>(sums: seq<seq<V>>, w: World<V>): V
    requires sums != []
  {
    Sum(SumEach(sums, w), w)
  }

  lemma BufferAdds<V(!new)>(sums: seq<seq<V>>, run: seq<V>, w: World<V>)
    requires sums != [] && run != []
    ensures Buffer(sums + [run], w) == w.plus(Buffer(sums, w), Sum(run, w))
  {
    SumEachConcat(sums, [run], w);
    assert SumEach([run], w) == [Sum(run, w)];
    SumConcat(SumEach(sums, w), [Sum(run, w)], w);
  }

  lemma AnswerOfRun<V(!new)>(p: Page<V>, w: World<V>)
    requires p.sums != [] && p.pending == ""
    ensures Answer(p, w) == SumFrom(Buffer(p.sums, w), p.run, w)
  {
    SumEachConcat(p.sums, Singles(p.run), w);
    SinglesSum(p.run, w);
    SumConcat(SumEach(p.sums, w), p.run, w);
  }

  /** What the parts of a source make of a buffer that holds the sums of a page. */
  lemma {:induction false} PartsAnswer<V(!new)>(source: seq<JsStatement>, p: Page<V>, env: Env<V>, w: World<V>)
    requires p.sums != [] && p.run == [] && p.pending == ""
    ensures var parts := PartsOf(source);
            var end := ExecParts(parts.0, Buffer(p.sums, w), env, w);
            AddLines(end.0, parts.1, end.1, w).0 == Answer(PutLines(source, p, env, w).0, w)
    decreases |source|
  {
    hide LineValue, ExecLine, Buffer, Answer, RunValues, JoinLines, AddLines;
    var n := RunLength(source);
    if n == |source| {
      PutRun(source, p, env, w);
      AddLinesSums(Buffer(p.sums, w), source, env, w);
      AnswerOfRun(p.(run := p.run + RunValues(source, env, w).0), w);
      assert p.run + RunValues(source, env, w).0 == RunValues(source, env, w).0;
    } else if n == 0 {
      var r := ExecLine(source[0], env, w);
      if r.0.Some? { BufferAdds(p.sums, [r.0.value], w); assert Sum([r.0.value], w) == r.0.value; }
      PartsAnswer(source[1..], Put(p, Apart(r.0), w), r.1, w);
      var part := AsIs(source[0]);
      ExecPartsFirst(part, PartsOf(source[1..]).0, Buffer(p.sums, w), env, w);
    } else {
      var run := source[..n];
      assert OnlyAppends(run) && run + source[n..] == source;
      var vs := RunValues(run, env, w);
      PutLinesConcat(run, source[n..], p, env, w);
      PutRun(run, p, env, w);
      assert p.run + vs.0 == vs.0;
      var next := p.(sums := p.sums + [vs.0]);
      RunEnds(source[n..], p.(run := vs.0), vs.1, w);
      JoinLinesSums(run, env, w);
      BufferAdds(p.sums, vs.0, w);
      PartsAnswer(source[n..], next, vs.1, w);
      ExecPartsFirst(AddJoined(run), PartsOf(source[n..]).0, Buffer(p.sums, w), env, w);
    }
  }

  lemma ExecPartsFirst<V(!new)>(part: Part, rest: seq<Part>, buffer: V, env: Env<V>, w: World<V>)
    ensures var r := ExecPart(part, buffer, env, w);
            ExecParts([part] + rest, buffer, env, w) == ExecParts(rest, r.0, r.1, w)
  {
    hide ExecPart;
    assert ([part] + rest)[1..] == rest;
  }

  /** A line that is no append makes a sum of the run before it. */
  lemma RunEnds<V(!new)>(source: seq<JsStatement>, p: Page<V>, env: Env<V>, w: World<V>)
    requires p.run != [] && p.pending == "" && source != [] && !Appends(source[0])
    ensures PutLines(source, p, env, w) == PutLines(source, p.(sums := p.sums + [p.run], run := []), env, w)
  {
    hide ExecLine;
  }

  /** Joining lines leaves the value as it is: the function of a program that is not simple
      returns the answer of the page that its lines fill one by one. */
  lemma MergedAnswers<V(!new)>(source: seq<JsStatement>, env: Env<V>, w: World<V>)
    ensures Returned(MergeSource(source, false), env, w) == Answer(PutLines(source, Page([], [], ""), env, w).0, w)
  {
    hide LineValue, ExecLine, ExecParts, PartsOf;
    var empty: Page<V> := Page([], [], "");
    var n := RunLength(source);
    if source == [] {
      assert Answer(empty, w) == w.quoted("");
    } else if n == |source| {
      JoinLinesSums(source, env, w);
      PutRun(source, empty, env, w);
      var vs := RunValues(source, env, w).0;
      assert [] + vs == vs;
      assert SumEach([vs], w) == [Sum(vs, w)];
    } else if n == 0 {
      StartsEmpty(source, env, w);
      var p := Page([[w.quoted("")]], [], "");
      assert source[0..] == source;
      assert SumEach(p.sums, w) == [w.quoted("")];
      PartsAnswer(source, p, env, w);
    } else {
      var run := source[..n];
      assert OnlyAppends(run) && run + source[n..] == source;
      var vs := RunValues(run, env, w);
      PutLinesConcat(run, source[n..], empty, env, w);
      PutRun(run, empty, env, w);
      assert [] + vs.0 == vs.0;
      var p := Page([], vs.0, "");
      RunEnds(source[n..], p, vs.1, w);
      JoinLinesSums(run, env, w);
      assert [] + [vs.0] == [vs.0];
      assert SumEach([vs.0], w) == [Sum(vs.0, w)];
      PartsAnswer(source[n..], Page([vs.0], [], ""), vs.1, w);
    }
  }

  lemma StartsEmpty<V(!new)>(source: seq<JsStatement>, env: Env<V>, w: World<V>)
    requires source != [] && !Appends(source[0])
    ensures PutLines(source, Page([], [], ""), env, w) == PutLines(source, Page([[w.quoted("")]], [], ""), env, w)
  {
    hide ExecLine;
  }

  // ---------- the meaning of statements ----------

  /** A null value is shown as the empty string. */
  function OrNothing<V>(v: V, w: World<V>): V {
    if w.nullish(v) then w.quoted("") else v
  }

  function MeanBlock<V>(call: Call, program: Option<nat>, inverse: Option<nat>, kept: Option<CallOptionValues<V>>,
                        scope: Scope, w: World<V>): Piece<V>
  {
    var path := HeadToPath(call.head);
    var v := MeanCall(call, false, program, inverse, scope, w);
    match ClassifySexpr(call, false, scope)
    case Helper => Joined(OrNothing(v, w))
    case Simple =>
      var options := MeanOptions(path.original, w.record(map[]), program, inverse, w);
      Joined(OrNothing(w.blockHelperMissing(v, Some(options)), w))
    case Ambiguous =>
      var shown := if w.truthy(w.helper(FirstPart(path))) then v
                   else w.blockHelperMissing(v, KeptAfter(call, program, inverse, kept, scope, w));
      Apart(if w.nullish(shown) then None else Some(shown))
  }

  /** What the variable `options` holds after a block: its own options if it is ambiguous and
      has a program, else those of a block before it. */
  function KeptAfter<V>(call: Call, program: Option<nat>, inverse: Option<nat>, kept: Option<CallOptionValues<V>>,
                        scope: Scope, w: World<V>): Option<CallOptionValues<V>>
  {
    var own := MeanKept(call, false, program, inverse, scope, w);
    if own.Some? then own else kept
  }

  /** The name a partial is looked up by, then the context it is given. */
  function MeanPartialName<V>(name: PartialName, scope: Scope, w: World<V>): V {
    match name
    case StaticName(original) => w.partial(original)
    case DynamicName(call) => MeanCall(call, true, None, None, scope, w)
  }

  function MeanPartialContext<V>(params: seq<Expr>, scope: Scope, w: World<V>): V
    requires |params| <= 1
  {
    if params != [] then MeanExpr(params[0], scope, w)
    else if scope.options.explicitPartialContext then w.word("undefined")
    else w.context(0)
  }

  function MeanPartialOptions<V>(name: PartialName, hash: V, program: Option<nat>, w: World<V>): CallOptionValues<V> {
    var options := MeanOptions(PrintedName(name), hash, program, None, w);
    if name.DynamicName? then options.(name := None) else options
  }

  function MeanPartial<V>(name: PartialName, params: seq<Expr>, hash: Hash, program: Option<nat>, indent: string,
                          scope: Scope, w: World<V>): V
    requires |params| <= 1
  {
    w.invokePartial(MeanPartialName(name, scope, w), MeanPartialContext(params, scope, w),
                    MeanPartialOptions(name, MeanHash(hash, true, scope, w), program, w), indent)
  }

  function InverseGuid(program: Option<Program>, inverse: Option<Program>, first: nat): Option<nat> {
    OptionalGuid(inverse, first + if program.Some? then 1 else 0)
  }

  function MeanStatement<V>(s: Statement, first: nat, kept: Option<CallOptionValues<V>>, scope: Scope, w: World<V>)
    : seq<Piece<V>>
    requires Supported(s)
  {
    match s
    case ContentStatement(value) => if value == "" then [] else [Literal(value)]
    case CommentStatement => []
    case MustacheStatement(call, escaped) =>
      var v := MeanCall(call, false, None, None, scope, w);
      [Joined(if escaped && !scope.options.noEscape then w.escaped(v) else OrNothing(v, w))]
    case BlockStatement(call, program, inverse) =>
      [MeanBlock(call, OptionalGuid(program, first), InverseGuid(program, inverse, first), kept, scope, w)]
    case PartialStatement(name, params, hash, partialBlock, indent) =>
      var prevent := scope.options.preventIndent && indent != "";
      var v := MeanPartial(name, params, hash, OptionalGuid(partialBlock, first),
                           if prevent then "" else indent, scope, w);
      (if prevent then [Literal(indent)] else []) + [Joined(OrNothing(v, w))]
    case Decorator(_, _) => []
  }

  function KeptBy<V>(s: Statement, first: nat, kept: Option<CallOptionValues<V>>, scope: Scope, w: World<V>)
    : Option<CallOptionValues<V>>
  {
    match s
    case BlockStatement(call, program, inverse) =>
      KeptAfter(call, OptionalGuid(program, first), InverseGuid(program, inverse, first), kept, scope, w)
    case _ => kept
  }

  function MeanBody<V>(body: seq<Statement>, first: nat, kept: Option<CallOptionValues<V>>, scope: Scope, w: World<V>)
    : seq<Piece<V>>
    requires forall s <- body :: Supported(s)
    decreases |body|
  {
    if body == [] then []
    else
      MeanStatement(body[0], first, kept, scope, w)
      + MeanBody(body[1..], first + ProgramCount(body[0]), KeptBy(body[0], first, kept, scope, w), scope, w)
  }

  /** Hashes the generated code can hold, and no dynamic partial whose context is left to
      `explicitPartialContext`: its name and context would change places. */
  predicate Renderable(s: Statement, scope: Scope) {
    match s
    case MustacheStatement(call, _) => BindableCall(call)
    case BlockStatement(call, _, _) => BindableCall(call)
    case PartialStatement(name, params, hash, _, _) =>
      && BindableAll(params) && BindableHash(hash)
      && (name.DynamicName? ==> BindableCall(name.call) && !ExplicitlyUndefined(params, scope))
    case Decorator(call, _) => BindableCall(call)
    case _ => true
  }

  // ---------- the lines of a statement put its pieces ----------

  function PutEmission<V>(e: Emission, p: Page<V>, env: Env<V>, w: World<V>): (Page<V>, Env<V>) {
    match e
    case Content(text) => (Put(p, Literal(text), w), env)
    case Line(statement) => PutLine(statement, p, env, w)
    case Decoration(_) => (p, env)
  }

  function PutEmissions<V>(emissions: seq<Emission>, p: Page<V>, env: Env<V>, w: World<V>): (Page<V>, Env<V>)
    decreases |emissions|
  {
    if emissions == [] then (p, env)
    else var r := PutEmission(emissions[0], p, env, w); PutEmissions(emissions[1..], r.0, r.1, w)
  }

  lemma {:induction false} PutEmissionsConcat<V(!new)>(a: seq<Emission>, b: seq<Emission>, p: Page<V>,
                                                       env: Env<V>, w: World<V>)
    ensures var r := PutEmissions(a, p, env, w); PutEmissions(a + b, p, env, w) == PutEmissions(b, r.0, r.1, w)
    decreases |a|
  {
    hide PutEmission;
    if a == [] {
      assert a + b == b;
    } else {
      assert (a + b)[1..] == a[1..] + b;
      var r := PutEmission(a[0], p, env, w);
      PutEmissionsConcat(a[1..], b, r.0, r.1, w);
    }
  }

  lemma PutOne<V(!new)>(e: Emission, p: Page<V>, env: Env<V>, w: World<V>)
    ensures PutEmissions([e], p, env, w) == PutEmission(e, p, env, w)
  {
    hide PutEmission;
    assert [e][1..] == [];
  }

  lemma {:induction false} PutAllConcat<V(!new)>(p: Page<V>, a: seq<Piece<V>>, b: seq<Piece<V>>, w: World<V>)
    ensures PutAll(p, a + b, w) == PutAll(PutAll(p, a, w), b, w)
    decreases |a|
  {
    hide Put;
    if a == [] {
      assert a + b == b;
    } else {
      assert (a + b)[1..] == a[1..] + b;
      PutAllConcat(Put(p, a[0], w), a[1..], b, w);
    }
  }

  lemma PutJust<V(!new)>(p: Page<V>, piece: Piece<V>, w: World<V>)
    ensures PutAll(p, [piece], w) == Put(p, piece, w)
  {
    hide Put;
    assert [piece][1..] == [];
  }

  /** The state of the page after what an output holds, pending content included. */
  function OutputPage<V>(o: Output, env: Env<V>, w: World<V>): (Page<V>, Env<V>) {
    var r := PutLines(o.source, Page([], [], ""), env, w);
    (r.0.(pending := o.pending), r.1)
  }

  lemma {:induction false} NothingPending<V(!new)>(source: seq<JsStatement>, p: Page<V>, env: Env<V>, w: World<V>)
    requires p.pending == ""
    ensures PutLines(source, p, env, w).0.pending == ""
    decreases |source|
  {
    hide LineValue, ExecLine;
    if source != [] {
      var r := PutLine(source[0], p, env, w);
      NothingPending(source[1..], r.0, r.1, w);
    }
  }

  lemma PutLast<V(!new)>(source: seq<JsStatement>, s: JsStatement, p: Page<V>, env: Env<V>, w: World<V>)
    ensures var r := PutLines(source, p, env, w); PutLines(source + [s], p, env, w) == PutLine(s, r.0, r.1, w)
  {
    hide PutLine;
    PutLinesConcat(source, [s], p, env, w);
    var r := PutLines(source, p, env, w);
    assert [s][1..] == [];
  }

  /** Flushing writes the pending content as one line, which settles the page. */
  lemma FlushSettles<V(!new)>(o: Output, env: Env<V>, w: World<V>)
    ensures var r := OutputPage(o, env, w);
            PutLines(FlushPending(o).source, Page([], [], ""), env, w) == (Settle(r.0, w), r.1)
  {
    hide ExecLine;
    NothingPending(o.source, Page([], [], ""), env, w);
    if o.pending != "" { PutLast(o.source, AppendText(o.pending), Page([], [], ""), env, w); }
  }

  lemma SettledPut<V(!new)>(s: JsStatement, p: Page<V>, env: Env<V>, w: World<V>)
    ensures PutLine(s, Settle(p, w), env, w) == PutLine(s, p, env, w)
  {
    hide LineValue, ExecLine;
  }

  lemma EmitOnePuts<V(!new)>(o: Output, e: Emission, env: Env<V>, w: World<V>)
    ensures var r := OutputPage(o, env, w); OutputPage(EmitOne(o, e), env, w) == PutEmission(e, r.0, r.1, w)
  {
    hide PutLine, PutLines;
    var r := OutputPage(o, env, w);
    match e
    case Content(text) =>
    case Line(statement) =>
      FlushSettles(o, env, w);
      var empty: Page<V> := Page([], [], "");
      PutLast(FlushPending(o).source, statement, empty, env, w);
      NothingPending(FlushPending(o).source + [statement], empty, env, w);
      SettledPut(statement, r.0, r.1, w);
    case Decoration(_) =>
  }

  lemma {:induction false} EmitPuts<V(!new)>(o: Output, emissions: seq<Emission>, env: Env<V>, w: World<V>)
    ensures var r := OutputPage(o, env, w);
            OutputPage(Emit(o, emissions), env, w) == PutEmissions(emissions, r.0, r.1, w)
    decreases |emissions|
  {
    hide PutEmission, OutputPage, EmitOne;
    if emissions != [] {
      EmitOnePuts(o, emissions[0], env, w);
      EmitPuts(EmitOne(o, emissions[0]), emissions[1..], env, w);
    }
  }

  lemma EvalIfNotNull<V(!new)>(test: JsExpr, yes: JsExpr, no: JsExpr, env: Env<V>, w: World<V>)
    ensures var r := Eval(test, env, w);
            Eval(IfNotNull(test, yes, no), env, w) == if w.nullish(r.0) then Eval(no, r.1, w) else Eval(yes, r.1, w)
  {
  }

  lemma EvalQuoted<V(!new)>(text: string, env: Env<V>, w: World<V>)
    ensures Eval(Quoted(text), env, w) == (w.quoted(text), env)
  {
  }

  lemma EvalOrEmpty<V(!new)>(first: JsExpr, again: JsExpr, env: Env<V>, w: World<V>)
    ensures var r := Eval(first, env, w);
            Eval(Apply(first, again, OrEmpty), env, w)
            == if w.nullish(r.0) then (w.quoted(""), r.1) else Eval(again, r.1, w)
  {
    hide Eval;
    EvalIfNotNull(first, again, Quoted(""), env, w);
    EvalQuoted("", Eval(first, env, w).1, w);
  }

  lemma EvalGuard<V(!new)>(code: JsExpr, slot: nat, env: Env<V>, w: World<V>)
    ensures var r := Eval(code, env, w);
            LineValue(AppendGuarded(code, slot), env, w) == (OrNothing(r.0, w), Assign(r.1, slot, r.0))
  {
    hide Eval, Apply;
    EvalOrEmpty(AssignStack(slot, code), StackVar(slot), env, w);
    EvalAssign(slot, code, env, w);
    EvalStackVar(slot, Assign(Eval(code, env, w).1, slot, Eval(code, env, w).0), w);
  }

  /** A guarded append joins the value, or the empty string for null. */
  lemma GuardedPuts<V(!new)>(code: JsExpr, v: V, slot: nat, p: Page<V>, env: Env<V>, w: World<V>)
    requires Computes(code, slot, v, w)
    ensures var r := PutEmissions([Line(AppendGuarded(code, slot))], p, env, w);
            r.0 == Put(p, Joined(OrNothing(v, w)), w) && r.1.options == env.options
  {
    hide Eval, Put;
    assert ComputesIn(code, slot, v, env, w);
    EvalGuard(code, slot, env, w);
    PutOne(Line(AppendGuarded(code, slot)), p, env, w);
  }

  lemma EscapedPuts<V(!new)>(code: JsExpr, v: V, slot: nat, p: Page<V>, env: Env<V>, w: World<V>)
    requires Computes(code, slot, v, w)
    ensures var r := PutEmissions([Line(AppendEscapedValue(code))], p, env, w);
            r.0 == Put(p, Joined(w.escaped(v)), w) && r.1.options == env.options
  {
    hide Eval, Put;
    assert ComputesIn(code, slot, v, env, w);
    PutOne(Line(AppendEscapedValue(code)), p, env, w);
  }

  lemma MissingComputes<V(!new)>(code: JsExpr, v: V, name: string, program: Option<nat>, inverse: Option<nat>,
                                 slot: nat, w: World<V>)
    requires Computes(code, slot, v, w)
    ensures var options := MakeOptions(name, EmptyObject, ProgramExpr(program), ProgramExpr(inverse));
            Computes(BlockHelperMissing(code, Literally(options)), slot,
                     w.blockHelperMissing(v, Some(MeanOptions(name, w.record(map[]), program, inverse, w))), w)
  {
    var options := MakeOptions(name, EmptyObject, ProgramExpr(program), ProgramExpr(inverse));
    var missing := w.blockHelperMissing(v, Some(MeanOptions(name, w.record(map[]), program, inverse, w)));
    EmptyComputes(slot, w);
    forall env: Env<V> ensures ComputesIn(BlockHelperMissing(code, Literally(options)), slot, missing, env, w) {
      hide MakeOptions, MeanOptions, EvalOptions;
      assert ComputesIn(code, slot, v, env, w);
      OptionsCompute(name, EmptyObject, w.record(map[]), program, inverse, slot, Eval(code, env, w).1, w);
    }
  }

  lemma ApartAgain<V(!new)>(p: Page<V>, shown: Option<V>, w: World<V>)
    ensures Put(Put(p, Apart(None), w), Apart(shown), w) == Put(p, Apart(shown), w)
  {
  }

  lemma EvalKept<V(!new)>(slot: nat, env: Env<V>, w: World<V>)
    ensures Eval(BlockHelperMissing(StackVar(slot), Kept), env, w)
            == (w.blockHelperMissing(Read(env, slot, w), env.options), env)
  {
    assert Eval(StackVar(slot), env, w) == (Read(env, slot, w), env);
  }

  /** What the lines of an ambiguous block show: the value of the call, replaced by what
      `blockHelperMissing` returns for the options that the call kept. */
  function AmbiguousShown<V>(name: string, v: V, options: Option<CallOptionValues<V>>, w: World<V>): Option<V> {
    var shown := if w.truthy(w.helper(name)) then v else w.blockHelperMissing(v, options);
    if w.nullish(shown) then None else Some(shown)
  }

  lemma AmbiguousExecs<V(!new)>(name: string, code: JsExpr, v: V, kept: Option<CallOptionValues<V>>, slot: nat,
                                env: Env<V>, w: World<V>)
    requires ComputesKeeping(code, slot, v, kept, w)
    ensures var a := ExecLine(SetStack(slot, code), env, w);
            var b := ExecLine(UnlessHelper(Some(name), StackVar(slot),
                                           BlockHelperMissing(StackVar(slot), Kept)), a.1, w);
            var c := ExecLine(AppendIfNotNull(StackVar(slot)), b.1, w);
            && a.0 == b.0 == None
            && c.0 == AmbiguousShown(name, v, Keeping(env, kept).options, w)
            && c.1.options == Keeping(env, kept).options
  {
    hide Eval;
    assert ComputesKeepingIn(code, slot, v, kept, env, w);
    var a := ExecLine(SetStack(slot, code), env, w);
    EvalKept(slot, a.1, w);
    var b := ExecLine(UnlessHelper(Some(name), StackVar(slot), BlockHelperMissing(StackVar(slot), Kept)), a.1, w);
    EvalStackVar(slot, b.1, w);
  }

  lemma AmbiguousPuts<V(!new)>(name: string, code: JsExpr, v: V, kept: Option<CallOptionValues<V>>, slot: nat,
                               p: Page<V>, env: Env<V>, w: World<V>)
    requires ComputesKeeping(code, slot, v, kept, w)
    ensures var r := PutEmissions(AmbiguousLines(name, code, slot, false), p, env, w);
            && r.0 == Put(p, Apart(AmbiguousShown(name, v, Keeping(env, kept).options, w)), w)
            && r.1.options == Keeping(env, kept).options
  {
    hide ExecLine, Put, ComputesKeeping, AmbiguousShown;
    var a := SetStack(slot, code);
    var b := UnlessHelper(Some(name), StackVar(slot), BlockHelperMissing(StackVar(slot), Kept));
    var c := AppendIfNotNull(StackVar(slot));
    AmbiguousExecs(name, code, v, kept, slot, env, w);
    var p1, env1 := Put(p, Apart(None), w), ExecLine(a, env, w).1;
    var env2 := ExecLine(b, env1, w).1;
    assert AmbiguousLines(name, code, slot, false) == [Line(a)] + ([Line(b)] + [Line(c)]);
    PutEmissionsConcat([Line(a)], [Line(b)] + [Line(c)], p, env, w);
    PutOne(Line(a), p, env, w);
    PutEmissionsConcat([Line(b)], [Line(c)], p1, env1, w);
    PutOne(Line(b), p1, env1, w);
    ApartAgain(p, None, w);
    PutOne(Line(c), p1, env2, w);
    ApartAgain(p, AmbiguousShown(name, v, Keeping(env, kept).options, w), w);
  }

  lemma BlockPuts<V(!new)>(call: Call, program: Option<nat>, inverse: Option<nat>, slot: nat, scope: Scope,
                           p: Page<V>, env: Env<V>, w: World<V>)
    requires BindableCall(call)
    ensures TransBlock(call, program, inverse, slot, false, scope).Ok?
    ensures var r := PutEmissions(TransBlock(call, program, inverse, slot, false, scope).value, p, env, w);
            && r.0 == Put(p, MeanBlock(call, program, inverse, env.options, scope, w), w)
            && r.1.options == KeptAfter(call, program, inverse, env.options, scope, w)
  {
    hide Put, PutEmissions, AmbiguousLines, MakeOptions, MeanOptions, Computes, ComputesKeeping,
        AppendGuarded, OrNothing;
    CallMeans(call, false, program, inverse, slot, scope, w);
    var code := TransCall(call, false, program, inverse, slot, scope).value;
    var v := MeanCall(call, false, program, inverse, scope, w);
    var path := HeadToPath(call.head);
    match ClassifySexpr(call, false, scope)
    case Helper =>
      ComputesKeepsNothing(code, slot, v, w);
      GuardedPuts(code, v, slot, p, env, w);
    case Simple =>
      ComputesKeepsNothing(code, slot, v, w);
      MissingComputes(code, v, path.original, program, inverse, slot, w);
      var options := MakeOptions(path.original, EmptyObject, ProgramExpr(program), ProgramExpr(inverse));
      var missing := w.blockHelperMissing(v, Some(MeanOptions(path.original, w.record(map[]), program, inverse, w)));
      GuardedPuts(BlockHelperMissing(code, Literally(options)), missing, slot, p, env, w);
    case Ambiguous =>
      AmbiguousPuts(FirstPart(path), code, v, MeanKept(call, false, program, inverse, scope, w), slot, p, env, w);
  }

  lemma MustachePuts<V(!new)>(call: Call, escaped: bool, slot: nat, isSimple: bool, scope: Scope, p: Page<V>,
                              env: Env<V>, w: World<V>)
    requires BindableCall(call)
    ensures var s := MustacheStatement(call, escaped);
            var t := TransStatement(s, 0, slot, isSimple, scope);
            t.Ok? && var r := PutEmissions(t.value, p, env, w);
            r.0 == PutAll(p, MeanStatement(s, 0, env.options, scope, w), w) && r.1.options == env.options
  {
    hide Put, PutEmissions, PutAll, Computes, OrNothing, AppendGuarded;
    PlainCallMeans(call, false, slot, scope, w);
    var code := TransCall(call, false, None, None, slot, scope).value;
    var v := MeanCall(call, false, None, None, scope, w);
    if escaped && !scope.options.noEscape {
      EscapedPuts(code, v, slot, p, env, w);
      PutJust(p, Joined(w.escaped(v)), w);
    } else {
      GuardedPuts(code, v, slot, p, env, w);
      PutJust(p, Joined(OrNothing(v, w)), w);
    }
  }

  lemma PartialComputes<V(!new)>(callee: JsExpr, f: V, context: JsExpr, x: V, name: PartialName,
                                 hash: JsExpr, hashed: V,
                                 program: Option<nat>, indent: string, slot: nat, w: World<V>)
    requires Computes(callee, slot, f, w) && Computes(context, slot, x, w) && Computes(hash, slot, hashed, w)
    ensures Computes(PartialCall(callee, context, PartialOptions(name, hash, program), name.DynamicName?, indent), slot,
                     w.invokePartial(f, x, MeanPartialOptions(name, hashed, program, w), indent), w)
  {
    var options := PartialOptions(name, hash, program);
    var v := w.invokePartial(f, x, MeanPartialOptions(name, hashed, program, w), indent);
    forall env: Env<V> ensures ComputesIn(PartialCall(callee, context, options, name.DynamicName?, indent),
                                          slot, v, env, w) {
      hide PartialOptions, MeanPartialOptions, EvalOptions;
      assert ComputesIn(callee, slot, f, env, w);
      var env1 := Eval(callee, env, w).1;
      assert ComputesIn(context, slot, x, env1, w);
      PartialOptionsCompute(name, hash, hashed, program, slot, Eval(context, env1, w).1, w);
    }
  }

  lemma PartialOptionsCompute<V(!new)>(name: PartialName, hash: JsExpr, hashed: V, program: Option<nat>,
                                       slot: nat, env: Env<V>, w: World<V>)
    requires Computes(hash, slot, hashed, w)
    ensures var r := EvalOptions(PartialOptions(name, hash, program), env, w);
            r.0 == MeanPartialOptions(name, hashed, program, w) && Untouched(r.1, env, slot)
  {
    hide Eval, MakeOptions, MeanOptions;
    OptionsCompute(PrintedName(name), hash, hashed, program, None, slot, env, w);
    Renamed(MakeOptions(PrintedName(name), hash, ProgramExpr(program), NoProgram), env, w);
  }

  lemma Renamed<V(!new)>(o: CallOptions, env: Env<V>, w: World<V>)
    ensures var r := EvalOptions(o, env, w); EvalOptions(o.(name := None), env, w) == (r.0.(name := None), r.1)
  {
    hide Eval;
  }

  lemma ContextMeans<V(!new)>(params: seq<Expr>, slot: nat, scope: Scope, w: World<V>)
    requires |params| <= 1 && BindableAll(params) && !ExplicitlyUndefined(params, scope)
    ensures var context := TransContext(params, slot, scope);
            context.Ok? && |context.value| == 1
            && Computes(context.value[0].value, slot, MeanPartialContext(params, scope, w), w)
  {
    hide Eval, TransExpr, MeanExpr;
    if params != [] {
      ExprMeans(params[0], slot, scope, w);
      assert TransParams(params[1..], slot, scope) == Ok([]);
    } else {
      PathComputes(CURRENT_CONTEXT, false, slot, scope, w);
    }
  }

  lemma ConstantsCompute<V(!new)>(partial: string, slot: nat, w: World<V>)
    ensures Computes(PartialRef(partial), slot, w.partial(partial), w)
    ensures Computes(Word("undefined"), slot, w.word("undefined"), w)
  {
  }

  /** Name and context of a partial, each computing what it stands for. */
  lemma PartialFrameMeans<V(!new)>(name: PartialName, params: seq<Expr>, slot: nat, scope: Scope, w: World<V>)
    requires |params| <= 1 && BindableAll(params)
    requires name.DynamicName? ==> BindableCall(name.call) && !ExplicitlyUndefined(params, scope)
    ensures var frame := TransPartialFrame(name, params, slot, scope);
            frame.Ok?
            && Computes(if name.DynamicName? then frame.value[0].value else PartialRef(PrintedName(name)), slot,
                        MeanPartialName(name, scope, w), w)
            && Computes(Last(frame.value).value, slot, MeanPartialContext(params, scope, w), w)
  {
    hide Eval, Computes, TransContext, TransCall, MeanCall, MeanExpr;
    ConstantsCompute(PrintedName(name), slot, w);
    if name.DynamicName? { PlainCallMeans(name.call, true, slot, scope, w); }
    if !ExplicitlyUndefined(params, scope) { ContextMeans(params, slot, scope, w); }
  }

  lemma PartialCallMeans<V(!new)>(name: PartialName, params: seq<Expr>, hash: Hash, program: Option<nat>,
                                  indent: string,
                                  slot: nat, scope: Scope, w: World<V>)
    requires |params| <= 1 && BindableAll(params) && BindableHash(hash)
    requires name.DynamicName? ==> BindableCall(name.call) && !ExplicitlyUndefined(params, scope)
    ensures TransPartialFrame(name, params, slot, scope).Ok? && TransHash(hash, true, slot, scope).Ok?
    ensures var frame := TransPartialFrame(name, params, slot, scope).value;
            var callee := if name.DynamicName? then frame[0].value else PartialRef(PrintedName(name));
            var options := PartialOptions(name, TransHash(hash, true, slot, scope).value.value, program);
            Computes(PartialCall(callee, Last(frame).value, options, name.DynamicName?, indent), slot,
                     MeanPartial(name, params, hash, program, indent, scope, w), w)
  {
    hide Computes, PartialOptions, MeanPartialOptions, TransPartialFrame, TransHash, MeanHash;
    PartialFrameMeans(name, params, slot, scope, w);
    HashMeans(hash, true, slot, scope, w);
    var frame := TransPartialFrame(name, params, slot, scope).value;
    var callee := if name.DynamicName? then frame[0].value else PartialRef(PrintedName(name));
    PartialComputes(callee, MeanPartialName(name, scope, w), Last(frame).value,
                    MeanPartialContext(params, scope, w), name,
                    TransHash(hash, true, slot, scope).value.value, MeanHash(hash, true, scope, w), program,
                        indent, slot, w);
  }

  lemma PartialPuts<V(!new)>(name: PartialName, params: seq<Expr>, hash: Hash, program: Option<nat>, indent: string,
                             slot: nat, scope: Scope, p: Page<V>, env: Env<V>, w: World<V>)
    requires |params| <= 1 && BindableAll(params) && BindableHash(hash)
    requires name.DynamicName? ==> BindableCall(name.call) && !ExplicitlyUndefined(params, scope)
    ensures var t := TransPartial(name, params, hash, program, indent, slot, scope);
            var prevent := scope.options.preventIndent && indent != "";
            var v := MeanPartial(name, params, hash, program, if prevent then "" else indent, scope, w);
            t.Ok? && var r := PutEmissions(t.value, p, env, w);
            r.0 == PutAll(p, (if prevent then [Literal(indent)] else []) + [Joined(OrNothing(v, w))], w)
            && r.1.options == env.options
  {
    hide Put, PutLine, Computes, PartialOptions, TransPartialFrame, TransHash, MeanPartial, OrNothing, AppendGuarded,
         PutEmissions, PutAll;
    var prevent := scope.options.preventIndent && indent != "";
    var indent' := if prevent then "" else indent;
    PartialCallMeans(name, params, hash, program, indent', slot, scope, w);
    var frame := TransPartialFrame(name, params, slot, scope).value;
    var hashed := TransHash(hash, true, slot, scope).value.value;
    var callee := if name.DynamicName? then frame[0].value else PartialRef(PrintedName(name));
    var call := PartialCall(callee, Last(frame).value, PartialOptions(name, hashed, program),
                            name.DynamicName?, indent');
    var v := MeanPartial(name, params, hash, program, indent', scope, w);
    var line := [Line(AppendGuarded(call, slot))];
    var before: seq<Emission> := if prevent then [Content(indent)] else [];
    var literal: seq<Piece<V>> := if prevent then [Literal(indent)] else [];
    assert PartialLines(name, frame, hashed, program, indent, slot, scope) == before + line;
    var p1 := if prevent then Put(p, Literal(indent), w) else p;
    PutEmissionsConcat(before, line, p, env, w);
    if prevent {
      PutOne(Content(indent), p, env, w);
      PutJust(p, Literal(indent), w);
    } else {
      PutNothing(p, env, w);
    }
    GuardedPuts(call, v, slot, p1, env, w);
    PutAllConcat(p, literal, [Joined(OrNothing(v, w))], w);
    PutJust(p1, Joined(OrNothing(v, w)), w);
  }

  lemma PutNothing<V(!new)>(p: Page<V>, env: Env<V>, w: World<V>)
    ensures PutEmissions([], p, env, w) == (p, env) && PutAll(p, [], w) == p
  {
  }

  /** The lines of a statement put exactly the pieces it means, on any page. */
  lemma StatementPuts<V(!new)>(s: Statement, first: nat, slot: nat, scope: Scope, p: Page<V>, env: Env<V>, w: World<V>)
    requires Supported(s) && Renderable(s, scope)
    ensures TransStatement(s, first, slot, false, scope).Ok?
    ensures var r := PutEmissions(TransStatement(s, first, slot, false, scope).value, p, env, w);
            && r.0 == PutAll(p, MeanStatement(s, first, env.options, scope, w), w)
            && r.1.options == KeptBy(s, first, env.options, scope, w)
  {
    hide Put, PutLine, PutEmissions, PutAll, MeanBlock, KeptAfter, TransCall, TransBlock, TransPartial,
        TransParams, TransHash;
    PutNothing(p, env, w);
    match s
    case ContentStatement(value) =>
      if value != "" {
        PutOne(Content(value), p, env, w);
        PutJust(p, Literal(value), w);
      }
    case CommentStatement =>
    case MustacheStatement(call, escaped) => MustachePuts(call, escaped, slot, false, scope, p, env, w);
    case BlockStatement(call, program, inverse) =>
      var a, b := OptionalGuid(program, first), InverseGuid(program, inverse, first);
      BlockPuts(call, a, b, slot, scope, p, env, w);
      PutJust(p, MeanBlock(call, a, b, env.options, scope, w), w);
    case PartialStatement(name, params, hash, partialBlock, indent) =>
      PartialPuts(name, params, hash, OptionalGuid(partialBlock, first), indent, slot, scope, p, env, w);
    case Decorator(call, decorated) =>
      ParamsMean(call.params, slot, scope, w);
      HashMeans(call.hash, false, slot, scope, w);
      PutOne(TransStatement(s, first, slot, false, scope).value[0], p, env, w);
  }

  lemma {:induction false} BodyPuts<V(!new)>(body: seq<Statement>, first: nat, slot: nat, scope: Scope,
                                             p: Page<V>, env: Env<V>, w: World<V>)
    requires forall s <- body :: Supported(s) && Renderable(s, scope)
    ensures TransBody(body, first, slot, false, scope).Ok?
    ensures PutEmissions(TransBody(body, first, slot, false, scope).value, p, env, w).0
            == PutAll(p, MeanBody(body, first, env.options, scope, w), w)
    decreases |body|
  {
    hide PutEmissions, PutAll, TransStatement, MeanStatement, Renderable, KeptBy;
    if body == [] {
      PutNothing(p, env, w);
    } else {
      StatementPuts(body[0], first, slot, scope, p, env, w);
      var head := TransStatement(body[0], first, slot, false, scope).value;
      var r := PutEmissions(head, p, env, w);
      var next := first + ProgramCount(body[0]);
      BodyPuts(body[1..], next, slot, scope, r.0, r.1, w);
      PutEmissionsConcat(head, TransBody(body[1..], next, slot, false, scope).value, p, env, w);
      PutAllConcat(p, MeanStatement(body[0], first, env.options, scope, w),
                   MeanBody(body[1..], next, r.1.options, scope, w), w);
    }
  }

  // ---------- simple programs ----------

  /** A program of one statement returns the first thing it shows, as it is. */
  function FirstShown<V>(pieces: seq<Piece<V>>, w: World<V>): V {
    if pieces == [] then w.quoted("")
    else
      match pieces[0]
      case Literal(text) => w.quoted(text)
      case Joined(value) => value
      case Apart(None) => w.quoted("")
      case Apart(Some(value)) => value
  }

  function SimpleResult<V>(source: seq<JsStatement>, env: Env<V>, w: World<V>): V {
    if source == [] then w.quoted("") else FirstReturned(source, env, w)
  }

  function LinesAlone(emissions: seq<Emission>): seq<JsStatement> {
    FlushPending(Emit(Output([], "", []), emissions)).source
  }

  lemma OneLineReturns<V(!new)>(line: JsStatement, env: Env<V>, w: World<V>)
    requires Appends(line)
    ensures SimpleResult(LinesAlone([Line(line)]), env, w) == LineValue(line, env, w).0
  {
    EmitJust(Output([], "", []), Line(line));
  }

  lemma GuardAppends(code: JsExpr, slot: nat)
    ensures Appends(AppendGuarded(code, slot))
  {
  }

  lemma GuardReturns<V(!new)>(code: JsExpr, v: V, slot: nat, env: Env<V>, w: World<V>)
    requires Computes(code, slot, v, w)
    ensures SimpleResult(LinesAlone([Line(AppendGuarded(code, slot))]), env, w) == OrNothing(v, w)
  {
    hide Eval, LinesAlone, SimpleResult;
    assert ComputesIn(code, slot, v, env, w);
    OneLineReturns(AppendGuarded(code, slot), env, w);
    EvalGuard(code, slot, env, w);
  }

  lemma AmbiguousReturns<V(!new)>(name: string, code: JsExpr, v: V, kept: Option<CallOptionValues<V>>, slot: nat,
                                  env: Env<V>, w: World<V>)
    requires ComputesKeeping(code, slot, v, kept, w)
    ensures SimpleResult(LinesAlone(AmbiguousLines(name, code, slot, true)), env, w)
            == FirstShown([Apart(AmbiguousShown(name, v, Keeping(env, kept).options, w))], w)
  {
    hide Eval, ComputesKeeping, AmbiguousShown;
    var a := SetStack(slot, code);
    var b := UnlessHelper(Some(name), StackVar(slot), BlockHelperMissing(StackVar(slot), Kept));
    var c := AppendIfNotNull(StackVar(slot));
    var empty := Output([], "", []);
    var lines := [Line(a), Line(b), Line(c)];
    assert AmbiguousLines(name, code, slot, true) == lines + [Line(ElseAppendNothing)];
    EmitConcat(empty, lines, [Line(ElseAppendNothing)]);
    EmitBlock(empty, a, b, c);
    EmitJust(Emit(empty, lines), Line(ElseAppendNothing));
    assert LinesAlone(AmbiguousLines(name, code, slot, true)) == [a, b, c, ElseAppendNothing];
    AmbiguousExecs(name, code, v, kept, slot, env, w);
    ReturnsFrom(a, b, c, env, w);
  }

  lemma ReturnsFrom<V(!new)>(a: JsStatement, b: JsStatement, c: JsStatement, env: Env<V>, w: World<V>)
    requires a.SetStack? && b.UnlessHelper? && c.AppendIfNotNull?
    ensures var r := ExecLine(c, ExecLine(b, ExecLine(a, env, w).1, w).1, w);
            FirstReturned([a, b, c, ElseAppendNothing], env, w) == FirstShown([Apart(r.0)], w)
  {
    hide Eval;
    var source := [a, b, c, ElseAppendNothing];
    assert source[1..] == [b, c, ElseAppendNothing];
    assert source[1..][1..] == [c, ElseAppendNothing];
    assert source[1..][1..][1..] == [ElseAppendNothing];
    var env1 := ExecLine(a, env, w).1;
    var env2 := ExecLine(b, env1, w).1;
    var r := ExecLine(c, env2, w);
    assert FirstReturned(source, env, w) == FirstReturned(source[1..], env1, w);
    assert FirstReturned(source[1..], env1, w) == FirstReturned(source[1..][1..], env2, w);
    assert FirstReturned([ElseAppendNothing], r.1, w) == w.quoted("");
    assert FirstReturned([c, ElseAppendNothing], env2, w)
        == if r.0.Some? then r.0.value else FirstReturned([ElseAppendNothing], r.1, w) by {
      assert [c, ElseAppendNothing][1..] == [ElseAppendNothing];
    }
  }

  lemma BlockReturns<V(!new)>(call: Call, program: Option<nat>, inverse: Option<nat>, slot: nat, scope: Scope,
                              env: Env<V>, w: World<V>)
    requires BindableCall(call)
    ensures TransBlock(call, program, inverse, slot, true, scope).Ok?
    ensures SimpleResult(LinesAlone(TransBlock(call, program, inverse, slot, true, scope).value), env, w)
            == FirstShown([MeanBlock(call, program, inverse, env.options, scope, w)], w)
  {
    hide SimpleResult, LinesAlone, AmbiguousLines, MakeOptions, MeanOptions, Computes, ComputesKeeping,
        AppendGuarded, OrNothing;
    CallMeans(call, false, program, inverse, slot, scope, w);
    var code := TransCall(call, false, program, inverse, slot, scope).value;
    var v := MeanCall(call, false, program, inverse, scope, w);
    var path := HeadToPath(call.head);
    match ClassifySexpr(call, false, scope)
    case Helper =>
      ComputesKeepsNothing(code, slot, v, w);
      GuardReturns(code, v, slot, env, w);
    case Simple =>
      ComputesKeepsNothing(code, slot, v, w);
      MissingComputes(code, v, path.original, program, inverse, slot, w);
      var options := MakeOptions(path.original, EmptyObject, ProgramExpr(program), ProgramExpr(inverse));
      var missing := w.blockHelperMissing(v, Some(MeanOptions(path.original, w.record(map[]), program, inverse, w)));
      GuardReturns(BlockHelperMissing(code, Literally(options)), missing, slot, env, w);
    case Ambiguous =>
      AmbiguousReturns(FirstPart(path), code, v, MeanKept(call, false, program, inverse, scope, w), slot, env, w);
  }

  lemma MustacheReturns<V(!new)>(call: Call, escaped: bool, slot: nat, scope: Scope, env: Env<V>, w: World<V>)
    requires BindableCall(call)
    ensures var s := MustacheStatement(call, escaped);
            var t := TransStatement(s, 0, slot, true, scope);
            t.Ok? && SimpleResult(LinesAlone(t.value), env, w)
                == FirstShown(MeanStatement(s, 0, env.options, scope, w), w)
  {
    hide SimpleResult, LinesAlone, Computes, OrNothing, AppendGuarded;
    PlainCallMeans(call, false, slot, scope, w);
    var code := TransCall(call, false, None, None, slot, scope).value;
    var v := MeanCall(call, false, None, None, scope, w);
    if escaped && !scope.options.noEscape {
      OneLineReturns(AppendEscapedValue(code), env, w);
      EscapedLine(code, v, slot, env, w);
    } else {
      GuardReturns(code, v, slot, env, w);
    }
  }

  lemma EscapedLine<V(!new)>(code: JsExpr, v: V, slot: nat, env: Env<V>, w: World<V>)
    requires Computes(code, slot, v, w)
    ensures LineValue(AppendEscapedValue(code), env, w).0 == w.escaped(v)
  {
    assert ComputesIn(code, slot, v, env, w);
  }

  lemma PartialReturns<V(!new)>(name: PartialName, params: seq<Expr>, hash: Hash, program: Option<nat>, indent: string,
                                slot: nat, scope: Scope, env: Env<V>, w: World<V>)
    requires |params| <= 1 && BindableAll(params) && BindableHash(hash)
    requires name.DynamicName? ==> BindableCall(name.call) && !ExplicitlyUndefined(params, scope)
    ensures var t := TransPartial(name, params, hash, program, indent, slot, scope);
            var prevent := scope.options.preventIndent && indent != "";
            t.Ok? && SimpleResult(LinesAlone(t.value), env, w)
                     == if prevent then w.quoted(indent)
                        else OrNothing(MeanPartial(name, params, hash, program, indent, scope, w), w)
  {
    hide SimpleResult, LinesAlone, Computes, PartialOptions, TransPartialFrame, TransHash, MeanPartial, OrNothing,
        AppendGuarded;
    var prevent := scope.options.preventIndent && indent != "";
    var indent' := if prevent then "" else indent;
    PartialCallMeans(name, params, hash, program, indent', slot, scope, w);
    var frame := TransPartialFrame(name, params, slot, scope).value;
    var hashed := TransHash(hash, true, slot, scope).value.value;
    var callee := if name.DynamicName? then frame[0].value else PartialRef(PrintedName(name));
    var call := PartialCall(callee, Last(frame).value, PartialOptions(name, hashed, program),
                            name.DynamicName?, indent');
    var line := AppendGuarded(call, slot);
    var lines := PartialLines(name, frame, hashed, program, indent, slot, scope);
    if prevent {
      assert lines == [Content(indent), Line(line)];
      GuardAppends(call, slot);
      IndentReturns(indent, line, env, w);
    } else {
      assert lines == [Line(line)];
      GuardReturns(call, MeanPartial(name, params, hash, program, indent, scope, w), slot, env, w);
    }
  }

  /** Of an indent that is written and the partial after it only the indent is returned. */
  lemma IndentReturns<V(!new)>(indent: string, line: JsStatement, env: Env<V>, w: World<V>)
    requires indent != "" && Appends(line)
    ensures SimpleResult(LinesAlone([Content(indent), Line(line)]), env, w) == w.quoted(indent)
  {
    EmitContent(Output([], "", []), indent, [Content(indent), Line(line)]);
    assert [Content(indent), Line(line)][1..] == [Line(line)];
    EmitJust(AddContent(Output([], "", []), indent), Line(line));
    assert "" + indent == indent;
  }

  lemma TextReturns<V(!new)>(text: string, env: Env<V>, w: World<V>)
    ensures SimpleResult(LinesAlone([]), env, w) == w.quoted("")
    ensures text != "" ==> SimpleResult(LinesAlone([Content(text)]), env, w) == w.quoted(text)
  {
    EmitJust(Output([], "", []), Content(text));
    assert "" + text == text;
  }

  lemma DecorationReturns<V(!new)>(d: JsStatement, env: Env<V>, w: World<V>)
    ensures SimpleResult(LinesAlone([Decoration(d)]), env, w) == w.quoted("")
  {
    EmitJust(Output([], "", []), Decoration(d));
  }

  /** A program of one statement returns the first of its pieces. */
  lemma SimpleReturns<V(!new)>(s: Statement, scope: Scope, env: Env<V>, w: World<V>)
    requires Supported(s) && Renderable(s, scope)
    ensures TransStatement(s, 0, 1, true, scope).Ok?
    ensures SimpleResult(LinesAlone(TransStatement(s, 0, 1, true, scope).value), env, w)
            == FirstShown(MeanStatement(s, 0, env.options, scope, w), w)
  {
    hide SimpleResult, LinesAlone, MeanBlock, TransCall, TransBlock, TransPartial, TransParams, TransHash;
    match s
    case ContentStatement(value) => TextReturns(value, env, w);
    case CommentStatement => TextReturns("", env, w);
    case MustacheStatement(call, escaped) => MustacheReturns(call, escaped, 1, scope, env, w);
    case BlockStatement(call, program, inverse) =>
      BlockReturns(call, OptionalGuid(program, 0), InverseGuid(program, inverse, 0), 1, scope, env, w);
    case PartialStatement(name, params, hash, partialBlock, indent) =>
      PartialReturns(name, params, hash, OptionalGuid(partialBlock, 0), indent, 1, scope, env, w);
    case Decorator(call, decorated) =>
      ParamsMean(call.params, 1, scope, w);
      HashMeans(call.hash, false, 1, scope, w);
      DecorationReturns(TransStatement(s, 0, 1, true, scope).value[0].decorator, env, w);
  }

  // ---------- main theorems ----------

  /** At the start of a function its variables are undefined. */
  function Fresh<V>(): Env<V> {
    Env(map[], None)
  }

  predicate AllSupported(p: Program) {
    forall s <- p.body :: Supported(s)
  }

  function MeanPieces<V>(p: Program, scope: Scope, w: World<V>): seq<Piece<V>>
    requires AllSupported(p)
  {
    MeanBody(p.body, 0, None, Inside(p, scope), w)
  }

  function MeanPage<V>(p: Program, scope: Scope, w: World<V>): Page<V>
    requires AllSupported(p)
  {
    PutAll(Page([], [], ""), MeanPieces(p, scope, w), w)
  }

  /** The value a program stands for: the first thing that its one statement shows, or the
      sum of what its statements show. */
  function MeanProgram<V>(p: Program, scope: Scope, w: World<V>): V
    requires AllSupported(p)
  {
    if |p.body| == 1 then FirstShown(MeanPieces(p, scope, w), w) else Answer(MeanPage(p, scope, w), w)
  }

  /** Main theorem: the function a program compiles to returns the value the program stands
      for, whatever the values it works on and whatever `+` does to them. */
  lemma ProgramMeans<V(!new)>(p: Program, scope: Scope, w: World<V>)
    requires CompileProgram(p, scope).Ok?
    requires forall s <- p.body :: Renderable(s, Inside(p, scope))
    ensures AllSupported(p) && Generated(CompileProgram(p, scope).value).Ok?
    ensures Returned(Generated(CompileProgram(p, scope).value).value, Fresh(), w) == MeanProgram(p, scope, w)
  {
    hide RunProgram, TransBody, MeanBody, Renderable, Emit, MergeSource, Answer, PutAll, PutEmissions;
    ProgramCorrect(p, scope);
    if |p.body| == 1 {
      OneStatement(p, scope, w);
    } else {
      ManyStatements(p, scope, w);
    }
  }

  lemma OneStatement<V(!new)>(p: Program, scope: Scope, w: World<V>)
    requires AllSupported(p) && |p.body| == 1
    requires forall s <- p.body :: Renderable(s, Inside(p, scope))
    ensures Expected(p, scope).Ok?
    ensures Returned(MergeSource(Expected(p, scope).value.source, true), Fresh(), w) == MeanProgram(p, scope, w)
  {
    hide TransStatement, TransBody, MeanStatement, MeanBody, Renderable, Emit, FirstReturned, FirstShown, RunLength;
    var s, inner := p.body[0], Inside(p, scope);
    SimpleReturns(s, inner, Fresh(), w);
    OneBody(p.body, inner, None, w);
    LinesBack(LinesAlone(TransStatement(s, 0, 1, true, inner).value));
  }

  lemma OneBody<V(!new)>(body: seq<Statement>, scope: Scope, kept: Option<CallOptionValues<V>>, w: World<V>)
    requires |body| == 1 && Supported(body[0])
    requires TransStatement(body[0], 0, 1, true, scope).Ok?
    ensures TransBody(body, 0, 1, true, scope) == TransStatement(body[0], 0, 1, true, scope)
    ensures MeanBody(body, 0, kept, scope, w) == MeanStatement(body[0], 0, kept, scope, w)
  {
    hide TransStatement, MeanStatement, KeptBy;
    assert body[1..] == [];
    var lines := TransStatement(body[0], 0, 1, true, scope).value;
    assert lines + [] == lines;
    var pieces := MeanStatement(body[0], 0, kept, scope, w);
    assert pieces + [] == pieces;
  }

  lemma {:induction false} LinesBack(source: seq<JsStatement>)
    ensures LinesOf(Lines(source)) == source
  {
    if source != [] {
      LinesBack(source[1..]);
      assert Lines(source)[1..] == Lines(source[1..]);
    }
  }

  lemma ManyStatements<V(!new)>(p: Program, scope: Scope, w: World<V>)
    requires AllSupported(p) && |p.body| != 1
    requires forall s <- p.body :: Renderable(s, Inside(p, scope))
    ensures Expected(p, scope).Ok?
    ensures Returned(MergeSource(Expected(p, scope).value.source, false), Fresh(), w) == MeanProgram(p, scope, w)
  {
    hide TransBody, MeanBody, Renderable, Emit, MergeSource, Summands, PutAll, PutEmissions, PutLines, Returned;
    var start: Env<V> := Fresh();
    var empty: Page<V> := Page([], [], "");
    BodyPuts(p.body, 0, 1, Inside(p, scope), empty, start, w);
    var lines := TransBody(p.body, 0, 1, false, Inside(p, scope)).value;
    var nothing := Output([], "", []);
    EmitPuts(nothing, lines, start, w);
    NoLines(empty, start, w);
    var o := Emit(nothing, lines);
    FlushSettles(o, start, w);
    MergedAnswers(FlushPending(o).source, start, w);
    SettledAnswer(OutputPage(o, start, w).0, w);
  }

  lemma NoLines<V(!new)>(p: Page<V>, env: Env<V>, w: World<V>)
    ensures PutLines([], p, env, w) == (p, env)
  {
  }

  lemma SettledAnswer<V(!new)>(p: Page<V>, w: World<V>)
    ensures Answer(Settle(p, w), w) == Answer(p, w)
  {
  }

  /** Nothing that the program shows is lost or added up: its one statement shows nothing after
      the first thing, or no sum it returns starts with two values that are no texts. */
  ghost predicate ShowsTexts<V(!new)>(p: Program, scope: Scope, w: World<V>)
    requires AllSupported(p)
  {
    var pieces := MeanPieces(p, scope, w);
    if |p.body| == 1 then pieces == [] || Plain(pieces[1..], w) == "" else NothingAdded(MeanPage(p, scope, w), w)
  }

  /** Main theorem: then what the function returns is shown as the texts of all statements
      in order. */
  lemma ProgramRenders<V(!new)>(p: Program, scope: Scope, w: World<V>)
    requires CompileProgram(p, scope).Ok?
    requires forall s <- p.body :: Renderable(s, Inside(p, scope))
    requires AddsLikeJavaScript(w)
    ensures AllSupported(p) && Generated(CompileProgram(p, scope).value).Ok?
    ensures ShowsTexts(p, scope, w) ==>
              w.text(Returned(Generated(CompileProgram(p, scope).value).value, Fresh(), w))
              == Plain(MeanPieces(p, scope, w), w)
  {
    hide Renderable, MeanBody, AddsLikeJavaScript, NothingAdded, Answer, PutAll, Generated, Returned, FirstShown, Plain;
    ProgramMeans(p, scope, w);
    if |p.body| == 1 {
      FirstShows(MeanPieces(p, scope, w), w);
    } else {
      PiecesText(p, scope, w);
      if ShowsTexts(p, scope, w) { AnswerShows(MeanPage(p, scope, w), w); }
    }
  }

  /** The first piece is all the text exactly if the others have none. */
  lemma FirstShows<V(!new)>(pieces: seq<Piece<V>>, w: World<V>)
    requires AddsLikeJavaScript(w)
    ensures w.text(FirstShown(pieces, w)) == Plain(pieces, w) <==> pieces == [] || Plain(pieces[1..], w) == ""
  {
    hide AddsLikeJavaScript;
    QuotedIs("", w);
    if pieces != [] {
      if pieces[0].Literal? { QuotedIs(pieces[0].text, w); }
      var first, rest := PlainOne(pieces[0], w), Plain(pieces[1..], w);
      assert w.text(FirstShown(pieces, w)) == first;
      if rest == "" { assert first + "" == first; } else { assert |first + rest| > |first|; }
    }
  }

  lemma PiecesText<V(!new)>(p: Program, scope: Scope, w: World<V>)
    requires AllSupported(p) && AddsLikeJavaScript(w)
    ensures PageText(MeanPage(p, scope, w), w) == Plain(MeanPieces(p, scope, w), w)
  {
    hide AddsLikeJavaScript, MeanPieces, Plain, PutAll;
    var pieces := MeanPieces(p, scope, w);
    PutAllText(Page([], [], ""), pieces, w);
    assert "" + "" + "" + Plain(pieces, w) == Plain(pieces, w);
  }

  predicate StandsApart(s: Statement, scope: Scope) {
    s.BlockStatement? && ClassifySexpr(s.call, false, scope) == Ambiguous
  }

  /** For a program without ambiguous blocks the condition is exact. */
  lemma ProgramRendersIff<V(!new)>(p: Program, scope: Scope, w: World<V>)
    requires CompileProgram(p, scope).Ok?
    requires forall s <- p.body :: Renderable(s, Inside(p, scope)) && !StandsApart(s, Inside(p, scope))
    requires AddsLikeJavaScript(w) && SumsAreNoTexts(w)
    ensures AllSupported(p) && Generated(CompileProgram(p, scope).value).Ok?
    ensures w.text(Returned(Generated(CompileProgram(p, scope).value).value, Fresh(), w))
            == Plain(MeanPieces(p, scope, w), w)
            <==> ShowsTexts(p, scope, w)
  {
    hide Renderable, MeanBody, AddsLikeJavaScript, SumsAreNoTexts, NothingAdded, Answer, PutAll, Generated, Returned,
         StandsApart, FirstShown, Plain;
    ProgramMeans(p, scope, w);
    if |p.body| == 1 {
      FirstShows(MeanPieces(p, scope, w), w);
    } else {
      PiecesText(p, scope, w);
      NothingApart(p.body, 0, None, Inside(p, scope), w);
      OneRunOnly(Page([], [], ""), MeanPieces(p, scope, w), w);
      AnswerShowsIff(MeanPage(p, scope, w), w);
    }
  }

  /** Where sums print smaller it is exact for every program. */
  lemma ProgramRendersExactly<V(!new)>(p: Program, scope: Scope, w: World<V>)
    requires CompileProgram(p, scope).Ok?
    requires forall s <- p.body :: Renderable(s, Inside(p, scope))
    requires AddsLikeJavaScript(w) && SumsPrintSmaller(w)
    ensures AllSupported(p) && Generated(CompileProgram(p, scope).value).Ok?
    ensures w.text(Returned(Generated(CompileProgram(p, scope).value).value, Fresh(), w))
            == Plain(MeanPieces(p, scope, w), w)
            <==> ShowsTexts(p, scope, w)
  {
    hide Renderable, MeanBody, AddsLikeJavaScript, SumsPrintSmaller, NothingAdded, Answer, PutAll, Generated, Returned,
         FirstShown, Plain;
    ProgramMeans(p, scope, w);
    if |p.body| == 1 {
      FirstShows(MeanPieces(p, scope, w), w);
    } else {
      PiecesText(p, scope, w);
      AnswerShowsExactly(MeanPage(p, scope, w), w);
    }
  }

  lemma PiecesNotApart<V(!new)>(s: Statement, first: nat, kept: Option<CallOptionValues<V>>, scope: Scope, w: World<V>)
    requires Supported(s) && !StandsApart(s, scope)
    ensures forall piece <- MeanStatement(s, first, kept, scope, w) :: !piece.Apart?
  {
    hide MeanCall, MeanPartial;
  }

  lemma {:induction false} NothingApart<V(!new)>(body: seq<Statement>, first: nat, kept: Option<CallOptionValues<V>>,
                                                 scope: Scope, w: World<V>)
    requires forall s <- body :: Supported(s) && !StandsApart(s, scope)
    ensures forall piece <- MeanBody(body, first, kept, scope, w) :: !piece.Apart?
    decreases |body|
  {
    hide KeptBy, MeanStatement, StandsApart;
    if body != [] {
      assert body[0] in body;
      PiecesNotApart(body[0], first, kept, scope, w);
      NothingApart(body[1..], first + ProgramCount(body[0]), KeptBy(body[0], first, kept, scope, w), scope, w);
    }
  }

  lemma {:induction false} OneRunOnly<V(!new)>(p: Page<V>, pieces: seq<Piece<V>>, w: World<V>)
    requires p.sums == [] && forall piece <- pieces :: !piece.Apart?
    ensures PutAll(p, pieces, w).sums == []
    decreases |pieces|
  {
    if pieces != [] {
      assert pieces[0] in pieces;
      OneRunOnly(Put(p, pieces[0], w), pieces[1..], w);
    }
  }
}
