/** What the statements of a template show, told by its tree alone, and some whole templates. */
module HandlebarsTemplates {
  import opened Outcomes
  import opened HandlebarsAst
  import opened HandlebarsCompiler
  import opened HandlebarsMachine
  import opened HandlebarsTranslation
  import opened HandlebarsStatements
  import opened HandlebarsMerge
  import opened HandlebarsMeaning
  import opened HandlebarsSums
  import opened HandlebarsRendering
  import opened HandlebarsCalls

  // ---------- statements ----------

  /** A value that is not escaped is shown as it is, null as the empty string. */
  ghost predicate ShowsAs<V(!new)>(shown: V, v: V, w: World<V>) {
    shown == if w.nullish(v) then w.quoted("") else v
  }

  lemma MustacheMeans<V(!new)>(call: Call, escaped: bool, first: nat, kept: Option<CallOptionValues<V>>, scope: Scope,
                               w: World<V>)
    ensures var v := MeanCall(call, false, None, None, scope, w);
            var pieces := MeanStatement(MustacheStatement(call, escaped), first, kept, scope, w);
            && |pieces| == 1 && pieces[0].Joined?
            && if escaped && !scope.options.noEscape then pieces[0].value == w.escaped(v)
               else ShowsAs(pieces[0].value, v, w)
  {
    hide MeanCall;
  }

  /** The programs of a block are numbered in order, counting on from those before it. */
  ghost predicate Numbered(program: Option<Program>, inverse: Option<Program>, first: nat, p: Option<nat>,
                           i: Option<nat>)
  {
    && p == (if program.Some? then Some(first) else None)
    && i == (if inverse.None? then None else if program.Some? then Some(first + 1) else Some(first))
  }

  /** What a block shows. A helper call is shown as a value is. A name alone that is no helper goes
      with its value to `blockHelperMissing`, which gets the options of the last such block that has
      a program; null stands apart and shows nothing. Any other value goes there with its own. */
  lemma BlockMeans<V(!new)>(call: Call, path: Path, program: Option<Program>, inverse: Option<Program>, first: nat,
                            p: Option<nat>, i: Option<nat>, kept: Option<CallOptionValues<V>>, scope: Scope,
                            w: World<V>)
    requires Names(call.head, path) && Numbered(program, inverse, first, p, i)
    ensures var v := MeanCall(call, false, p, i, scope, w);
            var s := BlockStatement(call, program, inverse);
            var pieces := MeanStatement(s, first, kept, scope, w);
            && |pieces| == 1
            && KeptBy(s, first, kept, scope, w)
               == BlockOptions(call, path, p, i, kept, scope, w)
            && (if CallsHelper(call, path, false, scope) then pieces[0].Joined? && ShowsAs(pieces[0].value, v, w)
                else if MayCallHelper(call, path, false, scope) then
                  var shown := if w.truthy(w.helper(path.parts[0])) then v
                               else w.blockHelperMissing(v, KeptBy(s, first, kept, scope, w));
                  pieces[0] == Apart(if w.nullish(shown) then None else Some(shown))
                else
                  pieces[0].Joined?
                  && ShowsAs(pieces[0].value, w.blockHelperMissing(v, Some(OwnOptions(path.original, p, i, w))), w))
  {
    hide MeanCall, Scoped, Bound, ClassifySexpr;
    KindIs(call, path, false, scope);
    assert OptionalGuid(program, first) == p && InverseGuid(program, inverse, first) == i;
    OptionsAreOwn(FirstPart(path), p, i, w);
    OptionsAreOwn(path.original, p, i, w);
  }

  /** The name, no hash, and the programs, of which a missing one does nothing. */
  ghost function OwnOptions<V>(name: string, p: Option<nat>, i: Option<nat>, w: World<V>): CallOptionValues<V> {
    CallOptionValues(Some(name), w.record(map[]),
      match (p, i)
      case (None, None) => None
      case (Some(g), None) => Some((w.program(g), w.word("container.noop")))
      case (None, Some(h)) => Some((w.word("container.noop"), w.program(h)))
      case (Some(g), Some(h)) => Some((w.program(g), w.program(h))))
  }

  lemma OptionsAreOwn<V>(name: string, p: Option<nat>, i: Option<nat>, w: World<V>)
    ensures MeanOptions(name, w.record(map[]), p, i, w) == OwnOptions(name, p, i, w)
  {
  }

  ghost function BlockOptions<V(!new)>(call: Call, path: Path, p: Option<nat>, i: Option<nat>,
                                       kept: Option<CallOptionValues<V>>, scope: Scope, w: World<V>)
    : Option<CallOptionValues<V>>
  {
    if MayCallHelper(call, path, false, scope) && (p.Some? || i.Some?) then Some(OwnOptions(path.parts[0], p, i, w))
    else kept
  }

  /** A partial is called by its name or by the value of its subexpression, on its argument, or
      without one on the context or explicitly on nothing; its hash is nothing if it has none. */
  lemma PartialMeans<V(!new)>(name: PartialName, params: seq<Expr>, hash: Hash, block: Option<Program>, indent: string,
                              first: nat, kept: Option<CallOptionValues<V>>, scope: Scope, w: World<V>)
    requires |params| <= 1
    ensures var prevent := scope.options.preventIndent && indent != "";
            var pieces := MeanStatement(PartialStatement(name, params, hash, block, indent), first, kept, scope, w);
            && |pieces| == (if prevent then 2 else 1) && (prevent ==> pieces[0] == Literal(indent))
            && pieces[|pieces| - 1].Joined?
            && var callee := if name.StaticName? then w.partial(name.original)
                             else MeanCall(name.call, true, None, None, scope, w);
               var context := if |params| == 1 then MeanExpr(params[0], scope, w)
                              else if scope.options.explicitPartialContext then w.word("undefined") else w.context(0);
               var given := MeanHash(hash, true, scope, w);
               var options := CallOptionValues(
                 if name.StaticName? then Some(name.original) else None, given,
                 if block.None? then None else Some((w.program(first), w.word("container.noop"))));
               && (if hash.NoHash? then given == w.word("undefined") else HashIs(given, hash, scope, w))
               && ShowsAs(pieces[|pieces| - 1].value,
                          w.invokePartial(callee, context, options, if prevent then "" else indent), w)
  {
    hide MeanCall, MeanExpr, MeanHash, HashIs;
    HashOfPartial(hash, scope, w);
  }

  lemma HashOfPartial<V(!new)>(hash: Hash, scope: Scope, w: World<V>)
    ensures if hash.NoHash? then MeanHash(hash, true, scope, w) == w.word("undefined")
            else HashIs(MeanHash(hash, true, scope, w), hash, scope, w)
  {
    hide MeanPairs, Records;
    HashIsRecord(hash, scope, w);
  }

  // ---------- decorators ----------

  /** A decorator is registered with the code of its parameters in order, its name, its hash and
      the program it decorates. */
  lemma DecoratorRuns(call: Call, path: Path, decorated: Option<Program>, first: nat, slot: nat, simple: bool,
                      scope: Scope)
    requires Names(call.head, path)
    requires TransStatement(Decorator(call, decorated), first, slot, simple, scope).Ok?
    ensures var lines := TransStatement(Decorator(call, decorated), first, slot, simple, scope).value;
            && |lines| == 1 && lines[0].Decoration? && lines[0].decorator.RunDecorator?
            && var d := lines[0].decorator;
               && d.name == path.original && d.options.name == Some(path.original)
               && |d.args| == |call.params|
               && (forall k :: 0 <= k < |d.args| ==> ArgumentCode(call.params[k], slot, scope) == Ok(d.args[k]))
               && (call.hash.NoHash? ==> d.options.hash == EmptyObject)
               && d.options.programs == if decorated.None? then None
                                        else Some((ProgramRef(first), Word("container.noop")))
  {
    hide TransParams, TransPairs, TransFields, TransExpr;
    ParamsCode(call.params, slot, scope);
  }

  ghost function ArgumentCode(e: Expr, slot: nat, scope: Scope): Result<JsExpr, Fault> {
    match TransExpr(e, slot, scope) case Err(fault) => Err(fault) case Ok(entry) => Ok(entry.value)
  }

  lemma {:induction false} ParamsCode(params: seq<Expr>, slot: nat, scope: Scope)
    requires TransParams(params, slot, scope).Ok?
    ensures var args := TransParams(params, slot, scope).value;
            forall k :: 0 <= k < |args| ==> ArgumentCode(params[k], slot, scope) == Ok(args[k].value)
    decreases |params|
  {
    hide TransExpr;
    if params != [] { ParamsCode(params[1..], slot, scope); }
  }

  // ---------- which templates compile ----------

  /** No partial of the program, however deep, has more than one argument. */
  ghost predicate PartialsFit(p: Program)
    decreases p, 1
  {
    forall s <- p.body :: StatementFits(s)
  }

  ghost predicate StatementFits(s: Statement)
    decreases s, 0
  {
    match s
    case BlockStatement(_, program, inverse) => OptionFits(program) && OptionFits(inverse)
    case PartialStatement(_, params, _, partialBlock, _) => |params| <= 1 && OptionFits(partialBlock)
    case Decorator(_, decorated) => OptionFits(decorated)
    case _ => true
  }

  ghost predicate OptionFits(program: Option<Program>)
    decreases program, 2
  {
    program.Some? ==> PartialsFit(program.value)
  }

  const TOO_MANY := "Unsupported number of partial arguments"

  /** A template compiles if and only if no partial has more than one argument. */
  lemma {:induction false} CompilesIff(p: Program, scope: Scope)
    ensures CompileProgram(p, scope).Ok? <==> PartialsFit(p)
    ensures CompileProgram(p, scope).Err? ==> CompileProgram(p, scope).error == TOO_MANY
    decreases p, 3
  {
    BodyCompilesIff(p.body, 0, scope.(blockParams := [p.blockParams] + scope.blockParams));
  }

  lemma {:induction false} BodyCompilesIff(body: seq<Statement>, first: nat, scope: Scope)
    ensures BodyOps(body, first, scope).Ok? <==> forall s <- body :: StatementFits(s)
    ensures BodyOps(body, first, scope).Err? ==> BodyOps(body, first, scope).error == TOO_MANY
    decreases body, 2
  {
    hide StatementOps, StatementFits;
    if body != [] {
      StatementCompilesIff(body[0], first, scope);
      var head := StatementOps(body[0], first, scope);
      assert forall s <- body :: s == body[0] || s in body[1..];
      if head.Ok? { BodyCompilesIff(body[1..], first + |head.value.children|, scope); }
    }
  }

  lemma {:induction false} StatementCompilesIff(s: Statement, first: nat, scope: Scope)
    ensures StatementOps(s, first, scope).Ok? <==> StatementFits(s)
    ensures StatementOps(s, first, scope).Err? ==> StatementOps(s, first, scope).error == TOO_MANY
    decreases s, 1
  {
    hide CallOps, ParamsOps, HashParamOps, PathOps, BlockOps, PartialOps, PartialFrameOps, NameOps, CompileProgram,
        PartialsFit;
    match s
    case BlockStatement(_, program, inverse) =>
      if program.Some? { CompilesIff(program.value, scope); }
      if inverse.Some? { CompilesIff(inverse.value, scope); }
    case PartialStatement(_, _, _, partialBlock, _) =>
      if partialBlock.Some? { CompilesIff(partialBlock.value, scope); }
    case Decorator(_, decorated) =>
      if decorated.Some? { CompilesIff(decorated.value, scope); }
    case _ =>
  }

  // ---------- the code generator ----------

  /** It starts with empty stacks, no hash, no variable declared, and nothing written. */
  lemma GeneratorStarts(isSimple: bool)
    ensures var m := Initial(isSimple);
            && m.inlineStack == m.compileStack == [] && m.stackSlot == 0 && m.hash.None? && m.hashes == []
            && m.registers == Registers(0, 0, None) && m.isSimple == isSimple
            && m.output.source == m.output.decorators == [] && m.output.pending == ""
  {
  }

  /** A spilled value that is missing pops as undefined, and gives its slot back all the same. */
  lemma NothingPops(m: Machine)
    requires m.inlineStack == m.compileStack == []
    ensures Pop(m) == if m.stackSlot == 0 then Err(InvalidStackPop)
                      else Ok((m.(stackSlot := m.stackSlot - 1), JsExpr.Undefined))
  {
  }

  /** Which values on the stack count as a program that was given. */
  lemma TruthyIs(v: JsExpr)
    ensures Truthy(v) <==> v !in {NoProgram, JsExpr.Undefined, JsExpr.Number(0.0), Boolean(false), Word("")}
  {
  }

  // ---------- known answers ----------

  lemma NotScoped(path: Path)
    requires path.original != "" && path.original[0] != '.' && 't' !in path.original
    ensures !ScopedId(path)
  {
    hide ThisWordAt;
    var o := path.original;
    forall i: nat | i < |o| ensures !ThisWordAt(o, i) { ThisStarts(o, i); }
  }

  lemma ThisStarts(text: string, i: nat)
    ensures ThisWordAt(text, i) ==> i < |text| && text[i] == 't'
  {
    if ThisWordAt(text, i) { assert text[i..i + 4][0] == 't'; }
  }

  /** A program of one statement returns the first thing that the statement shows. */
  lemma AloneReturns<V(!new)>(s: Statement, params: Option<seq<string>>, scope: Scope, w: World<V>)
    requires CompileProgram(Program([s], params), scope).Ok?
    requires Renderable(s, scope.(blockParams := [params] + scope.blockParams))
    ensures Supported(s) && Generated(CompileProgram(Program([s], params), scope).value).Ok?
    ensures Returned(Generated(CompileProgram(Program([s], params), scope).value).value, Fresh(), w)
            == FirstShown(MeanStatement(s, 0, None, scope.(blockParams := [params] + scope.blockParams), w), w)
  {
    hide CompileProgram, Generated, Returned, Renderable, MeanStatement, FirstShown, TransStatement, TransBody;
    var p := Program([s], params);
    ProgramMeans(p, scope, w);
    assert s in p.body;
    var inner := Inside(p, scope);
    StatementTranslates(s, inner, w);
    OneBody(p.body, inner, None, w);
  }

  lemma AloneCompiles(s: Statement, params: Option<seq<string>>, scope: Scope)
    ensures CompileProgram(Program([s], params), scope)
            == match StatementOps(s, 0, scope.(blockParams := [params] + scope.blockParams))
               case Err(error) => Err(error)
               case Ok(c) => Ok(Environment(c.ops, c.children, true))
  {
    hide StatementOps;
    assert [s][1..] == [];
    var inner := scope.(blockParams := [params] + scope.blockParams);
    match StatementOps(s, 0, inner)
    case Err(_) =>
    case Ok(c) =>
      assert BodyOps([], |c.children|, inner) == Ok(Compiled([], []));
      assert c.ops + [] == c.ops && c.children + [] == c.children;
  }

  lemma StatementTranslates<V(!new)>(s: Statement, scope: Scope, w: World<V>)
    requires Supported(s) && Renderable(s, scope)
    ensures TransStatement(s, 0, 1, true, scope).Ok?
  {
    hide TransStatement, Renderable, SimpleResult, LinesAlone, MeanStatement, FirstShown;
    SimpleReturns(s, scope, Fresh(), w);
  }

  function Named(name: string): Path {
    Path([name], 0, false, name)
  }

  const PLAIN := Scope(Options({}, false, false, false), [])

  /** `{{link href="x"}}` */
  const LINK := Call(HeadPath(Named("link")), [], Hash([Pair("href", StringLiteral("x"))]))

  function LinkProgram(): Program {
    Program([MustacheStatement(LINK, true)], None)
  }

  const LINK_CALL: seq<Opcode> :=
    [PushProgram(None), PushProgram(None), PushHash, PushString("x"), AssignToHash("href"), PopHash,
     GetContext(0), LookupOnContext(["link"], true), InvokeHelper(0, "link", true)]

  lemma LinkCallOps(scope: Scope)
    requires scope == PLAIN.(blockParams := [None])
    ensures CallOps(LINK, false, None, None, scope) == LINK_CALL
  {
    var path := Named("link");
    NotScoped(path);
    var pairs := LINK.hash.pairs;
    assert pairs[1..] == [] && scope.blockParams[1..] == [];
    assert BlockParamIndex(scope.blockParams, "link").None?;
    assert ParamsOps([], scope) == [];
    assert ValuesOps(pairs, scope) == [PushString("x")] + ValuesOps([], scope) == [PushString("x")];
    assert AssignOps(pairs) == AssignOps([]) + [AssignToHash("href")] == [AssignToHash("href")];
  }

  /** The helper gets the hash, and what it returns is shown escaped. */
  lemma LinkReturns<V(!new)>(w: World<V>)
    ensures CompileProgram(LinkProgram(), PLAIN)
            == Ok(Environment(LINK_CALL + [AppendEscaped], [], true))
    ensures Generated(CompileProgram(LinkProgram(), PLAIN).value).Ok?
    ensures var value := if w.truthy(w.context(0)) then w.member(w.context(0), "link") else w.context(0);
            var f := if w.truthy(w.helper("link")) then w.helper("link")
                     else if w.truthy(value) then value else w.helperMissing;
            Returned(Generated(CompileProgram(LinkProgram(), PLAIN).value).value, Fresh(), w)
            == w.escaped(w.call(f, [], CallOptionValues(Some("link"), w.record(map["href" := w.quoted("x")]), None)))
  {
    var scope := PLAIN.(blockParams := [None]);
    var s := MustacheStatement(LINK, true);
    LinkCompiles();
    LinkMeans(w);
    hide CompileProgram, Generated, Returned, MeanCall;
    assert LINK.hash.pairs == [Pair("href", StringLiteral("x"))];
    assert Renderable(s, scope);
    AloneReturns(s, None, PLAIN, w);
    assert PLAIN.blockParams == [] && [None] + PLAIN.blockParams == scope.blockParams;
    var none: Option<CallOptionValues<V>> := None;
    MustacheMeans(LINK, true, 0, none, scope, w);
  }

  lemma LinkCompiles()
    ensures CompileProgram(LinkProgram(), PLAIN)
            == Ok(Environment(LINK_CALL + [AppendEscaped], [], true))
  {
    hide CallOps;
    var scope := PLAIN.(blockParams := [None]);
    LinkCallOps(scope);
    AloneCompiles(MustacheStatement(LINK, true), None, PLAIN);
    var ops := CallOps(LINK, false, None, None, scope);
    assert StatementOps(MustacheStatement(LINK, true), 0, scope) == Ok(Compiled(ops + [AppendEscaped], []));
    assert PLAIN.(blockParams := [None] + PLAIN.blockParams) == scope;
  }

  lemma LinkMeans<V(!new)>(w: World<V>)
    ensures var value := if w.truthy(w.context(0)) then w.member(w.context(0), "link") else w.context(0);
            var f := if w.truthy(w.helper("link")) then w.helper("link")
                     else if w.truthy(value) then value else w.helperMissing;
            MeanCall(LINK, false, None, None, PLAIN.(blockParams := [None]), w)
            == w.call(f, [], CallOptionValues(Some("link"), w.record(map["href" := w.quoted("x")]), None))
  {
    var scope := PLAIN.(blockParams := [None]);
    var path := Named("link");
    NotScoped(path);
    var pairs := LINK.hash.pairs;
    assert pairs[1..] == [] && scope.blockParams[1..] == [] && path.parts[1..] == [];
    assert BlockParamIndex(scope.blockParams, "link").None?;
    assert MeanPairs(pairs, scope, w) == map["href" := w.quoted("x")];
    assert MeanParams([], scope, w) == [];
    assert FindAll(w.context(0), ["link"], true, w) == FindAll(Find(w.context(0), "link", true, w), [], true, w);
  }
}
