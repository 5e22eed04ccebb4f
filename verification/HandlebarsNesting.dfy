/** How the programs of blocks compose: what a block shows from what its program means. */
module HandlebarsNesting {
  import opened Outcomes
  import opened HandlebarsAst
  import opened HandlebarsCompiler
  import opened HandlebarsMerge
  import opened HandlebarsStatements
  import opened HandlebarsMeaning
  import opened HandlebarsSums
  import opened HandlebarsRendering

  /** What a running function sees besides the helpers: contexts and block parameters with the
      innermost first, and the data frames. */
  datatype Frame<!V> = Frame(contexts: seq<V>, data: nat -> V, blockParams: seq<seq<V>>)

  /** What a helper hands to a program it runs. */
  datatype Passed<!V> = Passed(context: V, data: Option<nat -> V>, blockParams: seq<V>)

  /** `program` makes the function value for a compiled program in a frame, `run` calls it. */
  datatype Runtime<!V> = Runtime(globals: World<V>, program: (Environment, Frame<V>) -> V, run: (V, Passed<V>) -> V)

  function At<V>(vs: seq<V>, i: nat, otherwise: V): V {
    if i < |vs| then vs[i] else otherwise
  }

  function BlockParamAt<V>(f: Frame<V>, frame: nat, index: nat, otherwise: V): V {
    if frame < |f.blockParams| then At(f.blockParams[frame], index, otherwise) else otherwise
  }

  function ProgramAt<V>(r: Runtime<V>, env: Environment, f: Frame<V>, guid: nat): V {
    if guid < |env.children| then r.program(env.children[guid], f) else r.globals.word("undefined")
  }

  /** The world of a compiled program that runs in a frame. */
  function WorldOf<V>(r: Runtime<V>, env: Environment, f: Frame<V>): World<V> {
    r.globals.(
      context := (depth: nat) => At(f.contexts, depth, r.globals.word("undefined")),
      data := f.data,
      blockParam := (frame: nat, index: nat) => BlockParamAt(f, frame, index, r.globals.word("undefined")),
      program := (guid: nat) => ProgramAt(r, env, f, guid))
  }

  /** The frame a program runs in; a context passed again gets no depth of its own. */
  ghost function Enter<V(!new)>(f: Frame<V>, passed: Passed<V>): Frame<V> {
    Frame(if f.contexts != [] && f.contexts[0] == passed.context then f.contexts else [passed.context] + f.contexts,
          if passed.data.Some? then passed.data.value else f.data,
          [passed.blockParams] + f.blockParams)
  }

  /** Running the function value of a program runs its generated code in its own world. */
  ghost predicate RunsPrograms<V(!new)>(r: Runtime<V>) {
    forall env: Environment, f: Frame<V>, passed: Passed<V> :: Generated(env).Ok? ==>
      r.run(r.program(env, f), passed) == Returned(Generated(env).value, Fresh(), WorldOf(r, env, Enter(f, passed)))
  }

  /** The guid of the first program of statement `i`. */
  function GuidAt(body: seq<Statement>, i: nat): nat
    requires i <= |body|
  {
    if i == 0 then 0 else GuidAt(body, i - 1) + ProgramCount(body[i - 1])
  }

  function Listed(program: Option<Program>): seq<Program> {
    match program case None => [] case Some(q) => [q]
  }

  /** The programs below a statement, in the order of their guids. */
  function ProgramsOf(s: Statement): seq<Program> {
    match s
    case BlockStatement(_, program, inverse) => Listed(program) + Listed(inverse)
    case PartialStatement(_, _, _, partialBlock, _) => Listed(partialBlock)
    case Decorator(_, decorated) => Listed(decorated)
    case _ => []
  }

  lemma ChildrenOf(s: Statement, first: nat, scope: Scope)
    requires StatementOps(s, first, scope).Ok?
    ensures var children := StatementOps(s, first, scope).value.children;
            && |children| == |ProgramsOf(s)| == ProgramCount(s)
            && forall k :: 0 <= k < |children| ==>
                 CompileProgram(ProgramsOf(s)[k], scope) == Ok(children[k])
  {
    hide CallOps, ParamsOps, HashParamOps, PathOps, ClassifySexpr, CompileProgram;
  }

  lemma {:induction false} BodyChild(body: seq<Statement>, i: nat, k: nat, first: nat, scope: Scope)
    requires BodyOps(body, first, scope).Ok? && i < |body| && k < |ProgramsOf(body[i])|
    ensures GuidAt(body, i) + k < |BodyOps(body, first, scope).value.children|
    ensures CompileProgram(ProgramsOf(body[i])[k], scope)
            == Ok(BodyOps(body, first, scope).value.children[GuidAt(body, i) + k])
    decreases |body|
  {
    hide StatementOps, CompileProgram, ProgramsOf, ProgramCount;
    var head := StatementOps(body[0], first, scope).value;
    ChildrenOf(body[0], first, scope);
    if i > 0 {
      BodyChild(body[1..], i - 1, k, first + |head.children|, scope);
      GuidShift(body, i);
    }
  }

  lemma {:induction false} GuidShift(body: seq<Statement>, i: nat)
    requires 0 < i <= |body|
    ensures GuidAt(body, i) == ProgramCount(body[0]) + GuidAt(body[1..], i - 1)
  {
    if i > 1 { GuidShift(body, i - 1); }
  }

  /** Program `k` of statement `i` compiled to the child that its guid names. */
  lemma BlockChild(p: Program, scope: Scope, i: nat, k: nat)
    requires CompileProgram(p, scope).Ok? && i < |p.body| && k < |ProgramsOf(p.body[i])|
    ensures GuidAt(p.body, i) + k < |CompileProgram(p, scope).value.children|
    ensures CompileProgram(ProgramsOf(p.body[i])[k], Inside(p, scope))
            == Ok(CompileProgram(p, scope).value.children[GuidAt(p.body, i) + k])
  {
    hide BodyOps, ProgramsOf;
    BodyChild(p.body, i, k, 0, Inside(p, scope));
  }

  /** The world a block's program runs in. */
  ghost function InnerWorld<V(!new)>(r: Runtime<V>, q: Program, scope: Scope, f: Frame<V>, passed: Passed<V>): World<V>
    requires CompileProgram(q, scope).Ok?
  {
    WorldOf(r, CompileProgram(q, scope).value, Enter(f, passed))
  }

  /** What a block's program sees: the context it is passed, outside it those of the block, unless the
      block's own is passed again; the data it is passed, or the block's; its block parameters, outside
      them those of the block. */
  lemma InnerSees<V(!new)>(r: Runtime<V>, env: Environment, f: Frame<V>, passed: Passed<V>, n: nat, index: nat)
    ensures var inner, outer := WorldOf(r, env, Enter(f, passed)), WorldOf(r, env, f);
            && inner.context(0) == passed.context
            && inner.context(n + 1)
               == outer.context(if f.contexts != [] && f.contexts[0] == passed.context then n + 1 else n)
            && inner.data == (if passed.data.Some? then passed.data.value else outer.data)
            && (index < |passed.blockParams| ==> inner.blockParam(0, index) == passed.blockParams[index])
            && inner.blockParam(n + 1, index) == outer.blockParam(n, index)
  {
    var entered := Enter(f, passed);
    assert |entered.blockParams| == |f.blockParams| + 1;
    if n < |f.blockParams| { assert entered.blockParams[n + 1] == f.blockParams[n]; }
  }

  /** Main theorem: a helper that runs a program below a statement, wherever it stands and
      whatever it passes, gets the value the program means in the frame it enters. */
  lemma BlockProgramMeans<V(!new)>(r: Runtime<V>, p: Program, scope: Scope, f: Frame<V>, i: nat, k: nat,
                                   passed: Passed<V>)
    requires RunsPrograms(r)
    requires CompileProgram(p, scope).Ok? && i < |p.body| && k < |ProgramsOf(p.body[i])|
    requires var q := ProgramsOf(p.body[i])[k]; forall s <- q.body :: Renderable(s, Inside(q, Inside(p, scope)))
    ensures var q := ProgramsOf(p.body[i])[k];
            && CompileProgram(q, Inside(p, scope)).Ok? && AllSupported(q)
            && r.run(WorldOf(r, CompileProgram(p, scope).value, f).program(GuidAt(p.body, i) + k), passed)
               == MeanProgram(q, Inside(p, scope), InnerWorld(r, q, Inside(p, scope), f, passed))
  {
    hide CompileProgram, Generated, Returned, Renderable, MeanProgram, ProgramsOf;
    BlockChild(p, scope, i, k);
    var q := ProgramsOf(p.body[i])[k];
    var env := CompileProgram(p, scope).value;
    var child := CompileProgram(q, Inside(p, scope)).value;
    ProgramMeans(q, Inside(p, scope), InnerWorld(r, q, Inside(p, scope), f, passed));
    assert WorldOf(r, env, f).program(GuidAt(p.body, i) + k) == r.program(child, f);
  }

  /** What `blockHelperMissing` does with an object: it runs the program on it. */
  ghost predicate RunsOn<V(!new)>(r: Runtime<V>, v: V) {
    forall o: CallOptionValues<V> :: o.programs.Some? ==>
      r.globals.blockHelperMissing(v, Some(o)) == r.run(o.programs.value.0, Passed(v, None, []))
  }

  /** `{{#foo}}...{{/foo}}` with an object `foo` that is no helper shows what its program means
      with that object as context, one depth further in. */
  lemma SectionShows<V(!new)>(r: Runtime<V>, p: Program, scope: Scope, f: Frame<V>, i: nat, q: Program,
                              kept: Option<CallOptionValues<V>>)
    requires RunsPrograms(r)
    requires CompileProgram(p, scope).Ok? && i < |p.body| && p.body[i].BlockStatement? && p.body[i].program == Some(q)
    requires forall s <- q.body :: Renderable(s, Inside(q, Inside(p, scope)))
    requires ClassifySexpr(p.body[i].call, false, Inside(p, scope)) == Ambiguous
    requires !r.globals.truthy(r.globals.helper(FirstPart(HeadToPath(p.body[i].call.head))))
    ensures CompileProgram(q, Inside(p, scope)).Ok? && AllSupported(q)
    ensures var s, inner := p.body[i], Inside(p, scope);
            var w := WorldOf(r, CompileProgram(p, scope).value, f);
            var program, inverse := Some(GuidAt(p.body, i)), InverseGuid(s.program, s.inverse, GuidAt(p.body, i));
            var v := MeanCall(s.call, false, program, inverse, inner, w);
            var m := MeanProgram(q, inner, InnerWorld(r, q, inner, f, Passed(v, None, [])));
            RunsOn(r, v) ==>
              MeanBlock(s.call, program, inverse, kept, inner, w) == Apart(if w.nullish(m) then None else Some(m))
  {
    hide CompileProgram, Generated, Returned, Renderable, MeanProgram, MeanCall, RunsPrograms;
    BlockChild(p, scope, i, 0);
    var s, inner := p.body[i], Inside(p, scope);
    var w := WorldOf(r, CompileProgram(p, scope).value, f);
    var program, inverse := Some(GuidAt(p.body, i)), InverseGuid(s.program, s.inverse, GuidAt(p.body, i));
    var v := MeanCall(s.call, false, program, inverse, inner, w);
    BlockProgramMeans(r, p, scope, f, i, 0, Passed(v, None, []));
    var options := MeanOptions(FirstPart(HeadToPath(s.call.head)), w.record(map[]), program, inverse, w);
    assert MeanKept(s.call, false, program, inverse, inner, w) == Some(options);
    assert options.programs.value.0 == w.program(GuidAt(p.body, i));
  }
}
