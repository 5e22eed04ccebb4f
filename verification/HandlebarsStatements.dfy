/** Stack discipline of whole programs, and the statements they write. */
module HandlebarsStatements {
  import opened Outcomes
  import opened HandlebarsAst
  import opened HandlebarsCompiler
  import opened HandlebarsMachine
  import opened HandlebarsTranslation

  // ---------- the slot invariant of the machine ----------

  /** The spilled code entries are the variables 1 to `slot`, in order. */
  predicate SlotsNamed(stack: seq<Entry>, slot: nat) {
    if stack == [] then slot == 0
    else if Last(stack).Inlined? then SlotsNamed(Init(stack), slot)
    else slot > 0 && Last(stack) == Code(StackVar(slot)) && SlotsNamed(Init(stack), slot - 1)
  }

  predicate SlotsOk(m: Machine) {
    SlotsNamed(m.compileStack, m.stackSlot) && m.stackSlot <= m.registers.stackVars
  }

  /** With named slots a pop fails exactly on two empty stacks. */
  lemma PopKeepsSlots(m: Machine)
    requires SlotsOk(m)
    ensures Pop(m).Err? <==> m.inlineStack == [] && m.compileStack == []
    ensures Pop(m).Ok? ==> SlotsOk(Pop(m).value.0) && Pop(m).value.0.hash == m.hash && Pop(m).value.0.hashes == m.hashes
  {
  }

  lemma {:induction false} PopManyKeepsSlots(m: Machine, count: nat)
    requires SlotsOk(m)
    ensures PopMany(m, count).Ok? ==> SlotsOk(PopMany(m, count).value.0)
    ensures PopMany(m, count).Err? ==> PopMany(m, count) == Err(InvalidStackPop)
    decreases count
  {
    PopKeepsSlots(m);
    if count > 0 && Pop(m).Ok? { PopManyKeepsSlots(Pop(m).value.0, count - 1); }
  }

  lemma SetupKeepsSlots(m: Machine, name: string, paramSize: nat)
    requires SlotsOk(m)
    ensures SetupParams(m, name, paramSize).Ok? ==> SlotsOk(SetupParams(m, name, paramSize).value.0)
  {
    PopKeepsSlots(m);
    if Pop(m).Ok? {
      var m1 := Pop(m).value.0;
      PopKeepsSlots(m1);
      if Pop(m1).Ok? {
        var m2 := Pop(m1).value.0;
        PopKeepsSlots(m2);
        if Pop(m2).Ok? { PopManyKeepsSlots(Pop(m2).value.0, paramSize); }
      }
    }
  }

  lemma {:induction false} ResolvePathKeepsSlots(m: Machine, parts: seq<string>, falsy: bool)
    requires SlotsOk(m)
    ensures ResolvePath(m, parts, falsy).Ok? ==> SlotsOk(ResolvePath(m, parts, falsy).value)
    decreases |parts|
  {
    if parts != [] && m.inlineStack != [] {
      ResolvePathKeepsSlots(ReplaceStack(m, Use.Lookup(parts[0], falsy)).value, parts[1..], falsy);
    }
  }

  lemma {:induction false} SpillKeepsSlots(m: Machine, entries: seq<Entry>)
    requires SlotsOk(m)
    ensures SlotsOk(Spill(m, entries))
    decreases |entries|
  {
    if entries != [] {
      match entries[0] {
        case Inlined(_) =>
          var next := m.(compileStack := m.compileStack + [entries[0]]);
          assert Init(next.compileStack) == m.compileStack;
          SpillKeepsSlots(next, entries[1..]);
        case Code(e) =>
          var m1 := IncrStack(m);
          var m2 := PushSource(m1, SetStack(m1.stackSlot, e));
          var next := m2.(compileStack := m2.compileStack + [Code(StackVar(m1.stackSlot))]);
          assert Init(next.compileStack) == m.compileStack;
          SpillKeepsSlots(next, entries[1..]);
      }
    }
  }

  lemma AmbiguousKeepsSlots(m: Machine, name: string, isBlock: bool)
    requires SlotsOk(m)
    ensures CallAmbiguous(m, name, isBlock).Ok? ==> SlotsOk(CallAmbiguous(m, name, isBlock).value)
  {
    PopKeepsSlots(m);
    if Pop(m).Ok? { SetupKeepsSlots(Push(Pop(m).value.0, Inlined(EmptyObject)), name, 0); }
  }

  lemma PartialKeepsSlots(m: Machine, dynamic: bool, name: string, indent: string)
    requires SlotsOk(m)
    ensures CallPartial(m, dynamic, name, indent).Ok? ==> SlotsOk(CallPartial(m, dynamic, name, indent).value)
  {
    SetupKeepsSlots(m, name, 1);
    if SetupParams(m, name, 1).Ok? { PopKeepsSlots(SetupParams(m, name, 1).value.0); }
  }

  lemma BlockHelperKeepsSlots(m: Machine, name: string)
    requires SlotsOk(m)
    ensures CallBlockHelper(m, name).Ok? ==> SlotsOk(CallBlockHelper(m, name).value)
  {
    SetupKeepsSlots(m, name, 0);
    if SetupParams(m, name, 0).Ok? { PopKeepsSlots(SetupParams(m, name, 0).value.0); }
  }

  lemma AmbiguousBlockKeepsSlots(m: Machine)
    requires SlotsOk(m)
    ensures FixAmbiguousBlock(m).Ok? ==> SlotsOk(FixAmbiguousBlock(m).value)
  {
    SetupKeepsSlots(m, "", 0);
    if SetupParams(m, "", 0).Ok? {
      var m1 := SetupParams(m, "", 0).value.0;
      SpillKeepsSlots(m1.(inlineStack := []), m1.inlineStack);
    }
  }

  lemma AppendKeepsSlots(m: Machine)
    requires SlotsOk(m)
    ensures AppendTop(m).Ok? ==> SlotsOk(AppendTop(m).value)
  {
    PopKeepsSlots(m);
    if m.inlineStack != [] { PopKeepsSlots(ReplaceStack(m, OrEmpty).value); }
  }

  /** The opcodes that call helpers and partials. */
  lemma CallKeepsSlots(op: Opcode, m: Machine)
    requires SlotsOk(m)
    requires op.InvokeHelper? || op.InvokeKnownHelper? || op.InvokeAmbiguous? || op.InvokePartial? || op.BlockValue?
             || op.AmbiguousBlockValue? || op.RegisterDecorator?
    ensures Step(op, m).Ok? ==> SlotsOk(Step(op, m).value)
  {
    hide Pop, ResolvePath, SetupParams, CallAmbiguous, CallPartial, CallBlockHelper, FixAmbiguousBlock, AppendTop;
    match op
    case InvokeHelper(paramSize, name, _) =>
      PopKeepsSlots(m);
      if Pop(m).Ok? { SetupKeepsSlots(Pop(m).value.0, name, paramSize); }
    case InvokeKnownHelper(paramSize, name) => SetupKeepsSlots(m, name, paramSize);
    case InvokeAmbiguous(name, isBlock) => AmbiguousKeepsSlots(m, name, isBlock);
    case InvokePartial(dynamic, name, indent) => PartialKeepsSlots(m, dynamic, name, indent);
    case BlockValue(name) => BlockHelperKeepsSlots(m, name);
    case AmbiguousBlockValue => AmbiguousBlockKeepsSlots(m);
    case RegisterDecorator(paramSize, name) => SetupKeepsSlots(m, name, paramSize);
  }

  /** Every opcode, from every machine: `stackSlot` keeps counting the spilled variables. */
  lemma StepKeepsSlots(op: Opcode, m: Machine)
    requires SlotsOk(m)
    ensures Step(op, m).Ok? ==> SlotsOk(Step(op, m).value)
  {
    hide Pop, ResolvePath, SetupParams, CallAmbiguous, CallPartial, CallBlockHelper, FixAmbiguousBlock, AppendTop;
    PopKeepsSlots(m);
    match op
    case LookupOnContext(parts, falsy) =>
      ResolvePathKeepsSlots(Push(m, Inlined(Context(m.registers.lastContext))), parts, falsy);
    case LookupBlockParam(frame, index, parts) =>
      ResolvePathKeepsSlots(Push(m, Code(BlockParam(frame, index))), Tail(parts), false);
    case LookupData(depth, parts) => ResolvePathKeepsSlots(Push(m, Inlined(Data(depth))), parts, true);
    case InvokeHelper(_, _, _) => CallKeepsSlots(op, m);
    case InvokeKnownHelper(_, _) => CallKeepsSlots(op, m);
    case InvokeAmbiguous(_, _) => CallKeepsSlots(op, m);
    case InvokePartial(_, _, _) => CallKeepsSlots(op, m);
    case BlockValue(_) => CallKeepsSlots(op, m);
    case AmbiguousBlockValue => CallKeepsSlots(op, m);
    case RegisterDecorator(_, _) => CallKeepsSlots(op, m);
    case Append => AppendKeepsSlots(m);
    case _ =>
  }

  // ---------- what a statement writes ----------

  datatype Emission = Content(text: string) | Line(statement: JsStatement) | Decoration(decorator: JsStatement)

  function Emit(o: Output, emissions: seq<Emission>): Output
    decreases |emissions|
  {
    if emissions == [] then o else Emit(EmitOne(o, emissions[0]), emissions[1..])
  }

  function EmitOne(o: Output, emission: Emission): Output {
    match emission
    case Content(text) => AddContent(o, text)
    case Line(statement) => WriteLine(o, statement)
    case Decoration(decorator) => Decorate(o, decorator)
  }

  /** A partial takes one argument at most; the compiler refuses others. */
  predicate Supported(s: Statement) {
    s.PartialStatement? ==> |s.params| <= 1
  }

  /** The reference translation of a statement, read off the tree. */
  function TransStatement(s: Statement, first: nat, slot: nat, isSimple: bool,
                          scope: Scope): Result<seq<Emission>, Fault>
    requires Supported(s)
  {
    match s
    case ContentStatement(value) => Ok(if value == "" then [] else [Content(value)])
    case CommentStatement => Ok([])
    case MustacheStatement(call, escaped) =>
      var code :- TransCall(call, false, None, None, slot, scope);
      Ok([Line(if escaped && !scope.options.noEscape then AppendEscapedValue(code) else AppendGuarded(code, slot))])
    case BlockStatement(call, program, inverse) =>
      var programGuid := OptionalGuid(program, first);
      var inverseGuid := OptionalGuid(inverse, first + if program.Some? then 1 else 0);
      TransBlock(call, programGuid, inverseGuid, slot, isSimple, scope)
    case PartialStatement(name, params, hash, partialBlock, indent) =>
      TransPartial(name, params, hash, OptionalGuid(partialBlock, first), indent, slot, scope)
    case Decorator(call, decorated) =>
      var args :- TransParams(call.params, slot, scope);
      var hash :- TransHash(call.hash, false, slot, scope);
      var name := HeadToPath(call.head).original;
      Ok([Decoration(RunDecorator(name, Values(args),
                                  MakeOptions(name, hash.value, ProgramExpr(OptionalGuid(decorated, first)),
                                              NoProgram)))])
  }

  function AppendGuarded(code: JsExpr, slot: nat): JsStatement {
    AppendValue(Apply(AssignStack(slot, code), StackVar(slot), OrEmpty))
  }

  function TransBlock(call: Call, program: Option<nat>, inverse: Option<nat>, slot: nat, isSimple: bool, scope: Scope)
    : Result<seq<Emission>, Fault>
  {
    var code :- TransCall(call, false, program, inverse, slot, scope);
    Ok(BlockLines(call, code, program, inverse, slot, isSimple, scope))
  }

  function BlockLines(call: Call, code: JsExpr, program: Option<nat>, inverse: Option<nat>, slot: nat,
                      isSimple: bool, scope: Scope)
    : seq<Emission>
  {
    var path := HeadToPath(call.head);
    match ClassifySexpr(call, false, scope)
    case Helper => [Line(AppendGuarded(code, slot))]
    case Simple =>
      var options := MakeOptions(path.original, EmptyObject, ProgramExpr(program), ProgramExpr(inverse));
      [Line(AppendGuarded(BlockHelperMissing(code, Literally(options)), slot))]
    case Ambiguous => AmbiguousLines(FirstPart(path), code, slot, isSimple)
  }

  /** The value of the block, what replaces it when its name is no helper, and its append. */
  function AmbiguousLines(name: string, code: JsExpr, slot: nat, isSimple: bool): seq<Emission> {
    [Line(SetStack(slot, code)),
     Line(UnlessHelper(Some(name), StackVar(slot), BlockHelperMissing(StackVar(slot), Kept))),
     Line(AppendIfNotNull(StackVar(slot)))]
    + if isSimple then [Line(ElseAppendNothing)] else []
  }

  function TransName(name: PartialName, slot: nat, scope: Scope): Result<seq<Entry>, Fault> {
    match name case StaticName(_) => Ok([])
        case DynamicName(call) => CodeOf(TransCall(call, true, None, None, slot, scope))
  }

  /** What stands below the programs of a partial: name and context, in stack order. */
  function TransPartialFrame(name: PartialName, params: seq<Expr>, slot: nat, scope: Scope)
    : (r: Result<seq<Entry>, Fault>)
    requires |params| <= 1
    ensures r.Ok? ==> |r.value| == if name.DynamicName? then 2 else 1
  {
    if ExplicitlyUndefined(params, scope) then Both(Ok([Inlined(Word("undefined"))]), TransName(name, slot, scope))
    else Both(TransName(name, slot, scope), TransContext(params, slot, scope))
  }

  function TransContext(params: seq<Expr>, slot: nat, scope: Scope): Result<seq<Entry>, Fault> {
    if params == [] then Ok([TransPath(CURRENT_CONTEXT, false, slot, scope)]) else TransParams(params, slot, scope)
  }

  function TransPartial(name: PartialName, params: seq<Expr>, hash: Hash, program: Option<nat>, indent: string,
                        slot: nat, scope: Scope): Result<seq<Emission>, Fault>
    requires |params| <= 1
  {
    var frame :- TransPartialFrame(name, params, slot, scope);
    var hash :- TransHash(hash, true, slot, scope);
    Ok(PartialLines(name, frame, hash.value, program, indent, slot, scope))
  }

  function PartialLines(name: PartialName, frame: seq<Entry>, hash: JsExpr, program: Option<nat>, indent: string,
                        slot: nat, scope: Scope): seq<Emission>
    requires |frame| == if name.DynamicName? then 2 else 1
  {
    var prevent := scope.options.preventIndent && indent != "";
    var callee := if name.DynamicName? then frame[0].value else PartialRef(PrintedName(name));
    var call := PartialCall(callee, Last(frame).value, PartialOptions(name, hash, program), name.DynamicName?,
                            if prevent then "" else indent);
    (if prevent then [Content(indent)] else []) + [Line(AppendGuarded(call, slot))]
  }

  /** A partial found by a computed value is not told its name. */
  function PartialOptions(name: PartialName, hash: JsExpr, program: Option<nat>): CallOptions {
    var options := MakeOptions(PrintedName(name), hash, ProgramExpr(program), NoProgram);
    if name.DynamicName? then options.(name := None) else options
  }

  function TransBody(body: seq<Statement>, first: nat, slot: nat, isSimple: bool,
                     scope: Scope): Result<seq<Emission>, Fault>
    requires forall s <- body :: Supported(s)
    decreases |body|
  {
    if body == [] then Ok([])
    else
      var head :- TransStatement(body[0], first, slot, isSimple, scope);
      var tail :- TransBody(body[1..], first + ProgramCount(body[0]), slot, isSimple, scope);
      Ok(head + tail)
  }

  function ProgramCount(s: Statement): nat {
    match s
    case BlockStatement(_, program, inverse) => (if program.Some? then 1 else 0) + (if inverse.Some? then 1 else 0)
    case PartialStatement(_, _, _, partialBlock, _) => if partialBlock.Some? then 1 else 0
    case Decorator(_, decorated) => if decorated.Some? then 1 else 0
    case _ => 0
  }

  // ---------- the machine writes the reference translation ----------

  /** `r` is `m` after writing `t`: both stacks and the hashes are as before. */
  ghost predicate Writes(r: Result<Machine, Fault>, m: Machine, t: Result<seq<Emission>, Fault>) {
    match t
    case Err(fault) => r == Err(fault)
    case Ok(emissions) =>
      && r.Ok?
      && r.value == m.(output := Emit(m.output, emissions), registers := r.value.registers)
      && r.value.registers.stackVars >= m.registers.stackVars
  }

  lemma {:induction false} EmitConcat(o: Output, a: seq<Emission>, b: seq<Emission>)
    ensures Emit(o, a + b) == Emit(Emit(o, a), b)
    decreases |a|
  {
    if a == [] {
      assert a + b == b;
    } else {
      assert (a + b)[1..] == a[1..] + b;
      EmitConcat(EmitOne(o, a[0]), a[1..], b);
    }
  }

  lemma EmitJust(o: Output, emission: Emission)
    ensures Emit(o, [emission]) == EmitOne(o, emission)
  {
    var next := EmitOne(o, emission);
    assert Emit(next, []) == next;
  }

  lemma ReplaceCorrect(below: Machine, code: JsExpr, use: Use)
    ensures ReplaceStack(Push(below, Code(code)), use)
            == Ok(Push(below.(registers := Declare(below.registers, below.stackSlot + 1)),
                       Code(Apply(AssignStack(below.stackSlot + 1, code), StackVar(below.stackSlot + 1), use))))
  {
    assert Init(Push(below, Code(code)).inlineStack) == below.inlineStack;
  }

  /** Appending the code on top of the stack writes one line and removes the code. */
  lemma AppendCode(below: Machine, code: JsExpr, append: Opcode)
    requires append in {Append, AppendEscaped}
    ensures var line := if append == AppendEscaped then AppendEscapedValue(code)
            else AppendGuarded(code, below.stackSlot + 1);
            Writes(Run([append], Push(below, Code(code))), below, Ok([Line(line)]))
  {
    if append == AppendEscaped { AppendEscapedCode(below, code); } else { AppendPlainCode(below, code); }
  }

  lemma AppendEscapedCode(below: Machine, code: JsExpr)
    ensures Writes(Run([AppendEscaped], Push(below, Code(code))), below, Ok([Line(AppendEscapedValue(code))]))
  {
    hide Run, Pop;
    RunOne(AppendEscaped, Push(below, Code(code)));
    PopPushed(below, Code(code));
    EmitJust(below.output, Line(AppendEscapedValue(code)));
  }

  lemma AppendPlainCode(below: Machine, code: JsExpr)
    ensures Writes(Run([Append], Push(below, Code(code))), below, Ok([Line(AppendGuarded(code, below.stackSlot + 1))]))
  {
    hide Run, Pop;
    RunOne(Append, Push(below, Code(code)));
    ReplaceCorrect(below, code, OrEmpty);
    var m := ReplaceStack(Push(below, Code(code)), OrEmpty).value;
    PopPushed(below.(registers := m.registers), Last(m.inlineStack));
    EmitJust(below.output, Line(AppendGuarded(code, below.stackSlot + 1)));
  }

  lemma MustacheCorrect(call: Call, escaped: bool, m: Machine, scope: Scope)
    requires m.inlineStack == [] && HashesNested(m)
    ensures var append := if escaped && !scope.options.noEscape then AppendEscaped else Append;
            Writes(Run(CallOps(call, false, None, None, scope) + [append], m), m,
                   TransStatement(MustacheStatement(call, escaped), 0, m.stackSlot + 1, m.isSimple, scope))
  {
    hide Run, Step;
    var append := if escaped && !scope.options.noEscape then AppendEscaped else Append;
    var ops := CallOps(call, false, None, None, scope);
    CallCorrect(call, false, None, None, m, scope);
    RunConcat(ops, [append], m);
    var code := TransCall(call, false, None, None, m.stackSlot + 1, scope);
    if code.Ok? {
      var m1 := Run(ops, m).value;
      assert m1 == Push(m1.(inlineStack := []), Code(code.value));
      AppendCode(m1.(inlineStack := []), code.value, append);
    }
  }

  lemma EmptyHashStep(m: Machine)
    ensures Run([EmptyHash(false)], m) == Ok(Push(m, Inlined(EmptyObject)))
  {
    RunOne(EmptyHash(false), m);
  }

  lemma SetupBlock(below: Machine, program: Option<nat>, inverse: Option<nat>, name: string)
    ensures var ops := [PushProgram(program), PushProgram(inverse), EmptyHash(false)];
            Run(ops, below) == Ok(below.(inlineStack := below.inlineStack
              + [Inlined(ProgramExpr(program)), Inlined(ProgramExpr(inverse)), Inlined(EmptyObject)]))
            && SetupParams(Run(ops, below).value, name, 0)
               == Ok((below, [], MakeOptions(name, EmptyObject, ProgramExpr(program), ProgramExpr(inverse))))
  {
    hide Run, Step, Pop, PopMany, SetupParams, MakeOptions;
    var ops := [PushProgram(program), PushProgram(inverse), EmptyHash(false)];
    assert ops == [ops[0], ops[1]] + [ops[2]];
    ProgramsCorrect(program, inverse, below);
    RunConcat([ops[0], ops[1]], [ops[2]], below);
    var m2 := Run([ops[0], ops[1]], below).value;
    EmptyHashStep(m2);
    var p, i, h := Inlined(ProgramExpr(program)), Inlined(ProgramExpr(inverse)), Inlined(EmptyObject);
    assert below.inlineStack + [p, i] + [h] == below.inlineStack + [p, i, h] == below.inlineStack + [] + [p, i, h];
    assert Run(ops, below).value == below.(inlineStack := below.inlineStack + [] + [p, i, h]);
    SetupCorrect(below, [], p, i, h, name);
  }

  lemma SimpleBlockCorrect(below: Machine, code: JsExpr, program: Option<nat>, inverse: Option<nat>, name: string)
    ensures Run([PushProgram(program), PushProgram(inverse), EmptyHash(false)] + [BlockValue(name)],
                Push(below, Code(code)))
            == Ok(Push(below, Code(BlockHelperMissing(code,
                                                      Literally(MakeOptions(name, EmptyObject, ProgramExpr(program),
                                                                            ProgramExpr(inverse)))))))
  {
    var ops := [PushProgram(program), PushProgram(inverse), EmptyHash(false)];
    var m := Push(below, Code(code));
    SetupBlock(m, program, inverse, name);
    RunConcat(ops, [BlockValue(name)], m);
    RunOne(BlockValue(name), Run(ops, m).value);
    PopPushed(below, Code(code));
  }

  /** The value of an ambiguous block goes through the next free variable and back. */
  lemma AmbiguousBlockCorrect(below: Machine, code: JsExpr, program: Option<nat>, inverse: Option<nat>, name: string)
    requires below.inlineStack == [] && below.registers.lastHelper == Some(name)
    ensures var ops := [PushProgram(program), PushProgram(inverse), EmptyHash(false)]
            + [AmbiguousBlockValue] + [Append];
            Writes(Run(ops, Push(below, Code(code))), below,
                   Ok(AmbiguousLines(name, code, below.stackSlot + 1, below.isSimple)))
  {
    hide AppendTop, Pop, SetupParams, Emit;
    var ops := [PushProgram(program), PushProgram(inverse), EmptyHash(false)];
    var m := Push(below, Code(code));
    var slot := below.stackSlot + 1;
    SetupBlock(m, program, inverse, "");
    RunConcat(ops + [AmbiguousBlockValue], [Append], m);
    RunConcat(ops, [AmbiguousBlockValue], m);
    var m1 := Run(ops, m).value;
    RunOne(AmbiguousBlockValue, m1);
    SpillOne(below, code);
    var fix := UnlessHelper(Some(name), StackVar(slot), BlockHelperMissing(StackVar(slot), Kept));
    assert m1.registers.lastHelper == Some(name);
    assert Run(ops + [AmbiguousBlockValue], m) == Ok(PushSource(SpilledOne(below, code), fix));
    AppendSpilled(below, code, fix);
  }

  /** Appending a spilled block value gives its variable back. */
  lemma AppendSpilled(below: Machine, code: JsExpr, fix: JsStatement)
    requires below.inlineStack == []
    ensures var slot := below.stackSlot + 1;
            Writes(Run([Append], PushSource(SpilledOne(below, code), fix)), below,
                   Ok([Line(SetStack(slot, code)), Line(fix), Line(AppendIfNotNull(StackVar(slot)))]
                      + if below.isSimple then [Line(ElseAppendNothing)] else []))
  {
    var slot := below.stackSlot + 1;
    var m2 := PushSource(SpilledOne(below, code), fix);
    RunOne(Append, m2);
    assert Init(m2.compileStack) == below.compileStack;
    EmitBlock(below.output, SetStack(slot, code), fix, AppendIfNotNull(StackVar(slot)));
    var lines := [Line(SetStack(slot, code)), Line(fix), Line(AppendIfNotNull(StackVar(slot)))];
    EmitConcat(below.output, lines, [Line(ElseAppendNothing)]);
    EmitJust(Emit(below.output, lines), Line(ElseAppendNothing));
    assert lines + [] == lines;
  }

  lemma EmitBlock(o: Output, a: JsStatement, b: JsStatement, c: JsStatement)
    ensures Emit(o, [Line(a), Line(b), Line(c)]) == WriteLine(WriteLine(WriteLine(o, a), b), c)
  {
    EmitConcat(o, [Line(a)], [Line(b)]);
    EmitConcat(o, [Line(a), Line(b)], [Line(c)]);
    assert [Line(a)] + [Line(b)] == [Line(a), Line(b)];
    assert [Line(a), Line(b)] + [Line(c)] == [Line(a), Line(b), Line(c)];
    EmitJust(o, Line(a));
    EmitJust(WriteLine(o, a), Line(b));
    EmitJust(WriteLine(WriteLine(o, a), b), Line(c));
  }

  /** `below` with `code` moved to the next free variable. */
  function SpilledOne(below: Machine, code: JsExpr): Machine {
    var slot := below.stackSlot + 1;
    PushSource(below, SetStack(slot, code))
      .(stackSlot := slot, registers := Declare(below.registers, slot),
        compileStack := below.compileStack + [Code(StackVar(slot))])
  }

  lemma SpillOne(below: Machine, code: JsExpr)
    requires below.inlineStack == []
    ensures FlushInline(Push(below, Code(code))) == SpilledOne(below, code)
  {
    var entries := Push(below, Code(code)).inlineStack;
    assert entries == [Code(code)];
    var next := SpilledOne(below, code);
    assert Spill(next, entries[1..]) == next;
  }

  lemma BlockCorrect(call: Call, program: Option<nat>, inverse: Option<nat>, m: Machine, scope: Scope)
    requires m.inlineStack == [] && HashesNested(m)
    ensures Writes(Run(BlockOps(call, program, inverse, scope), m), m,
                   TransBlock(call, program, inverse, m.stackSlot + 1, m.isSimple, scope))
  {
    hide Run, Step, CallOps, TransCall, ClassifySexpr, BlockRest, BlockOps;
    var slot := m.stackSlot + 1;
    var ops := CallOps(call, false, program, inverse, scope);
    CallCorrect(call, false, program, inverse, m, scope);
    var code := TransCall(call, false, program, inverse, slot, scope);
    var m1 := Run(ops, m);
    if code.Ok? {
      var below := m1.value.(inlineStack := []);
      assert m1.value == Push(below, Code(code.value));
      FinishBlock(call, program, inverse, below, code.value, scope) by {
        if ClassifySexpr(call, false, scope) == Ambiguous { BlockNamesItsHelper(call, program, inverse, m, scope); }
      }
    }
    RunConcat(ops, BlockRest(call, program, inverse, scope), m);
    BlockSplit(call, program, inverse, scope);
  }

  lemma BlockSplit(call: Call, program: Option<nat>, inverse: Option<nat>, scope: Scope)
    ensures BlockOps(call, program, inverse, scope)
            == CallOps(call, false, program, inverse, scope) + BlockRest(call, program, inverse, scope)
  {
    hide CallOps, ClassifySexpr;
  }

  function BlockRest(call: Call, program: Option<nat>, inverse: Option<nat>, scope: Scope): seq<Opcode> {
    var programs := [PushProgram(program), PushProgram(inverse), EmptyHash(false)];
    match ClassifySexpr(call, false, scope)
    case Helper => [Append]
    case Simple => programs + [BlockValue(HeadToPath(call.head).original)] + [Append]
    case Ambiguous => programs + [AmbiguousBlockValue] + [Append]
  }

  lemma FinishBlock(call: Call, program: Option<nat>, inverse: Option<nat>, below: Machine, code: JsExpr, scope: Scope)
    requires below.inlineStack == []
    requires ClassifySexpr(call, false, scope) == Ambiguous ==>
               below.registers.lastHelper == Some(FirstPart(HeadToPath(call.head)))
    ensures Writes(Run(BlockRest(call, program, inverse, scope), Push(below, Code(code))), below,
                   Ok(BlockLines(call, code, program, inverse, below.stackSlot + 1, below.isSimple, scope)))
  {
    hide Step, Run, BlockParamIndex, ClassifySexpr;
    var path := HeadToPath(call.head);
    match ClassifySexpr(call, false, scope)
    case Helper => AppendCode(below, code, Append);
    case Simple =>
      var block := [PushProgram(program), PushProgram(inverse), EmptyHash(false)] + [BlockValue(path.original)];
      RunConcat(block, [Append], Push(below, Code(code)));
      SimpleBlockCorrect(below, code, program, inverse, path.original);
      var options := MakeOptions(path.original, EmptyObject, ProgramExpr(program), ProgramExpr(inverse));
      AppendCode(below, BlockHelperMissing(code, Literally(options)), Append);
    case Ambiguous => AmbiguousBlockCorrect(below, code, program, inverse, FirstPart(path));
  }

  lemma BlockNamesItsHelper(call: Call, program: Option<nat>, inverse: Option<nat>, m: Machine, scope: Scope)
    requires ClassifySexpr(call, false, scope) == Ambiguous
    ensures Run(CallOps(call, false, program, inverse, scope), m).Ok?
    ensures Run(CallOps(call, false, program, inverse, scope), m).value.registers.lastHelper
            == Some(FirstPart(HeadToPath(call.head)))
  {
    AmbiguousCorrect(call, program, inverse, m, scope);
  }

  lemma DecoratorCorrect(call: Call, program: Option<nat>, m: Machine, scope: Scope)
    requires HashesNested(m)
    ensures var name := HeadToPath(call.head).original;
            var frame := TransFrame(call, program, None, m.stackSlot + 1, scope);
            var r := Run(FrameOps(call, program, None, scope) + [RegisterDecorator(|call.params|, name)], m);
            match frame
            case Err(fault) => r == Err(fault)
            case Ok(_) =>
              Writes(r, m, Ok([Decoration(RunDecorator(name,
                                                       Values(TransParams(call.params, m.stackSlot + 1, scope).value),
                MakeOptions(name, TransHash(call.hash, false, m.stackSlot + 1, scope).value.value,
                            ProgramExpr(program), NoProgram)))]))
  {
    hide Run, Pop, PopMany, Emit, ParamsOps, TransParams, HashParamOps, TransHash, Push;
    var name := HeadToPath(call.head).original;
    var ops := FrameOps(call, program, None, scope);
    var op := RegisterDecorator(|call.params|, name);
    HelperFrameCorrect(call, program, None, m, scope);
    RunConcat(ops, [op], m);
    var frame := TransFrame(call, program, None, m.stackSlot + 1, scope);
    if frame.Ok? {
      var args := TransParams(call.params, m.stackSlot + 1, scope).value;
      var hash := TransHash(call.hash, false, m.stackSlot + 1, scope).value;
      var p, i := Inlined(ProgramExpr(program)), Inlined(NoProgram);
      var m1 := Run(ops, m).value;
      var below := m1.(inlineStack := m.inlineStack);
      assert m.inlineStack + (args + [p, i] + [hash]) == m.inlineStack + args + [p, i, hash];
      SetupCorrect(below, args, p, i, hash, name);
      RunOne(op, m1);
      var decorator := RunDecorator(name, Values(args), MakeOptions(name, hash.value, p.value, i.value));
      EmitJust(m.output, Decoration(decorator));
    }
  }

  lemma PartialFrameCorrect(name: PartialName, params: seq<Expr>, m: Machine, scope: Scope)
    requires |params| <= 1 && HashesNested(m)
    ensures Leaves(Run(PartialFrameOps(params, NameOps(name, scope), ParamsOps(params, scope), scope), m), m,
                   TransPartialFrame(name, params, m.stackSlot + 1, scope))
  {
    hide Run, PathOps, TransPath, ParamsOps, TransParams, NameOps, TransName, ResolvePath;
    var slot := m.stackSlot + 1;
    if ExplicitlyUndefined(params, scope) {
      var op := PushLiteral(TextWord("undefined"));
      RunOne(op, m);
      var m1 := Push(m, Inlined(Word("undefined")));
      NameCorrect(name, m1, scope);
      LeavesConcat([op], NameOps(name, scope), m, Ok([Inlined(Word("undefined"))]), TransName(name, slot, scope));
    } else {
      NameCorrect(name, m, scope);
      var contextOps := if params == [] then PathOps(CURRENT_CONTEXT, false, scope) else ParamsOps(params, scope);
      if TransName(name, slot, scope).Ok? {
        var m1 := Run(NameOps(name, scope), m).value;
        if params == [] { PathCorrect(CURRENT_CONTEXT, false, m1, scope); } else { ParamsCorrect(params, m1, scope); }
      }
      LeavesConcat(NameOps(name, scope), contextOps, m, TransName(name, slot, scope),
                   TransContext(params, slot, scope));
    }
  }

  lemma NameCorrect(name: PartialName, m: Machine, scope: Scope)
    requires HashesNested(m)
    ensures Leaves(Run(NameOps(name, scope), m), m, TransName(name, m.stackSlot + 1, scope))
  {
    match name
    case StaticName(_) => assert m.inlineStack + [] == m.inlineStack;
    case DynamicName(call) => CallCorrect(call, true, None, None, m, scope);
  }

  /** From a complete frame the partial call takes its context from the top and, when the
      name is dynamic, its name from below. */
  lemma CallPartialCorrect(below: Machine, frame: seq<Entry>, program: Option<nat>, hash: Entry, name: PartialName,
                           indent: string)
    requires |frame| == if name.DynamicName? then 2 else 1
    ensures var callee := if name.DynamicName? then frame[0].value else PartialRef(PrintedName(name));
            Step(InvokePartial(name.DynamicName?, PrintedName(name), indent),
                 below.(inlineStack := below.inlineStack + frame
                        + [Inlined(ProgramExpr(program)), Inlined(NoProgram), hash]))
            == Ok(Push(below, Code(PartialCall(callee, Last(frame).value, PartialOptions(name, hash.value, program),
                                               name.DynamicName?, indent))))
  {
    hide Run, Pop, PopMany;
    var p := Inlined(ProgramExpr(program));
    var m := below.(inlineStack := below.inlineStack + frame + [p, Inlined(NoProgram), hash]);
    var base := below.(inlineStack := below.inlineStack + Init(frame));
    assert base.inlineStack + [Last(frame)] == below.inlineStack + frame;
    SetupCorrect(base, [Last(frame)], p, Inlined(NoProgram), hash, PrintedName(name));
    if name.DynamicName? {
      assert base == Push(below, frame[0]);
      PopPushed(below, frame[0]);
    } else {
      assert base == below by { assert below.inlineStack + [] == below.inlineStack; }
    }
  }

  lemma PartialParamsCorrect(name: PartialName, params: seq<Expr>, hash: Hash, program: Option<nat>,
                             m: Machine, scope: Scope)
    requires |params| <= 1 && HashesNested(m)
    ensures Leaves(Run(PartialFrameOps(params, NameOps(name, scope), ParamsOps(params, scope), scope)
                       + [PushProgram(program), PushProgram(None)] + HashParamOps(hash, true, scope), m), m,
                   Both(Both(TransPartialFrame(name, params, m.stackSlot + 1, scope), ProgramEntries(program, None)),
                        One(TransHash(hash, true, m.stackSlot + 1, scope))))
  {
    hide Run, Step, ParamsOps, TransParams, HashParamOps, TransHash, PartialFrameOps, TransPartialFrame, NameOps;
    var slot := m.stackSlot + 1;
    var a := PartialFrameOps(params, NameOps(name, scope), ParamsOps(params, scope), scope);
    var b, c := [PushProgram(program), PushProgram(None)], HashParamOps(hash, true, scope);
    var frame := TransPartialFrame(name, params, slot, scope);
    var programs := ProgramEntries(program, None);
    PartialFrameCorrect(name, params, m, scope);
    if frame.Ok? { ProgramsCorrect(program, None, Run(a, m).value); }
    LeavesConcat(a, b, m, frame, programs);
    if frame.Ok? { HashCorrect(hash, true, Run(a + b, m).value, scope); }
    LeavesConcat(a + b, c, m, Both(frame, programs), One(TransHash(hash, true, slot, scope)));
  }

  lemma PartialCorrect(name: PartialName, params: seq<Expr>, hash: Hash, program: Option<nat>, indent: string,
                       m: Machine, scope: Scope)
    requires |params| <= 1 && m.inlineStack == [] && HashesNested(m)
    ensures Writes(Run(PartialFrameOps(params, NameOps(name, scope), ParamsOps(params, scope), scope)
                       + PartialOps(name, program, HashParamOps(hash, true, scope), indent, scope), m), m,
                   TransPartial(name, params, hash, program, indent, m.stackSlot + 1, scope))
  {
    hide Run, Step, Emit, ParamsOps, TransParams, HashParamOps, TransHash, PartialFrameOps, TransPartialFrame,
        NameOps, PartialLines;
    var slot := m.stackSlot + 1;
    var a := PartialFrameOps(params, NameOps(name, scope), ParamsOps(params, scope), scope);
    var b, c := [PushProgram(program), PushProgram(None)], HashParamOps(hash, true, scope);
    var rest := PartialRest(name, indent, scope);
    assert a + PartialOps(name, program, c, indent, scope) == a + b + c + rest;
    PartialParamsCorrect(name, params, hash, program, m, scope);
    RunConcat(a + b + c, rest, m);
    var frame := TransPartialFrame(name, params, slot, scope);
    var hashed := TransHash(hash, true, slot, scope);
    if frame.Ok? && hashed.Ok? {
      PartialRestCorrect(m, Run(a + b + c, m).value, name, frame.value, hashed.value, program, indent, scope);
    }
  }

  function PartialRest(name: PartialName, indent: string, scope: Scope): seq<Opcode> {
    var prevent := scope.options.preventIndent && indent != "";
    (if prevent then [AppendContent(indent)] else [])
    + ([InvokePartial(name.DynamicName?, PrintedName(name), if prevent then "" else indent)] + [Append])
  }

  lemma PartialRestCorrect(m: Machine, m1: Machine, name: PartialName, frame: seq<Entry>, hash: Entry,
                           program: Option<nat>, indent: string, scope: Scope)
    requires m.inlineStack == []
    requires |frame| == if name.DynamicName? then 2 else 1
    requires Leaves(Ok(m1), m, Ok(frame + ProgramEntries(program, None).value + [hash]))
    ensures Writes(Run(PartialRest(name, indent, scope), m1), m,
                   Ok(PartialLines(name, frame, hash.value, program, indent, m.stackSlot + 1, scope)))
  {
    hide Run, Step, Emit, MakeOptions;
    var prevent := scope.options.preventIndent && indent != "";
    var indent' := if prevent then "" else indent;
    var op := InvokePartial(name.DynamicName?, PrintedName(name), indent');
    var below := m1.(inlineStack := []);
    var entries := frame + [Inlined(ProgramExpr(program)), Inlined(NoProgram), hash];
    assert m.inlineStack + (frame + ProgramEntries(program, None).value + [hash]) == entries;
    ContentFirst(below, entries, indent, prevent, [op] + [Append]);
    FinishPartial(if prevent then below.(output := AddContent(below.output, indent)) else below,
                  frame, program, hash, name, indent');
    var lines := PartialLines(name, frame, hash.value, program, indent, m.stackSlot + 1, scope);
    if prevent {
      EmitContent(m.output, indent, lines);
      assert lines[1..] == [lines[1]];
    } else {
      assert lines == [lines[0]];
    }
  }

  /** Indentation that is not passed to the partial goes out before its result. */
  lemma ContentFirst(below: Machine, entries: seq<Entry>, indent: string, prevent: bool, rest: seq<Opcode>)
    requires below.inlineStack == []
    ensures Run((if prevent then [AppendContent(indent)] else []) + rest, below.(inlineStack := entries))
            == Run(rest, (if prevent then below.(output := AddContent(below.output, indent))
                          else below).(inlineStack := entries))
  {
    hide Run;
    var m := below.(inlineStack := entries);
    if prevent {
      RunConcat([AppendContent(indent)], rest, m);
      RunOne(AppendContent(indent), m);
    } else {
      assert [] + rest == rest;
    }
  }

  lemma EmitContent(o: Output, text: string, emissions: seq<Emission>)
    requires emissions != [] && emissions[0] == Content(text)
    ensures Emit(o, emissions) == Emit(AddContent(o, text), emissions[1..])
  {
  }

  lemma FinishPartial(below: Machine, frame: seq<Entry>, program: Option<nat>, hash: Entry, name: PartialName,
                      indent: string)
    requires below.inlineStack == []
    requires |frame| == if name.DynamicName? then 2 else 1
    ensures var callee := if name.DynamicName? then frame[0].value else PartialRef(PrintedName(name));
            var call := PartialCall(callee, Last(frame).value, PartialOptions(name, hash.value, program),
                                    name.DynamicName?, indent);
            var op := InvokePartial(name.DynamicName?, PrintedName(name), indent);
            Writes(Run([op] + [Append],
                       below.(inlineStack := frame + [Inlined(ProgramExpr(program)), Inlined(NoProgram), hash])),
                   below, Ok([Line(AppendGuarded(call, below.stackSlot + 1))]))
  {
    hide Step, Run, MakeOptions, Emit;
    var op := InvokePartial(name.DynamicName?, PrintedName(name), indent);
    var p := Inlined(ProgramExpr(program));
    var m := below.(inlineStack := frame + [p, Inlined(NoProgram), hash]);
    assert below.inlineStack + frame + [p, Inlined(NoProgram), hash] == m.inlineStack;
    CallPartialCorrect(below, frame, program, hash, name, indent);
    RunConcat([op], [Append], m);
    RunOne(op, m);
    AppendCode(below, Last(Step(op, m).value.inlineStack).value, Append);
  }

  // ---------- whole programs ----------

  lemma StatementCorrect(s: Statement, first: nat, m: Machine, scope: Scope)
    requires m.inlineStack == [] && HashesNested(m)
    requires StatementOps(s, first, scope).Ok?
    ensures Supported(s) && |StatementOps(s, first, scope).value.children| == ProgramCount(s)
    ensures Writes(Run(StatementOps(s, first, scope).value.ops, m), m,
                   TransStatement(s, first, m.stackSlot + 1, m.isSimple, scope))
  {
    hide Run, Step, Emit, CallOps, ParamsOps, HashParamOps, PathOps, TransCall, ClassifySexpr;
    match s
    case ContentStatement(value) => ContentCorrect(value, m);
    case CommentStatement => NothingCorrect(m);
    case MustacheStatement(call, escaped) => MustacheCorrect(call, escaped, m, scope);
    case BlockStatement(call, program, inverse) =>
      var count := if program.Some? then 1 else 0;
      BlockCorrect(call, OptionalGuid(program, first), OptionalGuid(inverse, first + count), m, scope);
    case PartialStatement(name, params, hash, partialBlock, indent) =>
      PartialCorrect(name, params, hash, OptionalGuid(partialBlock, first), indent, m, scope);
    case Decorator(call, decorated) => DecoratorCorrect(call, OptionalGuid(decorated, first), m, scope);
  }

  lemma NothingCorrect(m: Machine)
    ensures Writes(Run([], m), m, Ok([]))
  {
  }

  lemma ContentCorrect(value: string, m: Machine)
    ensures Writes(Run(if value == "" then [] else [AppendContent(value)], m), m,
                   Ok(if value == "" then [] else [Content(value)]))
  {
    if value == "" {
      NothingCorrect(m);
    } else {
      RunOne(AppendContent(value), m);
      EmitJust(m.output, Content(value));
    }
  }

  lemma {:induction false} BodyCorrect(body: seq<Statement>, first: nat, m: Machine, scope: Scope)
    requires m.inlineStack == [] && HashesNested(m)
    requires BodyOps(body, first, scope).Ok?
    ensures forall s <- body :: Supported(s)
    ensures Writes(Run(BodyOps(body, first, scope).value.ops, m), m,
                   TransBody(body, first, m.stackSlot + 1, m.isSimple, scope))
    decreases |body|
  {
    hide Step, Emit, StatementOps, TransStatement;
    if body == [] {
      NothingCorrect(m);
    } else {
      var head := StatementOps(body[0], first, scope).value;
      var tail := BodyOps(body[1..], first + |head.children|, scope).value;
      StatementCorrect(body[0], first, m, scope);
      RunConcat(head.ops, tail.ops, m);
      var lines := TransStatement(body[0], first, m.stackSlot + 1, m.isSimple, scope);
      if lines.Ok? {
        BodyCorrect(body[1..], first + |head.children|, Run(head.ops, m).value, scope);
        var rest := TransBody(body[1..], first + |head.children|, m.stackSlot + 1, m.isSimple, scope);
        if rest.Ok? { EmitConcat(m.output, lines.value, rest.value); }
      } else {
        BodySupported(body[1..], first + |head.children|, scope);
      }
    }
  }

  lemma {:induction false} BodySupported(body: seq<Statement>, first: nat, scope: Scope)
    requires BodyOps(body, first, scope).Ok?
    ensures forall s <- body :: Supported(s)
    decreases |body|
  {
    if body != [] {
      var head := StatementOps(body[0], first, scope).value;
      BodySupported(body[1..], first + |head.children|, scope);
    }
  }

  /** The scope of the statements of a program. */
  function Inside(p: Program, scope: Scope): Scope {
    scope.(blockParams := [p.blockParams] + scope.blockParams)
  }

  /** What running a program gives: its lines, or the fault of its translation. */
  function Expected(p: Program, scope: Scope): Result<Output, Fault>
    requires forall s <- p.body :: Supported(s)
  {
    var lines :- TransBody(p.body, 0, 1, |p.body| == 1, Inside(p, scope));
    Ok(FlushPending(Emit(Output([], "", []), lines)))
  }

  /** Main theorem: a compiled program runs to empty stacks and writes its translation. */
  lemma ProgramCorrect(p: Program, scope: Scope)
    requires CompileProgram(p, scope).Ok?
    ensures forall s <- p.body :: Supported(s)
    ensures var r := RunProgram(CompileProgram(p, scope).value);
            match Expected(p, scope)
            case Err(fault) => r == Err(fault)
            case Ok(output) =>
              && r.Ok? && r.value.output == output
              && r.value.inlineStack == [] && r.value.compileStack == [] && r.value.stackSlot == 0
  {
    hide Run, Step, Emit, BodyOps, TransBody;
    BodyCorrect(p.body, 0, Initial(|p.body| == 1), Inside(p, scope));
  }

  // ---------- all programs of a template ----------

  /** The errors of a hash key that the collecting array does not take. */
  predicate KeyFault(fault: Fault) {
    fault == InvalidArrayLength || fault == HasOwnPropertyHidden
  }

  /** A hash key can fail to compile; nothing else can. */
  lemma {:induction false} ExprFault(e: Expr, slot: nat, scope: Scope)
    ensures var t := TransExpr(e, slot, scope); t.Err? ==> KeyFault(t.error)
    decreases e, 1
  {
    if e.SubExpression? { CallFault(e.call, true, None, None, slot, scope); }
  }

  lemma {:induction false} CallFault(call: Call, isSubExpression: bool, program: Option<nat>, inverse: Option<nat>,
                                     slot: nat, scope: Scope)
    ensures var t := TransCall(call, isSubExpression, program, inverse, slot, scope); t.Err? ==> KeyFault(t.error)
    decreases call, 2
  {
    ParamsFault(call.params, slot, scope);
    HashFault(call.hash, false, slot, scope);
  }

  lemma {:induction false} ParamsFault(params: seq<Expr>, slot: nat, scope: Scope)
    ensures var t := TransParams(params, slot, scope); t.Err? ==> KeyFault(t.error)
    decreases params, 0
  {
    if params != [] {
      ExprFault(params[0], slot, scope);
      ParamsFault(params[1..], slot, scope);
    }
  }

  lemma {:induction false} HashFault(hash: Hash, omitEmpty: bool, slot: nat, scope: Scope)
    ensures var t := TransHash(hash, omitEmpty, slot, scope); t.Err? ==> KeyFault(t.error)
    decreases hash, 3
  {
    if hash.Hash? {
      PairsFault(hash.pairs, slot, scope);
      var values := TransPairs(hash.pairs, slot, scope);
      if values.Ok? { BindFault(hash.pairs, Values(values.value), []); }
    }
  }

  lemma {:induction false} PairsFault(pairs: seq<Pair>, slot: nat, scope: Scope)
    ensures var t := TransPairs(pairs, slot, scope); t.Err? ==> KeyFault(t.error)
    decreases pairs, 0
  {
    if pairs != [] {
      ExprFault(pairs[0].value, slot, scope);
      PairsFault(pairs[1..], slot, scope);
    }
  }

  lemma {:induction false} BindFault(pairs: seq<Pair>, values: seq<JsExpr>, fields: seq<Field>)
    requires |pairs| == |values|
    ensures var t := Bind(pairs, values, fields); t.Err? ==> KeyFault(t.error)
  {
    if pairs != [] { BindFault(pairs[1..], values[1..], fields); }
  }

  lemma StatementFault(s: Statement, first: nat, slot: nat, isSimple: bool, scope: Scope)
    requires Supported(s)
    ensures var t := TransStatement(s, first, slot, isSimple, scope); t.Err? ==> KeyFault(t.error)
  {
    match s
    case MustacheStatement(call, _) => CallFault(call, false, None, None, slot, scope);
    case BlockStatement(call, program, inverse) =>
      CallFault(call, false, OptionalGuid(program, first),
                OptionalGuid(inverse, first + if program.Some? then 1 else 0), slot, scope);
    case PartialStatement(name, params, hash, _, _) =>
      if name.DynamicName? { CallFault(name.call, true, None, None, slot, scope); }
      ParamsFault(params, slot, scope);
      HashFault(hash, true, slot, scope);
    case Decorator(call, _) =>
      ParamsFault(call.params, slot, scope);
      HashFault(call.hash, false, slot, scope);
    case _ =>
  }

  lemma {:induction false} BodyFault(body: seq<Statement>, first: nat, slot: nat, isSimple: bool, scope: Scope)
    requires forall s <- body :: Supported(s)
    ensures var t := TransBody(body, first, slot, isSimple, scope); t.Err? ==> KeyFault(t.error)
    decreases |body|
  {
    if body != [] {
      StatementFault(body[0], first, slot, isSimple, scope);
      BodyFault(body[1..], first + ProgramCount(body[0]), slot, isSimple, scope);
    }
  }

  /** The program and all programs below it run to empty stacks, or stop at a hash key
      `length` or `hasOwnProperty`; the machine's own errors do not occur. */
  ghost predicate Disciplined(env: Environment) {
    && (RunProgram(env).Err? ==> KeyFault(RunProgram(env).error))
    && forall child <- env.children :: Disciplined(child)
  }

  /** Main theorem: stack discipline for every template the compiler accepts. */
  lemma {:induction false} TemplateDisciplined(p: Program, scope: Scope)
    requires CompileProgram(p, scope).Ok?
    ensures Disciplined(CompileProgram(p, scope).value)
    decreases p, 3
  {
    hide RunProgram;
    ProgramCorrect(p, scope);
    BodyFault(p.body, 0, 1, |p.body| == 1, Inside(p, scope));
    BodyChildrenDisciplined(p.body, 0, Inside(p, scope));
  }

  lemma {:induction false} BodyChildrenDisciplined(body: seq<Statement>, first: nat, scope: Scope)
    requires BodyOps(body, first, scope).Ok?
    ensures forall child <- BodyOps(body, first, scope).value.children :: Disciplined(child)
    decreases body, 2
  {
    hide Disciplined;
    if body != [] {
      StatementChildrenDisciplined(body[0], first, scope);
      var head := StatementOps(body[0], first, scope).value;
      BodyChildrenDisciplined(body[1..], first + |head.children|, scope);
    }
  }

  lemma {:induction false} StatementChildrenDisciplined(s: Statement, first: nat, scope: Scope)
    requires StatementOps(s, first, scope).Ok?
    ensures forall child <- StatementOps(s, first, scope).value.children :: Disciplined(child)
    decreases s, 1
  {
    hide Disciplined;
    match s
    case BlockStatement(call, program, inverse) =>
      if program.Some? { TemplateDisciplined(program.value, scope); }
      if inverse.Some? { TemplateDisciplined(inverse.value, scope); }
    case PartialStatement(_, _, _, partialBlock, _) =>
      if partialBlock.Some? { TemplateDisciplined(partialBlock.value, scope); }
    case Decorator(_, decorated) =>
      if decorated.Some? { TemplateDisciplined(decorated.value, scope); }
    case _ =>
  }

  // ---------- arguments of a partial ----------

  /** A dynamic partial finds its name below its context exactly when the context is not
      left to `explicitPartialContext`: there the undefined context is pushed first. */
  lemma PartialArguments(call: Call, params: seq<Expr>, slot: nat, scope: Scope)
    requires |params| <= 1
    requires TransCall(call, true, None, None, slot, scope).Ok? && TransParams(params, slot, scope).Ok?
    ensures var context := if params != [] then TransParams(params, slot, scope).value[0]
                           else if scope.options.explicitPartialContext then Inlined(Word("undefined"))
                           else TransPath(CURRENT_CONTEXT, false, slot, scope);
            TransPartialFrame(DynamicName(call), params, slot, scope)
            == Ok([Code(TransCall(call, true, None, None, slot, scope).value), context])
            <==> !ExplicitlyUndefined(params, scope)
  {
    if ExplicitlyUndefined(params, scope) {
      assert TransPartialFrame(DynamicName(call), params, slot, scope).value[0] == Inlined(Word("undefined"));
    } else {
      var n, c := TransName(DynamicName(call), slot, scope).value, TransContext(params, slot, scope).value;
      assert |n| == |c| == 1 && n + c == [n[0], c[0]];
    }
  }
}
