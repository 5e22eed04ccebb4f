/** The two passes as the objects they are: `Compiler` appends to its opcode list while it
    walks the tree, `JavaScriptCompiler` updates its stacks opcode by opcode. */
module HandlebarsCodeGen {
  import opened Outcomes
  import opened HandlebarsAst
  import opened HandlebarsCompiler
  import opened HandlebarsMachine
  import opened HandlebarsMerge

  class Compiler {
    var opcodes: seq<Opcode>
    var children: seq<Environment>
    var blockParams: seq<Option<seq<string>>>
    const options: Options

    constructor (options: Options, blockParams: seq<Option<seq<string>>>)
      ensures opcodes == [] && children == [] && this.blockParams == blockParams && this.options == options
    {
      this.opcodes, this.children, this.blockParams := [], [], blockParams;
      this.options := options;
    }

    function CurrentScope(): Scope
      reads this
    {
      Scope(options, blockParams)
    }

    method EmitOpcode(op: Opcode)
      modifies this`opcodes
      ensures opcodes == old(opcodes) + [op]
    {
      opcodes := opcodes + [op];
    }

    method AcceptPath(path: Path, falsy: bool)
      modifies this`opcodes
      ensures opcodes == old(opcodes) + PathOps(path, falsy, CurrentScope())
    {
      EmitOpcode(GetContext(path.depth));
      var blockParam := None;
      if path.depth == 0 && !ScopedId(path) && path.parts != [] {
        blockParam := BlockParamIndex(blockParams, path.parts[0]);
      }
      if blockParam.Some? {
        EmitOpcode(LookupBlockParam(blockParam.value.0, blockParam.value.1, path.parts));
      } else if path.parts == [] || path.parts[0] == "" {
        EmitOpcode(PushContext);
      } else if path.data {
        EmitOpcode(LookupData(path.depth, path.parts));
      } else {
        EmitOpcode(LookupOnContext(path.parts, falsy));
      }
    }

    method Accept(e: Expr)
      modifies this`opcodes
      ensures opcodes == old(opcodes) + ExprOps(e, CurrentScope())
      decreases e, 1
    {
      match e
      case PathExpression(path) => AcceptPath(path, false);
      case StringLiteral(text) => EmitOpcode(PushString(text));
      case NumberLiteral(number) => EmitOpcode(PushLiteral(NumberWord(number)));
      case BooleanLiteral(truth) => EmitOpcode(PushLiteral(BooleanWord(truth)));
      case UndefinedLiteral => EmitOpcode(PushLiteral(TextWord("undefined")));
      case NullLiteral => EmitOpcode(PushLiteral(TextWord("null")));
      case SubExpression(call) => AcceptCall(call, true, None, None);
    }

    method AcceptCall(call: Call, isSubExpression: bool, program: Option<nat>, inverse: Option<nat>)
      modifies this`opcodes
      ensures opcodes == old(opcodes) + CallOps(call, isSubExpression, program, inverse, CurrentScope())
      decreases call, 2
    {
      hide ClassifySexpr, PathOps, ParamsOps, HashParamOps;
      var path := HeadToPath(call.head);
      match ClassifySexpr(call, isSubExpression, CurrentScope())
      case Simple =>
        AcceptPath(path, false);
        EmitOpcode(ResolvePossibleLambda);
      case Ambiguous =>
        EmitOpcode(GetContext(path.depth));
        EmitOpcode(PushProgram(program));
        EmitOpcode(PushProgram(inverse));
        AcceptPath(path, false);
        EmitOpcode(InvokeAmbiguous(FirstPart(path), program.Some? || inverse.Some?));
      case Helper =>
        PushParams(call.params);
        EmitOpcode(PushProgram(program));
        EmitOpcode(PushProgram(inverse));
        AcceptHash(call.hash, false);
        hide InvokeOps;
        Invoke(path, |call.params|);
        HelperChain(old(opcodes), ParamsOps(call.params, CurrentScope()), PushProgram(program), PushProgram(inverse),
                    HashParamOps(call.hash, false, CurrentScope()), InvokeOps(path, |call.params|, CurrentScope()));
    }

    method Invoke(path: Path, paramSize: nat)
      modifies this`opcodes
      ensures opcodes == old(opcodes) + InvokeOps(path, paramSize, CurrentScope())
    {
      if FirstPart(path) in options.knownHelpers {
        EmitOpcode(InvokeKnownHelper(paramSize, FirstPart(path)));
      } else {
        AcceptPath(path, true);
        EmitOpcode(InvokeHelper(paramSize, path.original, SimpleId(path)));
      }
    }

    method PushParams(params: seq<Expr>)
      modifies this`opcodes
      ensures opcodes == old(opcodes) + ParamsOps(params, CurrentScope())
      decreases params, 0
    {
      for i := 0 to |params|
        invariant opcodes + ParamsOps(params[i..], CurrentScope()) == old(opcodes) + ParamsOps(params, CurrentScope())
      {
        Accept(params[i]);
        assert params[i..][1..] == params[i + 1..];
      }
    }

    method AcceptHash(hash: Hash, omitEmpty: bool)
      modifies this`opcodes
      ensures opcodes == old(opcodes) + HashParamOps(hash, omitEmpty, CurrentScope())
      decreases hash, 3
    {
      match hash
      case NoHash => EmitOpcode(EmptyHash(omitEmpty));
      case Hash(pairs) =>
        hide ValuesOps, AssignOps;
        EmitOpcode(PushHash);
        AcceptValues(pairs);
        AssignValues(pairs);
        EmitOpcode(PopHash);
        HashChain(old(opcodes), PushHash, ValuesOps(pairs, CurrentScope()), AssignOps(pairs), PopHash);
    }

    method AcceptValues(pairs: seq<Pair>)
      modifies this`opcodes
      ensures opcodes == old(opcodes) + ValuesOps(pairs, CurrentScope())
      decreases pairs, 0
    {
      for i := 0 to |pairs|
        invariant opcodes + ValuesOps(pairs[i..], CurrentScope()) == old(opcodes) + ValuesOps(pairs, CurrentScope())
      {
        Accept(pairs[i].value);
        assert pairs[i..][1..] == pairs[i + 1..];
      }
    }

    /** The values come off the stack last first. */
    method AssignValues(pairs: seq<Pair>)
      modifies this`opcodes
      ensures opcodes == old(opcodes) + AssignOps(pairs)
    {
      ghost var pushed := opcodes;
      var i := |pairs|;
      while i > 0
        invariant 0 <= i <= |pairs|
        invariant opcodes == pushed + AssignOps(pairs[i..])
      {
        i := i - 1;
        EmitOpcode(AssignToHash(pairs[i].key));
        assert pairs[i..][1..] == pairs[i + 1..];
      }
      assert pairs[0..] == pairs;
    }

    /** Compiles a nested program with a compiler of its own; its guid is its position. */
    method CompileChild(program: Option<Program>) returns (r: Result<Option<nat>, string>)
      modifies this`children
      ensures match OptionalProgram(program, CurrentScope())
              case Err(message) => r == Err(message)
              case Ok(envs) => r == Ok(OptionalGuid(program, |old(children)|)) && children == old(children) + envs
      decreases program, 0
    {
      match program
      case None => return Ok(None);
      case Some(p) =>
        var child := new Compiler(options, blockParams);
        var compiled := child.AcceptProgram(p);
        if compiled.Err? { return Err(compiled.error); }
        var guid := |children|;
        children := children + [Environment(child.opcodes, child.children, |p.body| == 1)];
        return Ok(Some(guid));
    }

    method AcceptProgram(p: Program) returns (r: Result<(), string>)
      requires opcodes == [] && children == []
      modifies this
      ensures match CompileProgram(p, old(CurrentScope()))
              case Err(message) => r == Err(message)
              case Ok(env) =>
                r == Ok(()) && opcodes == env.opcodes && children == env.children && blockParams == old(blockParams)
      decreases p, 3
    {
      hide StatementOps, BodyOps, AfterBody;
      ProgramIs(p, CurrentScope());
      blockParams := [p.blockParams] + blockParams;
      ghost var inner := CurrentScope();
      ghost var all := BodyOps(p.body, 0, inner);
      assert p.body[0..] == p.body;
      NothingBefore(all);
      for i := 0 to |p.body|
        invariant CurrentScope() == inner
        invariant all == AfterBody(opcodes, children, BodyOps(p.body[i..], |children|, inner))
      {
        assert p.body[i..][1..] == p.body[i + 1..];
        StepBody(opcodes, children, p.body[i..], inner);
        var accepted := AcceptStatement(p.body[i]);
        if accepted.Err? { return accepted; }
      }
      BodyDone(opcodes, children, inner);
      assert p.body[|p.body|..] == [];
      blockParams := blockParams[1..];
      return Ok(());
    }

    method AcceptStatement(s: Statement) returns (r: Result<(), string>)
      modifies this`opcodes, this`children
      ensures match StatementOps(s, |old(children)|, CurrentScope())
              case Err(message) => r == Err(message)
              case Ok(c) => r == Ok(()) && opcodes == old(opcodes) + c.ops && children == old(children) + c.children
      decreases s, 1
    {
      hide CallOps, ParamsOps, HashParamOps, PathOps, ClassifySexpr;
      match s {
      case ContentStatement(value) =>
        if value != "" { EmitOpcode(AppendContent(value)); }
      case CommentStatement =>
      case MustacheStatement(call, escaped) =>
        AcceptCall(call, false, None, None);
        EmitOpcode(if escaped && !options.noEscape then AppendEscaped else Append);
      case BlockStatement(call, program, inverse) =>
        var p :- CompileChild(program);
        var i :- CompileChild(inverse);
        AcceptBlock(call, p, i);
      case PartialStatement(name, params, hash, partialBlock, indent) =>
        var p :- CompileChild(partialBlock);
        if |params| > 1 { return Err("Unsupported number of partial arguments"); }
        AcceptPartialFrame(name, params);
        AcceptPartial(name, p, hash, indent);
      case Decorator(call, decorated) =>
        var p :- CompileChild(decorated);
        AcceptDecorator(call, p);
      }
      return Ok(());
    }

    method AcceptDecorator(call: Call, program: Option<nat>)
      modifies this`opcodes
      ensures opcodes == old(opcodes)
        + (ParamsOps(call.params, CurrentScope()) + [PushProgram(program), PushProgram(None)]
           + HashParamOps(call.hash, false, CurrentScope())
           + [RegisterDecorator(|call.params|, HeadToPath(call.head).original)])
      decreases call, 3
    {
      hide ParamsOps, HashParamOps;
      PushParams(call.params);
      EmitOpcode(PushProgram(program));
      EmitOpcode(PushProgram(None));
      AcceptHash(call.hash, false);
      EmitOpcode(RegisterDecorator(|call.params|, HeadToPath(call.head).original));
      HelperChain(old(opcodes), ParamsOps(call.params, CurrentScope()), PushProgram(program), PushProgram(None),
                  HashParamOps(call.hash, false, CurrentScope()),
                      [RegisterDecorator(|call.params|, HeadToPath(call.head).original)]);
    }

    method AcceptBlock(call: Call, program: Option<nat>, inverse: Option<nat>)
      modifies this`opcodes
      ensures opcodes == old(opcodes) + BlockOps(call, program, inverse, CurrentScope())
      decreases call, 3
    {
      hide CallOps, ClassifySexpr;
      AcceptCall(call, false, program, inverse);
      var kind := ClassifySexpr(call, false, CurrentScope());
      if kind != Helper {
        EmitOpcode(PushProgram(program));
        EmitOpcode(PushProgram(inverse));
        EmitOpcode(EmptyHash(false));
        EmitOpcode(if kind == Simple then BlockValue(HeadToPath(call.head).original) else AmbiguousBlockValue);
      }
      EmitOpcode(Append);
    }

    method AcceptPartialFrame(name: PartialName, params: seq<Expr>)
      modifies this`opcodes
      ensures opcodes == old(opcodes)
        + PartialFrameOps(params, NameOps(name, CurrentScope()), ParamsOps(params, CurrentScope()), CurrentScope())
      decreases name, params, 4
    {
      hide CallOps, ParamsOps, PathOps;
      assert opcodes + [] == opcodes;
      if params == [] && options.explicitPartialContext {
        EmitOpcode(PushLiteral(TextWord("undefined")));
      }
      if name.DynamicName? { AcceptCall(name.call, true, None, None); }
      if params != [] {
        PushParams(params);
      } else if !options.explicitPartialContext {
        AcceptPath(CURRENT_CONTEXT, false);
      }
    }

    method AcceptPartial(name: PartialName, program: Option<nat>, hash: Hash, indent: string)
      modifies this`opcodes
      ensures opcodes == old(opcodes)
              + PartialOps(name, program, HashParamOps(hash, true, CurrentScope()), indent, CurrentScope())
      decreases hash, 4
    {
      hide HashParamOps;
      ghost var start, hashOps := opcodes, HashParamOps(hash, true, CurrentScope());
      EmitOpcode(PushProgram(program));
      EmitOpcode(PushProgram(None));
      AcceptHash(hash, true);
      var kept := indent;
      ghost var prefix: seq<Opcode> := [];
      if options.preventIndent && indent != "" {
        EmitOpcode(AppendContent(indent));
        prefix := [AppendContent(indent)];
        kept := "";
      }
      assert opcodes == start + [PushProgram(program)] + [PushProgram(None)] + hashOps + prefix;
      EmitOpcode(InvokePartial(name.DynamicName?, PrintedName(name), kept));
      EmitOpcode(Append);
      PartialChain(start, PushProgram(program), PushProgram(None), hashOps, prefix,
                   InvokePartial(name.DynamicName?, PrintedName(name), kept), Append);
    }
  }

  lemma HashChain(s: seq<Opcode>, a: Opcode, stored: seq<Opcode>, keys: seq<Opcode>, b: Opcode)
    ensures s + [a] + stored + keys + [b] == s + ([a] + stored + keys + [b])
  {
  }

  lemma HelperChain(s: seq<Opcode>, params: seq<Opcode>, a: Opcode, b: Opcode, hash: seq<Opcode>, invoke: seq<Opcode>)
    ensures s + params + [a] + [b] + hash + invoke == s + (params + [a, b] + hash + invoke)
  {
  }

  lemma PartialChain(s: seq<Opcode>, a: Opcode, b: Opcode, hash: seq<Opcode>, prefix: seq<Opcode>, c: Opcode, d: Opcode)
    ensures s + [a] + [b] + hash + prefix + [c] + [d] == s + ([a, b] + hash + prefix + [c, d])
  {
  }

  /** What a body gives when `opcodes` and `children` are there already. */
  ghost function AfterBody(opcodes: seq<Opcode>, children: seq<Environment>,
                           rest: Result<Compiled, string>): Result<Compiled, string> {
    match rest case Err(message) => Err(message) case Ok(c) => Ok(Compiled(opcodes + c.ops, children + c.children))
  }

  lemma BodyDone(opcodes: seq<Opcode>, children: seq<Environment>, scope: Scope)
    ensures AfterBody(opcodes, children, BodyOps([], |children|, scope)) == Ok(Compiled(opcodes, children))
  {
    assert opcodes + [] == opcodes && children + [] == children;
  }

  lemma ProgramIs(p: Program, scope: Scope)
    ensures var body := BodyOps(p.body, 0, scope.(blockParams := [p.blockParams] + scope.blockParams));
            CompileProgram(p, scope)
            == match body case Err(message) => Err(message)
                case Ok(c) => Ok(Environment(c.ops, c.children, |p.body| == 1))
  {
  }

  lemma NothingBefore(rest: Result<Compiled, string>)
    ensures AfterBody([], [], rest) == rest
  {
    if rest.Ok? { assert [] + rest.value.ops == rest.value.ops && [] + rest.value.children == rest.value.children; }
  }

  lemma StepBody(opcodes: seq<Opcode>, children: seq<Environment>, body: seq<Statement>, scope: Scope)
    requires body != []
    ensures var head := StatementOps(body[0], |children|, scope);
            AfterBody(opcodes, children, BodyOps(body, |children|, scope))
            == match head
               case Err(message) => Err(message)
               case Ok(c) => AfterBody(opcodes + c.ops, children + c.children,
                                       BodyOps(body[1..], |children| + |c.children|, scope))
  {
    hide StatementOps;
    var head := StatementOps(body[0], |children|, scope);
    if head.Ok? {
      var tail := BodyOps(body[1..], |children| + |head.value.children|, scope);
      if tail.Ok? {
        assert opcodes + head.value.ops + tail.value.ops == opcodes + (head.value.ops + tail.value.ops);
        assert children + head.value.children + tail.value.children
            == children + (head.value.children + tail.value.children);
      }
    }
  }

  predicate Pushes(op: Opcode) {
    op.GetContext? || op.PushContext? || op.LookupOnContext? || op.LookupBlockParam? || op.LookupData? || op.PushString?
    || op.PushLiteral? || op.PushProgram? || op.EmptyHash? || op.ResolvePossibleLambda?
  }

  predicate Calls(op: Opcode) {
    op.InvokeHelper? || op.InvokeKnownHelper? || op.InvokeAmbiguous? || op.InvokePartial? || op.BlockValue?
    || op.AmbiguousBlockValue? || op.RegisterDecorator?
  }

  class JavaScriptCompiler {
    var inlineStack: seq<Entry>
    var compileStack: seq<Entry>
    var stackSlot: nat
    var stackVars: nat
    var hash: Option<seq<Field>>
    var hashes: seq<seq<Field>>
    var lastContext: nat
    var lastHelper: Option<string>
    var source: seq<JsStatement>
    var pendingContent: string
    var decorators: seq<JsStatement>
    const isSimple: bool

    /** The object as the machine state of the specification. */
    ghost function View(): Machine
      reads this
    {
      Machine(inlineStack, compileStack, stackSlot, hash, hashes, Registers(stackVars, lastContext, lastHelper),
              Output(source, pendingContent, decorators), isSimple)
    }

    /** A step that succeeded left the state `expected` tells. */
    ghost predicate Is<T>(r: Result<T, Fault>, expected: Result<Machine, Fault>)
      reads this
    {
      match expected case Err(fault) => r == Err(fault) case Ok(m) => r.Ok? && View() == m
    }

    constructor (isSimple: bool)
      ensures View() == Initial(isSimple)
    {
      inlineStack, compileStack, stackSlot, stackVars := [], [], 0, 0;
      hash, hashes, lastContext, lastHelper := None, [], 0, None;
      source, pendingContent, decorators := [], "", [];
      this.isSimple := isSimple;
    }

    method PushEntry(entry: Entry)
      modifies this`inlineStack
      ensures View() == Push(old(View()), entry)
    {
      inlineStack := inlineStack + [entry];
    }

    method PopStack() returns (r: Result<JsExpr, Fault>)
      modifies this`inlineStack, this`compileStack, this`stackSlot
      ensures match Pop(old(View())) case Err(fault) => r == Err(fault) case Ok(p) => r == Ok(p.1) && View() == p.0
    {
      var inline := inlineStack != [];
      var item := Inlined(Undefined);
      if inline {
        item := Last(inlineStack);
        inlineStack := Init(inlineStack);
      } else if compileStack != [] {
        item := Last(compileStack);
        compileStack := Init(compileStack);
        if item.Code? {
          if stackSlot == 0 { return Err(InvalidStackPop); }
          stackSlot := stackSlot - 1;
        }
      } else {
        if stackSlot == 0 { return Err(InvalidStackPop); }
        stackSlot := stackSlot - 1;
      }
      return Ok(item.value);
    }

    method NextStack() returns (slot: nat)
      modifies this`stackSlot, this`stackVars
      ensures View() == IncrStack(old(View())) && slot == stackSlot
    {
      stackSlot := stackSlot + 1;
      if stackSlot > stackVars { stackVars := stackVars + 1; }
      return stackSlot;
    }

    method Replace(use: Use) returns (r: Result<(), Fault>)
      modifies this`inlineStack, this`stackSlot, this`stackVars
      ensures Is(r, ReplaceStack(old(View()), use))
    {
      if inlineStack == [] { return Err(ReplaceOnNonInline); }
      var top := Last(inlineStack);
      inlineStack := Init(inlineStack);
      ghost var below := inlineStack;
      match top {
        case Inlined(v) => PushEntry(Code(Apply(v, v, use)));
        case Code(e) =>
          var slot := NextStack();
          PushEntry(Code(StackVar(slot)));
          var stack := Last(inlineStack).value;
          var item := Apply(AssignStack(slot, e), stack, use);
          inlineStack := Init(inlineStack);
          assert inlineStack == below;
          stackSlot := stackSlot - 1;
          PushEntry(Code(item));
      }
      return Ok(());
    }

    method WriteSource(statement: JsStatement)
      modifies this`source, this`pendingContent
      ensures View() == PushSource(old(View()), statement)
    {
      FlushContent();
      source := source + [statement];
    }

    method FlushContent()
      modifies this`source, this`pendingContent
      ensures View() == old(View()).(output := FlushPending(old(View()).output))
    {
      if pendingContent != "" {
        source := source + [AppendText(pendingContent)];
        pendingContent := "";
      }
    }

    method FlushInlineStack()
      modifies this`inlineStack, this`compileStack, this`stackSlot, this`stackVars, this`source, this`pendingContent
      ensures View() == FlushInline(old(View()))
    {
      var entries := inlineStack;
      inlineStack := [];
      for i := 0 to |entries|
        invariant Spill(View(), entries[i..]) == FlushInline(old(View()))
      {
        assert entries[i..][0] == entries[i] && entries[i..][1..] == entries[i + 1..];
        match entries[i] {
          case Inlined(_) => compileStack := compileStack + [entries[i]];
          case Code(e) =>
            var slot := NextStack();
            WriteSource(SetStack(slot, e));
            compileStack := compileStack + [Code(StackVar(slot))];
        }
      }
    }

    /** Pops hash, programs and parameters; the parameters come last first. */
    method Setup(name: string, paramSize: nat) returns (r: Result<(seq<JsExpr>, CallOptions), Fault>)
      modifies this`inlineStack, this`compileStack, this`stackSlot
      ensures match SetupParams(old(View()), name, paramSize)
              case Err(fault) => r == Err(fault)
              case Ok(s) => r == Ok((s.1, s.2)) && View() == s.0
    {
      hide Pop;
      var hashed :- PopStack();
      var inverse :- PopStack();
      var program :- PopStack();
      ghost var start := View();
      var params: seq<JsExpr> := [];
      var i := paramSize;
      assert PopMany(start, i).Ok? ==> PopMany(start, i).value.1 + params == PopMany(start, i).value.1;
      while i > 0
        invariant 0 <= i <= paramSize && |params| == paramSize - i
        invariant PopMany(start, paramSize)
                  == match PopMany(View(), i) case Err(fault) => Err(fault) case Ok(p) => Ok((p.0, p.1 + params))
      {
        ghost var before := View();
        ghost var collected := params;
        var param :- PopStack();
        i := i - 1;
        params := [param] + params;
        CollectParam(before, View(), i, param, collected);
      }
      assert [] + params == params;
      return Ok((params, MakeOptions(name, hashed, program, inverse)));
    }

    lemma CollectParam(before: Machine, after: Machine, i: nat, param: JsExpr, collected: seq<JsExpr>)
      requires Pop(before) == Ok((after, param))
      ensures (match PopMany(before, i + 1) case Err(fault) => Err(fault) case Ok(p) => Ok((p.0, p.1 + collected)))
           == (match PopMany(after, i) case Err(fault) => Err(fault)
               case Ok(p) => Ok((p.0, p.1 + ([param] + collected))))
    {
      hide Pop;
      var rest := PopMany(after, i);
      if rest.Ok? { assert rest.value.1 + [param] + collected == rest.value.1 + ([param] + collected); }
    }

    method Resolve(parts: seq<string>, falsy: bool) returns (r: Result<(), Fault>)
      modifies this
      ensures Is(r, ResolvePath(old(View()), parts, falsy))
    {
      hide ReplaceStack;
      assert parts[0..] == parts;
      for i := 0 to |parts|
        invariant ResolvePath(View(), parts[i..], falsy) == ResolvePath(old(View()), parts, falsy)
      {
        assert parts[i..][0] == parts[i] && parts[i..][1..] == parts[i + 1..];
        var replaced := Replace(Use.Lookup(parts[i], falsy));
        if replaced.Err? { return replaced; }
      }
      return Ok(());
    }

    method Helper(name: string, paramSize: nat, callee: JsExpr) returns (r: Result<(), Fault>)
      modifies this
      ensures Is(r, CallHelper(old(View()), name, paramSize, callee))
    {
      hide SetupParams;
      var setup :- Setup(name, paramSize);
      PushEntry(Code(HelperCall(callee, setup.0, setup.1)));
      return Ok(());
    }

    method AmbiguousHelper(name: string, isBlock: bool) returns (r: Result<(), Fault>)
      modifies this
      ensures Is(r, CallAmbiguous(old(View()), name, isBlock))
    {
      hide SetupParams, Pop;
      var nonHelper :- PopStack();
      PushEntry(Inlined(EmptyObject));
      var setup :- Setup(name, 0);
      lastHelper := Some(name);
      PushEntry(Code(AmbiguousCall(name, nonHelper, setup.1, isBlock)));
      return Ok(());
    }

    method Partial(dynamic: bool, name: string, indent: string) returns (r: Result<(), Fault>)
      modifies this
      ensures Is(r, CallPartial(old(View()), dynamic, name, indent))
    {
      hide Pop;
      var setup :- Setup(name, 1);
      var callee := PartialRef(name);
      if dynamic { callee :- PopStack(); }
      var options := if dynamic then setup.1.(name := None) else setup.1;
      PushEntry(Code(PartialCall(callee, setup.0[0], options, dynamic, indent)));
      return Ok(());
    }

    method BlockHelper(name: string) returns (r: Result<(), Fault>)
      modifies this
      ensures Is(r, CallBlockHelper(old(View()), name))
    {
      hide SetupParams, Pop;
      var setup :- Setup(name, 0);
      var value :- PopStack();
      PushEntry(Code(BlockHelperMissing(value, Literally(setup.1))));
      return Ok(());
    }

    method AmbiguousBlock() returns (r: Result<(), Fault>)
      modifies this
      ensures Is(r, FixAmbiguousBlock(old(View())))
    {
      hide FlushInline;
      var setup :- Setup("", 0);
      FlushInlineStack();
      var current := if inlineStack != [] then Last(inlineStack).value
                     else if compileStack != [] then Last(compileStack).value else Undefined;
      WriteSource(UnlessHelper(lastHelper, current, BlockHelperMissing(current, Kept)));
      return Ok(());
    }

    method OpenHash()
      modifies this`hash, this`hashes
      ensures View() == Step(PushHash, old(View())).value
    {
      if hash.Some? { hashes := hashes + [hash.value]; }
      hash := Some([]);
    }

    method AssignKey(key: string) returns (r: Result<(), Fault>)
      modifies this
      ensures Is(r, AssignHash(old(View()), key))
    {
      hide StoreHash, Pop;
      var value :- PopStack();
      if hash.None? { return Err(NoHashOpen); }
      var fields :- StoreHash(hash.value, key, value);
      hash := Some(fields);
      return Ok(());
    }

    method ShutHash() returns (r: Result<(), Fault>)
      modifies this
      ensures Is(r, CloseHash(old(View())))
    {
      if hash.None? { return Err(NoHashOpen); }
      var fields :- LiteralFields(hash.value);
      if hashes == [] {
        hash := None;
      } else {
        hash := Some(Last(hashes));
        hashes := Init(hashes);
      }
      PushEntry(Code(ObjectLiteral(fields)));
      return Ok(());
    }

    method AppendTopOfStack() returns (r: Result<(), Fault>)
      modifies this
      ensures Is(r, AppendTop(old(View())))
    {
      hide WriteLine;
      if inlineStack != [] {
        var replaced :- Replace(OrEmpty);
        var top :- PopStack();
        WriteSource(AppendValue(top));
      } else {
        var local :- PopStack();
        WriteSource(AppendIfNotNull(local));
        if isSimple { WriteSource(ElseAppendNothing); }
      }
      return Ok(());
    }

    /** The opcodes that look up a path. */
    method ExecuteLookup(op: Opcode) returns (r: Result<(), Fault>)
      requires op.LookupOnContext? || op.LookupBlockParam? || op.LookupData?
      modifies this
      ensures Is(r, Step(op, old(View())))
    {
      hide ResolvePath, Pop;
      match op
      case LookupOnContext(parts, falsy) => PushEntry(Inlined(Context(lastContext))); r := Resolve(parts, falsy);
      case LookupBlockParam(frame, index, parts) =>
        PushEntry(Code(BlockParam(frame, index))); r := Resolve(Tail(parts), false);
      case LookupData(depth, parts) => PushEntry(Inlined(Data(depth))); r := Resolve(parts, true);
    }

    /** The opcodes that look up or push a value. */
    method ExecutePush(op: Opcode) returns (r: Result<(), Fault>)
      requires Pushes(op)
      modifies this
      ensures Is(r, Step(op, old(View())))
    {
      hide ResolvePath, Pop;
      match op
      case GetContext(depth) => lastContext := depth; return Ok(());
      case PushContext => PushEntry(Inlined(Context(lastContext))); return Ok(());
      case PushString(text) => PushEntry(Inlined(Quoted(text))); return Ok(());
      case PushLiteral(literal) => PushEntry(Inlined(LiteralExpr(literal))); return Ok(());
      case PushProgram(guid) => PushEntry(Inlined(ProgramExpr(guid))); return Ok(());
      case EmptyHash(omitEmpty) =>
        PushEntry(Inlined(if omitEmpty then Word("undefined") else EmptyObject));
        return Ok(());
      case ResolvePossibleLambda =>
        var top :- PopStack();
        PushEntry(Code(Lambda(top)));
        return Ok(());
      case LookupOnContext(_, _) => r := ExecuteLookup(op);
      case LookupBlockParam(_, _, _) => r := ExecuteLookup(op);
      case LookupData(_, _) => r := ExecuteLookup(op);
    }

    method Decorate(name: string, paramSize: nat) returns (r: Result<(), Fault>)
      modifies this
      ensures Is(r, Step(RegisterDecorator(paramSize, name), old(View())))
    {
      hide SetupParams;
      var setup :- Setup(name, paramSize);
      decorators := decorators + [RunDecorator(name, setup.0, setup.1)];
      return Ok(());
    }

    /** The opcodes that call helpers and partials. */
    method ExecuteCall(op: Opcode) returns (r: Result<(), Fault>)
      requires Calls(op)
      modifies this
      ensures Is(r, Step(op, old(View())))
    {
      hide CallHelper, CallAmbiguous, CallPartial, CallBlockHelper, FixAmbiguousBlock, SetupParams, Pop;
      match op
      case InvokeHelper(paramSize, name, isSimple) =>
        var nonHelper :- PopStack();
        r := Helper(name, paramSize, Or(if isSimple then Or(HelperRef(name), nonHelper) else nonHelper, HelperMissing));
      case InvokeKnownHelper(paramSize, name) => r := Helper(name, paramSize, HelperRef(name));
      case InvokeAmbiguous(name, isBlock) => r := AmbiguousHelper(name, isBlock);
      case InvokePartial(dynamic, name, indent) => r := Partial(dynamic, name, indent);
      case BlockValue(name) => r := BlockHelper(name);
      case AmbiguousBlockValue => r := AmbiguousBlock();
      case RegisterDecorator(paramSize, name) =>
        r := Decorate(name, paramSize);
    }

    method Execute(op: Opcode) returns (r: Result<(), Fault>)
      modifies this
      ensures Is(r, Step(op, old(View())))
    {
      if Pushes(op) {
        hide Step;
        r := ExecutePush(op);
      } else if Calls(op) {
        hide Step;
        r := ExecuteCall(op);
      } else {
        hide AppendTop, AssignHash, CloseHash, Pop, WriteLine;
        match op
        case PushHash => OpenHash(); return Ok(());
        case AssignToHash(key) => r := AssignKey(key);
        case PopHash => r := ShutHash();
        case AppendContent(content) => pendingContent := pendingContent + content; return Ok(());
        case Append => r := AppendTopOfStack();
        case AppendEscaped =>
          var top :- PopStack();
          WriteSource(AppendEscapedValue(top));
          return Ok(());
      }
    }

    /** Goes through the lines and joins those that only append; what is not joined yet waits
        in `run`. */
    method MergeLines() returns (f: JsFunction)
      ensures f == MergeSource(source, isSimple)
    {
      hide PartsOf, RunLength, Lines;
      NoneLeft();
      var appendOnly, appendFirst, sourceSeen := true, false, false;
      var first, run: seq<JsStatement> := [], [];
      var parts: seq<Part> := [];
      assert source[0..] == source && run + source == source;
      for i := 0 to |source|
        invariant appendOnly == (isSimple || !sourceSeen) && appendFirst == (first != [])
        invariant isSimple ==> run == [] && sourceSeen == (i > 0) && parts + Lines(source[i..]) == Lines(source)
        invariant !isSimple ==> Merging(source, source[i..], first, run, parts, sourceSeen)
      {
        hide Merging, MergeSource;
        var line := source[i];
        LinesFirst(source, i, parts);
        if Appends(line) && !isSimple {
          MergeAppend(source, line, source[i + 1..], first, run, parts, sourceSeen);
          run := run + [line];
        } else {
          if !isSimple { MergeLine(source, line, source[i + 1..], first, run, parts, sourceSeen); }
          if run != [] {
            if !sourceSeen {
              appendFirst, first := true, run;
            } else {
              parts := parts + [AddJoined(run)];
            }
            run := [];
          }
          sourceSeen := true;
          if !isSimple { appendOnly := false; }
          parts := parts + [AsIs(line)];
        }
      }
      assert source[|source|..] == [];
      if !isSimple { MergeEnds(source, first, run, parts, sourceSeen); }
      if appendOnly {
        if run != [] { return JsFunction(NoBuffer, parts, JoinedLines(run)); }
        return JsFunction(NoBuffer, parts, if sourceSeen then ReturnedBefore else EmptyString);
      }
      return JsFunction(if appendFirst then FirstRun(first) else EmptyBuffer, parts, BufferAnd(run));
    }

    /** Runs a program on a new code generator and gives its code. */
    method Compile(env: Environment) returns (r: Result<JsFunction, Fault>)
      requires View() == Initial(env.isSimple)
      modifies this
      ensures Is(r, RunProgram(env)) && r == Generated(env)
    {
      hide Step, MergeSource;
      assert env.opcodes[0..] == env.opcodes;
      for i := 0 to |env.opcodes|
        invariant Run(env.opcodes[i..], View()) == Run(env.opcodes, Initial(env.isSimple))
      {
        assert env.opcodes[i..][0] == env.opcodes[i] && env.opcodes[i..][1..] == env.opcodes[i + 1..];
        var executed := Execute(env.opcodes[i]);
        if executed.Err? { return Err(executed.error); }
      }
      FlushContent();
      if stackSlot != 0 || inlineStack != [] || compileStack != [] { return Err(ContentLeftOnStack); }
      var code := MergeLines();
      return Ok(code);
    }
  }
}
