/** What the emitted opcodes leave on the stack, read off the syntax tree alone. */
module HandlebarsTranslation {
  import opened Outcomes
  import opened HandlebarsAst
  import opened HandlebarsCompiler
  import opened HandlebarsMachine

  // ---------- the reference translation ----------

  /** Looks `parts` up one after the other; code is held in variable `slot` meanwhile. */
  function Lookups(entry: Entry, parts: seq<string>, falsy: bool, slot: nat): Entry
    decreases |parts|
  {
    if parts == [] then entry
    else
      var use := Use.Lookup(parts[0], falsy);
      var v := entry.value;
      Lookups(Code(if entry.Inlined? then Apply(v, v, use) else Apply(AssignStack(slot, v), StackVar(slot), use)),
              parts[1..], falsy, slot)
  }

  function TransPath(path: Path, falsy: bool, slot: nat, scope: Scope): Entry {
    var blockParam :=
      if path.depth == 0 && !ScopedId(path) && path.parts != []
      then BlockParamIndex(scope.blockParams, path.parts[0]) else None;
    if blockParam.Some? then Lookups(Code(BlockParam(blockParam.value.0, blockParam.value.1)),
                                     path.parts[1..], false, slot)
    else if path.parts == [] || path.parts[0] == "" then Inlined(Context(path.depth))
    else if path.data then Lookups(Inlined(Data(path.depth)), path.parts, true, slot)
    else Lookups(Inlined(Context(path.depth)), path.parts, falsy, slot)
  }

  function TransExpr(e: Expr, slot: nat, scope: Scope): Result<Entry, Fault>
    decreases e, 1
  {
    match e
    case PathExpression(path) => Ok(TransPath(path, false, slot, scope))
    case StringLiteral(text) => Ok(Inlined(Quoted(text)))
    case NumberLiteral(number) => Ok(Inlined(Number(number)))
    case BooleanLiteral(truth) => Ok(Inlined(Boolean(truth)))
    case UndefinedLiteral => Ok(Inlined(Word("undefined")))
    case NullLiteral => Ok(Inlined(Word("null")))
    case SubExpression(call) => var code :- TransCall(call, true, None, None, slot, scope); Ok(Code(code))
  }

  function TransCall(call: Call, isSubExpression: bool, program: Option<nat>, inverse: Option<nat>,
                     slot: nat, scope: Scope): Result<JsExpr, Fault>
    decreases call, 2
  {
    var path := HeadToPath(call.head);
    match ClassifySexpr(call, isSubExpression, scope)
    case Simple => Ok(Lambda(TransPath(path, false, slot, scope).value))
    case Ambiguous =>
      Ok(AmbiguousCall(FirstPart(path), TransPath(path, false, slot, scope).value,
                       MakeOptions(FirstPart(path), EmptyObject, ProgramExpr(program), ProgramExpr(inverse)),
                       program.Some? || inverse.Some?))
    case Helper =>
      var args :- TransParams(call.params, slot, scope);
      var hash :- TransHash(call.hash, false, slot, scope);
      Ok(TransInvoke(path, args, ProgramExpr(program), ProgramExpr(inverse), hash.value, slot, scope))
  }

  function TransInvoke(path: Path, args: seq<Entry>, program: JsExpr, inverse: JsExpr, hash: JsExpr,
                       slot: nat, scope: Scope): JsExpr
  {
    if FirstPart(path) in scope.options.knownHelpers then
      HelperCall(HelperRef(FirstPart(path)), Values(args), MakeOptions(FirstPart(path), hash, program, inverse))
    else
      var nonHelper := TransPath(path, true, slot, scope).value;
      var lookup := if SimpleId(path) then Or(HelperRef(path.original), nonHelper) else nonHelper;
      HelperCall(Or(lookup, HelperMissing), Values(args), MakeOptions(path.original, hash, program, inverse))
  }

  function TransParams(params: seq<Expr>, slot: nat, scope: Scope): (r: Result<seq<Entry>, Fault>)
    ensures r.Ok? ==> |r.value| == |params|
    decreases params, 0
  {
    if params == [] then Ok([])
    else
      var head :- TransExpr(params[0], slot, scope);
      var tail :- TransParams(params[1..], slot, scope);
      Ok([head] + tail)
  }

  function TransHash(hash: Hash, omitEmpty: bool, slot: nat, scope: Scope): Result<Entry, Fault>
    decreases hash, 3
  {
    match hash
    case NoHash => Ok(Inlined(if omitEmpty then Word("undefined") else EmptyObject))
    case Hash(pairs) =>
      var values :- TransPairs(pairs, slot, scope);
      var fields :- TransFields(pairs, Values(values));
      Ok(Code(ObjectLiteral(fields)))
  }

  function TransPairs(pairs: seq<Pair>, slot: nat, scope: Scope): (r: Result<seq<Entry>, Fault>)
    ensures r.Ok? ==> |r.value| == |pairs|
    decreases pairs, 0
  {
    if pairs == [] then Ok([])
    else
      var head :- TransExpr(pairs[0].value, slot, scope);
      var tail :- TransPairs(pairs[1..], slot, scope);
      Ok([head] + tail)
  }

  function Values(entries: seq<Entry>): (values: seq<JsExpr>)
    ensures |values| == |entries|
    ensures forall i :: 0 <= i < |entries| ==> values[i] == entries[i].value
  {
    if entries == [] then [] else [entries[0].value] + Values(entries[1..])
  }

  /** Stores the last pair first, so that the first of equal keys stays. */
  function Bind(pairs: seq<Pair>, values: seq<JsExpr>, fields: seq<Field>): Result<seq<Field>, Fault>
    requires |pairs| == |values|
  {
    if pairs == [] then Ok(fields)
    else
      var later :- Bind(pairs[1..], values[1..], fields);
      StoreHash(later, pairs[0].key, values[0])
  }

  /** The fields of the literal that a hash becomes. */
  function TransFields(pairs: seq<Pair>, values: seq<JsExpr>): Result<seq<Field>, Fault>
    requires |pairs| == |values|
  {
    var fields :- Bind(pairs, values, []);
    LiteralFields(fields)
  }

  // ---------- the machine computes the reference translation ----------

  /** `r` is `m` with `entries` on top; only bookkeeping that no later code reads differs. */
  ghost predicate Leaves(r: Result<Machine, Fault>, m: Machine, t: Result<seq<Entry>, Fault>) {
    match t
    case Err(fault) => r == Err(fault)
    case Ok(entries) =>
      && r.Ok?
      && r.value == m.(inlineStack := m.inlineStack + entries, registers := r.value.registers)
      && r.value.registers.stackVars >= m.registers.stackVars
  }

  /** No outer hash waits while no hash is being collected. */
  predicate HashesNested(m: Machine) {
    m.hash.None? ==> m.hashes == []
  }

  function One(t: Result<Entry, Fault>): Result<seq<Entry>, Fault> {
    match t case Err(fault) => Err(fault) case Ok(entry) => Ok([entry])
  }

  function CodeOf(t: Result<JsExpr, Fault>): Result<seq<Entry>, Fault> {
    match t case Err(fault) => Err(fault) case Ok(code) => Ok([Code(code)])
  }

  function Then(r: Result<Machine, Fault>, ops: seq<Opcode>): Result<Machine, Fault> {
    match r case Err(fault) => Err(fault) case Ok(m) => Run(ops, m)
  }

  lemma {:induction false} RunConcat(a: seq<Opcode>, b: seq<Opcode>, m: Machine)
    ensures Run(a + b, m) == Then(Run(a, m), b)
  {
    hide Step;
    if a == [] {
      assert a + b == b;
    } else {
      assert (a + b)[1..] == a[1..] + b;
      var next := Step(a[0], m);
      if next.Ok? { RunConcat(a[1..], b, next.value); }
    }
  }

  lemma RunOne(op: Opcode, m: Machine)
    ensures Run([op], m) == Step(op, m)
  {
    hide Step;
    var next := Step(op, m);
    if next.Ok? { assert Run([], next.value) == Ok(next.value); }
  }

  lemma {:induction false} ResolvePathCorrect(below: Machine, entry: Entry, parts: seq<string>, falsy: bool)
    ensures Leaves(ResolvePath(Push(below, entry), parts, falsy), below,
                   Ok([Lookups(entry, parts, falsy, below.stackSlot + 1)]))
    decreases |parts|
  {
    if parts != [] {
      var m := Push(below, entry);
      var next := ReplaceStack(m, Use.Lookup(parts[0], falsy)).value;
      assert Init(m.inlineStack) == below.inlineStack;
      var below' := below.(registers := next.registers);
      assert next == Push(below', Last(next.inlineStack));
      ResolvePathCorrect(below', Last(next.inlineStack), parts[1..], falsy);
    }
  }

  function Both(t: Result<seq<Entry>, Fault>, u: Result<seq<Entry>, Fault>): Result<seq<Entry>, Fault> {
    match t case Err(fault) => Err(fault) case Ok(a) => match u case Err(fault) => Err(fault) case Ok(b) => Ok(a + b)
  }

  lemma LeavesConcat(a: seq<Opcode>, b: seq<Opcode>, m: Machine,
                     t: Result<seq<Entry>, Fault>, u: Result<seq<Entry>, Fault>)
    requires Leaves(Run(a, m), m, t)
    requires t.Ok? ==> Leaves(Run(b, Run(a, m).value), Run(a, m).value, u)
    ensures Leaves(Run(a + b, m), m, Both(t, u))
  {
    hide Run, Step;
    RunConcat(a, b, m);
    if t.Ok? && u.Ok? {
      assert m.inlineStack + t.value + u.value == m.inlineStack + (t.value + u.value);
    }
  }

  lemma RunGetContext(depth: nat, rest: seq<Opcode>, m: Machine)
    ensures Run([GetContext(depth)] + rest, m) == Run(rest, m.(registers := m.registers.(lastContext := depth)))
  {
    assert ([GetContext(depth)] + rest)[1..] == rest;
  }

  lemma LookupStep(op: Opcode, m: Machine)
    ensures op.PushContext? ==> Step(op, m) == Ok(Push(m, Inlined(Context(m.registers.lastContext))))
    ensures op.LookupOnContext? ==>
              Step(op, m) == ResolvePath(Push(m, Inlined(Context(m.registers.lastContext))), op.parts, op.falsy)
    ensures op.LookupBlockParam? ==>
              Step(op, m) == ResolvePath(Push(m, Code(BlockParam(op.frame, op.index))), Tail(op.parts), false)
    ensures op.LookupData? ==> Step(op, m) == ResolvePath(Push(m, Inlined(Data(op.depth))), op.parts, true)
  {
    hide ResolvePath, AppendTop, CallHelper, CallAmbiguous, CallPartial, CallBlockHelper, FixAmbiguousBlock,
        AssignHash, CloseHash, Pop, SetupParams;
  }

  lemma PathCorrect(path: Path, falsy: bool, m: Machine, scope: Scope)
    ensures Leaves(Run(PathOps(path, falsy, scope), m), m, Ok([TransPath(path, falsy, m.stackSlot + 1, scope)]))
  {
    hide BlockParamIndex, ScopedId, Lookups, ResolvePath, Step, Run;
    var ops := PathOps(path, falsy, scope);
    var m1 := m.(registers := m.registers.(lastContext := path.depth));
    RunGetContext(path.depth, [ops[1]], m);
    assert ops == [GetContext(path.depth)] + [ops[1]];
    RunOne(ops[1], m1);
    LookupStep(ops[1], m1);
    match ops[1]
    case PushContext =>
    case LookupBlockParam(frame, index, parts) =>
      ResolvePathCorrect(m1, Code(BlockParam(frame, index)), parts[1..], false);
    case LookupData(depth, parts) => ResolvePathCorrect(m1, Inlined(Data(depth)), parts, true);
    case LookupOnContext(parts, _) => ResolvePathCorrect(m1, Inlined(Context(path.depth)), parts, falsy);
  }

  /** Main theorem: the opcodes of an expression leave exactly its translation on top of
      the stack, whatever the machine held before, and change nothing below it. */
  lemma {:induction false} ExprCorrect(e: Expr, m: Machine, scope: Scope)
    requires HashesNested(m)
    ensures Leaves(Run(ExprOps(e, scope), m), m, One(TransExpr(e, m.stackSlot + 1, scope)))
    decreases e, 1
  {
    match e
    case PathExpression(path) => PathCorrect(path, false, m, scope);
    case SubExpression(call) => CallCorrect(call, true, None, None, m, scope);
    case _ => RunOne(ExprOps(e, scope)[0], m);
  }

  lemma {:induction false} ParamsCorrect(params: seq<Expr>, m: Machine, scope: Scope)
    requires HashesNested(m)
    ensures Leaves(Run(ParamsOps(params, scope), m), m, TransParams(params, m.stackSlot + 1, scope))
    decreases params, 0
  {
    hide Step;
    if params != [] {
      var first := ExprOps(params[0], scope);
      ExprCorrect(params[0], m, scope);
      var head := One(TransExpr(params[0], m.stackSlot + 1, scope));
      if head.Ok? { ParamsCorrect(params[1..], Run(first, m).value, scope); }
      LeavesConcat(first, ParamsOps(params[1..], scope), m, head, TransParams(params[1..], m.stackSlot + 1, scope));
    }
  }

  lemma {:induction false} ValuesCorrect(pairs: seq<Pair>, m: Machine, scope: Scope)
    requires HashesNested(m)
    ensures Leaves(Run(ValuesOps(pairs, scope), m), m, TransPairs(pairs, m.stackSlot + 1, scope))
    decreases pairs, 0
  {
    hide Step;
    if pairs != [] {
      var first := ExprOps(pairs[0].value, scope);
      ExprCorrect(pairs[0].value, m, scope);
      var head := One(TransExpr(pairs[0].value, m.stackSlot + 1, scope));
      if head.Ok? { ValuesCorrect(pairs[1..], Run(first, m).value, scope); }
      LeavesConcat(first, ValuesOps(pairs[1..], scope), m, head, TransPairs(pairs[1..], m.stackSlot + 1, scope));
    }
  }

  /** Popping the values assigns them to the current hash, last pair first. */
  lemma {:induction false} AssignCorrect(pairs: seq<Pair>, values: seq<Entry>, below: Machine)
    requires |pairs| == |values| && below.hash.Some?
    ensures var bound := Bind(pairs, Values(values), below.hash.value);
            Run(AssignOps(pairs), below.(inlineStack := below.inlineStack + values))
            == match bound case Err(fault) => Err(fault) case Ok(fields) => Ok(below.(hash := Some(fields)))
    decreases |pairs|
  {
    if pairs == [] {
      assert below.inlineStack + values == below.inlineStack;
    } else {
      var full := below.(inlineStack := below.inlineStack + values);
      var below1 := Push(below, values[0]);
      assert below1.inlineStack + values[1..] == full.inlineStack;
      AssignCorrect(pairs[1..], values[1..], below1);
      var op := AssignToHash(pairs[0].key);
      RunConcat(AssignOps(pairs[1..]), [op], full);
      assert Values(values)[1..] == Values(values[1..]);
      var later := Bind(pairs[1..], Values(values[1..]), below.hash.value);
      if later.Ok? {
        var m1 := below1.(hash := Some(later.value));
        RunOne(op, m1);
        assert Init(m1.inlineStack) == below.inlineStack;
      }
    }
  }

  lemma AssignThenClose(pairs: seq<Pair>, values: seq<Entry>, below: Machine)
    requires |pairs| == |values| && below.hash.Some?
    ensures Run(AssignOps(pairs) + [PopHash], below.(inlineStack := below.inlineStack + values))
            == match Bind(pairs, Values(values), below.hash.value)
               case Err(fault) => Err(fault)
               case Ok(fields) => CloseHash(below.(hash := Some(fields)))
  {
    hide Run, Bind, Values, AssignOps, CloseHash;
    AssignCorrect(pairs, values, below);
    RunConcat(AssignOps(pairs), [PopHash], below.(inlineStack := below.inlineStack + values));
    var fields := Bind(pairs, Values(values), below.hash.value);
    if fields.Ok? { RunOne(PopHash, below.(hash := Some(fields.value))); }
  }

  /** Opening a hash keeps an enclosing one. */
  function Opened(m: Machine): Machine {
    m.(hashes := if m.hash.Some? then m.hashes + [m.hash.value] else m.hashes, hash := Some([]))
  }

  lemma OpenThenRun(ops: seq<Opcode>, m: Machine)
    ensures Run([PushHash] + ops, m) == Run(ops, Opened(m))
  {
    assert ([PushHash] + ops)[1..] == ops;
  }

  /** Closing the hash that was opened gives its literal and the enclosing hash back. */
  lemma CloseOpened(m: Machine, below: Machine, fields: seq<Field>)
    requires HashesNested(m) && below == Opened(m).(registers := below.registers)
    requires below.registers.stackVars >= m.registers.stackVars
    ensures var literal := LiteralFields(fields);
            Leaves(CloseHash(below.(hash := Some(fields))), m,
                   match literal case Err(fault) => Err(fault) case Ok(kept) => Ok([Code(ObjectLiteral(kept))]))
  {
    hide LiteralFields;
    if m.hash.Some? { assert Init(m.hashes + [m.hash.value]) == m.hashes; }
  }

  lemma CollectedCorrect(pairs: seq<Pair>, values: Result<seq<Entry>, Fault>, m: Machine, scope: Scope)
    requires HashesNested(m) && Leaves(Run(ValuesOps(pairs, scope), Opened(m)), Opened(m), values)
    requires values.Ok? ==> |values.value| == |pairs|
    ensures Leaves(Run(HashOps(pairs, scope), m), m,
                   match values
                   case Err(fault) => Err(fault)
                   case Ok(entries) =>
                     match TransFields(pairs, Values(entries))
                     case Err(fault) => Err(fault)
                     case Ok(fields) => Ok([Code(ObjectLiteral(fields))]))
  {
    hide Run, Bind, Values, ValuesOps, AssignOps, LiteralFields, CloseHash;
    var a, b := ValuesOps(pairs, scope), AssignOps(pairs) + [PopHash];
    assert HashOps(pairs, scope) == [PushHash] + (a + b);
    OpenThenRun(a + b, m);
    RunConcat(a, b, Opened(m));
    if values.Ok? {
      var m2 := Run(a, Opened(m)).value;
      var below := m2.(inlineStack := m.inlineStack);
      assert m2 == below.(inlineStack := below.inlineStack + values.value);
      AssignThenClose(pairs, values.value, below);
      var fields := Bind(pairs, Values(values.value), []);
      if fields.Ok? { CloseOpened(m, below, fields.value); }
    }
  }

  lemma {:induction false} HashCorrect(hash: Hash, omitEmpty: bool, m: Machine, scope: Scope)
    requires HashesNested(m)
    ensures Leaves(Run(HashParamOps(hash, omitEmpty, scope), m), m,
                   One(TransHash(hash, omitEmpty, m.stackSlot + 1, scope)))
    decreases hash, 3
  {
    hide Run, HashOps, TransFields, TransPairs, Values;
    match hash
    case NoHash => RunOne(EmptyHash(omitEmpty), m);
    case Hash(pairs) =>
      ValuesCorrect(pairs, Opened(m), scope);
      CollectedCorrect(pairs, TransPairs(pairs, m.stackSlot + 1, scope), m, scope);
  }

  lemma {:induction false} PopManyCorrect(below: Machine, entries: seq<Entry>)
    ensures PopMany(below.(inlineStack := below.inlineStack + entries), |entries|) == Ok((below, Values(entries)))
    decreases |entries|
  {
    hide Values;
    var full := below.(inlineStack := below.inlineStack + entries);
    if entries == [] {
      assert full == below;
    } else {
      var shorter := below.(inlineStack := below.inlineStack + Init(entries));
      assert Init(full.inlineStack) == shorter.inlineStack;
      assert Pop(full) == Ok((shorter, Last(entries).value));
      PopManyCorrect(below, Init(entries));
      assert Values(entries) == Values(Init(entries)) + [Last(entries).value];
    }
  }

  /** Popping a helper's frame gives its arguments in source order and its options. */
  lemma SetupCorrect(below: Machine, args: seq<Entry>, program: Entry, inverse: Entry, hash: Entry, name: string)
    ensures SetupParams(below.(inlineStack := below.inlineStack + args + [program, inverse, hash]), name, |args|)
            == Ok((below, Values(args), MakeOptions(name, hash.value, program.value, inverse.value)))
  {
    hide PopMany, Values;
    var full := below.(inlineStack := below.inlineStack + args + [program, inverse, hash]);
    assert Init(full.inlineStack) == below.inlineStack + args + [program, inverse];
    assert Init(Init(full.inlineStack)) == below.inlineStack + args + [program];
    assert Init(Init(Init(full.inlineStack))) == below.inlineStack + args;
    PopManyCorrect(below, args);
  }

  /** The frame of a call: parameters, programs and hash. */
  function FrameOps(call: Call, program: Option<nat>, inverse: Option<nat>, scope: Scope): seq<Opcode> {
    ParamsOps(call.params, scope) + [PushProgram(program), PushProgram(inverse)] + HashParamOps(call.hash, false, scope)
  }

  function TransFrame(call: Call, program: Option<nat>, inverse: Option<nat>, slot: nat, scope: Scope)
    : Result<seq<Entry>, Fault>
  {
    Both(Both(TransParams(call.params, slot, scope), ProgramEntries(program, inverse)),
         One(TransHash(call.hash, false, slot, scope)))
  }

  function ProgramEntries(program: Option<nat>, inverse: Option<nat>): Result<seq<Entry>, Fault> {
    Ok([Inlined(ProgramExpr(program)), Inlined(ProgramExpr(inverse))])
  }

  lemma ProgramsCorrect(program: Option<nat>, inverse: Option<nat>, m: Machine)
    ensures Run([PushProgram(program), PushProgram(inverse)], m)
            == Ok(m.(inlineStack := m.inlineStack + ProgramEntries(program, inverse).value))
  {
    var ops := [PushProgram(program), PushProgram(inverse)];
    var m1 := Push(m, Inlined(ProgramExpr(program)));
    assert ops[1..] == [PushProgram(inverse)];
    RunOne(PushProgram(inverse), m1);
    assert m.inlineStack + [Inlined(ProgramExpr(program))] + [Inlined(ProgramExpr(inverse))]
        == m.inlineStack + [Inlined(ProgramExpr(program)), Inlined(ProgramExpr(inverse))];
  }

  lemma {:induction false} HelperFrameCorrect(call: Call, program: Option<nat>, inverse: Option<nat>,
                                              m: Machine, scope: Scope)
    requires HashesNested(m)
    ensures Leaves(Run(FrameOps(call, program, inverse, scope), m), m,
                   TransFrame(call, program, inverse, m.stackSlot + 1, scope))
    decreases call, 1
  {
    hide Run, Step;
    var a, b, c := ParamsOps(call.params, scope), [PushProgram(program), PushProgram(inverse)],
        HashParamOps(call.hash, false, scope);
    var slot := m.stackSlot + 1;
    var params := TransParams(call.params, slot, scope);
    ParamsCorrect(call.params, m, scope);
    if params.Ok? { ProgramsCorrect(program, inverse, Run(a, m).value); }
    LeavesConcat(a, b, m, params, ProgramEntries(program, inverse));
    if params.Ok? { HashCorrect(call.hash, false, Run(a + b, m).value, scope); }
    LeavesConcat(a + b, c, m, Both(params, ProgramEntries(program, inverse)),
                 One(TransHash(call.hash, false, slot, scope)));
  }

  lemma CallHelperCorrect(below: Machine, args: seq<Entry>, program: Entry, inverse: Entry, hash: Entry,
                          name: string, callee: JsExpr)
    ensures CallHelper(below.(inlineStack := below.inlineStack + args + [program, inverse, hash]), name, |args|, callee)
            == Ok(Push(below, Code(HelperCall(callee, Values(args),
                                              MakeOptions(name, hash.value, program.value, inverse.value)))))
  {
    hide Pop, PopMany;
    SetupCorrect(below, args, program, inverse, hash, name);
  }

  lemma InvokeHelperStep(m: Machine, nonHelper: Entry, name: string, paramSize: nat, isSimple: bool)
    ensures Step(InvokeHelper(paramSize, name, isSimple), Push(m, nonHelper))
            == CallHelper(m, name, paramSize,
                 Or(if isSimple then Or(HelperRef(name), nonHelper.value) else nonHelper.value, HelperMissing))
  {
    hide CallHelper, Pop;
    PopPushed(m, nonHelper);
  }

  /** From a complete frame, a helper invocation leaves the call and nothing else. */
  lemma InvokeCorrect(path: Path, args: seq<Entry>, program: Entry, inverse: Entry, hash: Entry,
                      below: Machine, m: Machine, scope: Scope)
    requires m == below.(inlineStack := below.inlineStack + args + [program, inverse, hash])
    ensures Leaves(Run(InvokeOps(path, |args|, scope), m), below,
                   Ok([Code(TransInvoke(path, args, program.value, inverse.value, hash.value,
                                        m.stackSlot + 1, scope))]))
  {
    if FirstPart(path) in scope.options.knownHelpers {
      CallHelperCorrect(below, args, program, inverse, hash, FirstPart(path), HelperRef(FirstPart(path)));
      RunOne(InvokeKnownHelper(|args|, FirstPart(path)), m);
    } else {
      var nonHelper := TransPath(path, true, m.stackSlot + 1, scope);
      var op := InvokeHelper(|args|, path.original, SimpleId(path));
      PathCorrect(path, true, m, scope);
      RunConcat(PathOps(path, true, scope), [op], m);
      var m1 := Run(PathOps(path, true, scope), m).value;
      RunOne(op, m1);
      var m2 := m1.(inlineStack := m.inlineStack);
      InvokeHelperStep(m2, nonHelper, path.original, |args|, SimpleId(path));
      var lookup := if SimpleId(path) then Or(HelperRef(path.original), nonHelper.value) else nonHelper.value;
      CallHelperCorrect(m2.(inlineStack := below.inlineStack), args, program, inverse, hash, path.original,
                        Or(lookup, HelperMissing));
    }
  }

  lemma PopPushed(m: Machine, entry: Entry)
    ensures Pop(Push(m, entry)) == Ok((m, entry.value))
  {
    assert Init(Push(m, entry).inlineStack) == m.inlineStack;
  }

  lemma StepAmbiguous(name: string, isBlock: bool, m: Machine)
    ensures Step(InvokeAmbiguous(name, isBlock), m) == CallAmbiguous(m, name, isBlock)
  {
    hide CallAmbiguous, ResolvePath, AppendTop, CallHelper, CallPartial, CallBlockHelper, FixAmbiguousBlock, AssignHash,
        CloseHash, Pop, SetupParams;
  }

  lemma AmbiguousStep(below: Machine, program: Entry, inverse: Entry, nonHelper: Entry, name: string, isBlock: bool)
    ensures Step(InvokeAmbiguous(name, isBlock),
                 below.(inlineStack := below.inlineStack + [program, inverse, nonHelper]))
            == Ok(Push(below.(registers := below.registers.(lastHelper := Some(name))),
                  Code(AmbiguousCall(name, nonHelper.value,
                                     MakeOptions(name, EmptyObject, program.value, inverse.value), isBlock))))
  {
    hide Step, SetupParams, Pop, MakeOptions;
    var m := below.(inlineStack := below.inlineStack + [program, inverse, nonHelper]);
    StepAmbiguous(name, isBlock, m);
    var m1 := below.(inlineStack := below.inlineStack + [program, inverse]);
    assert m == Push(m1, nonHelper) by { assert m1.inlineStack + [nonHelper] == m.inlineStack; }
    PopPushed(m1, nonHelper);
    assert below.inlineStack + [] + [program, inverse, Inlined(EmptyObject)] == m1.inlineStack + [Inlined(EmptyObject)];
    SetupCorrect(below, [], program, inverse, Inlined(EmptyObject), name);
  }

  lemma AmbiguousCorrect(call: Call, program: Option<nat>, inverse: Option<nat>, m: Machine, scope: Scope)
    requires ClassifySexpr(call, false, scope) == Ambiguous
    ensures Leaves(Run(CallOps(call, false, program, inverse, scope), m), m,
                   CodeOf(TransCall(call, false, program, inverse, m.stackSlot + 1, scope)))
    ensures Run(CallOps(call, false, program, inverse, scope), m).value.registers.lastHelper
            == Some(FirstPart(HeadToPath(call.head)))
  {
    hide CallAmbiguous, Pop, SetupParams, PathOps, TransPath, ClassifySexpr, MakeOptions, BlockParamIndex, Run;
    var path := HeadToPath(call.head);
    var a, b := [PushProgram(program), PushProgram(inverse)], PathOps(path, false, scope);
    var op := InvokeAmbiguous(FirstPart(path), program.Some? || inverse.Some?);
    var p, i := Inlined(ProgramExpr(program)), Inlined(ProgramExpr(inverse));
    var nonHelper := TransPath(path, false, m.stackSlot + 1, scope);
    var m0 := m.(registers := m.registers.(lastContext := path.depth));
    ProgramsCorrect(program, inverse, m0);
    PathCorrect(path, false, Run(a, m0).value, scope);
    LeavesConcat(a, b, m0, Ok([p, i]), Ok([nonHelper]));
    RunConcat(a + b, [op], m0);
    var m1 := Run(a + b, m0).value;
    RunOne(op, m1);
    assert [p, i] + [nonHelper] == [p, i, nonHelper];
    AmbiguousStep(m1.(inlineStack := m.inlineStack), p, i, nonHelper, FirstPart(path), program.Some? || inverse.Some?);
    var ops := [GetContext(path.depth)] + (a + b + [op]);
    assert CallOps(call, false, program, inverse, scope) == ops;
    RunGetContext(path.depth, a + b + [op], m);
  }

  lemma SimpleCallCorrect(path: Path, m: Machine, scope: Scope)
    ensures Leaves(Run(PathOps(path, false, scope) + [ResolvePossibleLambda], m), m,
                   Ok([Code(Lambda(TransPath(path, false, m.stackSlot + 1, scope).value))]))
  {
    hide Run, PathOps, TransPath;
    var ops := PathOps(path, false, scope);
    PathCorrect(path, false, m, scope);
    RunConcat(ops, [ResolvePossibleLambda], m);
    var m1 := Run(ops, m).value;
    RunOne(ResolvePossibleLambda, m1);
    assert Init(m1.inlineStack) == m.inlineStack;
  }

  /** The call follows its frame. */
  lemma HelperCallCorrect(call: Call, program: Option<nat>, inverse: Option<nat>, m: Machine, scope: Scope)
    requires Leaves(Run(FrameOps(call, program, inverse, scope), m), m,
                    TransFrame(call, program, inverse, m.stackSlot + 1, scope))
    ensures var path, slot := HeadToPath(call.head), m.stackSlot + 1;
            var args, hash := TransParams(call.params, slot, scope), TransHash(call.hash, false, slot, scope);
            Leaves(Run(FrameOps(call, program, inverse, scope) + InvokeOps(path, |call.params|, scope), m), m,
                   if args.Err? then Err(args.error) else if hash.Err? then Err(hash.error)
                   else Ok([Code(TransInvoke(path, args.value, ProgramExpr(program), ProgramExpr(inverse),
                                             hash.value.value, slot, scope))]))
  {
    hide Run, FrameOps, InvokeOps, TransParams, TransHash, TransInvoke, HeadToPath;
    var path, frameOps := HeadToPath(call.head), FrameOps(call, program, inverse, scope);
    RunConcat(frameOps, InvokeOps(path, |call.params|, scope), m);
    if TransFrame(call, program, inverse, m.stackSlot + 1, scope).Ok? {
      var args := TransParams(call.params, m.stackSlot + 1, scope).value;
      var hash := TransHash(call.hash, false, m.stackSlot + 1, scope).value;
      var p, i := Inlined(ProgramExpr(program)), Inlined(ProgramExpr(inverse));
      var m1 := Run(frameOps, m).value;
      assert m.inlineStack + (args + [p, i] + [hash]) == m.inlineStack + args + [p, i, hash];
      InvokeCorrect(path, args, p, i, hash, m1.(inlineStack := m.inlineStack), m1, scope);
    }
  }

  lemma {:induction false} CallCorrect(call: Call, isSubExpression: bool, program: Option<nat>, inverse: Option<nat>,
                                       m: Machine, scope: Scope)
    requires HashesNested(m)
    ensures Leaves(Run(CallOps(call, isSubExpression, program, inverse, scope), m), m,
                   CodeOf(TransCall(call, isSubExpression, program, inverse, m.stackSlot + 1, scope)))
    decreases call, 2
  {
    hide Run, Leaves, TransPath, TransInvoke, InvokeOps, PathOps;
    match ClassifySexpr(call, isSubExpression, scope)
    case Simple => SimpleCallCorrect(HeadToPath(call.head), m, scope);
    case Ambiguous => AmbiguousCorrect(call, program, inverse, m, scope);
    case Helper =>
      HelperFrameCorrect(call, program, inverse, m, scope);
      HelperCallCorrect(call, program, inverse, m, scope);
      assert CallOps(call, isSubExpression, program, inverse, scope)
          == FrameOps(call, program, inverse, scope) + InvokeOps(HeadToPath(call.head), |call.params|, scope);
  }

  // ---------- what a hash binds ----------

  predicate SpecialKey(key: string) {
    key == "length" || key == "__proto__" || key == "hasOwnProperty"
  }

  function FirstValue(pairs: seq<Pair>, values: seq<JsExpr>, key: string): Option<JsExpr>
    requires |pairs| == |values|
  {
    if pairs == [] then None else if pairs[0].key == key then Some(values[0])
        else FirstValue(pairs[1..], values[1..], key)
  }

  /** The hash compiles, and each key has the value of its first pair. */
  ghost predicate BindsFirst(pairs: seq<Pair>, values: seq<JsExpr>)
    requires |pairs| == |values|
  {
    var bound := Bind(pairs, values, []);
    && bound.Ok? && LiteralFields(bound.value).Ok?
    && forall key :: FieldOf(bound.value, key) == FirstValue(pairs, values, key)
  }

  lemma {:induction false} PutThenFind(fields: seq<Field>, key: string, value: JsExpr, other: string)
    ensures FieldOf(PutField(fields, key, value), other) == if other == key then Some(value) else FieldOf(fields, other)
  {
    if fields != [] && fields[0].key != key {
      PutThenFind(fields[1..], key, value, other);
      assert PutField(fields, key, value)[1..] == PutField(fields[1..], key, value);
    } else if fields != [] {
      assert PutField(fields, key, value)[1..] == fields[1..];
    } else {
      assert PutField(fields, key, value)[1..] == [];
    }
  }

  lemma {:induction false} DropNeverAdds(fields: seq<Field>, length: int, key: string)
    requires FieldOf(fields, key).None?
    ensures FieldOf(DropIndices(fields, length), key).None?
  {
    if fields != [] {
      DropNeverAdds(fields[1..], length, key);
      if !IsArrayIndexFrom(fields[0].key, length) {
        assert DropIndices(fields, length)[1..] == DropIndices(fields[1..], length);
      } else {
        assert DropIndices(fields, length) == DropIndices(fields[1..], length);
      }
    }
  }

  /** The keys that the array does not take as plain keys. */
  predicate ArrayKey(key: string) {
    key == "length" || key == "__proto__"
  }

  lemma {:induction false} ArrayKeyNeverStored(pairs: seq<Pair>, values: seq<JsExpr>, key: string)
    requires |pairs| == |values| && ArrayKey(key)
    ensures Bind(pairs, values, []).Ok? ==> FieldOf(Bind(pairs, values, []).value, key).None?
  {
    if pairs != [] {
      ArrayKeyNeverStored(pairs[1..], values[1..], key);
      var later := Bind(pairs[1..], values[1..], []);
      if later.Ok? && !ArrayKey(pairs[0].key) {
        PutThenFind(later.value, pairs[0].key, values[0], key);
      } else if later.Ok? && pairs[0].key == "length" && AsArrayLength(values[0]).Some? {
        DropNeverAdds(later.value, AsArrayLength(values[0]).value, key);
      }
    }
  }

  lemma {:induction false} PlainBindFirst(pairs: seq<Pair>, values: seq<JsExpr>)
    requires |pairs| == |values| && forall p <- pairs :: !ArrayKey(p.key)
    ensures Bind(pairs, values, []).Ok?
    ensures forall key :: FieldOf(Bind(pairs, values, []).value, key) == FirstValue(pairs, values, key)
  {
    if pairs != [] {
      PlainBindFirst(pairs[1..], values[1..]);
      var later := Bind(pairs[1..], values[1..], []).value;
      forall key ensures FieldOf(Bind(pairs, values, []).value, key) == FirstValue(pairs, values, key) {
        PutThenFind(later, pairs[0].key, values[0], key);
      }
    }
  }

  lemma {:induction false} KeyHasValueIff(pairs: seq<Pair>, values: seq<JsExpr>, key: string)
    requires |pairs| == |values|
    ensures FirstValue(pairs, values, key).Some? <==> exists p <- pairs :: p.key == key
  {
    if pairs != [] {
      KeyHasValueIff(pairs[1..], values[1..], key);
      if pairs[0].key == key { assert pairs[0] in pairs; }
      if p :| p in pairs[1..] && p.key == key { assert p in pairs; }
    }
  }

  /** Compilation succeeds with every key at the value of its first pair exactly when no key
      is `length`, `__proto__` or `hasOwnProperty`: the hash is collected on an array, where
      the first two are no plain keys and the third hides the method asked for its fields. */
  lemma HashBindsFirstPair(pairs: seq<Pair>, values: seq<JsExpr>)
    requires |pairs| == |values|
    ensures BindsFirst(pairs, values) <==> forall p <- pairs :: !SpecialKey(p.key)
  {
    KeyHasValueIff(pairs, values, "hasOwnProperty");
    if forall p <- pairs :: !ArrayKey(p.key) {
      PlainBindFirst(pairs, values);
      assert BindsFirst(pairs, values) <==> FirstValue(pairs, values, "hasOwnProperty").None?;
    } else {
      var p :| p in pairs && ArrayKey(p.key);
      KeyHasValueIff(pairs, values, p.key);
      ArrayKeyNeverStored(pairs, values, p.key);
    }
  }

  /** `{{foo length=bar}}` and `{{foo hasOwnProperty=bar}}` do not compile, each for its own
      reason; `{{foo __proto__=bar}}` loses its argument. */
  lemma SpecialKeyExamples(value: JsExpr)
    requires value.Member?
    ensures TransFields([Pair("length", NullLiteral)], [value]) == Err(InvalidArrayLength)
    ensures TransFields([Pair("hasOwnProperty", NullLiteral)], [value]) == Err(HasOwnPropertyHidden)
    ensures TransFields([Pair("__proto__", NullLiteral)], [value]) == Ok([])
  {
    var none: seq<JsExpr> := [];
    assert [value][1..] == none;
    forall key: string ensures [Pair(key, NullLiteral)][1..] == [] {}
    assert Bind([], none, []) == Ok([]);
  }
}
