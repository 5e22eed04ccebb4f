/** The second pass: a stack machine over JavaScript expressions that runs the opcodes. */
module HandlebarsMachine {
  import opened Outcomes
  import opened HandlebarsCompiler
  import Numerals

  datatype JsExpr =
    | Context(depth: nat)
    | Data(depth: nat)
    | BlockParam(frame: nat, index: nat)
    | Quoted(text: string)
    | Word(word: string)
    | Number(number: real)
    | Boolean(truth: bool)
    | NoProgram
    | ProgramRef(guid: nat)
    | Undefined
    | EmptyObject
    | ObjectLiteral(fields: seq<Field>)
    | StackVar(slot: nat)
    | AssignStack(slot: nat, value: JsExpr)
    | Member(base: JsExpr, name: string)
    | IfNotNull(test: JsExpr, yes: JsExpr, no: JsExpr)
    | And(left: JsExpr, right: JsExpr)
    | Or(left: JsExpr, right: JsExpr)
    | Lambda(lambda: JsExpr)
    | HelperRef(helper: string)
    | HelperMissing
    | HelperCall(callee: JsExpr, args: seq<JsExpr>, options: CallOptions)
    | AmbiguousCall(helper: string, nonHelper: JsExpr, options: CallOptions, keepsOptions: bool)
    | BlockHelperMissing(blockValue: JsExpr, given: BlockOptions)
    | PartialRef(partial: string)
    | PartialCall(callee: JsExpr, context: JsExpr, options: CallOptions, dynamic: bool, indent: string)

  datatype Field = Field(key: string, value: JsExpr)

  /** The object literal a helper receives last; `programs` are its `fn` and `inverse`.
      The literal of a dynamic partial has no name. */
  datatype CallOptions = CallOptions(name: Option<string>, hash: JsExpr, programs: Option<(JsExpr, JsExpr)>)

  /** What `blockHelperMissing` gets: a literal, or the variable `options`, which holds the
      literal of the last ambiguous block call. */
  datatype BlockOptions = Literally(options: CallOptions) | Kept

  datatype JsStatement =
    | AppendText(text: string)
    | AppendValue(value: JsExpr)
    | AppendEscapedValue(value: JsExpr)
    | AppendIfNotNull(value: JsExpr)
    | ElseAppendNothing
    | SetStack(slot: nat, value: JsExpr)
    | UnlessHelper(helper: Option<string>, target: JsExpr, value: JsExpr)
    | RunDecorator(name: string, args: seq<JsExpr>, options: CallOptions)

  /** What the stacks hold: a literal, or code that takes a stack variable when spilled. */
  datatype Entry = Inlined(value: JsExpr) | Code(value: JsExpr)

  datatype Fault =
    | InvalidStackPop
    | ReplaceOnNonInline
    | NoHashOpen
    | InvalidArrayLength
    | HasOwnPropertyHidden
    | ContentLeftOnStack

  /** What has been written; `pending` is content that no line holds yet. */
  datatype Output = Output(source: seq<JsStatement>, pending: string, decorators: seq<JsStatement>)

  /** Bookkeeping: declared stack variables, last context depth, last helper looked up. */
  datatype Registers = Registers(stackVars: nat, lastContext: nat, lastHelper: Option<string>)

  datatype Machine = Machine(
    inlineStack: seq<Entry>, compileStack: seq<Entry>, stackSlot: nat,
    hash: Option<seq<Field>>, hashes: seq<seq<Field>>,
    registers: Registers, output: Output, isSimple: bool)

  function Initial(isSimple: bool): Machine {
    Machine([], [], 0, None, [], Registers(0, 0, None), Output([], "", []), isSimple)
  }

  // ---------- the stacks ----------

  function Last<T>(s: seq<T>): T
    requires s != []
  {
    s[|s| - 1]
  }

  function Init<T>(s: seq<T>): seq<T>
    requires s != []
  {
    s[..|s| - 1]
  }

  function Push(m: Machine, entry: Entry): Machine {
    m.(inlineStack := m.inlineStack + [entry])
  }

  /** `popStack()`: the inline stack first; a spilled variable gives its slot back. */
  function Pop(m: Machine): Result<(Machine, JsExpr), Fault> {
    if m.inlineStack != [] then
      Ok((m.(inlineStack := Init(m.inlineStack)), Last(m.inlineStack).value))
    else if m.compileStack != [] && Last(m.compileStack).Inlined? then
      Ok((m.(compileStack := Init(m.compileStack)), Last(m.compileStack).value))
    else if m.stackSlot == 0 then Err(InvalidStackPop)
    else if m.compileStack == [] then Ok((m.(stackSlot := m.stackSlot - 1), Undefined))
    else Ok((m.(compileStack := Init(m.compileStack), stackSlot := m.stackSlot - 1), Last(m.compileStack).value))
  }

  function PopMany(m: Machine, count: nat): Result<(Machine, seq<JsExpr>), Fault>
    decreases count
  {
    if count == 0 then Ok((m, []))
    else
      var last :- Pop(m);
      var rest :- PopMany(last.0, count - 1);
      Ok((rest.0, rest.1 + [last.1]))
  }

  function Declare(r: Registers, slot: nat): Registers {
    if slot > r.stackVars then r.(stackVars := r.stackVars + 1) else r
  }

  function IncrStack(m: Machine): Machine {
    m.(stackSlot := m.stackSlot + 1, registers := Declare(m.registers, m.stackSlot + 1))
  }

  /** What a replacement makes of the value on top of the stack. */
  datatype Use = Lookup(name: string, falsy: bool) | OrEmpty

  function Apply(first: JsExpr, current: JsExpr, use: Use): JsExpr {
    match use
    case Lookup(name, false) => IfNotNull(first, Member(current, name), current)
    case Lookup(name, true) => And(first, Member(current, name))
    case OrEmpty => IfNotNull(first, current, Quoted(""))
  }

  /** `replaceStack`: code on top is kept in the next free variable while it is used. */
  function ReplaceStack(m: Machine, use: Use): Result<Machine, Fault> {
    if m.inlineStack == [] then Err(ReplaceOnNonInline)
    else
      var top := Last(m.inlineStack);
      var below := m.(inlineStack := Init(m.inlineStack));
      match top
      case Inlined(v) => Ok(Push(below, Code(Apply(v, v, use))))
      case Code(e) =>
        var slot := m.stackSlot + 1;
        Ok(Push(below.(registers := Declare(m.registers, slot)),
                Code(Apply(AssignStack(slot, e), StackVar(slot), use))))
  }

  function PushSource(m: Machine, statement: JsStatement): Machine {
    m.(output := WriteLine(m.output, statement))
  }

  function WriteLine(o: Output, statement: JsStatement): Output {
    var flushed := FlushPending(o);
    flushed.(source := flushed.source + [statement])
  }

  function FlushPending(o: Output): Output {
    if o.pending == "" then o else o.(source := o.source + [AppendText(o.pending)], pending := "")
  }

  function AddContent(o: Output, content: string): Output {
    o.(pending := o.pending + content)
  }

  function Decorate(o: Output, decorator: JsStatement): Output {
    o.(decorators := o.decorators + [decorator])
  }

  /** Moves the given entries to the compile stack, code through a fresh variable. */
  function Spill(m: Machine, entries: seq<Entry>): Machine
    decreases |entries|
  {
    if entries == [] then m
    else
      var next := match entries[0]
        case Inlined(_) => m.(compileStack := m.compileStack + [entries[0]])
        case Code(e) =>
          var m1 := IncrStack(m);
          var m2 := PushSource(m1, SetStack(m1.stackSlot, e));
          m2.(compileStack := m2.compileStack + [Code(StackVar(m1.stackSlot))]);
      Spill(next, entries[1..])
  }

  function FlushInline(m: Machine): Machine {
    Spill(m.(inlineStack := []), m.inlineStack)
  }

  function TopStack(m: Machine): JsExpr {
    if m.inlineStack != [] then Last(m.inlineStack).value
    else if m.compileStack != [] then Last(m.compileStack).value
    else Undefined
  }

  // ---------- hashes ----------

  predicate Truthy(v: JsExpr) {
    match v
    case NoProgram => false
    case Undefined => false
    case Number(n) => n != 0.0
    case Boolean(b) => b
    case Word(w) => w != ""
    case _ => true
  }

  /** Keys an array takes for one of its indices. */
  predicate IsArrayIndexFrom(key: string, length: int) {
    && key != "" && Numerals.IsNumeral(key) && (|key| > 1 ==> key[0] != '0')
    && length <= Numerals.Amount(key) < 4294967295
  }

  function FieldOf(fields: seq<Field>, key: string): Option<JsExpr> {
    if fields == [] then None else if fields[0].key == key then Some(fields[0].value) else FieldOf(fields[1..], key)
  }

  function PutField(fields: seq<Field>, key: string, value: JsExpr): seq<Field> {
    if fields == [] then [Field(key, value)]
    else if fields[0].key == key then [Field(key, value)] + fields[1..]
    else [fields[0]] + PutField(fields[1..], key, value)
  }

  function DropIndices(fields: seq<Field>, length: int): seq<Field> {
    if fields == [] then []
    else (if IsArrayIndexFrom(fields[0].key, length) then [] else [fields[0]]) + DropIndices(fields[1..], length)
  }

  function AsArrayLength(v: JsExpr): Option<int> {
    match v
    case Number(n) => if 0.0 <= n < 4294967296.0 && n == n.Floor as real then Some(n.Floor) else None
    case Boolean(b) => Some(if b then 1 else 0)
    case NoProgram => Some(0)
    case _ => None
  }

  /** `values[key] = value` on the array that collects a hash. Its `length` is not an own
      enumerable property and takes array lengths only; `__proto__` sets the prototype. */
  function StoreHash(fields: seq<Field>, key: string, value: JsExpr): Result<seq<Field>, Fault> {
    if key == "__proto__" then Ok(fields)
    else if key == "length" then
      match AsArrayLength(value)
      case None => Err(InvalidArrayLength)
      case Some(n) => Ok(DropIndices(fields, n))
    else Ok(PutField(fields, key, value))
  }

  /** The fields of the literal made from a collected hash. The array is asked which keys are
      its own, so a field that hides its `hasOwnProperty` stops the compilation. */
  function LiteralFields(fields: seq<Field>): Result<seq<Field>, Fault> {
    if FieldOf(fields, "hasOwnProperty").Some? then Err(HasOwnPropertyHidden) else Ok(Defined(fields))
  }

  /** `objectLiteral` leaves out fields whose value is the word `undefined`. */
  function Defined(fields: seq<Field>): seq<Field> {
    if fields == [] then []
    else (if fields[0].value == Word("undefined") then [] else [fields[0]]) + Defined(fields[1..])
  }

  // ---------- helper calls ----------

  function MakeOptions(name: string, hash: JsExpr, program: JsExpr, inverse: JsExpr): CallOptions {
    CallOptions(Some(name), hash,
      if Truthy(program) || Truthy(inverse) then
        Some((if Truthy(program) then program else Word("container.noop"),
              if Truthy(inverse) then inverse else Word("container.noop")))
      else None)
  }

  function SetupParams(m: Machine, name: string, paramSize: nat): Result<(Machine, seq<JsExpr>, CallOptions), Fault> {
    var hash :- Pop(m);
    var inverse :- Pop(hash.0);
    var program :- Pop(inverse.0);
    var params :- PopMany(program.0, paramSize);
    Ok((params.0, params.1, MakeOptions(name, hash.1, program.1, inverse.1)))
  }

  // ---------- opcodes ----------

  function LiteralExpr(literal: Literal): JsExpr {
    match literal
    case TextWord(word) => Word(word)
    case NumberWord(number) => Number(number)
    case BooleanWord(truth) => Boolean(truth)
  }

  function ProgramExpr(guid: Option<nat>): JsExpr {
    match guid case None => NoProgram case Some(g) => ProgramRef(g)
  }

  function ResolvePath(m: Machine, parts: seq<string>, falsy: bool): Result<Machine, Fault>
    decreases |parts|
  {
    if parts == [] then Ok(m)
    else var next :- ReplaceStack(m, Lookup(parts[0], falsy)); ResolvePath(next, parts[1..], falsy)
  }

  function Tail<T>(s: seq<T>): seq<T> {
    if s == [] then [] else s[1..]
  }

  function CallHelper(m: Machine, name: string, paramSize: nat, callee: JsExpr): Result<Machine, Fault> {
    var setup :- SetupParams(m, name, paramSize);
    Ok(Push(setup.0, Code(HelperCall(callee, setup.1, setup.2))))
  }

  function AssignHash(m: Machine, key: string): Result<Machine, Fault> {
    var top :- Pop(m);
    if m.hash.None? then Err(NoHashOpen)
    else var fields :- StoreHash(m.hash.value, key, top.1); Ok(top.0.(hash := Some(fields)))
  }

  function CloseHash(m: Machine): Result<Machine, Fault> {
    if m.hash.None? then Err(NoHashOpen)
    else
      var fields :- LiteralFields(m.hash.value);
      var outer := if m.hashes == [] then m.(hash := None)
                   else m.(hash := Some(Last(m.hashes)), hashes := Init(m.hashes));
      Ok(Push(outer, Code(ObjectLiteral(fields))))
  }

  function CallAmbiguous(m: Machine, name: string, isBlock: bool): Result<Machine, Fault> {
    var nonHelper :- Pop(m);
    var setup :- SetupParams(Push(nonHelper.0, Inlined(EmptyObject)), name, 0);
    Ok(Push(setup.0.(registers := setup.0.registers.(lastHelper := Some(name))),
            Code(AmbiguousCall(name, nonHelper.1, setup.2, isBlock))))
  }

  function CallPartial(m: Machine, dynamic: bool, name: string, indent: string): Result<Machine, Fault> {
    var setup :- SetupParams(m, name, 1);
    if dynamic then
      var callee :- Pop(setup.0);
      Ok(Push(callee.0, Code(PartialCall(callee.1, setup.1[0], setup.2.(name := None), true, indent))))
    else Ok(Push(setup.0, Code(PartialCall(PartialRef(name), setup.1[0], setup.2, false, indent))))
  }

  function CallBlockHelper(m: Machine, name: string): Result<Machine, Fault> {
    var setup :- SetupParams(m, name, 0);
    var value :- Pop(setup.0);
    Ok(Push(value.0, Code(BlockHelperMissing(value.1, Literally(setup.2)))))
  }

  /** The value of an ambiguous block goes to a variable, so that a statement can replace
      it by what `blockHelperMissing` returns when the name is no helper. The options set up
      here are dropped; the call gets those that the variable `options` keeps. */
  function FixAmbiguousBlock(m: Machine): Result<Machine, Fault> {
    var setup :- SetupParams(m, "", 0);
    var flushed := FlushInline(setup.0);
    var current := TopStack(flushed);
    Ok(PushSource(flushed, UnlessHelper(m.registers.lastHelper, current, BlockHelperMissing(current, Kept))))
  }

  function AppendTop(m: Machine): Result<Machine, Fault> {
    if m.inlineStack != [] then
      var guarded :- ReplaceStack(m, OrEmpty);
      var top :- Pop(guarded);
      Ok(PushSource(top.0, AppendValue(top.1)))
    else
      var top :- Pop(m);
      var appended := PushSource(top.0, AppendIfNotNull(top.1));
      Ok(if m.isSimple then PushSource(appended, ElseAppendNothing) else appended)
  }

  function Step(op: Opcode, m: Machine): Result<Machine, Fault> {
    match op
    case GetContext(depth) => Ok(m.(registers := m.registers.(lastContext := depth)))
    case PushContext => Ok(Push(m, Inlined(Context(m.registers.lastContext))))
    case LookupOnContext(parts, falsy) => ResolvePath(Push(m, Inlined(Context(m.registers.lastContext))), parts, falsy)
    case LookupBlockParam(frame, index, parts) =>
      ResolvePath(Push(m, Code(BlockParam(frame, index))), Tail(parts), false)
    case LookupData(depth, parts) => ResolvePath(Push(m, Inlined(Data(depth))), parts, true)
    case PushString(text) => Ok(Push(m, Inlined(Quoted(text))))
    case PushLiteral(literal) => Ok(Push(m, Inlined(LiteralExpr(literal))))
    case PushProgram(guid) => Ok(Push(m, Inlined(ProgramExpr(guid))))
    case PushHash =>
      Ok(m.(hashes := if m.hash.Some? then m.hashes + [m.hash.value] else m.hashes, hash := Some([])))
    case AssignToHash(key) => AssignHash(m, key)
    case PopHash => CloseHash(m)
    case EmptyHash(omitEmpty) => Ok(Push(m, Inlined(if omitEmpty then Word("undefined") else EmptyObject)))
    case ResolvePossibleLambda => var top :- Pop(m); Ok(Push(top.0, Code(Lambda(top.1))))
    case InvokeHelper(paramSize, name, isSimple) =>
      var nonHelper :- Pop(m);
      CallHelper(nonHelper.0, name, paramSize,
                 Or(if isSimple then Or(HelperRef(name), nonHelper.1) else nonHelper.1, HelperMissing))
    case InvokeKnownHelper(paramSize, name) => CallHelper(m, name, paramSize, HelperRef(name))
    case InvokeAmbiguous(name, isBlock) => CallAmbiguous(m, name, isBlock)
    case InvokePartial(dynamic, name, indent) => CallPartial(m, dynamic, name, indent)
    case BlockValue(name) => CallBlockHelper(m, name)
    case AmbiguousBlockValue => FixAmbiguousBlock(m)
    case RegisterDecorator(paramSize, name) =>
      var setup :- SetupParams(m, name, paramSize);
      Ok(setup.0.(output := Decorate(setup.0.output, RunDecorator(name, setup.1, setup.2))))
    case AppendContent(content) => Ok(m.(output := AddContent(m.output, content)))
    case Append => AppendTop(m)
    case AppendEscaped => var top :- Pop(m); Ok(PushSource(top.0, AppendEscapedValue(top.1)))
  }

  function Run(ops: seq<Opcode>, m: Machine): Result<Machine, Fault> {
    if ops == [] then Ok(m) else var next :- Step(ops[0], m); Run(ops[1..], next)
  }

  /** A whole program: its stacks must come out empty. */
  function RunProgram(env: Environment): Result<Machine, Fault> {
    var m :- Run(env.opcodes, Initial(env.isSimple));
    var done := m.(output := FlushPending(m.output));
    if done.stackSlot != 0 || done.inlineStack != [] || done.compileStack != [] then Err(ContentLeftOnStack)
    else Ok(done)
  }
}
