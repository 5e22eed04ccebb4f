/** The first pass of the template compiler: it walks the syntax tree and lists opcodes. */
module HandlebarsCompiler {
  import opened Outcomes
  import opened HandlebarsAst

  datatype Literal =
    | TextWord(word: string)
    | NumberWord(number: real)
    | BooleanWord(truth: bool)

  datatype Opcode =
    | GetContext(depth: nat)
    | PushContext
    | LookupOnContext(parts: seq<string>, falsy: bool)
    | LookupBlockParam(frame: nat, index: nat, parts: seq<string>)
    | LookupData(depth: nat, parts: seq<string>)
    | PushString(text: string)
    | PushLiteral(literal: Literal)
    | PushProgram(guid: Option<nat>)
    | PushHash
    | AssignToHash(key: string)
    | PopHash
    | EmptyHash(omitEmpty: bool)
    | ResolvePossibleLambda
    | InvokeHelper(paramSize: nat, name: string, isSimple: bool)
    | InvokeKnownHelper(paramSize: nat, name: string)
    | InvokeAmbiguous(name: string, isBlock: bool)
    | InvokePartial(dynamic: bool, name: string, indent: string)
    | BlockValue(name: string)
    | AmbiguousBlockValue
    | RegisterDecorator(paramSize: nat, name: string)
    | AppendContent(content: string)
    | Append
    | AppendEscaped

  /** Compile options that stay the same for a template; the others have their default. */
  datatype Options = Options(knownHelpers: set<string>, noEscape: bool,
                             explicitPartialContext: bool, preventIndent: bool)

  /** `blockParams` holds the block parameters in scope, innermost block first. */
  datatype Scope = Scope(options: Options, blockParams: seq<Option<seq<string>>>)

  datatype SexprKind = Helper | Ambiguous | Simple

  /** A compiled program: its own opcodes and the programs its blocks hold. */
  datatype Environment = Environment(opcodes: seq<Opcode>, children: seq<Environment>, isSimple: bool)

  function IndexOf(names: seq<string>, name: string): Option<nat> {
    if names == [] then None
    else if names[0] == name then Some(0)
    else match IndexOf(names[1..], name) case None => None case Some(i) => Some(i + 1)
  }

  function BlockParamIndex(frames: seq<Option<seq<string>>>, name: string): Option<(nat, nat)> {
    if frames == [] then None
    else
      var here := if frames[0].Some? then IndexOf(frames[0].value, name) else None;
      if here.Some? then Some((0, here.value))
      else match BlockParamIndex(frames[1..], name) case None => None case Some(p) => Some((p.0 + 1, p.1))
  }

  /** A subexpression is always a helper call, a statement when it passes something. */
  function ClassifySexpr(call: Call, isSubExpression: bool, scope: Scope): SexprKind {
    var path := HeadToPath(call.head);
    var isSimple := SimpleId(path);
    var isBlockParam := isSimple && BlockParamIndex(scope.blockParams, path.parts[0]).Some?;
    var isHelper := !isBlockParam && (isSubExpression || call.params != [] || call.hash.Hash?);
    var isEligible := !isBlockParam && (isHelper || isSimple);
    if isHelper || (isEligible && path.parts[0] in scope.options.knownHelpers) then Helper
    else if isEligible then Ambiguous
    else Simple
  }

  function PathOps(path: Path, falsy: bool, scope: Scope): seq<Opcode> {
    var blockParam :=
      if path.depth == 0 && !ScopedId(path) && path.parts != []
      then BlockParamIndex(scope.blockParams, path.parts[0]) else None;
    [GetContext(path.depth),
     if blockParam.Some? then LookupBlockParam(blockParam.value.0, blockParam.value.1, path.parts)
     else if path.parts == [] || path.parts[0] == "" then PushContext
     else if path.data then LookupData(path.depth, path.parts)
     else LookupOnContext(path.parts, falsy)]
  }

  function ExprOps(e: Expr, scope: Scope): seq<Opcode>
    decreases e, 1
  {
    match e
    case PathExpression(path) => PathOps(path, false, scope)
    case StringLiteral(text) => [PushString(text)]
    case NumberLiteral(number) => [PushLiteral(NumberWord(number))]
    case BooleanLiteral(truth) => [PushLiteral(BooleanWord(truth))]
    case UndefinedLiteral => [PushLiteral(TextWord("undefined"))]
    case NullLiteral => [PushLiteral(TextWord("null"))]
    case SubExpression(call) => CallOps(call, true, None, None, scope)
  }

  function CallOps(call: Call, isSubExpression: bool, program: Option<nat>, inverse: Option<nat>,
                   scope: Scope): seq<Opcode>
    decreases call, 2
  {
    var path := HeadToPath(call.head);
    match ClassifySexpr(call, isSubExpression, scope)
    case Simple => PathOps(path, false, scope) + [ResolvePossibleLambda]
    case Ambiguous =>
      [GetContext(path.depth), PushProgram(program), PushProgram(inverse)]
      + PathOps(path, false, scope)
      + [InvokeAmbiguous(FirstPart(path), program.Some? || inverse.Some?)]
    case Helper =>
      ParamsOps(call.params, scope) + [PushProgram(program), PushProgram(inverse)]
      + HashParamOps(call.hash, false, scope) + InvokeOps(path, |call.params|, scope)
  }

  function InvokeOps(path: Path, paramSize: nat, scope: Scope): seq<Opcode> {
    if FirstPart(path) in scope.options.knownHelpers then [InvokeKnownHelper(paramSize, FirstPart(path))]
    else PathOps(path, true, scope) + [InvokeHelper(paramSize, path.original, SimpleId(path))]
  }

  function HashParamOps(hash: Hash, omitEmpty: bool, scope: Scope): seq<Opcode>
    decreases hash, 3
  {
    match hash case NoHash => [EmptyHash(omitEmpty)] case Hash(pairs) => HashOps(pairs, scope)
  }

  function ParamsOps(params: seq<Expr>, scope: Scope): seq<Opcode>
    decreases params, 0
  {
    if params == [] then [] else ExprOps(params[0], scope) + ParamsOps(params[1..], scope)
  }

  function HashOps(pairs: seq<Pair>, scope: Scope): seq<Opcode>
    decreases pairs, 2
  {
    [PushHash] + ValuesOps(pairs, scope) + AssignOps(pairs) + [PopHash]
  }

  function ValuesOps(pairs: seq<Pair>, scope: Scope): seq<Opcode>
    decreases pairs, 0
  {
    if pairs == [] then [] else ExprOps(pairs[0].value, scope) + ValuesOps(pairs[1..], scope)
  }

  /** The values come off the stack last first. */
  function AssignOps(pairs: seq<Pair>): seq<Opcode> {
    if pairs == [] then [] else AssignOps(pairs[1..]) + [AssignToHash(pairs[0].key)]
  }

  /** The ops of statements and the environments of the programs they hold, in order. */
  datatype Compiled = Compiled(ops: seq<Opcode>, children: seq<Environment>)

  const CURRENT_CONTEXT := Path([], 0, false, "undefined")

  function OptionalGuid(program: Option<Program>, guid: nat): Option<nat> {
    if program.Some? then Some(guid) else None
  }

  /** `first` programs were compiled before this statement; guids count on from there. */
  function StatementOps(s: Statement, first: nat, scope: Scope): Result<Compiled, string>
    decreases s, 1
  {
    match s
    case ContentStatement(value) => Ok(Compiled(if value == "" then [] else [AppendContent(value)], []))
    case CommentStatement => Ok(Compiled([], []))
    case MustacheStatement(call, escaped) =>
      var append := if escaped && !scope.options.noEscape then AppendEscaped else Append;
      Ok(Compiled(CallOps(call, false, None, None, scope) + [append], []))
    case BlockStatement(call, program, inverse) =>
      var programs :- OptionalProgram(program, scope);
      var inverses :- OptionalProgram(inverse, scope);
      var programGuid := OptionalGuid(program, first);
      var inverseGuid := OptionalGuid(inverse, first + |programs|);
      Ok(Compiled(BlockOps(call, programGuid, inverseGuid, scope), programs + inverses))
    case PartialStatement(name, params, hash, partialBlock, indent) =>
      var programs :- OptionalProgram(partialBlock, scope);
      if |params| > 1 then Err("Unsupported number of partial arguments")
      else
        Ok(Compiled(
             PartialFrameOps(params, NameOps(name, scope), ParamsOps(params, scope), scope)
             + PartialOps(name, OptionalGuid(partialBlock, first), HashParamOps(hash, true, scope), indent, scope),
             programs))
    case Decorator(call, decorated) =>
      var programs :- OptionalProgram(decorated, scope);
      Ok(Compiled(
           ParamsOps(call.params, scope) + [PushProgram(OptionalGuid(decorated, first)), PushProgram(None)]
           + HashParamOps(call.hash, false, scope)
           + [RegisterDecorator(|call.params|, HeadToPath(call.head).original)],
           programs))
  }

  function BlockOps(call: Call, program: Option<nat>, inverse: Option<nat>, scope: Scope): seq<Opcode>
    decreases call, 3
  {
    var ops := CallOps(call, false, program, inverse, scope);
    var programs := [PushProgram(program), PushProgram(inverse), EmptyHash(false)];
    match ClassifySexpr(call, false, scope)
    case Helper => ops + [Append]
    case Simple => ops + programs + [BlockValue(HeadToPath(call.head).original), Append]
    case Ambiguous => ops + programs + [AmbiguousBlockValue, Append]
  }

  function NameOps(name: PartialName, scope: Scope): seq<Opcode>
    decreases name, 3
  {
    match name case StaticName(_) => [] case DynamicName(call) => CallOps(call, true, None, None, scope)
  }

  predicate ExplicitlyUndefined(params: seq<Expr>, scope: Scope) {
    params == [] && scope.options.explicitPartialContext
  }

  /** An explicit undefined context is pushed before the name of a dynamic partial. */
  function PartialFrameOps(params: seq<Expr>, nameOps: seq<Opcode>, paramOps: seq<Opcode>, scope: Scope): seq<Opcode> {
    if ExplicitlyUndefined(params, scope) then [PushLiteral(TextWord("undefined"))] + nameOps
    else nameOps + if params == [] then PathOps(CURRENT_CONTEXT, false, scope) else paramOps
  }

  function PartialOps(name: PartialName, program: Option<nat>, hashOps: seq<Opcode>, indent: string,
                      scope: Scope): seq<Opcode> {
    var prevent := scope.options.preventIndent && indent != "";
    [PushProgram(program), PushProgram(None)] + hashOps
    + (if prevent then [AppendContent(indent)] else [])
    + [InvokePartial(name.DynamicName?, PrintedName(name), if prevent then "" else indent), Append]
  }

  function PrintedName(name: PartialName): string {
    match name case StaticName(original) => original case DynamicName(_) => "undefined"
  }

  function OptionalProgram(program: Option<Program>, scope: Scope): Result<seq<Environment>, string>
    decreases program, 0
  {
    match program
    case None => Ok([])
    case Some(p) => var env :- CompileProgram(p, scope); Ok([env])
  }

  function CompileProgram(p: Program, scope: Scope): Result<Environment, string>
    decreases p, 3
  {
    var body :- BodyOps(p.body, 0, scope.(blockParams := [p.blockParams] + scope.blockParams));
    Ok(Environment(body.ops, body.children, |p.body| == 1))
  }

  function BodyOps(body: seq<Statement>, first: nat, scope: Scope): Result<Compiled, string>
    decreases body, 2
  {
    if body == [] then Ok(Compiled([], []))
    else
      var head :- StatementOps(body[0], first, scope);
      var tail :- BodyOps(body[1..], first + |head.children|, scope);
      Ok(Compiled(head.ops + tail.ops, head.children + tail.children))
  }
}
